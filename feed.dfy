/** The inventory feed of one product: its purchases and sales, each tagged with its
    movement type and the product's current price, merged and ordered by date. */
module Feed {
  import opened Models
  import opened Stock

  /** Movement type tags: 1 for a purchase row, 2 for a sale row. */
  const PurchaseType := 1
  const SaleType := 2

  /** One row of the feed. */
  datatype Movement = Movement(id: nat, quantity: int, kind: int, date: Date, unit: int)

  function ToMovement(k: nat, e: Event, kind: int, unit: int): Movement {
    Movement(k, e.quantity, kind, e.date, unit)
  }

  /** m is the tagged row of an event of product with id below n. */
  ghost predicate IsRowOf(events: map<nat, Event>, product: nat, kind: int, unit: int, n: nat, m: Movement) {
    m.id < n && m.id in events && events[m.id].product == product
    && m == ToMovement(m.id, events[m.id], kind, unit)
  }

  /** The events of product with ids below n, tagged, in id order: one filtered and
      annotated query of the feed. */
  function TaggedRows(events: map<nat, Event>, product: nat, kind: int, unit: int, n: nat): (r: seq<Movement>)
    ensures forall i :: 0 <= i < |r| ==> IsRowOf(events, product, kind, unit, n, r[i])
    ensures forall k :: 0 <= k < n && k in events && events[k].product == product ==>
      ToMovement(k, events[k], kind, unit) in r
    ensures forall i, j :: 0 <= i < j < |r| ==> r[i].id < r[j].id
    decreases n
  {
    if n == 0 then []
    else
      var rest := TaggedRows(events, product, kind, unit, n - 1);
      if n - 1 in events && events[n - 1].product == product
      then rest + [ToMovement(n - 1, events[n - 1], kind, unit)]
      else rest
  }

  /** The ids of the events of product below n. */
  ghost function IdsBelow(events: map<nat, Event>, product: nat, n: nat): set<nat> {
    set k | k in IdsOf(events, product) && k < n
  }

  /** Raising the bound by one adds id n - 1 when it is an event of product. */
  lemma IdsBelowStep(events: map<nat, Event>, product: nat, n: nat)
    requires n > 0
    ensures |IdsBelow(events, product, n)| == |IdsBelow(events, product, n - 1)|
      + (if n - 1 in events && events[n - 1].product == product then 1 else 0)
  {
    var below := IdsBelow(events, product, n - 1);
    if n - 1 in events && events[n - 1].product == product {
      assert n - 1 !in below;
      assert IdsBelow(events, product, n) == below + {n - 1};
    } else {
      assert IdsBelow(events, product, n) == below;
    }
  }

  lemma {:induction false} TaggedRowsCount(events: map<nat, Event>, product: nat, kind: int, unit: int, n: nat)
    ensures |TaggedRows(events, product, kind, unit, n)| == |IdsBelow(events, product, n)|
  {
    if n > 0 {
      TaggedRowsCount(events, product, kind, unit, n - 1);
      IdsBelowStep(events, product, n);
    }
  }

  /** Every tagged table holds exactly one row per event of the product. */
  lemma TaggedRowsLength(events: map<nat, Event>, product: nat, kind: int, unit: int, n: nat)
    requires Bounded(events, n)
    ensures |TaggedRows(events, product, kind, unit, n)| == |IdsOf(events, product)|
  {
    TaggedRowsCount(events, product, kind, unit, n);
    assert IdsBelow(events, product, n) == IdsOf(events, product);
  }

  predicate SortedByDate(s: seq<Movement>) {
    forall i, j :: 0 <= i < j < |s| ==> s[i].date <= s[j].date
  }

  /** Places m into a date-sorted sequence. */
  function InsertByDate(m: Movement, s: seq<Movement>): (r: seq<Movement>)
    requires SortedByDate(s)
    ensures SortedByDate(r)
    ensures multiset(r) == multiset(s) + multiset{m}
  {
    if s == [] then [m]
    else if m.date <= s[0].date then [m] + s
    else
      var tail := InsertByDate(m, s[1..]);
      InsertStep(m, s, tail);
      [s[0]] + tail
  }

  /** Putting the head of s back in front of the insertion of m into the rest of s. */
  lemma InsertStep(m: Movement, s: seq<Movement>, tail: seq<Movement>)
    requires s != [] && SortedByDate(s) && s[0].date < m.date
    requires SortedByDate(tail) && multiset(tail) == multiset(s[1..]) + multiset{m}
    ensures SortedByDate([s[0]] + tail)
    ensures multiset([s[0]] + tail) == multiset(s) + multiset{m}
  {
    assert s == [s[0]] + s[1..];
    assert forall i :: 0 <= i < |s[1..]| ==> s[0].date <= s[1..][i].date;
    LowerBound(s[0].date, m, s[1..], tail);
    var r := [s[0]] + tail;
    forall i, j | 0 <= i < j < |r|
      ensures r[i].date <= r[j].date
    {
      assert r[j] == tail[j - 1];
      if i > 0 {
        assert r[i] == tail[i - 1];
      }
    }
  }

  /** A bound below m and below every row of s is below every row of a
      rearrangement of s with m added. */
  lemma LowerBound(d: Date, m: Movement, s: seq<Movement>, t: seq<Movement>)
    requires d <= m.date
    requires forall i :: 0 <= i < |s| ==> d <= s[i].date
    requires multiset(t) == multiset(s) + multiset{m}
    ensures forall i :: 0 <= i < |t| ==> d <= t[i].date
  {
    forall i | 0 <= i < |t|
      ensures d <= t[i].date
    {
      assert t[i] in multiset(t);
      if t[i] != m {
        assert t[i] in multiset(s);
        var j :| 0 <= j < |s| && s[j] == t[i];
      }
    }
  }

  /** The ordering by date of the union; it fixes no order between rows of equal date
      beyond what insertion happens to give. */
  function SortByDate(s: seq<Movement>): (r: seq<Movement>)
    ensures SortedByDate(r)
    ensures multiset(r) == multiset(s)
  {
    if s == [] then []
    else
      assert s == [s[0]] + s[1..];
      InsertByDate(s[0], SortByDate(s[1..]))
  }

  /** The union of the two tagged queries, before ordering. */
  function Tagged(price: int, purchases: map<nat, Purchase>, sales: map<nat, Sale>,
                  np: nat, ns: nat, product: nat): seq<Movement>
  {
    TaggedRows(PurchaseEvents(purchases), product, PurchaseType, price, np)
    + TaggedRows(SaleEvents(sales), product, SaleType, price, ns)
  }

  /** The feed of product; purchases have ids below np and sales below ns. The
      product's price is joined in, so a product that does not exist has no rows. */
  function Build(products: map<nat, Product>, purchases: map<nat, Purchase>, sales: map<nat, Sale>,
                 np: nat, ns: nat, product: nat): (r: seq<Movement>)
    ensures SortedByDate(r)
    ensures product !in products ==> r == []
    ensures product in products ==>
      multiset(r) == multiset(Tagged(products[product].price, purchases, sales, np, ns, product))
  {
    if product !in products then []
    else SortByDate(Tagged(products[product].price, purchases, sales, np, ns, product))
  }

  /** m is the feed row of purchase m.id of product. */
  ghost predicate IsPurchaseMovement(purchases: map<nat, Purchase>, product: nat, price: int, m: Movement) {
    m.kind == PurchaseType && m.id in purchases && purchases[m.id].product == product
    && m.quantity == purchases[m.id].quantity && m.date == purchases[m.id].date && m.unit == price
  }

  /** m is the feed row of sale m.id of product. */
  ghost predicate IsSaleMovement(sales: map<nat, Sale>, product: nat, price: int, m: Movement) {
    m.kind == SaleType && m.id in sales && sales[m.id].product == product
    && m.quantity == sales[m.id].quantity && m.date == sales[m.id].date && m.unit == price
  }

  /** The ids of the purchases and of the sales of product. */
  ghost function PurchaseIds(purchases: map<nat, Purchase>, product: nat): set<nat> {
    IdsOf(PurchaseEvents(purchases), product)
  }

  ghost function SaleIds(sales: map<nat, Sale>, product: nat): set<nat> {
    IdsOf(SaleEvents(sales), product)
  }

  /** A tagged query holds exactly the tagged rows of the product's events below n. */
  lemma TaggedRowsMember(events: map<nat, Event>, product: nat, kind: int, unit: int, n: nat, m: Movement)
    ensures m in TaggedRows(events, product, kind, unit, n) <==> IsRowOf(events, product, kind, unit, n, m)
  {
  }

  /** The feed of an existing product holds exactly the purchase rows and sale rows
      of that product: each tagged with its type and carrying the event's id,
      quantity and date and the product's current price. */
  lemma FeedMovements(products: map<nat, Product>, purchases: map<nat, Purchase>, sales: map<nat, Sale>,
                      np: nat, ns: nat, product: nat, m: Movement)
    requires Bounded(purchases, np) && Bounded(sales, ns)
    requires product in products
    ensures m in Build(products, purchases, sales, np, ns, product) <==>
      IsPurchaseMovement(purchases, product, products[product].price, m)
      || IsSaleMovement(sales, product, products[product].price, m)
  {
    var price := products[product].price;
    var pe, se := PurchaseEvents(purchases), SaleEvents(sales);
    var pr := TaggedRows(pe, product, PurchaseType, price, np);
    var sr := TaggedRows(se, product, SaleType, price, ns);
    assert m in Build(products, purchases, sales, np, ns, product) <==> m in multiset(pr + sr);
    TaggedRowsMember(pe, product, PurchaseType, price, np, m);
    TaggedRowsMember(se, product, SaleType, price, ns, m);
    assert IsRowOf(pe, product, PurchaseType, price, np, m) <==> IsPurchaseMovement(purchases, product, price, m);
    assert IsRowOf(se, product, SaleType, price, ns, m) <==> IsSaleMovement(sales, product, price, m);
  }

  /** One movement per purchase and per sale of the product. */
  lemma FeedLength(products: map<nat, Product>, purchases: map<nat, Purchase>, sales: map<nat, Sale>,
                   np: nat, ns: nat, product: nat)
    requires Bounded(purchases, np) && Bounded(sales, ns)
    requires product in products
    ensures |Build(products, purchases, sales, np, ns, product)|
         == |PurchaseIds(purchases, product)| + |SaleIds(sales, product)|
  {
    var price := products[product].price;
    var pe, se := PurchaseEvents(purchases), SaleEvents(sales);
    var r := Build(products, purchases, sales, np, ns, product);
    assert |r| == |multiset(r)|;
    TaggedRowsLength(pe, product, PurchaseType, price, np);
    TaggedRowsLength(se, product, SaleType, price, ns);
    assert IdsOf(pe, product) == PurchaseIds(purchases, product);
    assert IdsOf(se, product) == SaleIds(sales, product);
  }

  /** When every purchase and sale refers to an existing product, the feed is empty
      exactly when the product has no purchases and no sales, whether or not the
      product exists. */
  lemma FeedEmpty(products: map<nat, Product>, purchases: map<nat, Purchase>, sales: map<nat, Sale>,
                  np: nat, ns: nat, product: nat)
    requires Bounded(purchases, np) && Bounded(sales, ns)
    requires forall k :: k in purchases ==> purchases[k].product in products
    requires forall k :: k in sales ==> sales[k].product in products
    ensures Build(products, purchases, sales, np, ns, product) == []
        <==> PurchaseIds(purchases, product) == {} && SaleIds(sales, product) == {}
  {
    if product in products {
      FeedLength(products, purchases, sales, np, ns, product);
    } else {
      assert PurchaseIds(purchases, product) == {};
      assert SaleIds(sales, product) == {};
    }
  }

  /** InventoryView.get: without a product id the request is refused, since the
      feed of every product at once would be too large. */
  function Inventory(id: Option<nat>, products: map<nat, Product>, purchases: map<nat, Purchase>,
                     sales: map<nat, Sale>, np: nat, ns: nat): (r: Response<seq<Movement>>)
    ensures r.Ok? || r.BadRequest?
    ensures r.BadRequest? <==> id.None?
    ensures r.Ok? ==> SortedByDate(r.value)
    ensures id.Some? && id.value !in products ==> r == Ok([])
  {
    match id
    case None => BadRequest
    case Some(product) => Ok(Build(products, purchases, sales, np, ns, product))
  }
}
