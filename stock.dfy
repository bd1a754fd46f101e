/** Cumulative purchased and sold quantities per product. A table's rows all have
    ids below its next-id counter, so a total is a sum over the ids below a bound. */
module Stock {
  import opened Models

  /** The quantity event k contributes to the total of product. */
  function Contribution(events: map<nat, Event>, product: nat, k: nat): int {
    if k in events && events[k].product == product then events[k].quantity else 0
  }

  /** Sum of the quantities of the events of product whose ids are below n. */
  function Total(events: map<nat, Event>, product: nat, n: nat): int
    decreases n
  {
    if n == 0 then 0 else Total(events, product, n - 1) + Contribution(events, product, n - 1)
  }

  /** The ids of the events of product. */
  ghost function IdsOf(events: map<nat, Event>, product: nat): set<nat> {
    set k | k in events && events[k].product == product
  }

  /** Every key of the table lies below the bound n. */
  ghost predicate Bounded<T>(table: map<nat, T>, n: nat) {
    forall k :: k in table ==> k < n
  }

  /** Two tables agree, below n, on which events belong to product and on their quantities. */
  ghost predicate AgreeOn(e: map<nat, Event>, e': map<nat, Event>, product: nat, n: nat) {
    forall k :: 0 <= k < n ==> Contribution(e, product, k) == Contribution(e', product, k)
  }

  /** A total only depends on the events of that product below the bound. */
  lemma {:induction false} TotalFrame(e: map<nat, Event>, e': map<nat, Event>, product: nat, n: nat)
    requires AgreeOn(e, e', product, n)
    ensures Total(e, product, n) == Total(e', product, n)
  {
    if n > 0 {
      TotalFrame(e, e', product, n - 1);
    }
  }

  /** A product with no events has total 0, and no total is negative when no
      quantity is. */
  lemma {:induction false} TotalBasics(e: map<nat, Event>, product: nat, n: nat)
    ensures IdsOf(e, product) == {} ==> Total(e, product, n) == 0
    ensures (forall k :: k in e ==> e[k].quantity >= 0) ==> Total(e, product, n) >= 0
  {
    if n > 0 {
      TotalBasics(e, product, n - 1);
      if IdsOf(e, product) == {} {
        assert n - 1 !in IdsOf(e, product);
      }
    }
  }

  /** Inserting event ev at the next id n grows the total of its product by its
      quantity and leaves every other product's total as it was. */
  lemma {:induction false} TotalInsert(e: map<nat, Event>, n: nat, ev: Event, product: nat)
    requires Bounded(e, n)
    ensures Total(e[n := ev], product, n + 1)
         == Total(e, product, n) + (if ev.product == product then ev.quantity else 0)
  {
    TotalFrame(e[n := ev], e, product, n);
  }

  /** What a table's total becomes when the rows doomed by a cascade go: products whose
      rows were all kept are unaffected. */
  lemma {:induction false} CascadeKeepsTotal(e: map<nat, Event>, e': map<nat, Event>, product: nat, n: nat)
    requires forall k :: k in e' ==> k in e && e'[k] == e[k]
    requires forall k :: k in e && e[k].product == product ==> k in e'
    ensures Total(e', product, n) == Total(e, product, n)
  {
    TotalFrame(e', e, product, n);
  }
}
