/** The shared ledger store and the API views over it: products (get, post, put,
    delete), purchases (post), sales (post, with the stock rule) and the inventory
    feed. Each table is a map from id to record with the id the next insert gets. */
module Ledger {
  import opened Models
  import opened Stock
  import Feed

  /** What a product GET answers: the whole catalogue, or the one product asked for. */
  datatype ProductListing = Catalogue(all: map<nat, Product>) | Single(product: Product)

  class Store {
    var products: map<nat, Product>
    var purchases: map<nat, Purchase>
    var sales: map<nat, Sale>
    var files: map<nat, SalesFile>
    var nextProductId: nat
    var nextPurchaseId: nat
    var nextSaleId: nat
    var nextFileId: nat

    /** Every id lies below its table's counter, the validators hold for products,
        purchases and files, and every foreign key resolves. Imported sales are
        not validated, so no sign is required of a sale's quantity. */
    ghost predicate Valid()
      reads this
    {
      && Bounded(products, nextProductId) && Bounded(purchases, nextPurchaseId)
      && Bounded(sales, nextSaleId) && Bounded(files, nextFileId)
      && (forall k :: k in products ==> ValidProduct(products[k]))
      && (forall k :: k in purchases ==>
            purchases[k].product in products && ValidQuantity(purchases[k].quantity))
      && (forall k :: k in sales ==>
            sales[k].product in products
            && (sales[k].importFile.Some? ==> sales[k].importFile.value in files))
      && (forall k :: k in files ==> ValidSalesFile(files[k]))
    }

    /** An empty store; ids are handed out from 1, as an auto-increment key does. */
    constructor ()
      ensures Valid()
      ensures products == map[] && purchases == map[] && sales == map[] && files == map[]
      ensures nextProductId == 1 && nextPurchaseId == 1 && nextSaleId == 1 && nextFileId == 1
    {
      products, purchases, sales, files := map[], map[], map[], map[];
      nextProductId, nextPurchaseId, nextSaleId, nextFileId := 1, 1, 1, 1;
    }

    /** Cumulative purchased quantity of a product: 0 if it has no purchases, and
        never negative while purchase quantities are validated. */
    function Purchased(product: nat): (total: int)
      reads this
      ensures (forall k :: k in purchases ==> purchases[k].product != product) ==> total == 0
      ensures (forall k :: k in purchases ==> ValidQuantity(purchases[k].quantity)) ==> total >= 0
    {
      var events := PurchaseEvents(purchases);
      TotalBasics(events, product, nextPurchaseId);
      Total(events, product, nextPurchaseId)
    }

    /** Cumulative sold quantity of a product: 0 if it has no sales. Imported sales
        are not validated, so it carries no sign. */
    function Sold(product: nat): (total: int)
      reads this
      ensures (forall k :: k in sales ==> sales[k].product != product) ==> total == 0
    {
      var events := SaleEvents(sales);
      TotalBasics(events, product, nextSaleId);
      Total(events, product, nextSaleId)
    }

    /** No product has sold more than was purchased of it. */
    ghost predicate StockHolds()
      reads this
    {
      forall product: nat :: Sold(product) <= Purchased(product)
    }

    /** ProductView.get_object: the stored product, or NotFound. */
    function GetObject(id: nat): (r: Response<Product>)
      reads this
      ensures r.Ok? <==> id in products
      ensures r.Ok? ==> r.value == products[id]
      ensures !r.Ok? ==> r == NotFound
    {
      if id in products then Ok(products[id]) else NotFound
    }

    /** ProductView.get: the catalogue when no id is given, else that product. */
    function Get(id: Option<nat>): (r: Response<ProductListing>)
      reads this
      ensures id.None? ==> r == Ok(Catalogue(products))
      ensures id.Some? ==> (r.Ok? <==> id.value in products)
      ensures id.Some? && r.Ok? ==> r.value == Single(products[id.value])
      ensures !r.Ok? ==> r == NotFound
    {
      match id
      case None => Ok(Catalogue(products))
      case Some(k) =>
        var found := GetObject(k);
        if found.Ok? then Ok(Single(found.value)) else NotFound
    }

    /** ProductView.post: a valid product is inserted under a fresh id; an invalid
        one is refused and nothing changes. */
    method Post(p: Product) returns (r: Response<nat>)
      requires Valid()
      modifies this
      ensures Valid()
      ensures r.Ok? <==> ValidProduct(p)
      ensures r.Ok? ==> r.value == old(nextProductId) && r.value !in old(products)
                        && products == old(products)[r.value := p]
      ensures !r.Ok? ==> r == BadRequest && products == old(products)
      ensures nextProductId == old(nextProductId) + (if r.Ok? then 1 else 0)
      ensures purchases == old(purchases) && sales == old(sales) && files == old(files)
      ensures nextPurchaseId == old(nextPurchaseId) && nextSaleId == old(nextSaleId)
      ensures nextFileId == old(nextFileId)
    {
      if !ValidProduct(p) {
        return BadRequest;
      }
      r := Ok(nextProductId);
      products := products[nextProductId := p];
      nextProductId := nextProductId + 1;
    }

    /** ProductView.put: the product is looked up first (NotFound when absent), then
        the new fields are validated; only that product's entry changes. */
    method Put(id: nat, p: Product) returns (r: Response<nat>)
      requires Valid()
      modifies this
      ensures Valid()
      ensures id !in old(products) ==> r == NotFound
      ensures id in old(products) && !ValidProduct(p) ==> r == BadRequest
      ensures r.Ok? <==> id in old(products) && ValidProduct(p)
      ensures r.Ok? ==> r.value == id && products == old(products)[id := p]
      ensures !r.Ok? ==> products == old(products)
      ensures purchases == old(purchases) && sales == old(sales) && files == old(files)
      ensures nextProductId == old(nextProductId) && nextPurchaseId == old(nextPurchaseId)
      ensures nextSaleId == old(nextSaleId) && nextFileId == old(nextFileId)
    {
      var found := GetObject(id);
      if !found.Ok? {
        return NotFound;
      }
      if !ValidProduct(p) {
        return BadRequest;
      }
      products := products[id := p];
      r := Ok(id);
    }

    /** ProductView.delete: removes the product and, by the cascading foreign keys,
        every purchase and sale of it; every other product's records and totals are
        kept, so the stock rule keeps holding. */
    method Delete(id: nat) returns (r: Response<nat>)
      requires Valid()
      modifies this
      ensures Valid()
      ensures r.Ok? <==> id in old(products)
      ensures !r.Ok? ==> r == NotFound && products == old(products)
                         && purchases == old(purchases) && sales == old(sales)
      ensures r.Ok? ==> r.value == id && products == old(products) - {id}
      ensures r.Ok? ==> forall k :: k in purchases <==> k in old(purchases) && old(purchases)[k].product != id
      ensures r.Ok? ==> forall k :: k in sales <==> k in old(sales) && old(sales)[k].product != id
      ensures forall k :: k in purchases ==> purchases[k] == old(purchases)[k]
      ensures forall k :: k in sales ==> sales[k] == old(sales)[k]
      ensures forall x: nat :: x != id ==> Purchased(x) == old(Purchased(x)) && Sold(x) == old(Sold(x))
      ensures r.Ok? ==> Purchased(id) == 0 && Sold(id) == 0
      ensures old(StockHolds()) ==> StockHolds()
      ensures files == old(files)
      ensures nextProductId == old(nextProductId) && nextPurchaseId == old(nextPurchaseId)
      ensures nextSaleId == old(nextSaleId) && nextFileId == old(nextFileId)
    {
      var found := GetObject(id);
      if !found.Ok? {
        return NotFound;
      }
      ghost var pe, se := PurchaseEvents(purchases), SaleEvents(sales);
      products := products - {id};
      purchases := Cascade(purchases, (p: Purchase) => p.product == id);
      sales := Cascade(sales, (s: Sale) => s.product == id);
      r := Ok(id);
      ghost var pe', se' := PurchaseEvents(purchases), SaleEvents(sales);
      forall x: nat | x != id
        ensures Purchased(x) == Total(pe, x, nextPurchaseId) && Sold(x) == Total(se, x, nextSaleId)
      {
        CascadeKeepsTotal(pe, pe', x, nextPurchaseId);
        CascadeKeepsTotal(se, se', x, nextSaleId);
      }
      assert IdsOf(pe', id) == {};
      assert IdsOf(se', id) == {};
      TotalBasics(pe', id, nextPurchaseId);
      TotalBasics(se', id, nextSaleId);
    }

    /** PurchaseView.post: the product must exist and the quantity be non-negative;
        the date defaults to the clock's now. Only that product's purchased total
        grows, by the quantity. */
    method RecordPurchase(product: nat, quantity: int, date: Option<Date>, now: Date) returns (r: Response<nat>)
      requires Valid()
      modifies this
      ensures Valid()
      ensures r.Ok? <==> product in old(products) && ValidQuantity(quantity)
      ensures r.Ok? ==> (r.value == old(nextPurchaseId) && r.value !in old(purchases)
        && purchases == old(purchases)[r.value := Purchase(product, quantity, DateOrNow(date, now))])
      ensures !r.Ok? ==> r == BadRequest && purchases == old(purchases)
      ensures nextPurchaseId == old(nextPurchaseId) + (if r.Ok? then 1 else 0)
      ensures Purchased(product) == old(Purchased(product)) + (if r.Ok? then quantity else 0)
      ensures forall x: nat :: x != product ==> Purchased(x) == old(Purchased(x))
      ensures old(StockHolds()) ==> StockHolds()
      ensures products == old(products) && sales == old(sales) && files == old(files)
      ensures nextProductId == old(nextProductId) && nextSaleId == old(nextSaleId)
      ensures nextFileId == old(nextFileId)
    {
      if product !in products || !ValidQuantity(quantity) {
        return BadRequest;
      }
      ghost var pe := PurchaseEvents(purchases);
      var id := nextPurchaseId;
      var p := Purchase(product, quantity, DateOrNow(date, now));
      purchases := purchases[id := p];
      nextPurchaseId := id + 1;
      r := Ok(id);
      var ev := Event(product, quantity, p.date);
      assert PurchaseEvents(purchases) == pe[id := ev];
      forall x: nat
        ensures Purchased(x) == Total(pe, x, id) + (if x == product then quantity else 0)
      {
        TotalInsert(pe, id, ev, x);
      }
    }

    /** SalesView.post. The serializer validates the product reference and the
        quantity first (BadRequest). The stock rule then refuses (Rejected) a sale
        that would take the product's sold total past its purchased total; the view
        does not carry this check, the rule comes from its tests, which expect
        422 for an overdrawing sale and 201 for one within stock. */
    method RecordSale(product: nat, quantity: int, date: Option<Date>, now: Date) returns (r: Response<nat>)
      requires Valid()
      modifies this
      ensures Valid()
      ensures r.BadRequest? <==> !(product in old(products) && ValidQuantity(quantity))
      ensures r.Rejected? <==> (product in old(products) && ValidQuantity(quantity)
                               && old(Sold(product)) + quantity > old(Purchased(product)))
      ensures r.Ok? || r.BadRequest? || r.Rejected?
      ensures r.Ok? ==> (r.value == old(nextSaleId) && r.value !in old(sales)
        && sales == old(sales)[r.value := Sale(product, quantity, DateOrNow(date, now), None)])
      ensures !r.Ok? ==> sales == old(sales)
      ensures nextSaleId == old(nextSaleId) + (if r.Ok? then 1 else 0)
      ensures Sold(product) == old(Sold(product)) + (if r.Ok? then quantity else 0)
      ensures r.Ok? ==> Sold(product) <= Purchased(product)
      ensures forall x: nat :: x != product ==> Sold(x) == old(Sold(x))
      ensures old(StockHolds()) ==> StockHolds()
      ensures products == old(products) && purchases == old(purchases) && files == old(files)
      ensures nextProductId == old(nextProductId) && nextPurchaseId == old(nextPurchaseId)
      ensures nextFileId == old(nextFileId)
    {
      if product !in products || !ValidQuantity(quantity) {
        return BadRequest;
      }
      if Sold(product) + quantity > Purchased(product) {
        return Rejected;
      }
      ghost var se := SaleEvents(sales);
      var id := nextSaleId;
      var s := Sale(product, quantity, DateOrNow(date, now), None);
      sales := sales[id := s];
      nextSaleId := id + 1;
      r := Ok(id);
      var ev := Event(product, quantity, s.date);
      assert SaleEvents(sales) == se[id := ev];
      forall x: nat
        ensures Sold(x) == Total(se, x, id) + (if x == product then quantity else 0)
      {
        TotalInsert(se, id, ev, x);
      }
    }

    /** Inserts a sales-file row: the file name must fit its 100-character column. */
    method CreateSalesFile(fileName: string, status: Status) returns (r: Response<nat>)
      requires Valid()
      modifies this
      ensures Valid()
      ensures r.Ok? <==> |fileName| <= MaxNameLength
      ensures r.Ok? ==> r.value == old(nextFileId) && r.value !in old(files)
                        && files == old(files)[r.value := SalesFile(fileName, status)]
      ensures !r.Ok? ==> r == BadRequest && files == old(files)
      ensures nextFileId == old(nextFileId) + (if r.Ok? then 1 else 0)
      ensures products == old(products) && purchases == old(purchases) && sales == old(sales)
      ensures nextProductId == old(nextProductId) && nextPurchaseId == old(nextPurchaseId)
      ensures nextSaleId == old(nextSaleId)
    {
      if !ValidSalesFile(SalesFile(fileName, status)) {
        return BadRequest;
      }
      r := Ok(nextFileId);
      files := files[nextFileId := SalesFile(fileName, status)];
      nextFileId := nextFileId + 1;
    }

    /** Deletes a sales-file row; Sale.import_file cascades, so every sale expanded
        from it goes too and every other sale stays. */
    method DeleteSalesFile(id: nat) returns (r: Response<nat>)
      requires Valid()
      modifies this
      ensures Valid()
      ensures r.Ok? <==> id in old(files)
      ensures !r.Ok? ==> r == NotFound && files == old(files) && sales == old(sales)
      ensures r.Ok? ==> r.value == id && files == old(files) - {id}
      ensures r.Ok? ==> forall k :: k in sales <==> k in old(sales) && old(sales)[k].importFile != Some(id)
      ensures forall k :: k in sales ==> sales[k] == old(sales)[k]
      ensures products == old(products) && purchases == old(purchases)
      ensures nextProductId == old(nextProductId) && nextPurchaseId == old(nextPurchaseId)
      ensures nextSaleId == old(nextSaleId) && nextFileId == old(nextFileId)
    {
      if id !in files {
        return NotFound;
      }
      files := files - {id};
      sales := Cascade(sales, (s: Sale) => s.importFile == Some(id));
      r := Ok(id);
    }

    /** InventoryView.get over this store. */
    function Inventory(id: Option<nat>): (r: Response<seq<Feed.Movement>>)
      reads this
      requires Valid()
      ensures r.BadRequest? <==> id.None?
      ensures r.Ok? ==> Feed.SortedByDate(r.value)
      ensures r.Ok? ==> (r.value == [] <==>
        Feed.PurchaseIds(purchases, id.value) == {} && Feed.SaleIds(sales, id.value) == {})
      ensures r.Ok? && id.value in products ==>
        |r.value| == |Feed.PurchaseIds(purchases, id.value)| + |Feed.SaleIds(sales, id.value)|
    {
      if id.Some? then
        Feed.FeedEmpty(products, purchases, sales, nextPurchaseId, nextSaleId, id.value);
        if id.value in products then
          Feed.FeedLength(products, purchases, sales, nextPurchaseId, nextSaleId, id.value);
          Feed.Inventory(id, products, purchases, sales, nextPurchaseId, nextSaleId)
        else
          Feed.Inventory(id, products, purchases, sales, nextPurchaseId, nextSaleId)
      else
        Feed.Inventory(id, products, purchases, sales, nextPurchaseId, nextSaleId)
    }
  }
}
