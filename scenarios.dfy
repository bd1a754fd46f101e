/** Client code that drives the store through the documented flows, using only the
    contracts of the operations. */
module Scenarios {
  import opened Models
  import opened Stock
  import opened Ledger
  import opened ImportSales
  import Feed

  /** Widget is bought 5 times over; a sale of 10 is refused, a sale of 5 accepted,
      one more unit refused. */
  method StockRule(now: Date) returns (store: Store)
    ensures fresh(store) && store.Valid()
    ensures store.files == map[] && store.nextFileId == 1
    ensures store.products == map[1 := Product("Widget", 1000, None)]
    ensures store.Purchased(1) == 5 && store.Sold(1) == 5
    ensures store.purchases == map[1 := Purchase(1, 5, now)]
    ensures store.sales == map[1 := Sale(1, 5, now, None)] && store.nextSaleId == 2
  {
    store := new Store();
    assert IdsOf(PurchaseEvents(store.purchases), 1) == {};
    assert IdsOf(SaleEvents(store.sales), 1) == {};
    TotalBasics(PurchaseEvents(store.purchases), 1, store.nextPurchaseId);
    TotalBasics(SaleEvents(store.sales), 1, store.nextSaleId);
    var widget := store.Post(Product("Widget", 1000, None));
    assert widget == Ok(1);
    var bought := store.RecordPurchase(1, 5, None, now);
    assert bought.Ok? && store.Purchased(1) == 5;
    var tooMany := store.RecordSale(1, 10, None, now);
    assert tooMany == Rejected && store.Sold(1) == 0;
    var fits := store.RecordSale(1, 5, None, now);
    assert fits.Ok? && store.Sold(1) == 5;
    var oneMore := store.RecordSale(1, 1, None, now);
    assert oneMore == Rejected && store.Sold(1) == 5;
  }

  /** After those sales Widget's feed has one purchase row and one sale row, and a
      feed request without a product id is refused. */
  method WidgetFeed(now: Date)
  {
    var store := StockRule(now);
    assert store.purchases == map[1 := Purchase(1, 5, now)];
    assert store.sales == map[1 := Sale(1, 5, now, None)];
    assert Feed.PurchaseIds(store.purchases, 1) == {1};
    assert Feed.SaleIds(store.sales, 1) == {1};
    var feed := store.Inventory(Some(1));
    assert |feed.value| == 2;
    var refused := store.Inventory(None);
    assert refused == BadRequest;
  }

  /** The rows of the staged file: 3, 4 and 2 units of Widget. */
  function WidgetRows(now: Date): seq<Row> {
    [Row(1, now, 3), Row(1, now, 4), Row(1, now, 2)]
  }

  /** Draining the one file that stages those rows appends them after the sale
      recorded by hand, takes three sale ids and sells 9 units of Widget. */
  lemma WidgetDrainEffect(now: Date, files: map<nat, SalesFile>, stage: map<string, seq<Row>>)
    requires files == map[1 := SalesFile("sales.csv", AsyncUnprocessed)]
    requires stage == map["sales.csv" := WidgetRows(now)]
    ensures AppendedAll(map[1 := Sale(1, 5, now, None)], 2, files, stage, [1])
         == Appended(map[1 := Sale(1, 5, now, None)], 2, WidgetRows(now), 1)
    ensures FilesRows(files, stage, [1]) == 3
    ensures FilesTotal(files, stage, [1], 1) == 9
  {
    var rows := WidgetRows(now);
    assert StagedRows(files, stage, 1) == rows;
    assert [1][..0] == [] && [1][1..] == [];
    assert rows[1..][1..][1..] == [];
    assert RowsTotal(rows[1..][1..], 1) == 2;
    assert RowsTotal(rows, 1) == 9;
    assert FilesTotal(files, stage, [1][1..], 1) == 0;
  }

  /** After the manual sales, one sales file is registered as pending. */
  method PendingFile(now: Date) returns (store: Store)
    ensures fresh(store) && store.Valid()
    ensures store.files == map[1 := SalesFile("sales.csv", AsyncUnprocessed)] && Pending(store.files) == {1}
    ensures store.products == map[1 := Product("Widget", 1000, None)]
    ensures store.sales == map[1 := Sale(1, 5, now, None)] && store.nextSaleId == 2
    ensures store.Purchased(1) == 5 && store.Sold(1) == 5
  {
    store := StockRule(now);
    var file := store.CreateSalesFile("sales.csv", AsyncUnprocessed);
    assert file == Ok(1);
    assert IsPending(store.files, 1);
  }

  /** The pending file is imported by one drain pass without regard to stock: Widget
      ends up with 14 units sold against 5 purchased. */
  method ImportDrain(now: Date) returns (store: Store)
    ensures fresh(store) && store.Valid()
    ensures store.Sold(1) == 14 && store.Purchased(1) == 5
    ensures 1 in store.files && store.files[1].status == AsyncProcessed && Pending(store.files) == {}
    ensures store.sales == Appended(map[1 := Sale(1, 5, now, None)], 2, WidgetRows(now), 1)
    ensures store.nextSaleId == 5
  {
    store := PendingFile(now);
    var rows := WidgetRows(now);
    var stage := map["sales.csv" := rows];
    assert RowsResolve(rows, store.products);
    ghost var files0 := store.files;
    var result, processed := Handle(store, stage);
    assert result.Drained? && 1 in processed;
    assert processed == [1];
    WidgetDrainEffect(now, files0, stage);
  }

  /** The three rows of that pass became the sales 2, 3 and 4, each tied to the file,
      next to the sale recorded by hand. */
  method ImportedSales(now: Date)
  {
    var store := ImportDrain(now);
    var rows := WidgetRows(now);
    AppendedContents(map[1 := Sale(1, 5, now, None)], 2, rows, 1);
    assert forall k :: k in store.sales <==> 1 <= k <= 4;
    assert store.sales[1] == Sale(1, 5, now, None);
    assert store.sales[2 + 0] == RowSale(rows[0], 1) == Sale(1, 3, now, Some(1));
    assert store.sales[2 + 1] == RowSale(rows[1], 1) == Sale(1, 4, now, Some(1));
    assert store.sales[2 + 2] == RowSale(rows[2], 1) == Sale(1, 2, now, Some(1));
  }

  /** A second drain pass finds nothing pending and changes nothing. */
  method DrainTwice(now: Date)
  {
    var store := ImportDrain(now);
    ghost var sales1, next1 := store.sales, store.nextSaleId;
    var again, none := Handle(store, map["sales.csv" := WidgetRows(now)]);
    assert again == Drained && none == [];
    assert store.sales == sales1 && store.nextSaleId == next1;
    assert store.Sold(1) == 14;
  }
}
