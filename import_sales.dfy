/** The asynchronous sales-import worker: `Execute` expands one pending sales file
    into sales and marks it processed, `Handle` drains every pending file, oldest
    id first. The file stage is a parameter: it maps a file name to the rows its
    spreadsheet parses to, and a name it lacks is a file that cannot be read. */
module ImportSales {
  import opened Models
  import opened Stock
  import opened Ledger

  /** One parsed spreadsheet row: its product, date and quantity columns. */
  datatype Row = Row(product: nat, date: Date, quantity: int)

  /** Why an import rolled back. */
  datatype Failure =
    | NoSuchFile      // the sales-file row is not there
    | Unreadable      // the staged file cannot be read or parsed
    | UnknownProduct  // a row names a product that does not exist, so bulk_create fails

  /** What one call of Execute did. */
  datatype Outcome = Skipped | Imported(count: nat) | Failed(reason: Failure)

  /** How a drain pass ended: every pending file done, or stopped at a file whose
      import failed (the failure propagates out of the command). */
  datatype Drain = Drained | Aborted(file: nat, reason: Failure)

  /** The sale a row becomes; it refers to the file it was expanded from. */
  function RowSale(row: Row, file: nat): Sale {
    Sale(row.product, row.quantity, row.date, Some(file))
  }

  /** The sales table after bulk_create of the rows of file, which get the ids
      next, next + 1, ... in row order. */
  function Appended(sales: map<nat, Sale>, next: nat, rows: seq<Row>, file: nat): map<nat, Sale>
    decreases |rows|
  {
    if rows == [] then sales
    else Appended(sales[next := RowSale(rows[0], file)], next + 1, rows[1..], file)
  }

  /** Appending keeps every existing sale and adds exactly one sale per row, in row
      order, copying the row's product, date and quantity and referring to file. */
  lemma {:induction false} AppendedContents(sales: map<nat, Sale>, next: nat, rows: seq<Row>, file: nat)
    requires Bounded(sales, next)
    ensures forall k :: k in Appended(sales, next, rows, file) <==> k in sales || next <= k < next + |rows|
    ensures forall k :: k in sales ==> Appended(sales, next, rows, file)[k] == sales[k]
    ensures forall i :: 0 <= i < |rows| ==> Appended(sales, next, rows, file)[next + i] == RowSale(rows[i], file)
    decreases |rows|
  {
    if rows != [] {
      var sales' := sales[next := RowSale(rows[0], file)];
      AppendedContents(sales', next + 1, rows[1..], file);
      var r := Appended(sales, next, rows, file);
      assert r == Appended(sales', next + 1, rows[1..], file);
      forall i | 0 <= i < |rows|
        ensures r[next + i] == RowSale(rows[i], file)
      {
        if i > 0 {
          assert next + i == (next + 1) + (i - 1);
          assert rows[1..][i - 1] == rows[i];
        }
      }
    }
  }

  /** The appended sales keep every reference resolving: each row's product exists
      and each new sale refers to file. */
  lemma AppendedReferences(sales: map<nat, Sale>, next: nat, rows: seq<Row>, file: nat,
                           products: map<nat, Product>)
    requires Bounded(sales, next)
    requires forall k :: k in sales ==> sales[k].product in products
    requires RowsResolve(rows, products)
    ensures Bounded(Appended(sales, next, rows, file), next + |rows|)
    ensures forall k :: k in Appended(sales, next, rows, file) && k !in sales ==>
      Appended(sales, next, rows, file)[k].product in products
      && Appended(sales, next, rows, file)[k].importFile == Some(file)
  {
    var r := Appended(sales, next, rows, file);
    AppendedContents(sales, next, rows, file);
    forall k | k in r && k !in sales
      ensures r[k].product in products && r[k].importFile == Some(file)
    {
      assert r[next + (k - next)] == RowSale(rows[k - next], file);
    }
  }

  /** Sum of the quantities of the rows of product. */
  function RowsTotal(rows: seq<Row>, product: nat): int {
    if rows == [] then 0
    else (if rows[0].product == product then rows[0].quantity else 0) + RowsTotal(rows[1..], product)
  }

  /** Imported rows are not checked against stock: the sold total of every product
      grows by exactly the quantities of its rows, whatever was purchased. */
  lemma {:induction false} SoldAfterImport(sales: map<nat, Sale>, next: nat, rows: seq<Row>, file: nat, product: nat)
    requires Bounded(sales, next)
    ensures Total(SaleEvents(Appended(sales, next, rows, file)), product, next + |rows|)
         == Total(SaleEvents(sales), product, next) + RowsTotal(rows, product)
    decreases |rows|
  {
    if rows != [] {
      var s := RowSale(rows[0], file);
      var sales' := sales[next := s];
      SoldAfterImport(sales', next + 1, rows[1..], file, product);
      var ev := Event(s.product, s.quantity, s.date);
      assert SaleEvents(sales') == SaleEvents(sales)[next := ev];
      TotalInsert(SaleEvents(sales), next, ev, product);
    }
  }

  /** Every row names an existing product. */
  predicate RowsResolve(rows: seq<Row>, products: map<nat, Product>) {
    forall i :: 0 <= i < |rows| ==> rows[i].product in products
  }

  predicate IsPending(files: map<nat, SalesFile>, k: nat) {
    k in files && files[k].status == AsyncUnprocessed
  }

  ghost function Pending(files: map<nat, SalesFile>): set<nat> {
    set k | k in files && IsPending(files, k)
  }

  /** The first pending id in [from, n). */
  function FirstPending(files: map<nat, SalesFile>, from: nat, n: nat): (r: Option<nat>)
    requires from <= n
    ensures r.Some? ==> from <= r.value < n && IsPending(files, r.value)
    ensures r.Some? ==> forall j :: from <= j < r.value ==> !IsPending(files, j)
    ensures r.None? ==> forall j :: from <= j < n ==> !IsPending(files, j)
    decreases n - from
  {
    if from == n then None
    else if IsPending(files, from) then Some(from)
    else FirstPending(files, from + 1, n)
  }

  /** The worker's query: the pending file with the smallest id, if any. */
  function OldestPending(files: map<nat, SalesFile>, n: nat): (r: Option<nat>)
    requires Bounded(files, n)
    ensures r.None? <==> Pending(files) == {}
    ensures r.Some? ==> r.value in Pending(files)
    ensures r.Some? ==> forall j :: j in Pending(files) ==> r.value <= j
  {
    var r := FirstPending(files, 0, n);
    assert forall j: nat :: j in Pending(files) <==> IsPending(files, j);
    assert forall j: nat :: IsPending(files, j) ==> 0 <= j < n;
    r
  }

  /** execute: one atomic import of file id. It does nothing unless the file is
      pending; a pending file whose rows can all be stored gets one sale per row
      and becomes processed, and any failure rolls everything back. */
  method Execute(store: Store, id: nat, stage: map<string, seq<Row>>) returns (outcome: Outcome)
    requires store.Valid()
    modifies store
    ensures store.Valid()
    ensures id !in old(store.files) ==> outcome == Failed(NoSuchFile)
    ensures id in old(store.files) && old(store.files)[id].status != AsyncUnprocessed ==> outcome == Skipped
    ensures IsPending(old(store.files), id) && old(store.files)[id].fileName !in stage ==>
      outcome == Failed(Unreadable)
    ensures IsPending(old(store.files), id) && old(store.files)[id].fileName in stage
            && !RowsResolve(stage[old(store.files)[id].fileName], old(store.products)) ==>
      outcome == Failed(UnknownProduct)
    ensures outcome.Imported? <==> (IsPending(old(store.files), id) && old(store.files)[id].fileName in stage
            && RowsResolve(stage[old(store.files)[id].fileName], old(store.products)))
    ensures !outcome.Imported? ==>
      store.sales == old(store.sales) && store.files == old(store.files) && store.nextSaleId == old(store.nextSaleId)
    ensures outcome.Imported? ==>
      var name := old(store.files)[id].fileName;
      var rows := stage[name];
      && outcome.count == |rows|
      && store.files == old(store.files)[id := SalesFile(name, AsyncProcessed)]
      && store.sales == Appended(old(store.sales), old(store.nextSaleId), rows, id)
      && store.nextSaleId == old(store.nextSaleId) + |rows|
      && (forall k :: k in store.sales <==>
            k in old(store.sales) || old(store.nextSaleId) <= k < old(store.nextSaleId) + |rows|)
      && (forall i :: 0 <= i < |rows| ==> store.sales[old(store.nextSaleId) + i] == RowSale(rows[i], id))
      && (forall k :: k in store.sales && k !in old(store.sales) ==> store.sales[k].importFile == Some(id))
      && (forall x: nat :: store.Sold(x) == old(store.Sold(x)) + RowsTotal(rows, x))
    ensures forall k :: k in old(store.sales) ==> k in store.sales && store.sales[k] == old(store.sales)[k]
    ensures store.products == old(store.products) && store.purchases == old(store.purchases)
    ensures store.nextProductId == old(store.nextProductId) && store.nextPurchaseId == old(store.nextPurchaseId)
    ensures store.nextFileId == old(store.nextFileId)
  {
    if id !in store.files {
      return Failed(NoSuchFile);
    }
    // The status is re-checked under the row lock: only a pending file is imported.
    var entry := store.files[id];
    if entry.status != AsyncUnprocessed {
      return Skipped;
    }
    if entry.fileName !in stage {
      return Failed(Unreadable);
    }
    var rows := stage[entry.fileName];
    if !RowsResolve(rows, store.products) {
      return Failed(UnknownProduct);
    }
    AppendedContents(store.sales, store.nextSaleId, rows, id);
    AppendedReferences(store.sales, store.nextSaleId, rows, id, store.products);
    ImportRows(store, id, rows);
    outcome := Imported(|rows|);
  }

  /** The writes of a successful execute: bulk_create of the rows of pending file id,
      then the file marked processed. Nothing is checked against stock, so the sold
      total of every product grows by exactly its rows. */
  method ImportRows(store: Store, id: nat, rows: seq<Row>)
    requires store.Valid() && IsPending(store.files, id) && RowsResolve(rows, store.products)
    modifies store
    ensures store.Valid()
    ensures store.sales == Appended(old(store.sales), old(store.nextSaleId), rows, id)
    ensures store.nextSaleId == old(store.nextSaleId) + |rows|
    ensures store.files == old(store.files)[id := SalesFile(old(store.files)[id].fileName, AsyncProcessed)]
    ensures forall x: nat :: store.Sold(x) == old(store.Sold(x)) + RowsTotal(rows, x)
    ensures store.products == old(store.products) && store.purchases == old(store.purchases)
    ensures store.nextProductId == old(store.nextProductId) && store.nextPurchaseId == old(store.nextPurchaseId)
    ensures store.nextFileId == old(store.nextFileId)
  {
    var sales, next := store.sales, store.nextSaleId;
    var sales' := Appended(sales, next, rows, id);
    AppendedContents(sales, next, rows, id);
    AppendedReferences(sales, next, rows, id, store.products);
    store.sales := sales';
    store.nextSaleId := next + |rows|;
    store.files := store.files[id := SalesFile(store.files[id].fileName, AsyncProcessed)];
    forall x: nat
      ensures store.Sold(x) == old(store.Sold(x)) + RowsTotal(rows, x)
    {
      assert old(store.Sold(x)) == Total(SaleEvents(sales), x, next);
      assert store.Sold(x) == Total(SaleEvents(sales'), x, next + |rows|);
      SoldAfterImport(sales, next, rows, id, x);
    }
  }

  /** The rows of file id, as the stage has them. */
  function StagedRows(files: map<nat, SalesFile>, stage: map<string, seq<Row>>, id: nat): seq<Row> {
    if id in files && files[id].fileName in stage then stage[files[id].fileName] else []
  }

  /** Sum of the quantities of product over the rows of the files ids. */
  function FilesTotal(files: map<nat, SalesFile>, stage: map<string, seq<Row>>, ids: seq<nat>, product: nat): int {
    if ids == [] then 0
    else RowsTotal(StagedRows(files, stage, ids[0]), product) + FilesTotal(files, stage, ids[1..], product)
  }

  lemma {:induction false} FilesTotalSnoc(files: map<nat, SalesFile>, stage: map<string, seq<Row>>,
                                          ids: seq<nat>, id: nat, product: nat)
    ensures FilesTotal(files, stage, ids + [id], product)
         == FilesTotal(files, stage, ids, product) + RowsTotal(StagedRows(files, stage, id), product)
  {
    if ids != [] {
      assert (ids + [id])[1..] == ids[1..] + [id];
      FilesTotalSnoc(files, stage, ids[1..], id, product);
    }
  }

  /** Number of rows over the files ids: the sale ids their imports use up. */
  function FilesRows(files: map<nat, SalesFile>, stage: map<string, seq<Row>>, ids: seq<nat>): nat {
    if ids == [] then 0
    else |StagedRows(files, stage, ids[0])| + FilesRows(files, stage, ids[1..])
  }

  lemma {:induction false} FilesRowsSnoc(files: map<nat, SalesFile>, stage: map<string, seq<Row>>,
                                         ids: seq<nat>, id: nat)
    ensures FilesRows(files, stage, ids + [id]) == FilesRows(files, stage, ids) + |StagedRows(files, stage, id)|
  {
    if ids != [] {
      assert (ids + [id])[1..] == ids[1..] + [id];
      FilesRowsSnoc(files, stage, ids[1..], id);
    }
  }

  /** The sales table after importing the files ids one after the other into sales0,
      the first row going to sale id n0. */
  function AppendedAll(sales0: map<nat, Sale>, n0: nat, files0: map<nat, SalesFile>,
                       stage: map<string, seq<Row>>, ids: seq<nat>): map<nat, Sale>
    decreases |ids|
  {
    if ids == [] then sales0
    else
      var init := ids[..|ids| - 1];
      Appended(AppendedAll(sales0, n0, files0, stage, init), n0 + FilesRows(files0, stage, init),
               StagedRows(files0, stage, ids[|ids| - 1]), ids[|ids| - 1])
  }

  /** Importing the files ids keeps every sale of sales0 and fills exactly the sale ids
      from n0 on, one per row of those files. */
  lemma {:induction false} AppendedAllKeys(sales0: map<nat, Sale>, n0: nat, files0: map<nat, SalesFile>,
                                           stage: map<string, seq<Row>>, ids: seq<nat>)
    requires Bounded(sales0, n0)
    ensures forall k :: k in AppendedAll(sales0, n0, files0, stage, ids) <==>
      k in sales0 || n0 <= k < n0 + FilesRows(files0, stage, ids)
    ensures forall k :: k in sales0 ==> AppendedAll(sales0, n0, files0, stage, ids)[k] == sales0[k]
    decreases |ids|
  {
    if ids != [] {
      var init, last := ids[..|ids| - 1], ids[|ids| - 1];
      assert ids == init + [last];
      AppendedAllKeys(sales0, n0, files0, stage, init);
      FilesRowsSnoc(files0, stage, init, last);
      var before := AppendedAll(sales0, n0, files0, stage, init);
      assert Bounded(before, n0 + FilesRows(files0, stage, init));
      AppendedContents(before, n0 + FilesRows(files0, stage, init), StagedRows(files0, stage, last), last);
    }
  }

  /** files is files0 after importing exactly the files listed in processed. */
  ghost predicate Progress(files0: map<nat, SalesFile>, files: map<nat, SalesFile>, processed: seq<nat>) {
    && files.Keys == files0.Keys
    && (forall k :: k in files ==> files[k].fileName == files0[k].fileName)
    && (forall k :: k in files ==>
          files[k].status == if k in processed then AsyncProcessed else files0[k].status)
  }

  /** processed lists pending files of files0 in increasing id order, each below
      every pending file of files0 not yet listed. */
  ghost predicate InOrder(files0: map<nat, SalesFile>, processed: seq<nat>) {
    && Increasing(processed)
    && (forall i :: 0 <= i < |processed| ==> processed[i] in Pending(files0))
    && (forall k, i :: k in Pending(files0) && k !in processed && 0 <= i < |processed| ==> processed[i] < k)
  }

  /** A file is still pending exactly when it was pending and has not been imported. */
  lemma ProgressPending(files0: map<nat, SalesFile>, files: map<nat, SalesFile>, processed: seq<nat>, k: nat)
    requires Progress(files0, files, processed) && InOrder(files0, processed)
    ensures k in Pending(files) <==> k in Pending(files0) && k !in processed
  {
  }

  /** Importing the oldest pending file extends the progress by that file and
      removes it, and only it, from the pending set. */
  lemma {:induction false} DrainStep(files0: map<nat, SalesFile>, files: map<nat, SalesFile>, processed: seq<nat>, id: nat)
    requires Progress(files0, files, processed) && InOrder(files0, processed)
    requires id in Pending(files) && forall j :: j in Pending(files) ==> id <= j
    ensures Progress(files0, files[id := SalesFile(files[id].fileName, AsyncProcessed)], processed + [id])
    ensures InOrder(files0, processed + [id])
    ensures Pending(files[id := SalesFile(files[id].fileName, AsyncProcessed)]) == Pending(files) - {id}
  {
    var files' := files[id := SalesFile(files[id].fileName, AsyncProcessed)];
    var processed' := processed + [id];
    ProgressPending(files0, files, processed, id);
    forall k | k in Pending(files0) && k !in processed'
      ensures id < k
    {
      ProgressPending(files0, files, processed, k);
    }
    forall k | k in files'
      ensures files'[k].status == if k in processed' then AsyncProcessed else files0[k].status
    {
      assert k in processed' <==> k in processed || k == id;
    }
  }

  /** A pass that stopped at pending file id has imported every older pending file. */
  lemma StoppedAt(files0: map<nat, SalesFile>, files: map<nat, SalesFile>, processed: seq<nat>, id: nat)
    requires Progress(files0, files, processed) && InOrder(files0, processed)
    requires id in Pending(files) && forall j :: j in Pending(files) ==> id <= j
    ensures id in Pending(files0) && id !in processed
    ensures forall i :: 0 <= i < |processed| ==> processed[i] < id
    ensures forall k :: k in Pending(files0) && k < id ==> k in processed
  {
    ProgressPending(files0, files, processed, id);
    forall k | k in Pending(files0) && k < id
      ensures k in processed
    {
      ProgressPending(files0, files, processed, k);
    }
  }

  /** sales keeps every sale of sales0, and each sale it adds came from a file in processed. */
  ghost predicate SalesProgress(sales0: map<nat, Sale>, sales: map<nat, Sale>, processed: seq<nat>) {
    && (forall k :: k in sales0 ==> k in sales && sales[k] == sales0[k])
    && (forall k :: k in sales && k !in sales0 ==>
          sales[k].importFile.Some? && sales[k].importFile.value in processed)
  }

  /** The sales are those of the processed files appended in order, the sale counter
      advanced by one id per row of them, and the sold total of every product grew by
      exactly their rows. */
  ghost predicate TotalsProgress(sales0: map<nat, Sale>, n0: nat, sales: map<nat, Sale>, n: nat,
                                 files0: map<nat, SalesFile>, stage: map<string, seq<Row>>, processed: seq<nat>) {
    && sales == AppendedAll(sales0, n0, files0, stage, processed)
    && n == n0 + FilesRows(files0, stage, processed)
    && forall x: nat :: Total(SaleEvents(sales), x, n) == Total(SaleEvents(sales0), x, n0) + FilesTotal(files0, stage, processed, x)
  }

  /** Importing file id extends both kinds of progress by id. */
  lemma SalesStep(sales0: map<nat, Sale>, n0: nat, sales: map<nat, Sale>, n: nat, sales': map<nat, Sale>, n': nat,
                  files0: map<nat, SalesFile>, stage: map<string, seq<Row>>, processed: seq<nat>, id: nat, rows: seq<Row>)
    requires SalesProgress(sales0, sales, processed)
    requires TotalsProgress(sales0, n0, sales, n, files0, stage, processed)
    requires forall k :: k in sales ==> k in sales' && sales'[k] == sales[k]
    requires forall k :: k in sales' && k !in sales ==> sales'[k].importFile == Some(id)
    requires forall x: nat :: Total(SaleEvents(sales'), x, n') == Total(SaleEvents(sales), x, n) + RowsTotal(rows, x)
    requires StagedRows(files0, stage, id) == rows
    requires n' == n + |rows|
    requires sales' == Appended(sales, n, rows, id)
    ensures SalesProgress(sales0, sales', processed + [id])
    ensures TotalsProgress(sales0, n0, sales', n', files0, stage, processed + [id])
  {
    forall x: nat
      ensures Total(SaleEvents(sales'), x, n') == Total(SaleEvents(sales0), x, n0) + FilesTotal(files0, stage, processed + [id], x)
    {
      FilesTotalSnoc(files0, stage, processed, id, x);
    }
    FilesRowsSnoc(files0, stage, processed, id);
    assert (processed + [id])[..|processed|] == processed;
  }

  /** The ids a sequence lists. */
  ghost function Members(s: seq<nat>): set<nat> {
    set x | x in s
  }

  ghost predicate Increasing(s: seq<nat>) {
    forall i, j :: 0 <= i < j < |s| ==> s[i] < s[j]
  }

  /** The tail of a strictly increasing sequence is strictly increasing, and its
      members are those of the sequence except the head, which it does not list. */
  lemma TailOfIncreasing(s: seq<nat>)
    requires s != [] && Increasing(s)
    ensures Increasing(s[1..])
    ensures s[0] !in Members(s[1..])
    ensures Members(s) == Members(s[1..]) + {s[0]}
  {
  }

  /** A strictly increasing sequence lists each of its elements once. */
  lemma {:induction false} IncreasingCount(s: seq<nat>)
    requires Increasing(s)
    ensures |Members(s)| == |s|
  {
    if s != [] {
      TailOfIncreasing(s);
      IncreasingCount(s[1..]);
    }
  }

  /** A pass that found nothing left pending has imported every file pending at its
      start, each exactly once. */
  lemma FullyDrained(files0: map<nat, SalesFile>, files: map<nat, SalesFile>, processed: seq<nat>)
    requires Progress(files0, files, processed) && InOrder(files0, processed)
    requires Pending(files) == {}
    ensures forall k :: k in Pending(files0) ==> k in processed
    ensures |processed| == |Pending(files0)|
    ensures Pending(files0) == {} ==> processed == []
  {
    forall k | k in Pending(files0)
      ensures k in processed
    {
      ProgressPending(files0, files, processed, k);
    }
    assert processed != [] ==> processed[0] in Pending(files0);
    IncreasingCount(processed);
    assert Members(processed) == Pending(files0);
  }

  /** One round of Command.handle: execute on the oldest pending file id. On success
      every kind of progress of the pass grows by id and id leaves the pending set; on
      failure nothing changes and the reason is the one execute reports. */
  method ImportNext(store: Store, stage: map<string, seq<Row>>, id: nat, ghost files0: map<nat, SalesFile>,
                    ghost sales0: map<nat, Sale>, ghost n0: nat, ghost processed: seq<nat>) returns (outcome: Outcome)
    requires store.Valid()
    requires Progress(files0, store.files, processed) && InOrder(files0, processed)
    requires SalesProgress(sales0, store.sales, processed)
    requires TotalsProgress(sales0, n0, store.sales, store.nextSaleId, files0, stage, processed)
    requires id in Pending(store.files) && forall j :: j in Pending(store.files) ==> id <= j
    modifies store
    ensures store.Valid()
    ensures store.products == old(store.products) && store.purchases == old(store.purchases)
    ensures store.nextProductId == old(store.nextProductId) && store.nextPurchaseId == old(store.nextPurchaseId)
    ensures store.nextFileId == old(store.nextFileId)
    ensures outcome.Imported? ==>
      && Progress(files0, store.files, processed + [id]) && InOrder(files0, processed + [id])
      && SalesProgress(sales0, store.sales, processed + [id])
      && TotalsProgress(sales0, n0, store.sales, store.nextSaleId, files0, stage, processed + [id])
      && Pending(store.files) == Pending(old(store.files)) - {id}
      && |Pending(store.files)| == |Pending(old(store.files))| - 1
    ensures !outcome.Imported? ==>
      && store.sales == old(store.sales) && store.files == old(store.files) && store.nextSaleId == old(store.nextSaleId)
      && outcome.Failed?
      && var name := files0[id].fileName;
         if name !in stage then outcome.reason == Unreadable
         else outcome.reason == UnknownProduct && !RowsResolve(stage[name], store.products)
  {
    ghost var files, sales, next := store.files, store.sales, store.nextSaleId;
    outcome := Execute(store, id, stage);
    if outcome.Imported? {
      ghost var rows := stage[files[id].fileName];
      assert StagedRows(files0, stage, id) == rows;
      DrainStep(files0, files, processed, id);
      ghost var pending := Pending(files);
      assert |pending - {id}| == |pending| - 1;
      SalesStep(sales0, n0, sales, next, store.sales, store.nextSaleId, files0, stage, processed, id, rows);
    }
  }

  /** Command.handle: a drain pass. Each round imports the pending file with the
      smallest id; the pass ends when none is pending, or stops at the first file
      whose import fails, which stays pending. `processed` lists the files imported,
      in the order they were. */
  method Handle(store: Store, stage: map<string, seq<Row>>) returns (result: Drain, processed: seq<nat>)
    requires store.Valid()
    modifies store
    ensures store.Valid()
    ensures store.products == old(store.products) && store.purchases == old(store.purchases)
    ensures store.nextProductId == old(store.nextProductId) && store.nextPurchaseId == old(store.nextPurchaseId)
    ensures store.nextFileId == old(store.nextFileId)
    ensures Progress(old(store.files), store.files, processed)
    ensures InOrder(old(store.files), processed)
    ensures result.Drained? ==> Pending(store.files) == {}
    ensures result.Drained? ==> forall k :: k in Pending(old(store.files)) ==> k in processed
    ensures result.Drained? ==> |processed| == |Pending(old(store.files))|
    ensures result.Aborted? ==>
      && result.file in Pending(old(store.files)) && result.file in Pending(store.files)
      && (forall i :: 0 <= i < |processed| ==> processed[i] < result.file)
      && (forall k :: k in Pending(old(store.files)) && k < result.file ==> k in processed)
    ensures result.Aborted? ==>
      var name := old(store.files)[result.file].fileName;
      if name !in stage then result.reason == Unreadable
      else result.reason == UnknownProduct && !RowsResolve(stage[name], store.products)
    ensures SalesProgress(old(store.sales), store.sales, processed)
    ensures store.sales == AppendedAll(old(store.sales), old(store.nextSaleId), old(store.files), stage, processed)
    ensures store.nextSaleId == old(store.nextSaleId) + FilesRows(old(store.files), stage, processed)
    ensures forall x: nat :: store.Sold(x) == old(store.Sold(x)) + FilesTotal(old(store.files), stage, processed, x)
    ensures Pending(old(store.files)) == {} ==>
      (result == Drained && processed == [] && store.sales == old(store.sales) && store.files == old(store.files)
       && store.nextSaleId == old(store.nextSaleId))
  {
    processed := [];
    var candidate := OldestPending(store.files, store.nextFileId);
    while candidate.Some?
      invariant store.Valid()
      invariant store.products == old(store.products) && store.purchases == old(store.purchases)
      invariant store.nextProductId == old(store.nextProductId) && store.nextPurchaseId == old(store.nextPurchaseId)
      invariant store.nextFileId == old(store.nextFileId)
      invariant Progress(old(store.files), store.files, processed)
      invariant InOrder(old(store.files), processed)
      invariant candidate == OldestPending(store.files, store.nextFileId)
      invariant SalesProgress(old(store.sales), store.sales, processed)
      invariant TotalsProgress(old(store.sales), old(store.nextSaleId), store.sales, store.nextSaleId,
                               old(store.files), stage, processed)
      invariant processed == [] ==> store.sales == old(store.sales) && store.files == old(store.files)
      decreases |Pending(store.files)|
    {
      var id := candidate.value;
      var outcome := ImportNext(store, stage, id, old(store.files), old(store.sales), old(store.nextSaleId), processed);
      if !outcome.Imported? {
        StoppedAt(old(store.files), store.files, processed, id);
        return Aborted(id, outcome.reason), processed;
      }
      processed := processed + [id];
      candidate := OldestPending(store.files, store.nextFileId);
    }
    FullyDrained(old(store.files), store.files, processed);
    return Drained, processed;
  }
}
