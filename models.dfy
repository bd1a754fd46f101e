/** Records of the inventory ledger: products, purchases, sales and sales-import
    files, with the field constraints the schema and its validators impose and the
    cascading deletes of its foreign keys. */
module Models {

  datatype Option<+T> = None | Some(value: T) {
    function GetOr(default: T): T {
      match this
      case Some(v) => v
      case None => default
    }
  }

  /** The outcome of a view: the created or affected record, or the error category
      the HTTP layer turns into 404, 400 or 422. */
  datatype Response<+T> = Ok(value: T) | NotFound | BadRequest | Rejected

  /** Dates are instants on an integer time line. */
  type Date = int

  /** max_length of Product.name and SalesFile.file_name. */
  const MaxNameLength := 100

  /** A product; description is nullable and may be blank. */
  datatype Product = Product(name: string, price: int, description: Option<string>)

  /** name is a required CharField(max_length=100), price carries MinValueValidator(0). */
  predicate ValidProduct(p: Product) {
    0 < |p.name| <= MaxNameLength && p.price >= 0
  }

  /** quantity fields carry MinValueValidator(0). */
  predicate ValidQuantity(quantity: int) {
    quantity >= 0
  }

  /** A stock-in event; its product is a foreign key with on_delete=CASCADE. */
  datatype Purchase = Purchase(product: nat, quantity: int, date: Date)

  /** A stock-out event; importFile is the nullable reference to the SalesFile it
      was expanded from (None for a manually entered sale). */
  datatype Sale = Sale(product: nat, quantity: int, date: Date, importFile: Option<nat>)

  /** Processing status of an uploaded sales file. */
  datatype Status = Sync | AsyncUnprocessed | AsyncProcessed

  /** The integer stored for each status choice. */
  function StatusCode(s: Status): (code: int)
    ensures 0 <= code <= 2
  {
    match s
    case Sync => 0
    case AsyncUnprocessed => 1
    case AsyncProcessed => 2
  }

  /** Reads a stored status column back; only the three declared choices decode. */
  function StatusOf(code: int): (r: Option<Status>)
    ensures r.Some? <==> 0 <= code <= 2
    ensures forall s: Status :: r == Some(s) <==> StatusCode(s) == code
  {
    if code == 0 then Some(Sync)
    else if code == 1 then Some(AsyncUnprocessed)
    else if code == 2 then Some(AsyncProcessed)
    else None
  }

  /** An uploaded sales spreadsheet, known by its file name. */
  datatype SalesFile = SalesFile(fileName: string, status: Status)

  /** file_name is a CharField(max_length=100). */
  predicate ValidSalesFile(f: SalesFile) {
    |f.fileName| <= MaxNameLength
  }

  /** The date a new purchase or sale gets: the one supplied, else the clock's now. */
  function DateOrNow(date: Option<Date>, now: Date): Date {
    date.GetOr(now)
  }

  /** What a purchase and a sale have in common: the movement of some quantity of a
      product at some date. */
  datatype Event = Event(product: nat, quantity: int, date: Date)

  /** The purchase and sale tables seen as tables of events. */
  function PurchaseEvents(purchases: map<nat, Purchase>): map<nat, Event>
  {
    map k | k in purchases :: Event(purchases[k].product, purchases[k].quantity, purchases[k].date)
  }

  function SaleEvents(sales: map<nat, Sale>): map<nat, Event>
  {
    map k | k in sales :: Event(sales[k].product, sales[k].quantity, sales[k].date)
  }

  /** The rows that survive an on_delete=CASCADE: every row the deleted parent owns
      (doomed) is gone, every other row is kept as it was. */
  function Cascade<T>(table: map<nat, T>, doomed: T -> bool): (r: map<nat, T>)
    ensures forall k :: k in r <==> k in table && !doomed(table[k])
    ensures forall k :: k in r ==> r[k] == table[k]
  {
    map k | k in table && !doomed(table[k]) :: table[k]
  }
}
