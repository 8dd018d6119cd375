/**
 * Cell values, rows and the `Meeting` enum (zoom_api_helper/models.py).
 *
 * A row is a dict from column header to a value; the model keeps only what the
 * client code looks at: equality and Python truthiness.
 */
module Values {

  /** The type of Zoom meeting: the members of the `Meeting` enum. */
  datatype MeetingKind = Instant | Scheduled | Recurring | RecurringWithTime

  /** `Meeting.X.value` */
  function Code(kind: MeetingKind): (c: int)
    ensures c in {1, 2, 3, 8}
  {
    match kind
    case Instant => 1
    case Scheduled => 2
    case Recurring => 3
    case RecurringWithTime => 8
  }

  /**
   * A value held by a row, a request body or a JSON response.  `Other` stands
   * for datetimes, floats, nested dicts and lists, which the client only
   * passes along; `truthy` records what `bool(v)` gives for it.
   */
  datatype Value =
    | Str(s: string)
    | Int(n: int)
    | Bool(b: bool)
    | Null
    | MeetingType(kind: MeetingKind)
    | Other(id: nat, truthy: bool)

  /** Python's `bool(v)`. */
  predicate Truthy(v: Value) {
    match v
    case Str(s) => s != ""
    case Int(n) => n != 0
    case Bool(b) => b
    case Null => false
    case MeetingType(_) => true
    case Other(_, t) => t
  }

  /** One spreadsheet row (`RowType`): column header to cell value. */
  type Row = map<string, Value>

  /** A parsed JSON object returned by the API. */
  type Response = map<string, Value>
}
