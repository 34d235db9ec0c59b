/** The persisted entities: the contract record, its change log and notes,
    and the enumerations the database schema declares. */
module Domain {
  import opened Wrappers

  datatype Category = GoodsPurchase | GoodsManufacture | Service | Construction

  datatype Method = OpenBid | RestrictedBid | NominatedBid | OpenNegotiation | PrivateNegotiation

  datatype Status = BeforeStart | InProgress | Waiting | Delayed | Completed | Deleted

  /** The kind of a change-log record. */
  datatype Action = CreateLog | UpdateLog | StageLog | StatusLog | DeleteLog | NoteLog | BudgetLog

  /** Dates are instants (milliseconds since the epoch); amounts are whole won. */
  datatype Contract = Contract(
    id: string,
    title: string,
    category: Category,
    contractMethod: Method,
    amount: nat,
    budget: nat,
    contractAmount: nat,
    executionAmount: nat,
    requester: Option<string>,
    requesterContact: Option<string>,
    contractor: Option<string>,
    stage: string,
    status: Status,
    deadline: Option<int>,
    requestDate: Option<int>,
    contractEnd: Option<int>,
    paymentDate: Option<int>,
    updatedAt: int)

  /** One audit record; `contractId` is absent for process-wide events. */
  datatype ChangeLog = ChangeLog(
    contractId: Option<string>,
    action: Action,
    detail: string,
    fromValue: Option<string>,
    toValue: Option<string>)

  datatype Note = Note(contractId: string, content: string, tags: seq<string>)

  /** The name the database stores for a status (`Status.BEFORE_START` is "BEFORE_START"). */
  function StatusName(s: Status): string {
    match s
    case BeforeStart => "BEFORE_START"
    case InProgress => "IN_PROGRESS"
    case Waiting => "WAITING"
    case Delayed => "DELAYED"
    case Completed => "COMPLETED"
    case Deleted => "DELETED"
  }

  function CategoryName(c: Category): string {
    match c
    case GoodsPurchase => "GOODS_PURCHASE"
    case GoodsManufacture => "GOODS_MANUFACTURE"
    case Service => "SERVICE"
    case Construction => "CONSTRUCTION"
  }

  function MethodName(m: Method): string {
    match m
    case OpenBid => "OPEN_BID"
    case RestrictedBid => "RESTRICTED_BID"
    case NominatedBid => "NOMINATED_BID"
    case OpenNegotiation => "OPEN_NEGOTIATION"
    case PrivateNegotiation => "PRIVATE_NEGOTIATION"
  }

  /** Conversions the source leaves to the JavaScript runtime and its libraries:
      `fixed(n, unit, d)` is `(n / unit).toFixed(d)`, `currency(n)` is the
      `Intl.NumberFormat` won rendering, `isoDay(t)` is
      `t.toISOString().split('T')[0]` and `parseDay(s)` is `new Date(s)`. */
  datatype Host = Host(
    fixed: (int, nat, nat) -> string,
    currency: int -> string,
    isoDay: int -> string,
    parseDay: string -> int)
}
