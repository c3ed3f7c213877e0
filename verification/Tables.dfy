/**
 The six related tables of the strategy-owned order ledger, plus the log that belongs to the
 protections.  A table is an append-only sequence of rows and a row's number is its index;
 a NULL (or zero) foreign key is `None`.  Prices and money are exact reals.
 */
module Tables {
  import opened Wrappers

  // The only market this service stores.
  const KR := "KR"

  datatype Side = Long | OtherSide

  datatype PositionStatus = PendingEntry | Open | ExitPending | Closed

  /** One strategy's virtual holding of one symbol; `stopPrice` is 0.0 when none was given. */
  datatype Position = Position(
    market: string, account: string, symbol: string, strategy: string, side: Side,
    stopPrice: real, status: PositionStatus,
    filledQty: nat, remainingQty: nat, averagePrice: real, realizedPnl: real)

  // `transition_managed_order` stores whatever status it is given: OtherStatus is that freedom.
  datatype OrderStatus =
    | IntentCreated | RiskApproved | ApprovalQueued | Approved | Submitting | Submitted
    | PartiallyFilled | CancelPending | BrokerUnknown
    | Filled | Rejected | Expired | Canceled
    | OtherStatus(name: string)

  datatype Order = Order(
    clientKey: string, position: Option<nat>, market: string, symbol: string, strategy: string,
    action: string, requestedQty: nat, requestedPrice: Option<real>,
    status: OrderStatus, filledQty: nat, averageFillPrice: real, approval: Option<int>)

  datatype Trade = Trade(qty: nat, price: real)

  datatype OrderEvent = OrderEvent(
    order: nat, from: Option<OrderStatus>, to: OrderStatus, fill: Option<Trade>)

  datatype Fill = Fill(order: nat, key: string, qty: nat, price: real)

  datatype ProtectionStatus =
    StopPending | StopActive | StopPartial | StopAmendPending | StopFailed | StopCancelPending | StopCanceled

  /** The hard stop of one position. */
  datatype Protection = Protection(
    position: nat, requiredQty: nat, protectedQty: nat,
    initialStop: real, currentStop: real, status: ProtectionStatus)

  datatype ProtectionEvent = ProtectionEvent(
    protection: nat, from: Option<ProtectionStatus>, to: ProtectionStatus,
    requiredQty: nat, protectedQty: nat, stop: real)

  datatype ReservationStatus = Reserved | Released | Consumed | ReservationExpired

  datatype Reservation = Reservation(
    account: string, market: string, strategy: string, position: Option<nat>, order: Option<nat>,
    cash: real, risk: real, symbol: string, sector: string, exposure: real,
    status: ReservationStatus)

  datatype Db = Db(
    positions: seq<Position>, orders: seq<Order>, orderEvents: seq<OrderEvent>, fills: seq<Fill>,
    protections: seq<Protection>, protectionEvents: seq<ProtectionEvent>,
    reservations: seq<Reservation>)

  const EMPTY_DB := Db([], [], [], [], [], [], [])

  datatype Dimension = OnePosition | WholeMarket | OneSector | OneStrategy

  datatype Error =
    | UnknownMarket | MissingField | NonPositiveQuantity | UniqueIndex
    | NonPositiveFill | OrderNotFound | ConflictingFill | FillNotAllowed | FillTooLarge
    | NoOwner | OwnerNotFound | OwnerMismatch | NoHardStop | StopMovedDown | SellExceedsOwned
    | NotBuyOrSell
    | NegativeAmount | EmptyReservation | NegativeLimit | DifferentAmounts
    | CashExceeded | RiskExceeded | ExposureExceeded(dimension: Dimension)
    | ReservationNotFound | NotAFinalStatus
    | NonPositiveStop | PositionNotFound | NotLong | NotOpenQuantity
    | ProtectionNotFound | ProtectedTooMuch | StillOpen

  datatype Reply =
    | Created(id: nat)
    | Updated(hit: bool)
    | FillReport(position: nat, filledQty: nat, status: OrderStatus, remaining: nat, duplicate: bool)
    | ReservationRow(reservation: nat, created: bool)
    | ProtectionRow(protection: nat)
    | Failed(error: Error)

  /** What one serialized transaction leaves behind: the committed tables and the answer. */
  datatype Outcome = Outcome(db: Db, reply: Reply)

  function Reject(db: Db, e: Error): Outcome {
    Outcome(db, Failed(e))
  }

  // ---- small lookups the queries are made of ----

  /** Quantity-weighted average after adding `qty` at `price` to `held` at `average`. */
  function Average(average: real, held: nat, price: real, qty: nat): real
    requires 0 < qty
  {
    (average * held as real + price * qty as real) / (held + qty) as real
  }

  predicate IsActive(p: Position) {
    p.status != Closed
  }

  predicate SameOwner(p: Position, q: Position) {
    p.market == q.market && p.account == q.account && p.symbol == q.symbol && p.strategy == q.strategy
  }

  /** Would storing `row` as row `at` break the partial unique index over active positions? */
  predicate Clashes(positions: seq<Position>, at: nat, row: Position) {
    IsActive(row) &&
    exists i :: 0 <= i < |positions| && i != at && IsActive(positions[i]) && SameOwner(positions[i], row)
  }

  function FindFill(fills: seq<Fill>, order: nat, key: string): (r: Option<nat>)
    ensures r.Some? ==> r.value < |fills| && fills[r.value].order == order && fills[r.value].key == key
    ensures r.None? ==> forall i :: 0 <= i < |fills| ==> !(fills[i].order == order && fills[i].key == key)
  {
    if fills == [] then None
    else
      var n := |fills| - 1;
      if fills[n].order == order && fills[n].key == key then Some(n) else FindFill(fills[..n], order, key)
  }

  function FindProtection(protections: seq<Protection>, position: nat): (r: Option<nat>)
    ensures r.Some? ==> r.value < |protections| && protections[r.value].position == position
    ensures r.None? ==> forall i :: 0 <= i < |protections| ==> protections[i].position != position
  {
    if protections == [] then None
    else
      var n := |protections| - 1;
      if protections[n].position == position then Some(n) else FindProtection(protections[..n], position)
  }
}
