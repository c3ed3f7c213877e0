/** Risk-budget reservations: the reserve and release transactions, and the pending-exposure query. */
module RiskSteps {
  import opened Sums
  import opened Wrappers
  import opened Tables

  datatype Limits = Limits(position: real, market: real, sector: real, strategy: real)

  /** A reservation request as the caller sends it; an absent exposure defaults to the cash amount. */
  datatype Request = Request(
    market: string, account: string, strategy: string, position: Option<nat>, order: Option<nat>,
    cash: real, risk: real, symbol: string, sector: string, exposure: Option<real>)

  function ExposureOf(q: Request): real {
    if q.exposure.Some? then q.exposure.value else q.cash
  }

  function NewReservation(q: Request): Reservation {
    Reservation(q.account, q.market, q.strategy, q.position, q.order, q.cash, q.risk, q.symbol, q.sector,
                ExposureOf(q), Reserved)
  }

  predicate SameKey(r: Reservation, s: Reservation) {
    r.account == s.account && r.market == s.market && r.strategy == s.strategy
    && r.position == s.position && r.order == s.order
  }

  predicate SameAmounts(r: Reservation, s: Reservation) {
    r.cash == s.cash && r.risk == s.risk && r.exposure == s.exposure
    && r.symbol == s.symbol && r.sector == s.sector
  }

  function FindReserved(rows: seq<Reservation>, key: Reservation): (r: Option<nat>)
    ensures r.Some? ==> r.value < |rows| && rows[r.value].status == Reserved && SameKey(rows[r.value], key)
    ensures r.None? ==> forall i :: 0 <= i < |rows| ==> !(rows[i].status == Reserved && SameKey(rows[i], key))
  {
    if rows == [] then None
    else
      var n := |rows| - 1;
      if rows[n].status == Reserved && SameKey(rows[n], key) then Some(n) else FindReserved(rows[..n], key)
  }

  // ---- the pending-exposure query ----

  predicate Working(status: OrderStatus) {
    status == IntentCreated || status == RiskApproved || status == ApprovalQueued || status == Approved
    || status == Submitting || status == Submitted || status == PartiallyFilled
    || status == CancelPending || status == BrokerUnknown
  }

  predicate WorkingBuy(o: Order, position: nat) {
    o.position == Some(position) && o.action == "buy" && Working(o.status)
  }

  /** `ORDER BY id DESC LIMIT 1` over the working buy orders of a position. */
  function LatestWorkingBuy(orders: seq<Order>, position: nat): (r: Option<nat>)
    ensures r.Some? ==> r.value < |orders| && WorkingBuy(orders[r.value], position)
                        && forall i :: r.value < i < |orders| ==> !WorkingBuy(orders[i], position)
    ensures r.None? ==> forall i :: 0 <= i < |orders| ==> !WorkingBuy(orders[i], position)
  {
    if orders == [] then None
    else
      var n := |orders| - 1;
      if WorkingBuy(orders[n], position) then Some(n) else LatestWorkingBuy(orders[..n], position)
  }

  function OpenValue(o: Order): real {
    if o.requestedQty > o.filledQty && o.requestedPrice.Some?
    then (o.requestedQty - o.filledQty) as real * o.requestedPrice.value
    else 0.0
  }

  function PendingExposure(orders: seq<Order>, r: Reservation): real {
    if r.position.None? then r.exposure
    else
      match LatestWorkingBuy(orders, r.position.value)
      case None => r.exposure
      case Some(k) => OpenValue(orders[k])
  }

  predicate InBudget(r: Reservation, account: string, market: string) {
    r.account == account && r.market == market && r.status == Reserved
  }

  predicate InDimension(r: Reservation, d: Dimension, q: Request) {
    match d
    case OnePosition => r.symbol == q.symbol
    case WholeMarket => true
    case OneSector => r.sector == q.sector
    case OneStrategy => r.strategy == q.strategy
  }

  /** Is the reservation counted in this dimension of the request? */
  predicate Counted(r: Reservation, d: Dimension, q: Request) {
    InBudget(r, q.account, q.market) && InDimension(r, d, q)
  }

  function PendingTerm(orders: seq<Order>, d: Dimension, q: Request): Reservation -> real {
    (r: Reservation) => if Counted(r, d, q) then PendingExposure(orders, r) else 0.0
  }

  /** Exposure already pending in one dimension of the request. */
  function UsedExposure(db: Db, d: Dimension, q: Request): real {
    SumReal(db.reservations, PendingTerm(db.orders, d, q))
  }

  function Limit(limits: Limits, d: Dimension): real {
    match d
    case OnePosition => limits.position
    case WholeMarket => limits.market
    case OneSector => limits.sector
    case OneStrategy => limits.strategy
  }

  predicate Exceeds(db: Db, limits: Limits, d: Dimension, q: Request) {
    UsedExposure(db, d, q) + ExposureOf(q) > Limit(limits, d)
  }

  /** The first failing check of the exposure limits, in the order the dimensions are tested. */
  function ExposureObstacle(db: Db, q: Request, limits: Limits): Option<Error> {
    if q.symbol == "" || q.sector == "" then Some(MissingField)
    else if limits.position < 0.0 || limits.market < 0.0 || limits.sector < 0.0 || limits.strategy < 0.0 then
      Some(NegativeLimit)
    else if Exceeds(db, limits, OnePosition, q) then Some(ExposureExceeded(OnePosition))
    else if Exceeds(db, limits, WholeMarket, q) then Some(ExposureExceeded(WholeMarket))
    else if Exceeds(db, limits, OneSector, q) then Some(ExposureExceeded(OneSector))
    else if Exceeds(db, limits, OneStrategy, q) then Some(ExposureExceeded(OneStrategy))
    else None
  }

  // ---- reserve and release ----

  function CashTerm(account: string, market: string): Reservation -> real {
    (r: Reservation) => if InBudget(r, account, market) then r.cash else 0.0
  }

  function RiskTerm(account: string, market: string): Reservation -> real {
    (r: Reservation) => if InBudget(r, account, market) then r.risk else 0.0
  }

  function ReservedCash(db: Db, account: string, market: string): real {
    SumReal(db.reservations, CashTerm(account, market))
  }

  function ReservedRisk(db: Db, account: string, market: string): real {
    SumReal(db.reservations, RiskTerm(account, market))
  }

  /** Checks made before the transaction opens. */
  function RequestObstacle(q: Request, availableCash: real, riskLimit: real): Option<Error> {
    if q.market != KR then Some(UnknownMarket)
    else if q.account == "" || q.strategy == "" then Some(MissingField)
    else if q.position.None? && q.order.None? then Some(MissingField)
    else if q.cash < 0.0 || q.risk < 0.0 || ExposureOf(q) < 0.0 then Some(NegativeAmount)
    else if q.cash == 0.0 && q.risk == 0.0 then Some(EmptyReservation)
    else if availableCash < 0.0 || riskLimit < 0.0 then Some(NegativeLimit)
    else None
  }

  function ReserveRiskBudget(
    db: Db, q: Request, availableCash: real, riskLimit: real, limits: Option<Limits>): Outcome
  {
    var refused := RequestObstacle(q, availableCash, riskLimit);
    var row := NewReservation(q);
    var found := FindReserved(db.reservations, row);
    var exposure := if limits.Some? then ExposureObstacle(db, q, limits.value) else None;
    if refused.Some? then Reject(db, refused.value)
    else if found.Some? then
      if SameAmounts(db.reservations[found.value], row) then Outcome(db, ReservationRow(found.value, false))
      else Reject(db, DifferentAmounts)
    else if ReservedCash(db, q.account, q.market) + q.cash > availableCash then Reject(db, CashExceeded)
    else if ReservedRisk(db, q.account, q.market) + q.risk > riskLimit then Reject(db, RiskExceeded)
    else if exposure.Some? then Reject(db, exposure.value)
    else Outcome(db.(reservations := db.reservations + [row]), ReservationRow(|db.reservations|, true))
  }

  function ReleaseRiskReservation(db: Db, id: nat, final: ReservationStatus): Outcome {
    if final == Reserved then Reject(db, NotAFinalStatus)
    else if id >= |db.reservations| then Reject(db, ReservationNotFound)
    else if db.reservations[id].status != Reserved then Outcome(db, ReservationRow(id, false))
    else
      Outcome(db.(reservations := db.reservations[id := db.reservations[id].(status := final)]),
              ReservationRow(id, false))
  }

  // ---- the exposure listing ----

  function ListedTerm(db: Db, account: string, market: string): Reservation -> real {
    (r: Reservation) =>
      if InBudget(r, account, market) && r.position.Some? && r.position.value < |db.positions|
      then PendingExposure(db.orders, r) else 0.0
  }

  /** Total of the rows `list_active_reserved_exposures` returns (it joins the position table). */
  function ListedExposure(db: Db, account: string, market: string): real {
    SumReal(db.reservations, ListedTerm(db, account, market))
  }
}
