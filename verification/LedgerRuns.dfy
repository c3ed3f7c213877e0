/**
 Runs: any number of workers calling the repository functions is some sequence of atomic steps,
 accepted or rejected, so a run is just a sequence of commands.
 */
module LedgerRuns {
  import opened Wrappers
  import opened Tables
  import opened LedgerSteps
  import opened RiskSteps
  import opened LedgerInvariant

  datatype Command =
    | CreatePosition(market: string, account: string, symbol: string, strategy: string, side: Side, stop: real)
    | AbandonPosition(position: nat)
    | CreateOrder(key: string, owner: Option<nat>, market: string, symbol: string, strategy: string,
                  action: string, requested: int, asked: Option<real>)
    | BindApproval(order: nat, approval: int, expected: OrderStatus)
    | Transition(order: nat, expected: OrderStatus, next: OrderStatus)
    | ApplyFill(order: nat, qty: int, price: real, fillKey: string)
    | Reserve(request: Request, availableCash: real, riskLimit: real, limits: Option<Limits>)
    | Release(reservation: nat, final: ReservationStatus)
    | RequestStop(position: nat, qty: int, stopPrice: real)
    | ActivateStop(protection: nat, broker: string, qty: int, stopPrice: real)
    | FailStop(protection: nat, error: string)
    | CancelStop(protection: nat)
    | RequestStopCancel(protection: nat)

  predicate StopCommand(c: Command) {
    c.RequestStop? || c.ActivateStop? || c.FailStop? || c.CancelStop? || c.RequestStopCancel?
  }

  function StopStep(db: Db, c: Command): Outcome
    requires StopCommand(c)
  {
    match c
    case RequestStop(id, qty, stop) => RequestPositionProtection(db, id, qty, stop)
    case ActivateStop(g, broker, qty, stop) => ActivatePositionProtection(db, g, broker, qty, stop)
    case FailStop(g, error) => FailPositionProtection(db, g, error)
    case CancelStop(g) => CancelPositionProtection(db, g)
    case RequestStopCancel(g) => RequestPositionProtectionCancel(db, g)
  }

  predicate RowCommand(c: Command) {
    c.CreatePosition? || c.AbandonPosition? || c.CreateOrder? || c.BindApproval?
  }

  function RowStep(db: Db, c: Command): Outcome
    requires RowCommand(c)
  {
    match c
    case CreatePosition(market, account, symbol, strategy, side, stop) =>
      CreateStrategyPosition(db, market, account, symbol, strategy, side, stop)
    case AbandonPosition(id) => AbandonPendingStrategyPosition(db, id)
    case CreateOrder(key, owner, market, symbol, strategy, action, requested, asked) =>
      CreateManagedOrder(db, key, owner, market, symbol, strategy, action, requested, asked)
    case BindApproval(id, approval, expected) => BindManagedOrderApproval(db, id, approval, expected)
  }

  function Step(db: Db, c: Command): Outcome {
    if StopCommand(c) then StopStep(db, c)
    else if RowCommand(c) then RowStep(db, c)
    else
      match c
      case Transition(id, expected, next) => TransitionManagedOrder(db, id, expected, next)
      case ApplyFill(id, qty, price, key) => ApplyManagedFill(db, id, qty, price, key)
      case Reserve(request, cash, risk, limits) => ReserveRiskBudget(db, request, cash, risk, limits)
      case Release(id, final) => ReleaseRiskReservation(db, id, final)
  }

  function Run(db: Db, run: seq<Command>): Db
    decreases |run|
  {
    if run == [] then db else Run(Step(db, run[0]).db, run[1..])
  }

  lemma {:induction false} RunConcat(db: Db, a: seq<Command>, b: seq<Command>)
    ensures Run(db, a + b) == Run(Run(db, a), b)
    decreases |a|
  {
    if a == [] {
      assert a + b == b;
    } else {
      assert (a + b)[0] == a[0] && (a + b)[1..] == a[1..] + b;
      RunConcat(Step(db, a[0]).db, a[1..], b);
    }
  }

  lemma StopStepKeepsValid(db: Db, c: Command)
    requires Valid(db) && StopCommand(c)
    ensures Valid(StopStep(db, c).db)
  {
    match c
    case RequestStop(id, qty, stop) => RequestStopKeepsValid(db, id, qty, stop);
    case ActivateStop(g, broker, qty, stop) => ActivateKeepsValid(db, g, broker, qty, stop);
    case FailStop(g, error) => FailKeepsValid(db, g, error);
    case CancelStop(g) => CancelKeepsValid(db, g);
    case RequestStopCancel(g) => RequestCancelKeepsValid(db, g);
  }

  lemma RowStepKeepsValid(db: Db, c: Command)
    requires Valid(db) && RowCommand(c)
    ensures Valid(RowStep(db, c).db)
  {
    match c
    case CreatePosition(market, account, symbol, strategy, side, stop) =>
      CreatePositionKeepsValid(db, market, account, symbol, strategy, side, stop);
    case AbandonPosition(id) => AbandonKeepsValid(db, id);
    case CreateOrder(key, owner, market, symbol, strategy, action, requested, asked) =>
      CreateOrderKeepsValid(db, key, owner, market, symbol, strategy, action, requested, asked);
    case BindApproval(id, approval, expected) => BindKeepsValid(db, id, approval, expected);
  }

  lemma StepKeepsValid(db: Db, c: Command)
    requires Valid(db)
    ensures Valid(Step(db, c).db)
  {
    if StopCommand(c) {
      StopStepKeepsValid(db, c);
    } else if RowCommand(c) {
      RowStepKeepsValid(db, c);
    } else {
      match c
      case Transition(id, expected, next) => TransitionKeepsValid(db, id, expected, next);
      case ApplyFill(id, qty, price, key) => ApplyFillKeepsValid(db, id, qty, price, key);
      case Reserve(request, cash, risk, limits) => ReserveKeepsValid(db, request, cash, risk, limits);
      case Release(id, final) => ReleaseKeepsValid(db, id, final);
    }
  }

  /** Every reachable state is valid: no run, in any interleaving, breaks the invariant. */
  lemma {:induction false} RunKeepsValid(db: Db, run: seq<Command>)
    requires Valid(db)
    ensures Valid(Run(db, run))
    decreases |run|
  {
    if run != [] {
      StepKeepsValid(db, run[0]);
      RunKeepsValid(Step(db, run[0]).db, run[1..]);
    }
  }

  lemma ReachableIsValid(run: seq<Command>)
    ensures Valid(Run(EMPTY_DB, run))
  {
    EmptyIsValid();
    RunKeepsValid(EMPTY_DB, run);
  }

  /** A failed step has rolled back: it leaves every table and log as it found them. */
  lemma RejectedStepChangesNothing(db: Db, c: Command)
    requires Step(db, c).reply.Failed?
    ensures Step(db, c).db == db
  {
    if c.ApplyFill? {
      FillIsNewOrNothing(db, c.order, c.qty, c.price, c.fillKey);
    }
  }

  // ---- what can only grow ----

  ghost predicate PositionGrew(p: Position, q: Position) {
    SameOwner(p, q) && p.side == q.side && p.stopPrice == q.stopPrice && p.filledQty <= q.filledQty
    && (q.status == PendingEntry ==> p.status == PendingEntry)
  }

  ghost predicate OrderGrew(o: Order, p: Order) {
    o.clientKey == p.clientKey && o.position == p.position && o.market == p.market && o.symbol == p.symbol
    && o.strategy == p.strategy && o.action == p.action
    && o.requestedQty == p.requestedQty && o.requestedPrice == p.requestedPrice && o.filledQty <= p.filledQty
    && (o.approval.Some? ==> p.approval == o.approval)
  }

  ghost predicate StopGrew(g: Protection, h: Protection) {
    g.position == h.position && g.initialStop == h.initialStop && g.currentStop <= h.currentStop
  }

  ghost predicate ReservationGrew(r: Reservation, s: Reservation) {
    s == r.(status := s.status) && (r.status != Reserved ==> s.status == r.status)
  }

  ghost predicate TablesGrew(a: Db, b: Db) {
    |a.positions| <= |b.positions| && |a.orders| <= |b.orders|
    && (forall i :: 0 <= i < |a.positions| ==> PositionGrew(a.positions[i], b.positions[i]))
    && (forall i :: 0 <= i < |a.orders| ==> OrderGrew(a.orders[i], b.orders[i]))
  }

  ghost predicate StopsGrew(a: Db, b: Db) {
    |a.protections| <= |b.protections|
    && forall i :: 0 <= i < |a.protections| ==> StopGrew(a.protections[i], b.protections[i])
  }

  ghost predicate ReservationsGrew(a: Db, b: Db) {
    |a.reservations| <= |b.reservations|
    && forall i :: 0 <= i < |a.reservations| ==> ReservationGrew(a.reservations[i], b.reservations[i])
  }

  ghost predicate LogsGrew(a: Db, b: Db) {
    a.fills <= b.fills && a.orderEvents <= b.orderEvents && a.protectionEvents <= b.protectionEvents
  }

  ghost predicate Grew(a: Db, b: Db) {
    TablesGrew(a, b) && StopsGrew(a, b) && ReservationsGrew(a, b) && LogsGrew(a, b)
  }

  lemma AttributeGrowsStops(db: Db, k: nat, qty: nat, price: real)
    requires k < |db.orders| && 0 < qty && FillObstacle(db, k, qty).None?
    requires AttributeFill(db, k, qty, price).Ok?
    ensures var moved := AttributeFill(db, k, qty, price).value;
      StopsGrew(db, moved) && db.protectionEvents <= moved.protectionEvents
  {
  }

  lemma AttributeGrowsPositions(db: Db, k: nat, qty: nat, price: real)
    requires k < |db.orders| && 0 < qty && FillObstacle(db, k, qty).None?
    requires AttributeFill(db, k, qty, price).Ok?
    ensures var moved := AttributeFill(db, k, qty, price).value;
      |moved.positions| == |db.positions|
      && forall i :: 0 <= i < |db.positions| ==> PositionGrew(db.positions[i], moved.positions[i])
  {
  }

  lemma NewFillGrows(db: Db, k: nat, qty: nat, price: real, key: string)
    requires k < |db.orders| && 0 < qty
    ensures Grew(db, NewFill(db, k, qty, price, key).db)
  {
    if FillObstacle(db, k, qty).None? && AttributeFill(db, k, qty, price).Ok? {
      AttributedShape(db, k, qty, price);
      AttributeGrowsStops(db, k, qty, price);
      AttributeGrowsPositions(db, k, qty, price);
    }
  }

  lemma CreatePositionGrows(
    db: Db, market: string, account: string, symbol: string, strategy: string, side: Side, stop: real)
    ensures Grew(db, CreateStrategyPosition(db, market, account, symbol, strategy, side, stop).db)
  {
  }

  lemma AbandonGrows(db: Db, id: nat)
    ensures Grew(db, AbandonPendingStrategyPosition(db, id).db)
  {
  }

  lemma OrderStepGrows(
    db: Db, key: string, owner: Option<nat>, market: string, symbol: string, strategy: string,
    action: string, qty: int, price: Option<real>)
    ensures Grew(db, CreateManagedOrder(db, key, owner, market, symbol, strategy, action, qty, price).db)
  {
  }

  lemma BindGrows(db: Db, id: nat, approval: int, expected: OrderStatus)
    ensures Grew(db, BindManagedOrderApproval(db, id, approval, expected).db)
  {
  }

  lemma TransitionGrows(db: Db, id: nat, expected: OrderStatus, next: OrderStatus)
    ensures Grew(db, TransitionManagedOrder(db, id, expected, next).db)
  {
  }

  lemma ReserveGrows(db: Db, q: Request, cash: real, risk: real, limits: Option<Limits>)
    ensures Grew(db, ReserveRiskBudget(db, q, cash, risk, limits).db)
  {
    ReserveMovesOnlyReservations(db, q, cash, risk, limits);
  }

  lemma ReleaseGrows(db: Db, id: nat, final: ReservationStatus)
    ensures Grew(db, ReleaseRiskReservation(db, id, final).db)
  {
  }

  lemma PutStopGrows(db: Db, g: nat, row: Protection)
    requires g < |db.protections| && StopGrew(db.protections[g], row)
    ensures Grew(db, PutStop(db, g, row).db)
  {
  }

  lemma RequestStopGrows(db: Db, id: nat, qty: int, stop: real)
    ensures Grew(db, RequestPositionProtection(db, id, qty, stop).db)
  {
    var out := RequestPositionProtection(db, id, qty, stop);
    if out.reply.ProtectionRow? {
      assert out.db.protectionEvents[..|db.protectionEvents|] == db.protectionEvents;
    }
  }

  lemma ActivateGrows(db: Db, g: nat, broker: string, qty: int, stop: real)
    ensures Grew(db, ActivatePositionProtection(db, g, broker, qty, stop).db)
  {
  }

  lemma CloseStopGrows(db: Db, g: nat, error: string)
    ensures Grew(db, FailPositionProtection(db, g, error).db)
    ensures Grew(db, CancelPositionProtection(db, g).db)
    ensures Grew(db, RequestPositionProtectionCancel(db, g).db)
  {
    if g < |db.protections| {
      PutStopGrows(db, g, db.protections[g].(status := StopFailed));
      PutStopGrows(db, g, db.protections[g].(status := StopCanceled, protectedQty := 0));
      PutStopGrows(db, g, db.protections[g].(status := StopCancelPending));
    }
  }

  /** A fill either changes nothing or is a new fill. */
  lemma FillIsNewOrNothing(db: Db, k: nat, qty: int, price: real, key: string)
    ensures var out := ApplyManagedFill(db, k, qty, price, key).db;
      out == db || (k < |db.orders| && 0 < qty && out == NewFill(db, k, qty, price, key).db)
  {
  }

  lemma NothingGrows(db: Db)
    ensures Grew(db, db)
  {
  }

  lemma FillGrows(db: Db, k: nat, qty: int, price: real, key: string)
    ensures Grew(db, ApplyManagedFill(db, k, qty, price, key).db)
  {
    FillIsNewOrNothing(db, k, qty, price, key);
    NothingGrows(db);
    if k < |db.orders| && 0 < qty {
      NewFillGrows(db, k, qty, price, key);
    }
  }

  lemma StepGrows(db: Db, c: Command)
    ensures Grew(db, Step(db, c).db)
  {
    match c
    case CreatePosition(market, account, symbol, strategy, side, stop) =>
      CreatePositionGrows(db, market, account, symbol, strategy, side, stop);
    case AbandonPosition(id) => AbandonGrows(db, id);
    case CreateOrder(key, owner, market, symbol, strategy, action, requested, asked) =>
      OrderStepGrows(db, key, owner, market, symbol, strategy, action, requested, asked);
    case BindApproval(id, approval, expected) => BindGrows(db, id, approval, expected);
    case Transition(id, expected, next) => TransitionGrows(db, id, expected, next);
    case ApplyFill(id, qty, price, key) => FillGrows(db, id, qty, price, key);
    case Reserve(request, cash, risk, limits) => ReserveGrows(db, request, cash, risk, limits);
    case Release(id, final) => ReleaseGrows(db, id, final);
    case RequestStop(id, qty, stop) => RequestStopGrows(db, id, qty, stop);
    case ActivateStop(g, broker, qty, stop) => ActivateGrows(db, g, broker, qty, stop);
    case FailStop(g, error) => CloseStopGrows(db, g, error);
    case CancelStop(g) => CloseStopGrows(db, g, "");
    case RequestStopCancel(g) => CloseStopGrows(db, g, "");
  }

  /** Logs and keyed fills are append-only, stops only rise, owners and terminal rows never change. */
  lemma {:induction false} RunGrows(db: Db, run: seq<Command>)
    ensures Grew(db, Run(db, run))
    decreases |run|
  {
    if run != [] {
      StepGrows(db, run[0]);
      RunGrows(Step(db, run[0]).db, run[1..]);
    }
  }
}
