/**
 What each repository function of the order ledger does to the tables, as one atomic step.
 A failing step returns the tables it was given: the transaction rolls back.
 */
module LedgerSteps {
  import opened Wrappers
  import opened Tables

  // ---- positions and orders ----

  function CreateStrategyPosition(
    db: Db, market: string, account: string, symbol: string, strategy: string, side: Side, stop: real): Outcome
  {
    var row := Position(market, account, symbol, strategy, side, stop, PendingEntry, 0, 0, 0.0, 0.0);
    if market != KR then Reject(db, UnknownMarket)
    else if strategy == "" || symbol == "" then Reject(db, MissingField)
    else if Clashes(db.positions, |db.positions|, row) then Reject(db, UniqueIndex)
    else Outcome(db.(positions := db.positions + [row]), Created(|db.positions|))
  }

  predicate Abandonable(db: Db, id: nat) {
    id < |db.positions| && db.positions[id].status == PendingEntry
    && db.positions[id].filledQty == 0 && db.positions[id].remainingQty == 0
  }

  function AbandonPendingStrategyPosition(db: Db, id: nat): Outcome {
    if Abandonable(db, id) then
      Outcome(db.(positions := db.positions[id := db.positions[id].(status := Closed)]), Updated(true))
    else Outcome(db, Updated(false))
  }

  function CreateManagedOrder(
    db: Db, key: string, position: Option<nat>, market: string, symbol: string, strategy: string,
    action: string, qty: int, price: Option<real>): Outcome
  {
    if market != KR then Reject(db, UnknownMarket)
    else if key == "" || symbol == "" || strategy == "" || action == "" then Reject(db, MissingField)
    else if qty <= 0 then Reject(db, NonPositiveQuantity)
    else if exists i :: 0 <= i < |db.orders| && db.orders[i].clientKey == key then Reject(db, UniqueIndex)
    else
      var row := Order(key, position, market, symbol, strategy, action, qty, price, IntentCreated, 0, 0.0, None);
      Outcome(
        db.(orders := db.orders + [row],
            orderEvents := db.orderEvents + [OrderEvent(|db.orders|, None, IntentCreated, None)]),
        Created(|db.orders|))
  }

  function BindManagedOrderApproval(db: Db, id: nat, approval: int, expected: OrderStatus): Outcome {
    if id < |db.orders| && db.orders[id].status == expected && db.orders[id].approval.None? then
      Outcome(db.(orders := db.orders[id := db.orders[id].(approval := Some(approval))]), Updated(true))
    else Outcome(db, Updated(false))
  }

  function TransitionManagedOrder(db: Db, id: nat, expected: OrderStatus, next: OrderStatus): Outcome {
    if id < |db.orders| && db.orders[id].status == expected then
      Outcome(
        db.(orders := db.orders[id := db.orders[id].(status := next)],
            orderEvents := db.orderEvents + [OrderEvent(id, Some(expected), next, None)]),
        Updated(true))
    else Outcome(db, Updated(false))
  }

  // ---- fills ----

  predicate Fillable(status: OrderStatus) {
    status == Submitting || status == Submitted || status == PartiallyFilled
    || status == BrokerUnknown || status == CancelPending
  }

  predicate Owns(p: Position, o: Order) {
    p.strategy == o.strategy && p.symbol == o.symbol && p.market == o.market
  }

  function Bought(p: Position, qty: nat, price: real): Position
    requires 0 < qty
  {
    p.(filledQty := p.filledQty + qty,
       remainingQty := p.remainingQty + qty,
       averagePrice := Average(p.averagePrice, p.remainingQty, price, qty),
       status := Open)
  }

  function Sold(p: Position, qty: nat, price: real): Position
    requires qty <= p.remainingQty
  {
    p.(remainingQty := p.remainingQty - qty,
       realizedPnl := p.realizedPnl + (price - p.averagePrice) * qty as real,
       status := if p.remainingQty == qty then Closed else Open)
  }

  /** The stop request that a change of the open quantity leaves behind. */
  function Requested(g: Protection, qty: nat, stop: real): Protection {
    g.(requiredQty := qty, currentStop := stop,
       status := if g.protectedQty > 0 then StopAmendPending else StopPending)
  }

  function Reduced(g: Protection, remaining: nat): Protection {
    g.(requiredQty := if remaining > 0 then remaining else g.requiredQty,
       status := if remaining == 0 then StopCancelPending else StopAmendPending)
  }

  /** Create or expand the stop of `position`; shared by buy fills and explicit requests. */
  function UpsertStop(db: Db, position: nat, qty: nat, stop: real): Db {
    match FindProtection(db.protections, position)
    case Some(g) =>
      var row := Requested(db.protections[g], qty, stop);
      db.(protections := db.protections[g := row],
          protectionEvents := db.protectionEvents
          + [ProtectionEvent(g, Some(db.protections[g].status), row.status, qty, row.protectedQty, stop)])
    case None =>
      db.(protections := db.protections + [Protection(position, qty, 0, stop, stop, StopPending)],
          protectionEvents := db.protectionEvents
          + [ProtectionEvent(|db.protections|, None, StopPending, qty, 0, stop)])
  }

  /** A stop may only move up. */
  predicate StopWouldDrop(db: Db, position: nat, stop: real) {
    var g := FindProtection(db.protections, position);
    g.Some? && stop < db.protections[g.value].currentStop
  }

  datatype Result<+T> = Ok(value: T) | Err(error: Error)

  function BuyFill(db: Db, id: nat, qty: nat, price: real): (r: Result<Db>)
    requires id < |db.positions| && 0 < qty
    ensures r.Ok? ==> |r.value.positions| == |db.positions| && r.value.orders == db.orders
  {
    var p := db.positions[id];
    var row := Bought(p, qty, price);
    if Clashes(db.positions, id, row) then Err(UniqueIndex)
    else if p.stopPrice <= 0.0 then Err(NoHardStop)
    else if StopWouldDrop(db, id, p.stopPrice) then Err(StopMovedDown)
    else Ok(UpsertStop(db.(positions := db.positions[id := row]), id, row.remainingQty, p.stopPrice))
  }

  function ReduceStop(db: Db, position: nat, remaining: nat): Db {
    match FindProtection(db.protections, position)
    case None => db
    case Some(g) =>
      var was := db.protections[g];
      var row := Reduced(was, remaining);
      db.(protections := db.protections[g := row],
          protectionEvents := db.protectionEvents
          + [ProtectionEvent(g, Some(was.status), row.status, remaining, was.protectedQty, was.currentStop)])
  }

  function SellFill(db: Db, id: nat, qty: nat, price: real): (r: Result<Db>)
    requires id < |db.positions|
    ensures r.Ok? ==> |r.value.positions| == |db.positions| && r.value.orders == db.orders
  {
    var p := db.positions[id];
    if qty > p.remainingQty then Err(SellExceedsOwned)
    else
      var row := Sold(p, qty, price);
      if Clashes(db.positions, id, row) then Err(UniqueIndex)
      else Ok(ReduceStop(db.(positions := db.positions[id := row]), id, row.remainingQty))
  }

  function FilledOrder(o: Order, qty: nat, price: real): Order
    requires 0 < qty
  {
    o.(filledQty := o.filledQty + qty,
       averageFillPrice := Average(o.averageFillPrice, o.filledQty, price, qty),
       status := if o.filledQty + qty == o.requestedQty then Filled else PartiallyFilled)
  }

  function RecordFill(db: Db, id: nat, qty: nat, price: real, key: string): Db
    requires id < |db.orders| && 0 < qty
  {
    var o := db.orders[id];
    var row := FilledOrder(o, qty, price);
    db.(orders := db.orders[id := row],
        fills := if key == "" then db.fills else db.fills + [Fill(id, key, qty, price)],
        orderEvents := db.orderEvents + [OrderEvent(id, Some(o.status), row.status, Some(Trade(qty, price)))])
  }

  /** The answer to a fill that is already recorded. */
  function DuplicateReport(db: Db, id: nat): Outcome
    requires id < |db.orders|
  {
    var o := db.orders[id];
    if o.position.None? then Reject(db, NoOwner)
    else if o.position.value >= |db.positions| then Reject(db, OwnerNotFound)
    else
      var p := o.position.value;
      Outcome(db, FillReport(p, o.filledQty, o.status, db.positions[p].remainingQty, true))
  }

  /** Everything checked before the first write; `None` lets the fill through. */
  function FillObstacle(db: Db, id: nat, qty: nat): Option<Error>
    requires id < |db.orders|
  {
    var o := db.orders[id];
    if !Fillable(o.status) then Some(FillNotAllowed)
    else if o.filledQty + qty > o.requestedQty then Some(FillTooLarge)
    else if o.position.None? then Some(NoOwner)
    else if o.position.value >= |db.positions| then Some(OwnerNotFound)
    else if !Owns(db.positions[o.position.value], o) then Some(OwnerMismatch)
    else None
  }

  function AttributeFill(db: Db, id: nat, qty: nat, price: real): (r: Result<Db>)
    requires id < |db.orders| && 0 < qty && FillObstacle(db, id, qty).None?
    ensures r.Ok? ==> |r.value.positions| == |db.positions| && r.value.orders == db.orders
  {
    var p := db.orders[id].position.value;
    if db.orders[id].action == "buy" then BuyFill(db, p, qty, price)
    else if db.orders[id].action == "sell" then SellFill(db, p, qty, price)
    else Err(NotBuyOrSell)
  }

  function NewFill(db: Db, id: nat, qty: nat, price: real, key: string): Outcome
    requires id < |db.orders| && 0 < qty
  {
    var obstacle := FillObstacle(db, id, qty);
    if obstacle.Some? then Reject(db, obstacle.value)
    else
      match AttributeFill(db, id, qty, price)
      case Err(e) => Reject(db, e)
      case Ok(moved) =>
        var done := RecordFill(moved, id, qty, price, key);
        var p := db.orders[id].position.value;
        Outcome(done, FillReport(p, done.orders[id].filledQty, done.orders[id].status,
                                 done.positions[p].remainingQty, false))
  }

  /** `key` is the normalized fill key; "" means the broker gave none. */
  function ApplyManagedFill(db: Db, id: nat, qty: int, price: real, key: string): Outcome {
    if qty <= 0 || price <= 0.0 then Reject(db, NonPositiveFill)
    else if id >= |db.orders| then Reject(db, OrderNotFound)
    else
      var prior := if key == "" then None else FindFill(db.fills, id, key);
      match prior
      case None => NewFill(db, id, qty, price, key)
      case Some(f) =>
        if db.fills[f].qty != qty || db.fills[f].price != price then Reject(db, ConflictingFill)
        else DuplicateReport(db, id)
  }

  // ---- hard stops ----

  function RequestPositionProtection(db: Db, position: nat, qty: int, stop: real): Outcome {
    if qty <= 0 || stop <= 0.0 then Reject(db, NonPositiveStop)
    else if position >= |db.positions| then Reject(db, PositionNotFound)
    else if db.positions[position].side != Long then Reject(db, NotLong)
    else if qty != db.positions[position].remainingQty then Reject(db, NotOpenQuantity)
    else if StopWouldDrop(db, position, stop) then Reject(db, StopMovedDown)
    else
      var g := FindProtection(db.protections, position);
      Outcome(UpsertStop(db, position, qty, stop), ProtectionRow(if g.Some? then g.value else |db.protections|))
  }

  /** Replace row `g` of the stops and log it with the quantities and stop of the new row. */
  function PutStop(db: Db, g: nat, row: Protection): Outcome
    requires g < |db.protections|
  {
    Outcome(
      db.(protections := db.protections[g := row],
          protectionEvents := db.protectionEvents
          + [ProtectionEvent(g, Some(db.protections[g].status), row.status, row.requiredQty, row.protectedQty,
                             row.currentStop)]),
      ProtectionRow(g))
  }

  function ActivatePositionProtection(db: Db, g: nat, brokerOrder: string, qty: int, stop: real): Outcome {
    if brokerOrder == "" || qty <= 0 || stop <= 0.0 then Reject(db, NonPositiveStop)
    else if g >= |db.protections| then Reject(db, ProtectionNotFound)
    else
      var was := db.protections[g];
      if stop < was.currentStop then Reject(db, StopMovedDown)
      else if qty > was.requiredQty then Reject(db, ProtectedTooMuch)
      else
        PutStop(db, g, was.(protectedQty := qty, currentStop := stop,
                            status := if qty == was.requiredQty then StopActive else StopPartial))
  }

  function FailPositionProtection(db: Db, g: nat, error: string): Outcome {
    if error == "" then Reject(db, MissingField)
    else if g >= |db.protections| then Reject(db, ProtectionNotFound)
    else PutStop(db, g, db.protections[g].(status := StopFailed))
  }

  /** Is the owning position flat?  A missing owner counts as not flat. */
  predicate OwnerFlat(db: Db, g: nat)
    requires g < |db.protections|
  {
    var p := db.protections[g].position;
    p < |db.positions| && db.positions[p].remainingQty == 0
  }

  function CancelPositionProtection(db: Db, g: nat): Outcome {
    if g >= |db.protections| then Reject(db, ProtectionNotFound)
    else if !OwnerFlat(db, g) then Reject(db, StillOpen)
    else PutStop(db, g, db.protections[g].(status := StopCanceled, protectedQty := 0))
  }

  function RequestPositionProtectionCancel(db: Db, g: nat): Outcome {
    if g >= |db.protections| then Reject(db, ProtectionNotFound)
    else if !OwnerFlat(db, g) then Reject(db, StillOpen)
    else if db.protections[g].status == StopCancelPending || db.protections[g].status == StopCanceled then
      Outcome(db, ProtectionRow(g))
    else PutStop(db, g, db.protections[g].(status := StopCancelPending))
  }

  /** Is `id` an open long quantity that no recorded stop of exactly that quantity covers? */
  predicate Unprotected(db: Db, id: nat)
    requires id < |db.positions|
  {
    var p := db.positions[id];
    var g := FindProtection(db.protections, id);
    p.side == Long && (p.status == Open || p.status == ExitPending) && p.remainingQty > 0
    && (g.None?
        || (db.protections[g.value].status != StopActive && db.protections[g.value].status != StopAmendPending)
        || db.protections[g.value].protectedQty != p.remainingQty)
  }
}
