/**
 The repository object: the tables as mutable fields, one method per repository function, each
 updating rows in place inside a transaction and restoring them when it fails.  Every method is
 proved equal to its step in LedgerSteps or RiskSteps and keeps the invariant.
 */
module Ledger {
  import opened Wrappers
  import opened Tables
  import Steps = LedgerSteps
  import Risk = RiskSteps
  import Invariant = LedgerInvariant

  class LedgerStore {
    var positions: seq<Position>
    var orders: seq<Order>
    var orderEvents: seq<OrderEvent>
    var fills: seq<Fill>
    var protections: seq<Protection>
    var protectionEvents: seq<ProtectionEvent>
    var reservations: seq<Reservation>

    function Contents(): Db
      reads this
    {
      Db(positions, orders, orderEvents, fills, protections, protectionEvents, reservations)
    }

    ghost predicate Valid()
      reads this
    {
      Invariant.Valid(Contents())
    }

    constructor ()
      ensures Valid() && Contents() == EMPTY_DB
    {
      positions, orders, orderEvents, fills := [], [], [], [];
      protections, protectionEvents, reservations := [], [], [];
      new;
      assert Contents() == EMPTY_DB;
      Invariant.EmptyIsValid();
    }

    method CreateStrategyPosition(
      market: string, account: string, symbol: string, strategy: string, side: Side, stop: real) returns (reply: Reply)
      requires Valid()
      modifies this
      ensures Valid()
      ensures Outcome(Contents(), reply)
              == Steps.CreateStrategyPosition(old(Contents()), market, account, symbol, strategy, side, stop)
    {
      Invariant.CreatePositionKeepsValid(Contents(), market, account, symbol, strategy, side, stop);
      if market != KR {
        return Failed(UnknownMarket);
      }
      if strategy == "" || symbol == "" {
        return Failed(MissingField);
      }
      var row := Position(market, account, symbol, strategy, side, stop, PendingEntry, 0, 0, 0.0, 0.0);
      if Clashes(positions, |positions|, row) {
        return Failed(UniqueIndex);
      }
      reply := Created(|positions|);
      positions := positions + [row];
    }

    method AbandonPendingStrategyPosition(id: nat) returns (reply: Reply)
      requires Valid()
      modifies this`positions
      ensures Valid()
      ensures Outcome(Contents(), reply) == Steps.AbandonPendingStrategyPosition(old(Contents()), id)
    {
      Invariant.AbandonKeepsValid(Contents(), id);
      if id < |positions| && positions[id].status == PendingEntry
         && positions[id].filledQty == 0 && positions[id].remainingQty == 0 {
        positions := positions[id := positions[id].(status := Closed)];
        return Updated(true);
      }
      reply := Updated(false);
    }

    method CreateManagedOrder(
      key: string, owner: Option<nat>, market: string, symbol: string, strategy: string,
      action: string, qty: int, price: Option<real>) returns (reply: Reply)
      requires Valid()
      modifies this`orders, this`orderEvents
      ensures Valid()
      ensures Outcome(Contents(), reply)
              == Steps.CreateManagedOrder(old(Contents()), key, owner, market, symbol, strategy, action, qty, price)
    {
      Invariant.CreateOrderKeepsValid(Contents(), key, owner, market, symbol, strategy, action, qty, price);
      if market != KR {
        return Failed(UnknownMarket);
      }
      if key == "" || symbol == "" || strategy == "" || action == "" {
        return Failed(MissingField);
      }
      if qty <= 0 {
        return Failed(NonPositiveQuantity);
      }
      if exists i :: 0 <= i < |orders| && orders[i].clientKey == key {
        return Failed(UniqueIndex);
      }
      var id := |orders|;
      orders := orders
        + [Order(key, owner, market, symbol, strategy, action, qty, price, IntentCreated, 0, 0.0, None)];
      orderEvents := orderEvents + [OrderEvent(id, None, IntentCreated, None)];
      reply := Created(id);
    }

    method BindManagedOrderApproval(id: nat, approval: int, expected: OrderStatus) returns (reply: Reply)
      requires Valid()
      modifies this`orders
      ensures Valid()
      ensures Outcome(Contents(), reply) == Steps.BindManagedOrderApproval(old(Contents()), id, approval, expected)
    {
      Invariant.BindKeepsValid(Contents(), id, approval, expected);
      if id < |orders| && orders[id].status == expected && orders[id].approval.None? {
        orders := orders[id := orders[id].(approval := Some(approval))];
        return Updated(true);
      }
      reply := Updated(false);
    }

    method TransitionManagedOrder(id: nat, expected: OrderStatus, next: OrderStatus) returns (reply: Reply)
      requires Valid()
      modifies this`orders, this`orderEvents
      ensures Valid()
      ensures Outcome(Contents(), reply) == Steps.TransitionManagedOrder(old(Contents()), id, expected, next)
    {
      Invariant.TransitionKeepsValid(Contents(), id, expected, next);
      if id >= |orders| || orders[id].status != expected {
        return Updated(false);
      }
      orders := orders[id := orders[id].(status := next)];
      orderEvents := orderEvents + [OrderEvent(id, Some(expected), next, None)];
      reply := Updated(true);
    }

    // ---- fills ----

    /** Create or expand the stop of a position and log the request; `row` is the stop's row. */
    method UpsertStop(id: nat, qty: nat, stop: real) returns (row: nat)
      modifies this`protections, this`protectionEvents
      ensures Contents() == Steps.UpsertStop(old(Contents()), id, qty, stop)
      ensures var found := FindProtection(old(protections), id);
        row == if found.Some? then found.value else |old(protections)|
    {
      var found := FindProtection(protections, id);
      if found.Some? {
        row := found.value;
        var existing := protections[row];
        var status := if existing.protectedQty > 0 then StopAmendPending else StopPending;
        protections := protections[row := existing.(requiredQty := qty, currentStop := stop, status := status)];
        protectionEvents := protectionEvents
          + [ProtectionEvent(row, Some(existing.status), status, qty, existing.protectedQty, stop)];
      } else {
        row := |protections|;
        protections := protections + [Protection(id, qty, 0, stop, stop, StopPending)];
        protectionEvents := protectionEvents + [ProtectionEvent(row, None, StopPending, qty, 0, stop)];
      }
    }

    /** The buy side of a fill: the position row is written first and put back when a check fails. */
    method BuyFill(id: nat, qty: nat, price: real) returns (failure: Option<Error>)
      requires id < |positions| && 0 < qty
      modifies this`positions, this`protections, this`protectionEvents
      ensures match Steps.BuyFill(old(Contents()), id, qty, price)
              case Ok(db) => failure == None && Contents() == db
              case Err(e) => failure == Some(e) && Contents() == old(Contents())
    {
      var saved := positions;
      var position := positions[id];
      var newQty := position.remainingQty + qty;
      positions := positions[id := position.(
        filledQty := position.filledQty + qty, remainingQty := newQty,
        averagePrice := Average(position.averagePrice, position.remainingQty, price, qty), status := Open)];
      if Clashes(saved, id, positions[id]) {
        positions := saved;
        return Some(UniqueIndex);
      }
      var stop := position.stopPrice;
      if stop <= 0.0 {
        positions := saved;
        return Some(NoHardStop);
      }
      var found := FindProtection(protections, id);
      if found.Some? && stop < protections[found.value].currentStop {
        positions := saved;
        return Some(StopMovedDown);
      }
      var _ := UpsertStop(id, newQty, stop);
      failure := None;
    }

    method SellFill(id: nat, qty: nat, price: real) returns (failure: Option<Error>)
      requires id < |positions|
      modifies this`positions, this`protections, this`protectionEvents
      ensures match Steps.SellFill(old(Contents()), id, qty, price)
              case Ok(db) => failure == None && Contents() == db
              case Err(e) => failure == Some(e) && Contents() == old(Contents())
    {
      var saved := positions;
      var position := positions[id];
      if qty > position.remainingQty {
        return Some(SellExceedsOwned);
      }
      var newQty := position.remainingQty - qty;
      positions := positions[id := position.(
        remainingQty := newQty,
        realizedPnl := position.realizedPnl + (price - position.averagePrice) * qty as real,
        status := if newQty == 0 then Closed else Open)];
      if Clashes(saved, id, positions[id]) {
        positions := saved;
        return Some(UniqueIndex);
      }
      assert positions[id] == Steps.Sold(position, qty, price);
      var found := FindProtection(protections, id);
      if found.Some? {
        var protection := protections[found.value];
        var status := if newQty == 0 then StopCancelPending else StopAmendPending;
        protections := protections[found.value :=
          protection.(requiredQty := if newQty > 0 then newQty else protection.requiredQty, status := status)];
        protectionEvents := protectionEvents
          + [ProtectionEvent(found.value, Some(protection.status), status, newQty, protection.protectedQty,
                             protection.currentStop)];
      }
      failure := None;
    }

    /** A fill that is not a redelivery: check, attribute to the owner, then record. */
    method NewFill(id: nat, qty: nat, price: real, key: string) returns (reply: Reply)
      requires id < |orders| && 0 < qty
      modifies this
      ensures Outcome(Contents(), reply) == Steps.NewFill(old(Contents()), id, qty, price, key)
    {
      var order := orders[id];
      if !Steps.Fillable(order.status) {
        return Failed(FillNotAllowed);
      }
      if qty > order.requestedQty - order.filledQty {
        return Failed(FillTooLarge);
      }
      if order.position.None? {
        return Failed(NoOwner);
      }
      var owner := order.position.value;
      if owner >= |positions| {
        return Failed(OwnerNotFound);
      }
      if !Steps.Owns(positions[owner], order) {
        return Failed(OwnerMismatch);
      }
      var failure;
      if order.action == "buy" {
        failure := BuyFill(owner, qty, price);
      } else if order.action == "sell" {
        failure := SellFill(owner, qty, price);
      } else {
        failure := Some(NotBuyOrSell);
      }
      if failure.Some? {
        return Failed(failure.value);
      }
      var newFilled := order.filledQty + qty;
      var newStatus := if newFilled == order.requestedQty then Filled else PartiallyFilled;
      orders := orders[id := order.(
        filledQty := newFilled, averageFillPrice := Average(order.averageFillPrice, order.filledQty, price, qty),
        status := newStatus)];
      if key != "" {
        fills := fills + [Fill(id, key, qty, price)];
      }
      orderEvents := orderEvents + [OrderEvent(id, Some(order.status), newStatus, Some(Trade(qty, price)))];
      reply := FillReport(owner, newFilled, newStatus, positions[owner].remainingQty, false);
    }

    method ApplyManagedFill(id: nat, qty: int, price: real, key: string) returns (reply: Reply)
      requires Valid()
      modifies this
      ensures Valid()
      ensures Outcome(Contents(), reply) == Steps.ApplyManagedFill(old(Contents()), id, qty, price, key)
    {
      Invariant.ApplyFillKeepsValid(Contents(), id, qty, price, key);
      if qty <= 0 || price <= 0.0 {
        return Failed(NonPositiveFill);
      }
      if id >= |orders| {
        return Failed(OrderNotFound);
      }
      var order := orders[id];
      if key != "" {
        var prior := FindFill(fills, id, key);
        if prior.Some? {
          if fills[prior.value].qty != qty || fills[prior.value].price != price {
            return Failed(ConflictingFill);
          }
          assert Invariant.OrderRow(order, positions);
          var owner := order.position.value;
          return FillReport(owner, order.filledQty, order.status, positions[owner].remainingQty, true);
        }
      }
      reply := NewFill(id, qty, price, key);
    }

    // ---- hard stops ----

    method RequestPositionProtection(id: nat, qty: int, stop: real) returns (reply: Reply)
      requires Valid()
      modifies this`protections, this`protectionEvents
      ensures Valid()
      ensures Outcome(Contents(), reply) == Steps.RequestPositionProtection(old(Contents()), id, qty, stop)
    {
      Invariant.RequestStopKeepsValid(Contents(), id, qty, stop);
      if qty <= 0 || stop <= 0.0 {
        return Failed(NonPositiveStop);
      }
      if id >= |positions| {
        return Failed(PositionNotFound);
      }
      if positions[id].side != Long {
        return Failed(NotLong);
      }
      if qty != positions[id].remainingQty {
        return Failed(NotOpenQuantity);
      }
      var found := FindProtection(protections, id);
      if found.Some? && stop < protections[found.value].currentStop {
        return Failed(StopMovedDown);
      }
      var row := UpsertStop(id, qty, stop);
      reply := ProtectionRow(row);
    }

    method ActivatePositionProtection(g: nat, broker: string, qty: int, stop: real) returns (reply: Reply)
      requires Valid()
      modifies this`protections, this`protectionEvents
      ensures Valid()
      ensures Outcome(Contents(), reply) == Steps.ActivatePositionProtection(old(Contents()), g, broker, qty, stop)
    {
      Invariant.ActivateKeepsValid(Contents(), g, broker, qty, stop);
      if broker == "" || qty <= 0 || stop <= 0.0 {
        return Failed(NonPositiveStop);
      }
      if g >= |protections| {
        return Failed(ProtectionNotFound);
      }
      var current := protections[g];
      if stop < current.currentStop {
        return Failed(StopMovedDown);
      }
      if qty > current.requiredQty {
        return Failed(ProtectedTooMuch);
      }
      var status := if qty == current.requiredQty then StopActive else StopPartial;
      protections := protections[g := current.(protectedQty := qty, currentStop := stop, status := status)];
      protectionEvents := protectionEvents
        + [ProtectionEvent(g, Some(current.status), status, current.requiredQty, qty, stop)];
      reply := ProtectionRow(g);
    }

    method FailPositionProtection(g: nat, error: string) returns (reply: Reply)
      requires Valid()
      modifies this`protections, this`protectionEvents
      ensures Valid()
      ensures Outcome(Contents(), reply) == Steps.FailPositionProtection(old(Contents()), g, error)
    {
      Invariant.FailKeepsValid(Contents(), g, error);
      if error == "" {
        return Failed(MissingField);
      }
      if g >= |protections| {
        return Failed(ProtectionNotFound);
      }
      var current := protections[g];
      protections := protections[g := current.(status := StopFailed)];
      protectionEvents := protectionEvents
        + [ProtectionEvent(g, Some(current.status), StopFailed, current.requiredQty, current.protectedQty,
                           current.currentStop)];
      reply := ProtectionRow(g);
    }

    method CancelPositionProtection(g: nat) returns (reply: Reply)
      requires Valid()
      modifies this`protections, this`protectionEvents
      ensures Valid()
      ensures Outcome(Contents(), reply) == Steps.CancelPositionProtection(old(Contents()), g)
    {
      Invariant.CancelKeepsValid(Contents(), g);
      if g >= |protections| {
        return Failed(ProtectionNotFound);
      }
      var current := protections[g];
      if current.position >= |positions| || positions[current.position].remainingQty > 0 {
        return Failed(StillOpen);
      }
      protections := protections[g := current.(status := StopCanceled, protectedQty := 0)];
      protectionEvents := protectionEvents
        + [ProtectionEvent(g, Some(current.status), StopCanceled, current.requiredQty, 0, current.currentStop)];
      reply := ProtectionRow(g);
    }

    method RequestPositionProtectionCancel(g: nat) returns (reply: Reply)
      requires Valid()
      modifies this`protections, this`protectionEvents
      ensures Valid()
      ensures Outcome(Contents(), reply) == Steps.RequestPositionProtectionCancel(old(Contents()), g)
    {
      Invariant.RequestCancelKeepsValid(Contents(), g);
      if g >= |protections| {
        return Failed(ProtectionNotFound);
      }
      var current := protections[g];
      if current.position >= |positions| || positions[current.position].remainingQty > 0 {
        return Failed(StillOpen);
      }
      if current.status == StopCancelPending || current.status == StopCanceled {
        return ProtectionRow(g);
      }
      protections := protections[g := current.(status := StopCancelPending)];
      protectionEvents := protectionEvents
        + [ProtectionEvent(g, Some(current.status), StopCancelPending, current.requiredQty, current.protectedQty,
                           current.currentStop)];
      reply := ProtectionRow(g);
    }

    /**
     The open long quantities that no recorded stop of exactly that quantity covers, by id; an empty
     market means all of them.
     */
    method ListUnprotectedStrategyPositions(market: string) returns (listed: Steps.Result<seq<nat>>)
      requires Valid()
      ensures listed.Err? <==> market != "" && market != KR
      ensures listed.Ok? ==>
                var ids := listed.value;
                (forall i, j :: 0 <= i < j < |ids| ==> ids[i] < ids[j])
                && forall id: nat :: id in ids <==> id < |positions| && Steps.Unprotected(Contents(), id)
                                                    && (market == "" || positions[id].market == market)
    {
      if market != "" && market != KR {
        return Steps.Err(UnknownMarket);
      }
      var ids: seq<nat> := [];
      for id := 0 to |positions|
        invariant forall i :: 0 <= i < |ids| ==> ids[i] < id
        invariant forall i, j :: 0 <= i < j < |ids| ==> ids[i] < ids[j]
        invariant forall k: nat :: k in ids <==> k < id && Steps.Unprotected(Contents(), k)
                                                 && (market == "" || positions[k].market == market)
      {
        if Steps.Unprotected(Contents(), id) && (market == "" || positions[id].market == market) {
          ids := ids + [id];
        }
      }
      listed := Steps.Ok(ids);
    }

    // ---- reservations ----

    /** The exposure checks, dimension by dimension. */
    method CheckExposure(request: Risk.Request, limits: Risk.Limits) returns (failure: Option<Error>)
      ensures failure == Risk.ExposureObstacle(Contents(), request, limits)
    {
      if request.symbol == "" || request.sector == "" {
        return Some(MissingField);
      }
      if limits.position < 0.0 || limits.market < 0.0 || limits.sector < 0.0 || limits.strategy < 0.0 {
        return Some(NegativeLimit);
      }
      var dimensions := [OnePosition, WholeMarket, OneSector, OneStrategy];
      for i := 0 to |dimensions|
        invariant forall j :: 0 <= j < i ==> !Risk.Exceeds(Contents(), limits, dimensions[j], request)
      {
        var d := dimensions[i];
        if Risk.UsedExposure(Contents(), d, request) + Risk.ExposureOf(request) > Risk.Limit(limits, d) {
          assert Risk.Exceeds(Contents(), limits, d, request);
          assert 0 < i ==> !Risk.Exceeds(Contents(), limits, dimensions[0], request);
          assert 1 < i ==> !Risk.Exceeds(Contents(), limits, dimensions[1], request);
          assert 2 < i ==> !Risk.Exceeds(Contents(), limits, dimensions[2], request);
          return Some(ExposureExceeded(d));
        }
      }
      assert !Risk.Exceeds(Contents(), limits, dimensions[0], request);
      assert !Risk.Exceeds(Contents(), limits, dimensions[1], request);
      assert !Risk.Exceeds(Contents(), limits, dimensions[2], request);
      assert !Risk.Exceeds(Contents(), limits, dimensions[3], request);
      failure := None;
    }

    method ReserveRiskBudget(
      request: Risk.Request, availableCash: real, riskLimit: real, limits: Option<Risk.Limits>)
      returns (reply: Reply)
      requires Valid()
      modifies this`reservations
      ensures Valid()
      ensures Outcome(Contents(), reply)
              == Risk.ReserveRiskBudget(old(Contents()), request, availableCash, riskLimit, limits)
    {
      Invariant.ReserveKeepsValid(Contents(), request, availableCash, riskLimit, limits);
      var refused := Risk.RequestObstacle(request, availableCash, riskLimit);
      if refused.Some? {
        return Failed(refused.value);
      }
      var row := Risk.NewReservation(request);
      var existing := Risk.FindReserved(reservations, row);
      if existing.Some? {
        if !Risk.SameAmounts(reservations[existing.value], row) {
          return Failed(DifferentAmounts);
        }
        return ReservationRow(existing.value, false);
      }
      if Risk.ReservedCash(Contents(), request.account, request.market) + request.cash > availableCash {
        return Failed(CashExceeded);
      }
      if Risk.ReservedRisk(Contents(), request.account, request.market) + request.risk > riskLimit {
        return Failed(RiskExceeded);
      }
      if limits.Some? {
        var failure := CheckExposure(request, limits.value);
        if failure.Some? {
          return Failed(failure.value);
        }
      }
      reply := ReservationRow(|reservations|, true);
      reservations := reservations + [row];
    }

    method ReleaseRiskReservation(id: nat, final: ReservationStatus) returns (reply: Reply)
      requires Valid()
      modifies this`reservations
      ensures Valid()
      ensures Outcome(Contents(), reply) == Risk.ReleaseRiskReservation(old(Contents()), id, final)
    {
      Invariant.ReleaseKeepsValid(Contents(), id, final);
      if final == Reserved {
        return Failed(NotAFinalStatus);
      }
      if id >= |reservations| {
        return Failed(ReservationNotFound);
      }
      if reservations[id].status == Reserved {
        reservations := reservations[id := reservations[id].(status := final)];
      }
      reply := ReservationRow(id, false);
    }
  }
}
