/** When each remaining repository function writes, and the row it writes, in terms of the stored columns alone. */
module RowRules {
  import opened Wrappers
  import opened Tables
  import opened LedgerSteps
  import opened RiskSteps

  // ---- positions and orders ----

  /** A position is created unless an active one of the same owner exists. */
  lemma PositionCreatedIff(
    db: Db, market: string, account: string, symbol: string, strategy: string, side: Side, stop: real)
    ensures var out := CreateStrategyPosition(db, market, account, symbol, strategy, side, stop);
      (out.reply.Created?
       <==> market == "KR" && strategy != "" && symbol != ""
            && forall p :: p in db.positions && p.status != Closed ==>
                 !(p.market == market && p.account == account && p.symbol == symbol && p.strategy == strategy))
      && (out.reply.Created? ==>
            out.reply.id == |db.positions|
            && out.db.positions
               == db.positions
                  + [Position(market, account, symbol, strategy, side, stop, PendingEntry, 0, 0, 0.0, 0.0)])
      && out.db == db.(positions := out.db.positions)
  {
    var row := Position(market, account, symbol, strategy, side, stop, PendingEntry, 0, 0, 0.0, 0.0);
    if Clashes(db.positions, |db.positions|, row) {
      var i :| 0 <= i < |db.positions| && IsActive(db.positions[i]) && SameOwner(db.positions[i], row);
      assert db.positions[i] in db.positions;
    } else {
      forall p | p in db.positions && p.status != Closed
        ensures !(p.market == market && p.account == account && p.symbol == symbol && p.strategy == strategy)
      {
        var i :| 0 <= i < |db.positions| && db.positions[i] == p;
      }
    }
  }

  /** Only a shell that never held anything is abandoned. */
  lemma AbandonedIff(db: Db, id: nat)
    ensures var out := AbandonPendingStrategyPosition(db, id);
      (out.reply == Updated(true)
       <==> id < |db.positions| && db.positions[id].status == PendingEntry
            && db.positions[id].filledQty == 0 == db.positions[id].remainingQty)
      && out.db == (if out.reply == Updated(true)
                    then db.(positions := db.positions[id := db.positions[id].(status := Closed)]) else db)
  {
  }

  /** An order is created once per client key, for a positive quantity; its first event says so. */
  lemma OrderCreatedIff(
    db: Db, key: string, position: Option<nat>, market: string, symbol: string, strategy: string,
    action: string, qty: int, price: Option<real>)
    ensures var out := CreateManagedOrder(db, key, position, market, symbol, strategy, action, qty, price);
      (out.reply.Created?
       <==> market == "KR" && key != "" && symbol != "" && strategy != "" && action != "" && 0 < qty
            && forall o :: o in db.orders ==> o.clientKey != key)
      && (out.reply.Created? ==>
            out.reply.id == |db.orders|
            && out.db.orders
               == db.orders
                  + [Order(key, position, market, symbol, strategy, action, qty, price, IntentCreated, 0, 0.0, None)]
            && out.db.orderEvents == db.orderEvents + [OrderEvent(|db.orders|, None, IntentCreated, None)])
      && (!out.reply.Created? ==> out.db == db)
      && out.db == db.(orders := out.db.orders, orderEvents := out.db.orderEvents)
  {
    if exists i :: 0 <= i < |db.orders| && db.orders[i].clientKey == key {
      var i :| 0 <= i < |db.orders| && db.orders[i].clientKey == key;
      assert db.orders[i] in db.orders;
    } else {
      forall o | o in db.orders ensures o.clientKey != key {
        var i :| 0 <= i < |db.orders| && db.orders[i] == o;
      }
    }
  }

  /** An approval is bound once, and only while the order is in the expected status. */
  lemma ApprovalBoundIff(db: Db, id: nat, approval: int, expected: OrderStatus)
    ensures var out := BindManagedOrderApproval(db, id, approval, expected);
      (out.reply == Updated(true)
       <==> id < |db.orders| && db.orders[id].status == expected && db.orders[id].approval == None)
      && out.db == (if out.reply == Updated(true)
                    then db.(orders := db.orders[id := db.orders[id].(approval := Some(approval))]) else db)
  {
  }

  /** Compare and set, whatever the two statuses are, with the event that says so. */
  lemma TransitionedIff(db: Db, id: nat, expected: OrderStatus, next: OrderStatus)
    ensures var out := TransitionManagedOrder(db, id, expected, next);
      (out.reply == Updated(true) <==> id < |db.orders| && db.orders[id].status == expected)
      && out.db == (if out.reply == Updated(true)
                    then db.(orders := db.orders[id := db.orders[id].(status := next)],
                             orderEvents := db.orderEvents + [OrderEvent(id, Some(expected), next, None)])
                    else db)
  {
  }

  // ---- hard stops ----

  /** Stop row `g` becomes `row` and the stop log says so; nothing else moves. */
  ghost predicate StopBecomes(db: Db, after: Db, g: nat, row: Protection) {
    g < |db.protections|
    && after == db.(protections := db.protections[g := row], protectionEvents := after.protectionEvents)
    && after.protectionEvents
       == db.protectionEvents
          + [ProtectionEvent(g, Some(db.protections[g].status), row.status, row.requiredQty, row.protectedQty,
                             row.currentStop)]
  }

  /** The broker's acknowledgement: never below the stop on record, never for more than is asked for. */
  lemma StopActivatedIff(db: Db, g: nat, broker: string, qty: int, stop: real)
    ensures var out := ActivatePositionProtection(db, g, broker, qty, stop);
      (out.reply == ProtectionRow(g)
       <==> broker != "" && 0 < qty && 0.0 < stop && g < |db.protections|
            && db.protections[g].currentStop <= stop && qty <= db.protections[g].requiredQty)
      && (out.reply == ProtectionRow(g) ==>
            StopBecomes(db, out.db, g, db.protections[g].(
              protectedQty := qty, currentStop := stop,
              status := if qty < db.protections[g].requiredQty then StopPartial else StopActive)))
      && (out.reply != ProtectionRow(g) ==> out.reply.Failed? && out.db == db)
  {
  }

  /** A failure is stored as a failure, and changes nothing else of the row. */
  lemma StopFailedIff(db: Db, g: nat, error: string)
    ensures var out := FailPositionProtection(db, g, error);
      (out.reply == ProtectionRow(g) <==> error != "" && g < |db.protections|)
      && (out.reply == ProtectionRow(g) ==>
            StopBecomes(db, out.db, g, db.protections[g].(status := StopFailed)))
      && (out.reply != ProtectionRow(g) ==> out.reply.Failed? && out.db == db)
  {
  }

  /** A stop is canceled only under a flat position, and then protects nothing any more. */
  lemma StopCanceledIff(db: Db, g: nat)
    ensures var out := CancelPositionProtection(db, g);
      (out.reply == ProtectionRow(g)
       <==> g < |db.protections| && db.protections[g].position < |db.positions|
            && db.positions[db.protections[g].position].remainingQty == 0)
      && (out.reply == ProtectionRow(g) ==>
            StopBecomes(db, out.db, g, db.protections[g].(status := StopCanceled, protectedQty := 0)))
      && (out.reply != ProtectionRow(g) ==> out.reply.Failed? && out.db == db)
  {
  }

  /** A cancel is requested only under a flat position; asking again writes nothing. */
  lemma StopCancelRequestedIff(db: Db, g: nat)
    ensures var out := RequestPositionProtectionCancel(db, g);
      (out.reply == ProtectionRow(g)
       <==> g < |db.protections| && db.protections[g].position < |db.positions|
            && db.positions[db.protections[g].position].remainingQty == 0)
      && (out.reply == ProtectionRow(g) ==>
            if db.protections[g].status in {StopCancelPending, StopCanceled} then out.db == db
            else StopBecomes(db, out.db, g, db.protections[g].(status := StopCancelPending)))
      && (out.reply != ProtectionRow(g) ==> out.reply.Failed? && out.db == db)
  {
  }

  /** A request asks for exactly the open quantity of a long position, and never lowers its stop. */
  lemma StopRequestedIff(db: Db, id: nat, qty: int, stop: real)
    requires forall i, j :: 0 <= i < j < |db.protections| ==> db.protections[i].position != db.protections[j].position
    ensures var out := RequestPositionProtection(db, id, qty, stop);
      (out.reply.ProtectionRow?
       <==> 0 < qty && 0.0 < stop && id < |db.positions| && db.positions[id].side == Long
            && qty == db.positions[id].remainingQty
            && forall g :: 0 <= g < |db.protections| && db.protections[g].position == id
                           ==> db.protections[g].currentStop <= stop)
      && (out.reply.ProtectionRow? ==>
            forall g :: 0 <= g < |db.protections| && db.protections[g].position == id ==>
              StopBecomes(db, out.db, g, db.protections[g].(
                requiredQty := qty, currentStop := stop,
                status := if 0 < db.protections[g].protectedQty then StopAmendPending else StopPending)))
      && (!out.reply.ProtectionRow? ==> out.reply.Failed? && out.db == db)
  {
    forall g | 0 <= g < |db.protections| && db.protections[g].position == id
      ensures FindProtection(db.protections, id) == Some(g)
    {
    }
  }

  // ---- reservations ----

  /** An active reservation ends in the status that was asked for; an ended one is left alone. */
  lemma ReleasedIff(db: Db, id: nat, final: ReservationStatus)
    ensures var out := ReleaseRiskReservation(db, id, final);
      (out.reply == ReservationRow(id, false)
       <==> final in {Released, Consumed, ReservationExpired} && id < |db.reservations|)
      && out.db == (if final != Reserved && id < |db.reservations| && db.reservations[id].status == Reserved
                    then db.(reservations := db.reservations[id := db.reservations[id].(status := final)]) else db)
  {
  }
}
