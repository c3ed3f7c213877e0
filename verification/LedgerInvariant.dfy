/** The invariant tying all tables together, and why every single step keeps it. */
module LedgerInvariant {
  import opened Sums
  import opened Wrappers
  import opened Tables
  import opened LedgerSteps
  import opened RiskSteps
  import opened Books
  import opened EventLog
  import opened HardStops
  import opened RiskBudget

  // ---- positions ----

  ghost predicate PositionRow(p: Position) {
    (p.status == Open <==> p.remainingQty > 0)
    && p.status != ExitPending
    && (p.status == PendingEntry ==> p.filledQty == 0)
  }

  /** The partial unique index: one active position per market, account, symbol and strategy. */
  ghost predicate OneActiveOwner(positions: seq<Position>) {
    forall i, j :: 0 <= i < j < |positions| && IsActive(positions[i]) && IsActive(positions[j])
                   ==> !SameOwner(positions[i], positions[j])
  }

  ghost predicate PositionsSound(positions: seq<Position>) {
    (forall i :: 0 <= i < |positions| ==> PositionRow(positions[i])) && OneActiveOwner(positions)
  }

  lemma PutKeepsPositions(positions: seq<Position>, id: nat, row: Position)
    requires PositionsSound(positions) && id < |positions|
    requires PositionRow(row) && !Clashes(positions, id, row)
    ensures PositionsSound(positions[id := row])
  {
  }

  // ---- orders ----

  ghost predicate OrderRow(o: Order, positions: seq<Position>) {
    0 < o.requestedQty
    && o.filledQty <= o.requestedQty
    && (o.filledQty == 0 ==> o.averageFillPrice == 0.0)
    && (o.filledQty > 0 ==>
          o.position.Some? && o.position.value < |positions| && Owns(positions[o.position.value], o)
          && (o.action == "buy" || o.action == "sell"))
  }

  ghost predicate OrdersSound(orders: seq<Order>, positions: seq<Position>) {
    (forall k :: 0 <= k < |orders| ==> OrderRow(orders[k], positions))
    && (forall i, j :: 0 <= i < j < |orders| ==> orders[i].clientKey != orders[j].clientKey)
  }

  // ---- keyed fills ----

  ghost function RecordedFor(k: nat): Fill -> int {
    (f: Fill) => if f.order == k then f.qty else 0
  }

  /** Quantity recorded by keyed fills of order `k`. */
  ghost function RecordedQty(fills: seq<Fill>, k: nat): int {
    SumInt(fills, RecordedFor(k))
  }

  ghost predicate FillsSound(fills: seq<Fill>, orders: seq<Order>) {
    (forall i :: 0 <= i < |fills| ==>
       fills[i].order < |orders| && 0 < fills[i].qty && fills[i].key != "" && 0 < orders[fills[i].order].filledQty)
    && (forall i, j :: 0 <= i < j < |fills| ==> !(fills[i].order == fills[j].order && fills[i].key == fills[j].key))
    && (forall k :: 0 <= k < |orders| ==> RecordedQty(fills, k) <= orders[k].filledQty)
  }

  lemma GrowingOrdersKeepFills(fills: seq<Fill>, before: seq<Order>, after: seq<Order>)
    requires FillsSound(fills, before) && |before| <= |after|
    requires forall k :: 0 <= k < |before| ==> before[k].filledQty <= after[k].filledQty
    ensures FillsSound(fills, after)
  {
    forall k | 0 <= k < |after| ensures RecordedQty(fills, k) <= after[k].filledQty {
      if k >= |before| {
        forall f | f in fills ensures RecordedFor(k)(f) == 0 {
          var i :| 0 <= i < |fills| && fills[i] == f;
          assert fills[i].order < |before|;
        }
        SumIntZero(fills, RecordedFor(k));
      }
    }
  }

  lemma RecordedAppend(fills: seq<Fill>, f: Fill, k: nat)
    ensures RecordedQty(fills + [f], k) == RecordedQty(fills, k) + (if f.order == k then f.qty else 0)
  {
  }

  lemma AppendKeepsFills(fills: seq<Fill>, before: seq<Order>, after: seq<Order>, f: Fill)
    requires FillsSound(fills, before) && |before| == |after| && f.order < |before| && 0 < f.qty && f.key != ""
    requires FindFill(fills, f.order, f.key).None?
    requires forall k :: 0 <= k < |before| ==>
      after[k].filledQty == before[k].filledQty + (if f.order == k then f.qty else 0)
    ensures FillsSound(fills + [f], after)
  {
    forall k | 0 <= k < |after| ensures RecordedQty(fills + [f], k) <= after[k].filledQty {
      RecordedAppend(fills, f, k);
      assert RecordedQty(fills, k) <= before[k].filledQty;
    }
  }

  lemma NewFillKeepsFills(fills: seq<Fill>, orders: seq<Order>, k: nat, qty: nat, price: real, key: string)
    requires FillsSound(fills, orders) && k < |orders| && 0 < qty
    requires key != "" ==> FindFill(fills, k, key).None?
    ensures FillsSound(if key == "" then fills else fills + [Fill(k, key, qty, price)],
                       orders[k := FilledOrder(orders[k], qty, price)])
  {
    var after := orders[k := FilledOrder(orders[k], qty, price)];
    if key == "" {
      GrowingOrdersKeepFills(fills, orders, after);
    } else {
      AppendKeepsFills(fills, orders, after, Fill(k, key, qty, price));
    }
  }

  // ---- all of it ----

  ghost predicate Valid(db: Db) {
    PositionsSound(db.positions)
    && OrdersSound(db.orders, db.positions)
    && BooksBalance(db.orders, db.positions)
    && LogTellsAll(db.orderEvents, db.orders, db.positions)
    && FillsSound(db.fills, db.orders)
    && StopsSound(db.protections, db.positions)
    && LogBuildsStops(db.protectionEvents, db.protections)
    && ReservationsSound(db.reservations)
  }

  lemma NoOrdersNoBooks()
    ensures BooksBalance([], [])
  {
  }

  lemma EmptyLogsTellAll()
    ensures LogTellsAll([], [], []) && LogBuildsStops([], [])
  {
  }

  lemma EmptyTablesAreSound()
    ensures PositionsSound([]) && OrdersSound([], []) && StopsSound([], []) && ReservationsSound([])
  {
  }

  lemma NoFillsAreSound()
    ensures FillsSound([], [])
  {
  }

  lemma EmptyIsValid()
    ensures Valid(EMPTY_DB)
  {
    NoOrdersNoBooks();
    EmptyLogsTellAll();
    EmptyTablesAreSound();
    NoFillsAreSound();
  }

  /** Position rows that move no money and no open quantity disturb none of the other tables. */
  lemma QuietPositionsKeepValid(db: Db, positions: seq<Position>)
    requires Valid(db) && PositionsSound(positions) && |db.positions| <= |positions|
    requires forall id: nat :: SameMoney(RowAt(db.positions, id), RowAt(positions, id))
    requires forall id: nat :: id < |db.positions| ==>
      SameOwner(db.positions[id], positions[id]) && db.positions[id].stopPrice == positions[id].stopPrice
    ensures Valid(db.(positions := positions))
  {
    SameMoneyKeepsBooks(db.orders, db.positions, positions);
    SilentChangeKeepsLog(db.orderEvents, db.orders, db.positions, db.orders, positions);
    QuietStops(db.protections, db.positions, positions);
    forall k | 0 <= k < |db.orders| ensures OrderRow(db.orders[k], positions) {
      assert OrderRow(db.orders[k], db.positions);
    }
  }

  lemma QuietStops(protections: seq<Protection>, before: seq<Position>, after: seq<Position>)
    requires StopsSound(protections, before) && |before| <= |after|
    requires forall id: nat :: SameMoney(RowAt(before, id), RowAt(after, id))
    requires forall id: nat :: id < |before| ==> before[id].stopPrice == after[id].stopPrice
    ensures StopsSound(protections, after)
  {
    forall id: nat | id < |after|
      ensures after[id].remainingQty == if id < |before| then before[id].remainingQty else 0
    {
      assert SameMoney(RowAt(before, id), RowAt(after, id));
    }
    SamePositionsKeepStops(protections, before, after);
  }

  lemma CreatePositionKeepsValid(
    db: Db, market: string, account: string, symbol: string, strategy: string, side: Side, stop: real)
    requires Valid(db)
    ensures Valid(CreateStrategyPosition(db, market, account, symbol, strategy, side, stop).db)
  {
    var out := CreateStrategyPosition(db, market, account, symbol, strategy, side, stop);
    if out.db != db {
      QuietPositionsKeepValid(db, out.db.positions);
    }
  }

  lemma AbandonKeepsValid(db: Db, id: nat)
    requires Valid(db)
    ensures Valid(AbandonPendingStrategyPosition(db, id).db)
  {
    if Abandonable(db, id) {
      var row := db.positions[id].(status := Closed);
      PutKeepsPositions(db.positions, id, row);
      QuietPositionsKeepValid(db, db.positions[id := row]);
    }
  }

  lemma CreateOrderKeepsValid(
    db: Db, key: string, position: Option<nat>, market: string, symbol: string, strategy: string,
    action: string, qty: int, price: Option<real>)
    requires Valid(db)
    ensures Valid(CreateManagedOrder(db, key, position, market, symbol, strategy, action, qty, price).db)
  {
    var out := CreateManagedOrder(db, key, position, market, symbol, strategy, action, qty, price);
    if out.db != db {
      var row := out.db.orders[|db.orders|];
      NewOrderKeepsBooks(db.orders, db.positions, row);
      NewOrderKeepsLog(db.orderEvents, db.orders, db.positions, row);
      GrowingOrdersKeepFills(db.fills, db.orders, out.db.orders);
    }
  }

  lemma BindKeepsValid(db: Db, id: nat, approval: int, expected: OrderStatus)
    requires Valid(db)
    ensures Valid(BindManagedOrderApproval(db, id, approval, expected).db)
  {
    var out := BindManagedOrderApproval(db, id, approval, expected);
    if out.db != db {
      UnfilledChangeKeepsBooks(db.orders, db.positions, id, out.db.orders[id]);
      SilentChangeKeepsLog(db.orderEvents, db.orders, db.positions, out.db.orders, db.positions);
      GrowingOrdersKeepFills(db.fills, db.orders, out.db.orders);
    }
  }

  /** Any status may be stored: the invariant does not lean on a status graph. */
  lemma {:induction false} TransitionKeepsValid(db: Db, id: nat, expected: OrderStatus, next: OrderStatus)
    requires Valid(db)
    ensures Valid(TransitionManagedOrder(db, id, expected, next).db)
  {
    var out := TransitionManagedOrder(db, id, expected, next);
    if id < |db.orders| && db.orders[id].status == expected {
      UnfilledChangeKeepsBooks(db.orders, db.positions, id, out.db.orders[id]);
      TransitionKeepsLog(db.orderEvents, db.orders, db.positions, id, next);
      GrowingOrdersKeepFills(db.fills, db.orders, out.db.orders);
    }
  }

  // ---- fills ----

  /** What an accepted, new fill does to the position table. */
  lemma AttributedShape(db: Db, k: nat, qty: nat, price: real)
    requires k < |db.orders| && 0 < qty && FillObstacle(db, k, qty).None?
    requires AttributeFill(db, k, qty, price).Ok?
    ensures var moved := AttributeFill(db, k, qty, price).value;
      var id := db.orders[k].position.value;
      moved.positions == db.positions[id := moved.positions[id]]
      && Moved(db.positions[id], moved.positions[id], db.orders[k].action, qty, price)
      && !Clashes(db.positions, id, moved.positions[id])
      && moved.orders == db.orders && moved.fills == db.fills && moved.orderEvents == db.orderEvents
      && moved.reservations == db.reservations
  {
  }

  lemma AttributeKeepsStops(db: Db, k: nat, qty: nat, price: real)
    requires k < |db.orders| && 0 < qty && FillObstacle(db, k, qty).None?
    requires AttributeFill(db, k, qty, price).Ok?
    requires StopsSound(db.protections, db.positions) && LogBuildsStops(db.protectionEvents, db.protections)
    ensures var moved := AttributeFill(db, k, qty, price).value;
      StopsSound(moved.protections, moved.positions) && LogBuildsStops(moved.protectionEvents, moved.protections)
  {
    var id := db.orders[k].position.value;
    var p := db.positions[id];
    if db.orders[k].action == "buy" {
      BuyKeepsStops(db, id, qty, price);
      var row := Bought(p, qty, price);
      UpsertKeepsStopLog(db.(positions := db.positions[id := row]), id, row.remainingQty, p.stopPrice);
    } else {
      SellKeepsStops(db, id, qty, price);
      var row := Sold(p, qty, price);
      ReduceKeepsStopLog(db.(positions := db.positions[id := row]), id, row.remainingQty);
    }
  }

  lemma FillKeepsOrders(
    orders: seq<Order>, positions: seq<Position>, k: nat, id: nat, qty: nat, price: real, row: Position)
    requires OrdersSound(orders, positions) && k < |orders| && id < |positions| && 0 < qty
    requires orders[k].position == Some(id) && Owns(positions[id], orders[k])
    requires orders[k].filledQty + qty <= orders[k].requestedQty
    requires Moved(positions[id], row, orders[k].action, qty, price)
    ensures OrdersSound(orders[k := FilledOrder(orders[k], qty, price)], positions[id := row])
  {
  }

  lemma NewFillKeepsValid(db: Db, k: nat, qty: nat, price: real, key: string)
    requires Valid(db) && k < |db.orders| && 0 < qty
    requires key != "" ==> FindFill(db.fills, k, key).None?
    ensures Valid(NewFill(db, k, qty, price, key).db)
  {
    if FillObstacle(db, k, qty).None? && AttributeFill(db, k, qty, price).Ok? {
      var moved := AttributeFill(db, k, qty, price).value;
      var id := db.orders[k].position.value;
      var row := moved.positions[id];
      AttributedShape(db, k, qty, price);
      AttributeKeepsStops(db, k, qty, price);
      PutKeepsPositions(db.positions, id, row);
      FillKeepsOrders(db.orders, db.positions, k, id, qty, price, row);
      if db.orders[k].action == "buy" {
        BuyKeepsBooks(db.orders, db.positions, k, id, qty, price);
      } else {
        SellKeepsBooks(db.orders, db.positions, k, id, qty, price);
      }
      FillKeepsLog(db.orderEvents, db.orders, db.positions, k, id, qty, price, row);
      NewFillKeepsFills(db.fills, db.orders, k, qty, price, key);
    }
  }

  lemma ApplyFillKeepsValid(db: Db, k: nat, qty: int, price: real, key: string)
    requires Valid(db)
    ensures Valid(ApplyManagedFill(db, k, qty, price, key).db)
  {
    if qty > 0 && price > 0.0 && k < |db.orders| && (key == "" || FindFill(db.fills, k, key).None?) {
      NewFillKeepsValid(db, k, qty, price, key);
    }
  }

  // ---- stops ----

  lemma PutStopKeepsValid(db: Db, g: nat, row: Protection)
    requires Valid(db) && g < |db.protections|
    requires row.position == db.protections[g].position && row.requiredQty == db.protections[g].requiredQty
    requires db.protections[g].currentStop <= row.currentStop && row.initialStop == db.protections[g].initialStop
    requires StopRow(row, db.positions)
    ensures Valid(PutStop(db, g, row).db)
  {
    PutStopRow(db.protections, db.positions, g, row);
    PutKeepsStopLog(db.protectionEvents, db.protections,
      ProtectionEvent(g, Some(db.protections[g].status), row.status, row.requiredQty, row.protectedQty,
                      row.currentStop), g, row);
  }

  lemma RequestStopKeepsValid(db: Db, id: nat, qty: int, stop: real)
    requires Valid(db)
    ensures Valid(RequestPositionProtection(db, id, qty, stop).db)
  {
    var out := RequestPositionProtection(db, id, qty, stop);
    if out.reply.ProtectionRow? {
      UpsertKeepsStopLog(db, id, qty, stop);
      var g := FindProtection(db.protections, id).value;
      assert StopRow(db.protections[g], db.positions);
      PutStopRow(db.protections, db.positions, g, Requested(db.protections[g], qty, stop));
    }
  }

  lemma ActivateKeepsValid(db: Db, g: nat, broker: string, qty: int, stop: real)
    requires Valid(db)
    ensures Valid(ActivatePositionProtection(db, g, broker, qty, stop).db)
  {
    if ActivatePositionProtection(db, g, broker, qty, stop).reply.ProtectionRow? {
      var was := db.protections[g];
      assert StopRow(was, db.positions);
      PutStopKeepsValid(db, g, was.(protectedQty := qty, currentStop := stop,
                                    status := if qty == was.requiredQty then StopActive else StopPartial));
    }
  }

  lemma FailKeepsValid(db: Db, g: nat, error: string)
    requires Valid(db)
    ensures Valid(FailPositionProtection(db, g, error).db)
  {
    if g < |db.protections| {
      assert StopRow(db.protections[g], db.positions);
      PutStopKeepsValid(db, g, db.protections[g].(status := StopFailed));
    }
  }

  lemma CancelKeepsValid(db: Db, g: nat)
    requires Valid(db)
    ensures Valid(CancelPositionProtection(db, g).db)
  {
    if g < |db.protections| && OwnerFlat(db, g) {
      assert StopRow(db.protections[g], db.positions);
      PutStopKeepsValid(db, g, db.protections[g].(status := StopCanceled, protectedQty := 0));
    }
  }

  lemma RequestCancelKeepsValid(db: Db, g: nat)
    requires Valid(db)
    ensures Valid(RequestPositionProtectionCancel(db, g).db)
  {
    if g < |db.protections| && OwnerFlat(db, g) {
      assert StopRow(db.protections[g], db.positions);
      PutStopKeepsValid(db, g, db.protections[g].(status := StopCancelPending));
    }
  }

  // ---- reservations ----

  lemma ReserveMovesOnlyReservations(db: Db, q: Request, cash: real, risk: real, limits: Option<Limits>)
    ensures var out := ReserveRiskBudget(db, q, cash, risk, limits).db; out == db.(reservations := out.reservations)
  {
  }

  lemma ReserveKeepsValid(db: Db, q: Request, cash: real, risk: real, limits: Option<Limits>)
    requires Valid(db)
    ensures Valid(ReserveRiskBudget(db, q, cash, risk, limits).db)
  {
  }

  lemma ReleaseKeepsValid(db: Db, id: nat, final: ReservationStatus)
    requires Valid(db)
    ensures Valid(ReleaseRiskReservation(db, id, final).db)
  {
  }
}
