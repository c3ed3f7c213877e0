/** Which fills are taken, and what they leave behind, in terms of the stored columns alone. */
module FillRules {
  import opened Wrappers
  import opened Tables
  import opened LedgerSteps
  import Stops = HardStops
  import opened LedgerInvariant
  import opened LedgerRuns
  import opened LedgerTheorems

  /** Accepted as a new fill, not as a redelivery. */
  predicate TakenAsNew(db: Db, k: nat, qty: int, price: real, key: string) {
    var reply := ApplyManagedFill(db, k, qty, price, key).reply;
    reply.FillReport? && !reply.duplicate
  }

  /** The order is at the broker, fits the fill, and names an owner of its own symbol. */
  ghost predicate OrderTakes(db: Db, k: nat, qty: int) {
    k < |db.orders|
    && var o := db.orders[k];
    o.status in {Submitting, Submitted, PartiallyFilled, BrokerUnknown, CancelPending}
    && o.filledQty + qty <= o.requestedQty
    && o.position.Some? && o.position.value < |db.positions|
    && var p := db.positions[o.position.value];
    p.strategy == o.strategy && p.symbol == o.symbol && p.market == o.market
  }

  /** A buy needs a hard stop that was not raised meanwhile, and must not reopen beside an active row. */
  ghost predicate MayBuy(db: Db, id: nat)
    requires id < |db.positions|
  {
    var p := db.positions[id];
    0.0 < p.stopPrice
    && (forall g :: 0 <= g < |db.protections| && db.protections[g].position == id
                    ==> db.protections[g].currentStop <= p.stopPrice)
    && (p.status == Closed ==>
          forall j :: 0 <= j < |db.positions| && j != id && db.positions[j].status != Closed ==>
            var r := db.positions[j];
            !(r.market == p.market && r.account == p.account && r.symbol == p.symbol && r.strategy == p.strategy))
  }

  ghost predicate Takes(db: Db, k: nat, qty: int, price: real, key: string) {
    0 < qty && 0.0 < price
    && (key != "" ==> forall f :: f in db.fills ==> !(f.order == k && f.key == key))
    && OrderTakes(db, k, qty)
    && var o := db.orders[k];
    (o.action == "buy" && MayBuy(db, o.position.value))
    || (o.action == "sell" && qty <= db.positions[o.position.value].remainingQty)
  }

  lemma FreshKey(fills: seq<Fill>, k: nat, key: string)
    ensures FindFill(fills, k, key).None? <==> forall f :: f in fills ==> !(f.order == k && f.key == key)
  {
    if FindFill(fills, k, key).None? {
      forall f | f in fills ensures !(f.order == k && f.key == key) {
        var i :| 0 <= i < |fills| && fills[i] == f;
      }
    }
  }

  lemma BuyTaken(db: Db, k: nat, qty: nat, price: real, key: string)
    requires Valid(db) && 0 < qty && 0.0 < price && OrderTakes(db, k, qty) && db.orders[k].action == "buy"
    requires key != "" ==> FindFill(db.fills, k, key).None?
    ensures TakenAsNew(db, k, qty, price, key) <==> MayBuy(db, db.orders[k].position.value)
  {
    var id := db.orders[k].position.value;
    BuyFillAcceptedIff(db, k, qty, price, key);
    forall g | 0 <= g < |db.protections| && db.protections[g].position == id
      ensures FindProtection(db.protections, id) == Some(g)
      ensures db.positions[id].stopPrice <= db.protections[g].currentStop
    {
      StopOfPosition(db, g);
    }
  }

  lemma StopOfPosition(db: Db, g: nat)
    requires Valid(db) && g < |db.protections|
    ensures db.protections[g].position < |db.positions|
    ensures FindProtection(db.protections, db.protections[g].position) == Some(g)
    ensures db.positions[db.protections[g].position].stopPrice <= db.protections[g].currentStop
  {
    Stops.FoundIffPresent(db.protections, db.protections[g].position, g);
    assert Stops.StopRow(db.protections[g], db.positions);
  }

  /** Exactly when a fill is taken as new, whatever it is and whatever state it finds. */
  lemma FillTakenIff(db: Db, k: nat, qty: int, price: real, key: string)
    requires Valid(db)
    ensures TakenAsNew(db, k, qty, price, key) <==> Takes(db, k, qty, price, key)
  {
    FreshKey(db.fills, k, key);
    if 0 < qty && 0.0 < price && OrderTakes(db, k, qty) && (key != "" ==> FindFill(db.fills, k, key).None?) {
      if db.orders[k].action == "buy" {
        BuyTaken(db, k, qty, price, key);
      } else if db.orders[k].action == "sell" {
        SellFillAcceptedIff(db, k, qty, price, key);
      }
    }
  }

  // ---- what a taken fill leaves behind ----

  /** The order row: more filled at the blended price, complete exactly when nothing is left. */
  ghost predicate OrderFilled(o: Order, row: Order, qty: int, price: real) {
    row == o.(filledQty := row.filledQty, averageFillPrice := row.averageFillPrice, status := row.status)
    && 0 < row.filledQty == o.filledQty + qty
    && row.averageFillPrice
       == (o.averageFillPrice * o.filledQty as real + price * qty as real) / row.filledQty as real
    && row.status == if row.filledQty == o.requestedQty then Filled else PartiallyFilled
  }

  /** The position row of a buy: more shares at the blended price, and open whatever it was. */
  ghost predicate PositionBought(p: Position, row: Position, qty: int, price: real) {
    row == p.(filledQty := row.filledQty, remainingQty := row.remainingQty, averagePrice := row.averagePrice,
              status := Open)
    && row.filledQty == p.filledQty + qty && 0 < row.remainingQty == p.remainingQty + qty
    && row.averagePrice
       == (p.averagePrice * p.remainingQty as real + price * qty as real) / row.remainingQty as real
  }

  /** The position row of a sell: fewer shares, the gain realized, closed exactly when nothing is left. */
  ghost predicate PositionSold(p: Position, row: Position, qty: int, price: real) {
    row == p.(remainingQty := row.remainingQty, realizedPnl := row.realizedPnl, status := row.status)
    && row.remainingQty == p.remainingQty - qty
    && row.realizedPnl == p.realizedPnl + (price - p.averagePrice) * qty as real
    && row.status == if row.remainingQty == 0 then Closed else Open
  }

  /** The stop of a bought position asks for the whole quantity again, at the position's stop. */
  ghost predicate StopAsksFor(db: Db, after: Db, id: nat, qty: nat, stop: real) {
    (forall g :: 0 <= g < |db.protections| && db.protections[g].position == id ==>
       after.protections
       == db.protections[g := db.protections[g].(
            requiredQty := qty, currentStop := stop,
            status := if db.protections[g].protectedQty > 0 then StopAmendPending else StopPending)])
    && ((forall g :: 0 <= g < |db.protections| ==> db.protections[g].position != id) ==>
          after.protections == db.protections + [Protection(id, qty, 0, stop, stop, StopPending)])
  }

  /** The stop of a sold position asks for the rest, or to be canceled when there is none. */
  ghost predicate StopGivesUp(db: Db, after: Db, id: nat, qty: nat) {
    forall g :: 0 <= g < |db.protections| && db.protections[g].position == id ==>
      after.protections
      == db.protections[g := if qty == 0 then db.protections[g].(status := StopCancelPending)
                             else db.protections[g].(requiredQty := qty, status := StopAmendPending)]
  }

  lemma BoughtRows(db: Db, id: nat, qty: nat, price: real)
    requires Valid(db) && id < |db.positions| && 0 < qty && BuyFill(db, id, qty, price).Ok?
    ensures var after := BuyFill(db, id, qty, price).value;
      after.positions == db.positions[id := after.positions[id]]
      && PositionBought(db.positions[id], after.positions[id], qty, price)
      && StopAsksFor(db, after, id, after.positions[id].remainingQty, db.positions[id].stopPrice)
  {
    forall g | 0 <= g < |db.protections| && db.protections[g].position == id
      ensures FindProtection(db.protections, id) == Some(g)
    {
      StopOfPosition(db, g);
    }
  }

  lemma SoldRows(db: Db, id: nat, qty: nat, price: real)
    requires Valid(db) && id < |db.positions| && 0 < qty && SellFill(db, id, qty, price).Ok?
    ensures var after := SellFill(db, id, qty, price).value;
      after.positions == db.positions[id := after.positions[id]]
      && PositionSold(db.positions[id], after.positions[id], qty, price)
      && StopGivesUp(db, after, id, after.positions[id].remainingQty)
  {
    forall g | 0 <= g < |db.protections| && db.protections[g].position == id
      ensures FindProtection(db.protections, id) == Some(g)
    {
      StopOfPosition(db, g);
    }
  }

  /** The rows of order, owner and stop after a fill that was taken; the answer says so. */
  ghost predicate Leaves(db: Db, after: Db, k: nat, qty: nat, price: real, key: string)
    requires k < |db.orders| && db.orders[k].position.Some? && db.orders[k].position.value < |db.positions|
  {
    var o := db.orders[k];
    var id := o.position.value;
    k < |after.orders| && id < |after.positions|
    && after.orders == db.orders[k := after.orders[k]] && OrderFilled(o, after.orders[k], qty, price)
    && after.positions == db.positions[id := after.positions[id]]
    && (if o.action == "buy" then
          PositionBought(db.positions[id], after.positions[id], qty, price)
          && StopAsksFor(db, after, id, after.positions[id].remainingQty, db.positions[id].stopPrice)
        else
          PositionSold(db.positions[id], after.positions[id], qty, price)
          && StopGivesUp(db, after, id, after.positions[id].remainingQty))
    && after.orderEvents
       == db.orderEvents + [OrderEvent(k, Some(o.status), after.orders[k].status, Some(Trade(qty, price)))]
    && after.reservations == db.reservations
    && after.fills == if key == "" then db.fills else db.fills + [Fill(k, key, qty, price)]
  }

  lemma TakenIsAttributed(db: Db, k: nat, qty: int, price: real, key: string)
    requires TakenAsNew(db, k, qty, price, key)
    ensures 0 < qty && k < |db.orders| && FillObstacle(db, k, qty).None? && AttributeFill(db, k, qty, price).Ok?
    ensures var done := RecordFill(AttributeFill(db, k, qty, price).value, k, qty, price, key);
      var id := db.orders[k].position.value;
      ApplyManagedFill(db, k, qty, price, key)
      == Outcome(done, FillReport(id, done.orders[k].filledQty, done.orders[k].status,
                                  done.positions[id].remainingQty, false))
  {
  }

  lemma OwnerRows(db: Db, k: nat, qty: nat, price: real)
    requires Valid(db) && k < |db.orders| && 0 < qty && FillObstacle(db, k, qty).None?
    requires AttributeFill(db, k, qty, price).Ok?
    ensures var moved := AttributeFill(db, k, qty, price).value;
      var id := db.orders[k].position.value;
      moved.positions == db.positions[id := moved.positions[id]]
      && if db.orders[k].action == "buy" then
           PositionBought(db.positions[id], moved.positions[id], qty, price)
           && StopAsksFor(db, moved, id, moved.positions[id].remainingQty, db.positions[id].stopPrice)
         else
           PositionSold(db.positions[id], moved.positions[id], qty, price)
           && StopGivesUp(db, moved, id, moved.positions[id].remainingQty)
  {
    if db.orders[k].action == "buy" {
      BoughtRows(db, db.orders[k].position.value, qty, price);
    } else {
      SoldRows(db, db.orders[k].position.value, qty, price);
    }
  }

  lemma RecordedRows(db: Db, moved: Db, k: nat, qty: nat, price: real, key: string)
    requires k < |db.orders| && 0 < qty && moved.orders == db.orders && moved.fills == db.fills
    requires moved.orderEvents == db.orderEvents
    ensures var done := RecordFill(moved, k, qty, price, key);
      done == moved.(orders := done.orders, fills := done.fills, orderEvents := done.orderEvents)
      && |done.orders| == |db.orders|
      && done.orders == db.orders[k := done.orders[k]] && OrderFilled(db.orders[k], done.orders[k], qty, price)
      && done.orderEvents
         == db.orderEvents
            + [OrderEvent(k, Some(db.orders[k].status), done.orders[k].status, Some(Trade(qty, price)))]
      && done.fills == if key == "" then db.fills else db.fills + [Fill(k, key, qty, price)]
  {
  }

  /** The rows and the answer of every fill that is taken. */
  lemma TakenFillLeaves(db: Db, k: nat, qty: int, price: real, key: string)
    requires Valid(db) && Takes(db, k, qty, price, key)
    ensures var out := ApplyManagedFill(db, k, qty, price, key);
      var id := db.orders[k].position.value;
      Leaves(db, out.db, k, qty, price, key)
      && out.reply == FillReport(id, out.db.orders[k].filledQty, out.db.orders[k].status,
                                 out.db.positions[id].remainingQty, false)
  {
    FillTakenIff(db, k, qty, price, key);
    TakenIsAttributed(db, k, qty, price, key);
    var moved := AttributeFill(db, k, qty, price).value;
    AttributedShape(db, k, qty, price);
    OwnerRows(db, k, qty, price);
    RecordedRows(db, moved, k, qty, price, key);
  }

  /** `moved` differs from `db` in the status of order `k` and in the order log only. */
  ghost predicate OnlyStatusMoved(db: Db, moved: Db, k: nat) {
    k < |db.orders| == |moved.orders|
    && moved == db.(orders := moved.orders, orderEvents := moved.orderEvents)
    && moved.orders == db.orders[k := db.orders[k].(status := moved.orders[k].status)]
  }

  lemma SameGuards(db: Db, moved: Db, k: nat, qty: int, price: real, key: string)
    requires OnlyStatusMoved(db, moved, k)
    requires db.orders[k].status == Submitted
    requires moved.orders[k].status == CancelPending || moved.orders[k].status == BrokerUnknown
    ensures Takes(moved, k, qty, price, key) <==> Takes(db, k, qty, price, key)
  {
    assert moved.positions == db.positions && moved.protections == db.protections && moved.fills == db.fills;
    if k < |db.orders| && db.orders[k].position.Some? && db.orders[k].position.value < |db.positions| {
      assert MayBuy(moved, db.orders[k].position.value) <==> MayBuy(db, db.orders[k].position.value);
    }
  }

  lemma SameAttribution(db: Db, moved: Db, k: nat, qty: nat, price: real)
    requires OnlyStatusMoved(db, moved, k) && 0 < qty
    requires FillObstacle(db, k, qty).None? && FillObstacle(moved, k, qty).None?
    requires AttributeFill(db, k, qty, price).Ok? && AttributeFill(moved, k, qty, price).Ok?
    ensures var a, b := AttributeFill(db, k, qty, price).value, AttributeFill(moved, k, qty, price).value;
      b.positions == a.positions && b.protections == a.protections && b.fills == db.fills == a.fills
      && a.orders == db.orders && b.orders == moved.orders
  {
  }

  lemma SameRecord(a: Db, b: Db, k: nat, qty: nat, price: real, key: string)
    requires k < |a.orders| && 0 < qty && OnlyStatusMoved(a, a.(orders := b.orders), k) && a.fills == b.fills
    ensures RecordFill(b, k, qty, price, key).orders == RecordFill(a, k, qty, price, key).orders
    ensures RecordFill(b, k, qty, price, key).fills == RecordFill(a, k, qty, price, key).fills
  {
  }

  /**
   A late fill is not lost: an order that was submitted takes the same fills, to the same rows, after
   a cancel was requested or the broker's answer got lost.
   */
  lemma LateFillsAreTaken(db: Db, k: nat, next: OrderStatus, qty: int, price: real, key: string)
    requires Valid(db) && k < |db.orders| && db.orders[k].status == Submitted
    requires next == CancelPending || next == BrokerUnknown
    ensures var moved := TransitionManagedOrder(db, k, Submitted, next).db;
      (TakenAsNew(moved, k, qty, price, key) <==> TakenAsNew(db, k, qty, price, key))
      && (TakenAsNew(db, k, qty, price, key) ==>
            var now := ApplyManagedFill(db, k, qty, price, key).db;
      var late := ApplyManagedFill(moved, k, qty, price, key).db;
            late.orders == now.orders && late.positions == now.positions && late.protections == now.protections
            && late.fills == now.fills)
  {
    var moved := TransitionManagedOrder(db, k, Submitted, next).db;
    TransitionKeepsValid(db, k, Submitted, next);
    LateFillFrom(db, moved, k, qty, price, key);
  }

  lemma LateFillFrom(db: Db, moved: Db, k: nat, qty: int, price: real, key: string)
    requires Valid(db) && Valid(moved) && OnlyStatusMoved(db, moved, k) && db.orders[k].status == Submitted
    requires moved.orders[k].status == CancelPending || moved.orders[k].status == BrokerUnknown
    ensures TakenAsNew(moved, k, qty, price, key) <==> TakenAsNew(db, k, qty, price, key)
    ensures TakenAsNew(db, k, qty, price, key) ==>
              var now := ApplyManagedFill(db, k, qty, price, key).db;
      var late := ApplyManagedFill(moved, k, qty, price, key).db;
              late.orders == now.orders && late.positions == now.positions && late.protections == now.protections
              && late.fills == now.fills
  {
    FillTakenIff(db, k, qty, price, key);
    FillTakenIff(moved, k, qty, price, key);
    SameGuards(db, moved, k, qty, price, key);
    if TakenAsNew(db, k, qty, price, key) {
      SameOutcome(db, moved, k, qty, price, key);
    }
  }

  lemma SameOutcome(db: Db, moved: Db, k: nat, qty: int, price: real, key: string)
    requires OnlyStatusMoved(db, moved, k)
    requires TakenAsNew(db, k, qty, price, key) && TakenAsNew(moved, k, qty, price, key)
    ensures var now := ApplyManagedFill(db, k, qty, price, key).db;
      var late := ApplyManagedFill(moved, k, qty, price, key).db;
      late.orders == now.orders && late.positions == now.positions && late.protections == now.protections
      && late.fills == now.fills
  {
    TakenIsAttributed(db, k, qty, price, key);
    TakenIsAttributed(moved, k, qty, price, key);
    SameAttribution(db, moved, k, qty, price);
    SameRecord(AttributeFill(db, k, qty, price).value, AttributeFill(moved, k, qty, price).value, k, qty, price, key);
  }

  /** A refusal of the order's own checks names the first one that fails. */
  lemma OrderRefusalNamesFirst(db: Db, k: nat, qty: int, price: real, key: string)
    requires 0 < qty && 0.0 < price && (key != "" ==> forall f :: f in db.fills ==> !(f.order == k && f.key == key))
    ensures var reply := ApplyManagedFill(db, k, qty, price, key).reply;
      (reply == Failed(OrderNotFound) <==> k >= |db.orders|)
      && (k < |db.orders| ==>
            var o := db.orders[k];
            var open := o.status in {Submitting, Submitted, PartiallyFilled, BrokerUnknown, CancelPending};
            var fits := o.filledQty + qty <= o.requestedQty;
            var known := o.position.Some? && o.position.value < |db.positions|;
            (reply == Failed(FillNotAllowed) <==> !open)
            && (reply == Failed(FillTooLarge) <==> open && !fits)
            && (reply == Failed(NoOwner) <==> open && fits && o.position.None?)
            && (reply == Failed(OwnerNotFound) <==> open && fits && o.position.Some? && !known)
            && (reply == Failed(OwnerMismatch)
                <==> open && fits && known
                     && (db.positions[o.position.value].strategy != o.strategy
                         || db.positions[o.position.value].symbol != o.symbol
                         || db.positions[o.position.value].market != o.market)))
  {
    FreshKey(db.fills, k, key);
  }
}
