/** The main results about the order ledger: each speaks of every run from the empty database. */
module LedgerTheorems {
  import opened Sums
  import opened Wrappers
  import opened Tables
  import opened LedgerSteps
  import opened RiskSteps
  import opened Books
  import opened EventLog
  import opened HardStops
  import opened RiskBudget
  import opened LedgerInvariant
  import opened LedgerRuns

  // ---- what reachable states are known for, table by table ----

  lemma ReachableBooks(run: seq<Command>)
    ensures BooksBalance(Run(EMPTY_DB, run).orders, Run(EMPTY_DB, run).positions)
  {
    ReachableIsValid(run);
  }

  lemma ReachableStops(run: seq<Command>)
    ensures StopsSound(Run(EMPTY_DB, run).protections, Run(EMPTY_DB, run).positions)
  {
    ReachableIsValid(run);
  }

  // ---- event sourcing ----

  /** The log, read in order, rebuilds every order and every position, along one chain of statuses. */
  lemma {:induction false} EventLogRebuildsTables(run: seq<Command>)
    ensures var db := Run(EMPTY_DB, run);
      (forall k: nat :: k < |db.orders| ==>
         ReplayOrder(db.orderEvents, k)
         == Built(db.orders[k].status, db.orders[k].filledQty, db.orders[k].averageFillPrice))
      && (forall id: nat :: id < |db.positions| ==>
            var p := db.positions[id];
            ReplayPosition(db.orderEvents, db.orders, id)
            == Held(p.filledQty, p.remainingQty, p.averagePrice, p.realizedPnl))
      && (forall i: nat, j: nat :: Consecutive(db.orderEvents, i, j) ==>
            db.orderEvents[j].from == Some(db.orderEvents[i].to))
      && (forall g: nat :: g < |db.protections| ==>
            var s := db.protections[g];
            ReplayStop(db.protectionEvents, g) == BuiltStop(s.status, s.requiredQty, s.protectedQty, s.currentStop))
  {
    ReachableIsValid(run);
    var db := Run(EMPTY_DB, run);
    StatusChain(db.orderEvents, db.orders);
    forall id: nat | id < |db.positions|
      ensures ReplayPosition(db.orderEvents, db.orders, id) == HoldingOf(db.positions[id])
    {
      assert ReplayPosition(db.orderEvents, db.orders, id) == HoldingOf(RowAt(db.positions, id));
    }
  }

  // ---- conservation ----

  lemma QuantitiesConserved(run: seq<Command>)
    ensures var db := Run(EMPTY_DB, run);
      (forall id: nat :: id < |db.positions| ==>
         db.positions[id].filledQty == FilledQty(db.orders, id, "buy")
         && db.positions[id].remainingQty == FilledQty(db.orders, id, "buy") - FilledQty(db.orders, id, "sell"))
      && (forall k: nat :: k < |db.orders| ==> db.orders[k].filledQty <= db.orders[k].requestedQty)
  {
    ReachableIsValid(run);
    var db := Run(EMPTY_DB, run);
    forall id: nat | id < |db.positions| ensures QuantityBalanced(db.orders, id, db.positions[id]) {
      assert Balanced(db.orders, id, RowAt(db.positions, id));
    }
    assert forall k :: 0 <= k < |db.orders| ==> OrderRow(db.orders[k], db.positions);
  }

  /** Realized profit is proceeds minus cost, corrected by what the shares still held cost. */
  lemma {:induction false} CashIdentity(run: seq<Command>, id: nat)
    requires id < |Run(EMPTY_DB, run).positions|
    ensures var db := Run(EMPTY_DB, run);
      CashBalanced(db.orders, id, db.positions[id])
      && (db.positions[id].remainingQty == 0 ==> CashedOut(db.orders, id, db.positions[id]))
  {
    ReachableBooks(run);
    BalancedCash(Run(EMPTY_DB, run).orders, Run(EMPTY_DB, run).positions, id);
  }

  /** A flat position has realized exactly its proceeds minus its cost. */
  ghost predicate CashedOut(orders: seq<Order>, id: nat, p: Position) {
    p.realizedPnl == FilledCash(orders, id, "sell") - FilledCash(orders, id, "buy")
  }

  lemma BalancedCash(orders: seq<Order>, positions: seq<Position>, id: nat)
    requires BooksBalance(orders, positions) && id < |positions|
    ensures CashBalanced(orders, id, positions[id])
    ensures positions[id].remainingQty == 0 ==> CashedOut(orders, id, positions[id])
  {
    assert Balanced(orders, id, RowAt(positions, id));
  }

  /** Between `db` and `after` only order `k`, position `id` and the stop of `id` may differ (logs aside). */
  ghost predicate OnlyOwnerMoved(db: Db, after: Db, k: nat, id: nat) {
    k < |db.orders| == |after.orders| && id < |db.positions| == |after.positions|
    && Owns(db.positions[id], db.orders[k])
    && (forall j :: 0 <= j < |db.orders| && j != k ==> after.orders[j] == db.orders[j])
    && (forall j :: 0 <= j < |db.positions| && j != id ==> after.positions[j] == db.positions[j])
    && after.reservations == db.reservations
    && |db.protections| <= |after.protections|
    && (forall g :: 0 <= g < |db.protections| && db.protections[g].position != id ==>
          after.protections[g] == db.protections[g])
    && (forall g :: |db.protections| <= g < |after.protections| ==> after.protections[g].position == id)
  }

  /** A fill moves its own order, that order's position and that position's stop, and nothing else. */
  lemma FillTouchesOnlyOwner(db: Db, k: nat, qty: int, price: real, key: string)
    requires ApplyManagedFill(db, k, qty, price, key).db != db
    ensures k < |db.orders| && db.orders[k].position.Some?
    ensures OnlyOwnerMoved(db, ApplyManagedFill(db, k, qty, price, key).db, k, db.orders[k].position.value)
  {
  }

  // ---- fills exactly once ----

  ghost predicate Recorded(db: Db, k: nat, qty: int, price: real, key: string) {
    exists i :: 0 <= i < |db.fills| && db.fills[i].order == k && db.fills[i].key == key
                && db.fills[i].qty == qty && db.fills[i].price == price
  }

  lemma AcceptedIsRecorded(db: Db, k: nat, qty: int, price: real, key: string)
    requires key != "" && ApplyManagedFill(db, k, qty, price, key).reply.FillReport?
    ensures Recorded(ApplyManagedFill(db, k, qty, price, key).db, k, qty, price, key)
  {
    var after := ApplyManagedFill(db, k, qty, price, key).db;
    if FindFill(db.fills, k, key).None? {
      AttributedShape(db, k, qty, price);
      var i := |after.fills| - 1;
      assert after.fills[i] == Fill(k, key, qty, price);
    }
  }

  /** What delivering anything under an already recorded key does. */
  lemma RedeliveryReply(db: Db, k: nat, qty: int, price: real, key: string, qty': int, price': real)
    requires Valid(db) && key != "" && Recorded(db, k, qty, price, key)
    ensures k < |db.orders| && db.orders[k].position.Some? && db.orders[k].position.value < |db.positions|
    ensures var id := db.orders[k].position.value;
      ApplyManagedFill(db, k, qty, price, key)
      == if price > 0.0 then
           Outcome(db, FillReport(id, db.orders[k].filledQty, db.orders[k].status, db.positions[id].remainingQty, true))
         else Outcome(db, Failed(NonPositiveFill))
    ensures qty' != qty || price' != price ==>
              ApplyManagedFill(db, k, qty', price', key).db == db
              && ApplyManagedFill(db, k, qty', price', key).reply.Failed?
  {
  }

  /**
   Exactly once: after a keyed fill is accepted, deleting any later redelivery of it from the run
   changes no table; the redelivery is answered as a duplicate and never fails; and the same key
   with another quantity or price is refused and changes nothing.
   */
  lemma {:induction false} RedeliveryChangesNothing(a: seq<Command>, f: Command, b: seq<Command>, c: seq<Command>)
    requires f.ApplyFill? && f.fillKey != ""
    requires Step(Run(EMPTY_DB, a), f).reply.FillReport?
    ensures Run(EMPTY_DB, a + [f] + b + [f] + c) == Run(EMPTY_DB, a + [f] + b + c)
    ensures var later := Run(EMPTY_DB, a + [f] + b);
      Step(later, f).reply.FillReport? && Step(later, f).reply.duplicate
      && forall g: Command :: g.ApplyFill? && g.order == f.order && g.fillKey == f.fillKey
                              && (g.qty != f.qty || g.price != f.price)
                              ==> Step(later, g).reply.Failed? && Step(later, g).db == later
  {
    var first := Run(EMPTY_DB, a);
    var accepted := Step(first, f).db;
    AcceptedIsRecorded(first, f.order, f.qty, f.price, f.fillKey);
    RunConcat(EMPTY_DB, a, [f]);
    assert Run(EMPTY_DB, a + [f]) == accepted;
    var later := Run(EMPTY_DB, a + [f] + b);
    RunConcat(EMPTY_DB, a + [f], b);
    RunGrows(accepted, b);
    ReachableIsValid(a + [f] + b);
    RecordedStays(accepted, later, f.order, f.qty, f.price, f.fillKey);
    RedeliveryReply(later, f.order, f.qty, f.price, f.fillKey, f.qty, f.price);
    RunConcat(EMPTY_DB, a + [f] + b, [f]);
    RunConcat(EMPTY_DB, a + [f] + b + [f], c);
    RunConcat(EMPTY_DB, a + [f] + b, c);
    forall g: Command | g.ApplyFill? && g.order == f.order && g.fillKey == f.fillKey
                        && (g.qty != f.qty || g.price != f.price)
      ensures Step(later, g).reply.Failed? && Step(later, g).db == later
    {
      RedeliveryReply(later, f.order, f.qty, f.price, f.fillKey, g.qty, g.price);
    }
  }

  lemma RecordedStays(a: Db, b: Db, k: nat, qty: int, price: real, key: string)
    requires a.fills <= b.fills && Recorded(a, k, qty, price, key)
    ensures Recorded(b, k, qty, price, key)
  {
  }

  lemma RecordedAtMostFilled(run: seq<Command>, k: nat)
    requires k < |Run(EMPTY_DB, run).orders|
    ensures var db := Run(EMPTY_DB, run);
      RecordedQty(db.fills, k) <= db.orders[k].filledQty
  {
    ReachableIsValid(run);
  }

  ghost predicate AllRecorded(db: Db) {
    forall k :: 0 <= k < |db.orders| ==> RecordedQty(db.fills, k) == db.orders[k].filledQty
  }

  lemma KeyedFillKeepsAllRecorded(db: Db, k: nat, qty: int, price: real, key: string)
    requires AllRecorded(db) && key != ""
    ensures AllRecorded(ApplyManagedFill(db, k, qty, price, key).db)
  {
  }

  /** A step that is no fill adds no filled quantity anywhere. */
  lemma OtherStepsFillNothing(db: Db, c: Command)
    requires !c.ApplyFill?
    ensures var after := Step(db, c).db;
      after.fills == db.fills && |db.orders| <= |after.orders|
      && (forall k :: 0 <= k < |db.orders| ==> after.orders[k].filledQty == db.orders[k].filledQty)
      && (forall k :: |db.orders| <= k < |after.orders| ==> after.orders[k].filledQty == 0)
  {
  }

  lemma KeyedStepKeepsAllRecorded(db: Db, c: Command)
    requires Valid(db) && AllRecorded(db)
    requires c.ApplyFill? ==> c.fillKey != ""
    ensures AllRecorded(Step(db, c).db)
  {
    if c.ApplyFill? {
      KeyedFillKeepsAllRecorded(db, c.order, c.qty, c.price, c.fillKey);
    } else {
      OtherStepsFillNothing(db, c);
      NoFillsBeyondOrders(db);
    }
  }

  lemma NoFillsBeyondOrders(db: Db)
    requires FillsSound(db.fills, db.orders)
    ensures forall k :: |db.orders| <= k ==> RecordedQty(db.fills, k) == 0
  {
    forall k | |db.orders| <= k ensures RecordedQty(db.fills, k) == 0 {
      forall f | f in db.fills ensures RecordedFor(k)(f) == 0 {
        var i :| 0 <= i < |db.fills| && db.fills[i] == f;
        assert db.fills[i].order < |db.orders|;
      }
      SumIntZero(db.fills, RecordedFor(k));
    }
  }

  lemma {:induction false} RunKeepsAllRecorded(db: Db, run: seq<Command>)
    requires Valid(db) && AllRecorded(db)
    requires forall i :: 0 <= i < |run| && run[i].ApplyFill? ==> run[i].fillKey != ""
    ensures AllRecorded(Run(db, run))
    decreases |run|
  {
    if run != [] {
      KeyedStepKeepsAllRecorded(db, run[0]);
      StepKeepsValid(db, run[0]);
      RunKeepsAllRecorded(Step(db, run[0]).db, run[1..]);
    }
  }

  /** When every delivery carries a key, the fill table accounts for every filled share. */
  lemma {:induction false} KeyedFillsAccountForAll(run: seq<Command>)
    requires forall i :: 0 <= i < |run| && run[i].ApplyFill? ==> run[i].fillKey != ""
    ensures AllRecorded(Run(EMPTY_DB, run))
  {
    EmptyIsValid();
    RunKeepsAllRecorded(EMPTY_DB, run);
  }

  // ---- hard stops ----

  /** Every open quantity is under exactly one stop request of exactly that quantity. */
  lemma OpenQuantityHasItsStop(run: seq<Command>, id: nat)
    requires var db := Run(EMPTY_DB, run); id < |db.positions| && db.positions[id].remainingQty > 0
    ensures var db := Run(EMPTY_DB, run);
      db.positions[id].status == Open
      && exists g: nat ::
           g < |db.protections| && db.protections[g].position == id
           && db.protections[g].requiredQty == db.positions[id].remainingQty
           && 0.0 < db.protections[g].initialStop <= db.protections[g].currentStop
           && db.protections[g].initialStop == db.positions[id].stopPrice
           && forall h: nat :: h < |db.protections| && db.protections[h].position == id ==> h == g
  {
    ReachableIsValid(run);
    var db := Run(EMPTY_DB, run);
    var g := FindProtection(db.protections, id).value;
    assert StopRow(db.protections[g], db.positions);
    assert PositionRow(db.positions[id]);
  }

  lemma StopStatusMeaning(run: seq<Command>, g: nat)
    requires g < |Run(EMPTY_DB, run).protections|
    ensures var db := Run(EMPTY_DB, run);
      var s := db.protections[g];
      s.position < |db.positions|
      && (s.status == StopActive ==> s.protectedQty == s.requiredQty)
      && (s.status == StopPartial ==> 0 < s.protectedQty < s.requiredQty)
      && (s.status == StopPending || s.status == StopCanceled ==> s.protectedQty == 0)
      && (s.status == StopCancelPending || s.status == StopCanceled ==> db.positions[s.position].remainingQty == 0)
  {
    ReachableIsValid(run);
    var db := Run(EMPTY_DB, run);
    assert StopRow(db.protections[g], db.positions);
  }

  /**
   The unprotected listing, both directions: an open long quantity is left out exactly when an
   acknowledged stop of exactly that quantity is on record.
   */
  lemma ListingOmitsOnlyCovered(run: seq<Command>, id: nat)
    requires var db := Run(EMPTY_DB, run);
      id < |db.positions| && db.positions[id].remainingQty > 0 && db.positions[id].side == Long
    ensures var db := Run(EMPTY_DB, run);
      !Unprotected(db, id)
      <==> exists g: nat ::
             g < |db.protections| && db.protections[g].position == id
             && db.protections[g].protectedQty == db.protections[g].requiredQty == db.positions[id].remainingQty
             && (db.protections[g].status == StopActive || db.protections[g].status == StopAmendPending)
             && 0.0 < db.positions[id].stopPrice <= db.protections[g].currentStop
  {
    ReachableIsValid(run);
    var db := Run(EMPTY_DB, run);
    var g := FindProtection(db.protections, id).value;
    assert StopRow(db.protections[g], db.positions);
    assert PositionRow(db.positions[id]);
  }

  /** Along any continuation of any run, no stop falls and no position changes hands. */
  lemma {:induction false} StopsNeverFall(a: seq<Command>, b: seq<Command>)
    ensures var before, after := Run(EMPTY_DB, a), Run(EMPTY_DB, a + b);
      |before.protections| <= |after.protections|
      && (forall g :: 0 <= g < |before.protections| ==>
            before.protections[g].currentStop <= after.protections[g].currentStop
            && before.protections[g].position == after.protections[g].position)
      && |before.positions| <= |after.positions|
      && (forall id :: 0 <= id < |before.positions| ==>
            before.positions[id].stopPrice == after.positions[id].stopPrice
            && SameOwner(before.positions[id], after.positions[id]))
  {
    RunConcat(EMPTY_DB, a, b);
    RunGrows(Run(EMPTY_DB, a), b);
    var before, after := Run(EMPTY_DB, a), Run(EMPTY_DB, a + b);
    assert forall g :: 0 <= g < |before.protections| ==> StopGrew(before.protections[g], after.protections[g]);
    assert forall id :: 0 <= id < |before.positions| ==> PositionGrew(before.positions[id], after.positions[id]);
  }

  /** When exactly a new buy fill of a matching order goes through. */
  lemma BuyFillAcceptedIff(db: Db, k: nat, qty: nat, price: real, key: string)
    requires Valid(db) && k < |db.orders| && 0 < qty && 0.0 < price
    requires db.orders[k].action == "buy" && FillObstacle(db, k, qty).None?
    requires key != "" ==> FindFill(db.fills, k, key).None?
    ensures var id := db.orders[k].position.value;
      var g := FindProtection(db.protections, id);
      ApplyManagedFill(db, k, qty, price, key).reply.FillReport?
      <==> 0.0 < db.positions[id].stopPrice
           && (g.Some? ==> db.protections[g.value].currentStop == db.positions[id].stopPrice)
           && (db.positions[id].status == Closed ==>
                 forall j :: 0 <= j < |db.positions| && j != id && IsActive(db.positions[j])
                             ==> !SameOwner(db.positions[j], db.positions[id]))
  {
    var id := db.orders[k].position.value;
    var g := FindProtection(db.protections, id);
    if g.Some? {
      assert StopRow(db.protections[g.value], db.positions);
    }
    OnlyReopeningClashes(db.positions, id, qty, price);
  }

  /** A sell of a matching order goes through exactly when the strategy owns the quantity. */
  lemma SellFillAcceptedIff(db: Db, k: nat, qty: nat, price: real, key: string)
    requires Valid(db) && k < |db.orders| && 0 < qty && 0.0 < price
    requires db.orders[k].action == "sell" && FillObstacle(db, k, qty).None?
    requires key != "" ==> FindFill(db.fills, k, key).None?
    ensures ApplyManagedFill(db, k, qty, price, key).reply.FillReport?
            <==> qty <= db.positions[db.orders[k].position.value].remainingQty
  {
    var id := db.orders[k].position.value;
    var p := db.positions[id];
    if qty <= p.remainingQty {
      assert PositionRow(p);
      forall j | 0 <= j < |db.positions| && j != id && IsActive(db.positions[j])
        ensures !SameOwner(db.positions[j], Sold(p, qty, price))
      {
        assert !SameOwner(db.positions[if j < id then j else id], db.positions[if j < id then id else j]);
      }
    }
  }

  /** The unique index can only abort a buy that would reopen a closed row. */
  lemma OnlyReopeningClashes(positions: seq<Position>, id: nat, qty: nat, price: real)
    requires PositionsSound(positions) && id < |positions| && 0 < qty
    ensures Clashes(positions, id, Bought(positions[id], qty, price))
            <==> positions[id].status == Closed
                 && exists j :: 0 <= j < |positions| && j != id && IsActive(positions[j])
                                && SameOwner(positions[j], positions[id])
  {
    var row := Bought(positions[id], qty, price);
    assert forall j :: 0 <= j < |positions| ==>
      (SameOwner(positions[j], row) <==> SameOwner(positions[j], positions[id]));
    if IsActive(positions[id]) {
      forall j | 0 <= j < |positions| && j != id && IsActive(positions[j])
        ensures !SameOwner(positions[j], positions[id])
      {
        assert !SameOwner(positions[if j < id then j else id], positions[if j < id then id else j]);
      }
    }
  }

  /**
   A consequence the code does not announce: the stop of a position row never changes, so once the
   broker acknowledged a higher stop, no later buy fill of that position is ever accepted again.
   */
  lemma {:induction false} RaisedStopEndsBuying(a: seq<Command>, b: seq<Command>, g: nat, f: Command)
    requires g < |Run(EMPTY_DB, a).protections|
    requires var db := Run(EMPTY_DB, a);
      db.protections[g].position < |db.positions|
      && db.positions[db.protections[g].position].stopPrice < db.protections[g].currentStop
    requires var later := Run(EMPTY_DB, a + b);
      f.ApplyFill? && f.order < |later.orders| && later.orders[f.order].action == "buy"
      && later.orders[f.order].position == Some(Run(EMPTY_DB, a).protections[g].position)
    ensures var later := Run(EMPTY_DB, a + b);
      Step(later, f).db == later
      && (Step(later, f).reply.Failed? || (Step(later, f).reply.FillReport? && Step(later, f).reply.duplicate))
  {
    StopsNeverFall(a, b);
    ReachableIsValid(a + b);
    var later := Run(EMPTY_DB, a + b);
    var id := Run(EMPTY_DB, a).protections[g].position;
    FoundIffPresent(later.protections, id, g);
    var k := f.order;
    if f.qty > 0 && f.price > 0.0 && (f.fillKey == "" || FindFill(later.fills, k, f.fillKey).None?)
       && FillObstacle(later, k, f.qty).None? {
      BuyFillAcceptedIff(later, k, f.qty, f.price, f.fillKey);
    }
  }

  /** In a reachable state an explicit stop request only ever amends: every open quantity has its row. */
  lemma StopRequestNeverCreates(run: seq<Command>, id: nat, qty: int, stop: real)
    requires RequestPositionProtection(Run(EMPTY_DB, run), id, qty, stop).reply.ProtectionRow?
    ensures var db := Run(EMPTY_DB, run);
      |RequestPositionProtection(db, id, qty, stop).db.protections| == |db.protections|
  {
    ReachableStops(run);
  }

  // ---- lifecycle ----

  lemma PositionLifecycle(run: seq<Command>)
    ensures var db := Run(EMPTY_DB, run);
      (forall id :: 0 <= id < |db.positions| ==>
         (db.positions[id].status == Open <==> db.positions[id].remainingQty > 0)
         && (db.positions[id].status == PendingEntry ==> db.positions[id].filledQty == 0))
      && (forall i, j :: 0 <= i < j < |db.positions| && IsActive(db.positions[i]) && IsActive(db.positions[j])
                         ==> !SameOwner(db.positions[i], db.positions[j]))
  {
    ReachableIsValid(run);
    var db := Run(EMPTY_DB, run);
    assert forall id :: 0 <= id < |db.positions| ==> PositionRow(db.positions[id]);
  }

  // ---- risk budget ----

  /** Does the command respect the account's caps (if it reserves for this account and market at all)? */
  predicate CallWithin(c: Command, account: string, market: string, cash: real, risk: real) {
    c.Reserve? && c.request.account == account && c.request.market == market
    ==> c.availableCash <= cash && c.riskLimit <= risk
  }

  lemma StepKeepsBudget(db: Db, c: Command, account: string, market: string, cash: real, risk: real)
    requires Valid(db) && CallWithin(c, account, market, cash, risk)
    requires ReservedCash(db, account, market) <= cash && ReservedRisk(db, account, market) <= risk
    ensures var after := Step(db, c).db;
      ReservedCash(after, account, market) <= cash && ReservedRisk(after, account, market) <= risk
  {
    if c.Reserve? {
      ReserveSpends(db, c.request, c.availableCash, c.riskLimit, c.limits, account, market);
    } else if c.Release? {
      ReleaseReturns(db, c.reservation, c.final, account, market);
      assert c.reservation < |db.reservations| ==> ReservationRowOk(db.reservations[c.reservation]);
    } else {
      OtherStepsKeepReservations(db, c);
    }
  }

  lemma OtherStepsKeepReservations(db: Db, c: Command)
    requires !c.Reserve? && !c.Release?
    ensures Step(db, c).db.reservations == db.reservations
  {
  }

  lemma {:induction false} RunKeepsBudget(
    db: Db, run: seq<Command>, account: string, market: string, cash: real, risk: real)
    requires Valid(db) && forall i :: 0 <= i < |run| ==> CallWithin(run[i], account, market, cash, risk)
    requires ReservedCash(db, account, market) <= cash && ReservedRisk(db, account, market) <= risk
    ensures var after := Run(db, run);
      ReservedCash(after, account, market) <= cash && ReservedRisk(after, account, market) <= risk
    decreases |run|
  {
    if run != [] {
      StepKeepsBudget(db, run[0], account, market, cash, risk);
      StepKeepsValid(db, run[0]);
      RunKeepsBudget(Step(db, run[0]).db, run[1..], account, market, cash, risk);
    }
  }

  /**
   However reservations of different strategies and workers interleave with everything else, the
   active cash and risk of an account and market stay within the largest limits ever passed.
   */
  lemma {:induction false} BudgetNeverExceeded(
    run: seq<Command>, account: string, market: string, cash: real, risk: real)
    requires 0.0 <= cash && 0.0 <= risk
    requires forall i :: 0 <= i < |run| ==> CallWithin(run[i], account, market, cash, risk)
    ensures var db := Run(EMPTY_DB, run);
      0.0 <= ReservedCash(db, account, market) <= cash && 0.0 <= ReservedRisk(db, account, market) <= risk
  {
    EmptyIsValid();
    RunKeepsBudget(EMPTY_DB, run, account, market, cash, risk);
    ReachableIsValid(run);
    ReservedIsNonNegative(Run(EMPTY_DB, run), account, market);
  }

  lemma ReservedIsNonNegative(db: Db, account: string, market: string)
    requires ReservationsSound(db.reservations)
    ensures 0.0 <= ReservedCash(db, account, market) && 0.0 <= ReservedRisk(db, account, market)
  {
    forall r | r in db.reservations ensures ReservationRowOk(r) {
      var i :| 0 <= i < |db.reservations| && db.reservations[i] == r;
    }
    SumRealNonNegative(db.reservations, CashTerm(account, market));
    SumRealNonNegative(db.reservations, RiskTerm(account, market));
  }

  /** One active reservation per key, and a row that left the active state never changes again. */
  lemma ReservationsAreFinal(a: seq<Command>, b: seq<Command>)
    ensures var before, after := Run(EMPTY_DB, a), Run(EMPTY_DB, a + b);
      OneActivePerKey(after.reservations)
      && |before.reservations| <= |after.reservations|
      && (forall i :: 0 <= i < |before.reservations| && before.reservations[i].status != Reserved ==>
            after.reservations[i] == before.reservations[i])
      && (forall i :: 0 <= i < |before.reservations| ==>
            after.reservations[i] == before.reservations[i].(status := after.reservations[i].status))
  {
    RunConcat(EMPTY_DB, a, b);
    RunGrows(Run(EMPTY_DB, a), b);
    ReachableIsValid(a + b);
    var before, after := Run(EMPTY_DB, a), Run(EMPTY_DB, a + b);
    forall i | 0 <= i < |before.reservations|
      ensures ReservationGrew(before.reservations[i], after.reservations[i])
    {
    }
  }

  /**
   Reserving again, at any later time while the first reservation is still active and under any
   limits, answers with that same row and changes no table.
   */
  lemma {:induction false} ReservingTwiceIsReservingOnce(a: seq<Command>, c: Command, b: seq<Command>, again: Command)
    requires c.Reserve? && Step(Run(EMPTY_DB, a), c).reply.ReservationRow?
    requires again.Reserve? && again.request == c.request
    requires again.availableCash >= 0.0 && again.riskLimit >= 0.0
    requires var later := Run(Step(Run(EMPTY_DB, a), c).db, b);
      var id := Step(Run(EMPTY_DB, a), c).reply.reservation;
      id < |later.reservations| && later.reservations[id].status == Reserved
    ensures var later := Run(Step(Run(EMPTY_DB, a), c).db, b);
      Step(later, again) == Outcome(later, ReservationRow(Step(Run(EMPTY_DB, a), c).reply.reservation, false))
  {
    var taken := Step(Run(EMPTY_DB, a), c).db;
    var id := Step(Run(EMPTY_DB, a), c).reply.reservation;
    var later := Run(taken, b);
    TakenReservation(Run(EMPTY_DB, a), c);
    RowStaysItself(taken, b, id);
    SoundLater(a, c, b);
    RepeatIsIdempotent(later, again.request, id, again.availableCash, again.riskLimit, again.limits);
  }

  lemma TakenReservation(db: Db, c: Command)
    requires c.Reserve? && Step(db, c).reply.ReservationRow?
    ensures var id := Step(db, c).reply.reservation;
      id < |Step(db, c).db.reservations| && Step(db, c).db.reservations[id] == NewReservation(c.request)
    ensures RequestObstacle(c.request, c.availableCash, c.riskLimit).None?
  {
  }

  lemma RowStaysItself(db: Db, run: seq<Command>, id: nat)
    requires id < |db.reservations|
    ensures id < |Run(db, run).reservations|
    ensures Run(db, run).reservations[id] == db.reservations[id].(status := Run(db, run).reservations[id].status)
  {
    RunGrows(db, run);
    assert ReservationGrew(db.reservations[id], Run(db, run).reservations[id]);
  }

  lemma SoundLater(a: seq<Command>, c: Command, b: seq<Command>)
    ensures ReservationsSound(Run(Step(Run(EMPTY_DB, a), c).db, b).reservations)
  {
    ReachableIsValid(a);
    StepKeepsValid(Run(EMPTY_DB, a), c);
    RunKeepsValid(Step(Run(EMPTY_DB, a), c).db, b);
  }
}
