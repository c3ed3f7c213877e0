/**
 The unprotected listing as an alarm: what puts an open position on it, what takes it off again, and
 that a failed stop stays on it until somebody acts.
 */
module StopRules {
  import opened Wrappers
  import opened Tables
  import opened LedgerSteps
  import opened HardStops
  import opened LedgerInvariant
  import opened LedgerRuns
  import opened LedgerTheorems
  import opened FillRules

  /** Is a stop of exactly the open quantity acknowledged, and not failed since? */
  ghost predicate StopCovers(db: Db, id: nat)
    requires id < |db.positions|
  {
    exists g :: 0 <= g < |db.protections| && db.protections[g].position == id
                && (db.protections[g].status == StopActive || db.protections[g].status == StopAmendPending)
                && db.protections[g].protectedQty == db.positions[id].remainingQty
  }

  /** An open long quantity without such a stop. */
  ghost predicate Alarmed(db: Db, id: nat) {
    id < |db.positions|
    && db.positions[id].side == Long && db.positions[id].remainingQty > 0
    && !StopCovers(db, id)
  }

  /** In valid states the listing shows exactly the alarmed positions. */
  lemma ListingIsAlarm(db: Db, id: nat)
    requires Valid(db) && id < |db.positions|
    ensures Unprotected(db, id) <==> Alarmed(db, id)
  {
    assert PositionRow(db.positions[id]);
    var found := FindProtection(db.protections, id);
    if StopCovers(db, id) {
      var g :| 0 <= g < |db.protections| && db.protections[g].position == id
               && (db.protections[g].status == StopActive || db.protections[g].status == StopAmendPending)
               && db.protections[g].protectedQty == db.positions[id].remainingQty;
      FoundIffPresent(db.protections, id, g);
    }
  }

  /** What an accepted fill of position `id` leaves of its quantity. */
  function LeftAfter(db: Db, k: nat, id: nat, qty: int): int
    requires k < |db.orders| && id < |db.positions|
  {
    if db.orders[k].action == "buy" then db.positions[id].remainingQty + qty else db.positions[id].remainingQty - qty
  }

  /** Does some stop of the position protect exactly `qty`? */
  ghost predicate Protects(db: Db, id: nat, qty: int) {
    exists g :: 0 <= g < |db.protections| && db.protections[g].position == id && db.protections[g].protectedQty == qty
  }

  /** May the stop of the position be moved to `stop`? */
  ghost predicate MayMoveTo(db: Db, id: nat, stop: real) {
    0.0 < stop
    && forall g :: 0 <= g < |db.protections| && db.protections[g].position == id
                   ==> db.protections[g].currentStop <= stop
  }

  /**
   What takes an alarmed position off the listing: the broker's word for exactly the open quantity, a
   new request while exactly that quantity is still protected, or a fill that leaves nothing or just
   what is protected.
   */
  ghost predicate Lifts(db: Db, c: Command, id: nat)
    requires id < |db.positions|
  {
    match c
    case ActivateStop(g, broker, qty, stop) =>
      g < |db.protections| && db.protections[g].position == id && broker != "" && MayMoveTo(db, id, stop)
      && qty == db.positions[id].remainingQty
    case RequestStop(position, qty, stop) =>
      position == id && MayMoveTo(db, id, stop) && qty == db.positions[id].remainingQty && Protects(db, id, qty)
    case ApplyFill(k, qty, price, key) =>
      Takes(db, k, qty, price, key) && db.orders[k].position == Some(id)
      && (LeftAfter(db, k, id, qty) == 0 || Protects(db, id, LeftAfter(db, k, id, qty)))
    case _ => false
  }

  /**
   What puts an open long position on the listing: its stop failed, the broker acknowledged less than
   the open quantity, or a fill left another quantity than is protected.
   */
  ghost predicate Raises(db: Db, c: Command, id: nat)
    requires id < |db.positions|
  {
    db.positions[id].side == Long
    && match c
       case FailStop(g, error) =>
         g < |db.protections| && db.protections[g].position == id && error != "" && db.positions[id].remainingQty > 0
       case ActivateStop(g, broker, qty, stop) =>
         g < |db.protections| && db.protections[g].position == id && broker != "" && MayMoveTo(db, id, stop)
         && 0 < qty < db.positions[id].remainingQty
       case ApplyFill(k, qty, price, key) =>
         Takes(db, k, qty, price, key) && db.orders[k].position == Some(id)
         && LeftAfter(db, k, id, qty) > 0 && !Protects(db, id, LeftAfter(db, k, id, qty))
       case _ => false
  }

  /** Neither the position's quantity nor its stop moved. */
  lemma SameRowsSameAlarm(db: Db, after: Db, id: nat)
    requires id < |db.positions| <= |after.positions|
    requires after.positions[id].side == db.positions[id].side
    requires after.positions[id].remainingQty == db.positions[id].remainingQty
    requires |db.protections| == |after.protections|
    requires forall g :: 0 <= g < |db.protections| ==>
      after.protections[g].position == db.protections[g].position
      && (db.protections[g].position == id ==> after.protections[g] == db.protections[g])
    ensures Alarmed(after, id) <==> Alarmed(db, id)
  {
    forall g | 0 <= g < |db.protections| && db.protections[g].position == id
      ensures after.protections[g] == db.protections[g]
    {
    }
    if StopCovers(db, id) {
      var g :| 0 <= g < |db.protections| && db.protections[g].position == id
               && (db.protections[g].status == StopActive || db.protections[g].status == StopAmendPending)
               && db.protections[g].protectedQty == db.positions[id].remainingQty;
      assert after.protections[g] == db.protections[g];
    }
    if StopCovers(after, id) {
      var g :| 0 <= g < |after.protections| && after.protections[g].position == id
               && (after.protections[g].status == StopActive || after.protections[g].status == StopAmendPending)
               && after.protections[g].protectedQty == after.positions[id].remainingQty;
      assert after.protections[g] == db.protections[g];
    }
  }

  /** With one stop per position, the alarm reads that one row. */
  lemma OneStopDecides(db: Db, id: nat, g: nat)
    requires id < |db.positions| && g < |db.protections| && db.protections[g].position == id
    requires OneStopEach(db.protections)
    ensures StopCovers(db, id)
            <==> (db.protections[g].status == StopActive || db.protections[g].status == StopAmendPending)
                 && db.protections[g].protectedQty == db.positions[id].remainingQty
    ensures forall qty: int :: Protects(db, id, qty) <==> db.protections[g].protectedQty == qty
    ensures forall stop: real :: MayMoveTo(db, id, stop) <==> 0.0 < stop && db.protections[g].currentStop <= stop
  {
  }

  lemma StopPutAlarm(db: Db, after: Db, id: nat, g: nat, row: Protection)
    requires id < |db.positions| && g < |db.protections| && db.protections[g].position == id && row.position == id
    requires OneStopEach(db.protections)
    requires after.positions == db.positions && after.protections == db.protections[g := row]
    ensures Alarmed(after, id)
            <==> db.positions[id].side == Long && db.positions[id].remainingQty > 0
                 && !((row.status == StopActive || row.status == StopAmendPending)
                      && row.protectedQty == db.positions[id].remainingQty)
  {
    assert OneStopEach(after.protections);
    OneStopDecides(after, id, g);
  }

  // ---- command by command ----

  /** The alarm after a command, in terms of the rows before it. */
  ghost predicate AlarmAfter(db: Db, c: Command, id: nat)
    requires id < |db.positions|
  {
    (Alarmed(db, id) && !Lifts(db, c, id)) || Raises(db, c, id)
  }

  lemma ActivateMovesAlarm(db: Db, c: Command, id: nat)
    requires StopsSound(db.protections, db.positions) && id < |db.positions| && c.ActivateStop?
    ensures Alarmed(Step(db, c).db, id) <==> AlarmAfter(db, c, id)
  {
    var g := c.protection;
    if g < |db.protections| {
      assert StopRow(db.protections[g], db.positions);
      var after := ActivatePositionProtection(db, g, c.broker, c.qty, c.stopPrice);
      if db.protections[g].position == id {
        OneStopDecides(db, id, g);
        if after.reply.ProtectionRow? {
          StopPutAlarm(db, after.db, id, g, after.db.protections[g]);
        }
      } else {
        SameRowsSameAlarm(db, after.db, id);
      }
    }
  }

  lemma FailMovesAlarm(db: Db, c: Command, id: nat)
    requires StopsSound(db.protections, db.positions) && id < |db.positions| && c.FailStop?
    ensures Alarmed(Step(db, c).db, id) <==> AlarmAfter(db, c, id)
  {
    var g := c.protection;
    if g < |db.protections| {
      var after := FailPositionProtection(db, g, c.error);
      if db.protections[g].position == id {
        OneStopDecides(db, id, g);
        if after.reply.ProtectionRow? {
          StopPutAlarm(db, after.db, id, g, after.db.protections[g]);
        }
      } else {
        SameRowsSameAlarm(db, after.db, id);
      }
    }
  }

  lemma CancelMovesAlarm(db: Db, c: Command, id: nat)
    requires StopsSound(db.protections, db.positions) && id < |db.positions| && (c.CancelStop? || c.RequestStopCancel?)
    ensures Alarmed(Step(db, c).db, id) <==> AlarmAfter(db, c, id)
  {
    var after := Step(db, c).db;
    if after != db {
      var g := c.protection;
      if db.protections[g].position == id {
        assert db.positions[id].remainingQty == 0 && after.positions == db.positions;
      } else {
        SameRowsSameAlarm(db, after, id);
      }
    }
  }

  lemma RequestMovesAlarm(db: Db, c: Command, id: nat)
    requires StopsSound(db.protections, db.positions) && id < |db.positions| && c.RequestStop?
    ensures Alarmed(Step(db, c).db, id) <==> AlarmAfter(db, c, id)
  {
    var out := RequestPositionProtection(db, c.position, c.qty, c.stopPrice);
    var found := FindProtection(db.protections, c.position);
    if c.position < |db.positions| && db.positions[c.position].remainingQty > 0 {
      assert found.Some?;
      var g := found.value;
      OneStopDecides(db, c.position, g);
      if out.reply.ProtectionRow? {
        if c.position == id {
          StopPutAlarm(db, out.db, id, g, out.db.protections[g]);
        } else {
          SameRowsSameAlarm(db, out.db, id);
        }
      }
    }
  }

  /** A fill of the position: what is left decides, for the stop keeps what it protects. */
  lemma OwnFillMovesAlarm(db: Db, k: nat, qty: int, price: real, key: string, id: nat)
    requires Valid(db) && id < |db.positions| && Takes(db, k, qty, price, key) && db.orders[k].position == Some(id)
    ensures Alarmed(ApplyManagedFill(db, k, qty, price, key).db, id)
            <==> db.positions[id].side == Long && LeftAfter(db, k, id, qty) > 0
                 && !Protects(db, id, LeftAfter(db, k, id, qty))
  {
    TakenFillLeaves(db, k, qty, price, key);
    ApplyFillKeepsValid(db, k, qty, price, key);
    OwnRowsMoveAlarm(db, ApplyManagedFill(db, k, qty, price, key).db, k, qty, price, key, id);
  }

  lemma OwnRowsMoveAlarm(db: Db, after: Db, k: nat, qty: nat, price: real, key: string, id: nat)
    requires StopsSound(db.protections, db.positions) && OneStopEach(after.protections)
    requires k < |db.orders| && db.orders[k].position == Some(id) && id < |db.positions|
    requires Leaves(db, after, k, qty, price, key)
    requires db.orders[k].action == "buy" || db.positions[id].remainingQty > 0
    ensures Alarmed(after, id)
            <==> db.positions[id].side == Long && LeftAfter(db, k, id, qty) > 0
                 && !Protects(db, id, LeftAfter(db, k, id, qty))
  {
    var found := FindProtection(db.protections, id);
    if found.Some? {
      OneStopDecides(db, id, found.value);
      OneStopDecides(after, id, found.value);
    } else {
      OneStopDecides(after, id, |db.protections|);
    }
  }

  lemma OtherFillMovesNoAlarm(db: Db, k: nat, qty: int, price: real, key: string, id: nat)
    requires Valid(db) && id < |db.positions| && Takes(db, k, qty, price, key) && db.orders[k].position != Some(id)
    ensures Alarmed(ApplyManagedFill(db, k, qty, price, key).db, id) <==> Alarmed(db, id)
  {
    var after := ApplyManagedFill(db, k, qty, price, key).db;
    TakenFillLeaves(db, k, qty, price, key);
    FillTouchesOnlyOwner(db, k, qty, price, key);
    FillGrows(db, k, qty, price, key);
    OthersRowsSameAlarm(db, after, id, k, db.orders[k].position.value);
  }

  lemma OthersRowsSameAlarm(db: Db, after: Db, id: nat, k: nat, owner: nat)
    requires OnlyOwnerMoved(db, after, k, owner) && StopsGrew(db, after) && id < |db.positions| && id != owner
    ensures Alarmed(after, id) <==> Alarmed(db, id)
  {
    forall g | 0 <= g < |after.protections| && after.protections[g].position == id
      ensures g < |db.protections| && after.protections[g] == db.protections[g]
    {
      assert g < |db.protections| ==> StopGrew(db.protections[g], after.protections[g]);
    }
    if StopCovers(db, id) {
      var g :| 0 <= g < |db.protections| && db.protections[g].position == id
               && (db.protections[g].status == StopActive || db.protections[g].status == StopAmendPending)
               && db.protections[g].protectedQty == db.positions[id].remainingQty;
      assert after.protections[g] == db.protections[g];
    }
  }

  lemma FillMovesAlarm(db: Db, c: Command, id: nat)
    requires Valid(db) && id < |db.positions| && c.ApplyFill?
    ensures Alarmed(Step(db, c).db, id) <==> AlarmAfter(db, c, id)
  {
    FillTakenIff(db, c.order, c.qty, c.price, c.fillKey);
    if Takes(db, c.order, c.qty, c.price, c.fillKey) {
      if db.orders[c.order].position == Some(id) {
        OwnFillMovesAlarm(db, c.order, c.qty, c.price, c.fillKey, id);
      } else {
        OtherFillMovesNoAlarm(db, c.order, c.qty, c.price, c.fillKey, id);
      }
    } else {
      NotTakenChangesNothing(db, c.order, c.qty, c.price, c.fillKey);
    }
  }

  lemma NotTakenChangesNothing(db: Db, k: nat, qty: int, price: real, key: string)
    requires !TakenAsNew(db, k, qty, price, key)
    ensures ApplyManagedFill(db, k, qty, price, key).db == db
  {
  }

  lemma RowCommandMovesNoAlarm(db: Db, c: Command, id: nat)
    requires id < |db.positions| && !StopCommand(c) && !c.ApplyFill?
    ensures Alarmed(Step(db, c).db, id) <==> AlarmAfter(db, c, id)
  {
    var after := Step(db, c).db;
    assert after.protections == db.protections && after.positions[id].remainingQty == db.positions[id].remainingQty;
    SameRowsSameAlarm(db, after, id);
  }

  /** After every command a position is on the listing exactly as its rows before say. */
  lemma AlarmMoves(db: Db, c: Command, id: nat)
    requires Valid(db) && id < |db.positions|
    ensures Alarmed(Step(db, c).db, id) <==> AlarmAfter(db, c, id)
  {
    match c
    case ActivateStop(_, _, _, _) => ActivateMovesAlarm(db, c, id);
    case FailStop(_, _) => FailMovesAlarm(db, c, id);
    case CancelStop(_) => CancelMovesAlarm(db, c, id);
    case RequestStopCancel(_) => CancelMovesAlarm(db, c, id);
    case RequestStop(_, _, _) => RequestMovesAlarm(db, c, id);
    case ApplyFill(_, _, _, _) => FillMovesAlarm(db, c, id);
    case _ => RowCommandMovesNoAlarm(db, c, id);
  }

  // ---- over runs ----

  lemma {:induction false} AlarmStaysOn(db: Db, run: seq<Command>, id: nat)
    requires Valid(db) && Alarmed(db, id)
    requires forall i :: 0 <= i < |run| ==>
      id < |Run(db, run[..i]).positions| && !Lifts(Run(db, run[..i]), run[i], id)
    ensures Alarmed(Run(db, run), id)
    decreases |run|
  {
    if run != [] {
      var next := Step(db, run[0]).db;
      assert Run(db, run[..0]) == db;
      AlarmMoves(db, run[0], id);
      StepKeepsValid(db, run[0]);
      forall i | 0 <= i < |run[1..]|
        ensures id < |Run(next, run[1..][..i]).positions| && !Lifts(Run(next, run[1..][..i]), run[1..][i], id)
      {
        assert run[..i + 1][0] == run[0] && run[..i + 1][1..] == run[1..][..i];
        assert Run(db, run[..i + 1]) == Run(next, run[1..][..i]);
      }
      AlarmStaysOn(next, run[1..], id);
    }
  }

  /**
   A failed stop is never mistaken for protection: once it is reported failed, an open long owner is
   on the listing, and stays there along every continuation until a command lifts the alarm.
   */
  lemma {:induction false} FailedStopStaysListed(a: seq<Command>, g: nat, error: string, b: seq<Command>)
    requires g < |Run(EMPTY_DB, a).protections| && error != ""
    requires var id := Run(EMPTY_DB, a).protections[g].position;
      id < |Run(EMPTY_DB, a).positions|
      && Run(EMPTY_DB, a).positions[id].side == Long && Run(EMPTY_DB, a).positions[id].remainingQty > 0
    requires var id := Run(EMPTY_DB, a).protections[g].position;
      var failed := Step(Run(EMPTY_DB, a), FailStop(g, error)).db;
      forall i :: 0 <= i < |b| ==> id < |Run(failed, b[..i]).positions| && !Lifts(Run(failed, b[..i]), b[i], id)
    ensures var id := Run(EMPTY_DB, a).protections[g].position;
      var later := Run(Step(Run(EMPTY_DB, a), FailStop(g, error)).db, b);
      id < |later.positions| && Unprotected(later, id)
  {
    var db := Run(EMPTY_DB, a);
    var id := db.protections[g].position;
    ReachableIsValid(a);
    AlarmMoves(db, FailStop(g, error), id);
    StepKeepsValid(db, FailStop(g, error));
    var failed := Step(db, FailStop(g, error)).db;
    AlarmStaysOn(failed, b, id);
    RunKeepsValid(failed, b);
    ListingIsAlarm(Run(failed, b), id);
  }
}
