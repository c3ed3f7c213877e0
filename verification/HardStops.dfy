/** What must always be true of the hard-stop table and its event log. */
module HardStops {
  import opened Wrappers
  import opened Tables
  import opened LedgerSteps

  ghost predicate StopRow(g: Protection, positions: seq<Position>) {
    g.position < |positions|
    && var p := positions[g.position];
    0 < g.requiredQty
    && 0.0 < g.initialStop <= g.currentStop
    && g.initialStop == p.stopPrice
    && (p.remainingQty > 0 ==> g.requiredQty == p.remainingQty)
    && (g.status == StopActive ==> g.protectedQty == g.requiredQty)
    && (g.status == StopPartial ==> 0 < g.protectedQty < g.requiredQty)
    && (g.status == StopPending ==> g.protectedQty == 0)
    && (g.status == StopCanceled ==> g.protectedQty == 0)
    && (g.status == StopCancelPending || g.status == StopCanceled ==> p.remainingQty == 0)
  }

  ghost predicate OneStopEach(protections: seq<Protection>) {
    forall i, j :: 0 <= i < j < |protections| ==> protections[i].position != protections[j].position
  }

  /** Every open quantity has a stop row. */
  ghost predicate AllCovered(protections: seq<Protection>, positions: seq<Position>) {
    forall id: nat :: id < |positions| && positions[id].remainingQty > 0 ==> FindProtection(protections, id).Some?
  }

  ghost predicate StopsSound(protections: seq<Protection>, positions: seq<Position>) {
    (forall i :: 0 <= i < |protections| ==> StopRow(protections[i], positions))
    && OneStopEach(protections)
    && AllCovered(protections, positions)
  }

  lemma FoundIffPresent(protections: seq<Protection>, id: nat, i: nat)
    requires OneStopEach(protections) && i < |protections| && protections[i].position == id
    ensures FindProtection(protections, id) == Some(i)
  {
  }

  /** Replacing a stop row keeps who it belongs to, so lookups still succeed where they did. */
  lemma PutKeepsCover(protections: seq<Protection>, positions: seq<Position>, i: nat, row: Protection)
    requires i < |protections| && row.position == protections[i].position
    requires OneStopEach(protections) && AllCovered(protections, positions)
    ensures OneStopEach(protections[i := row]) && AllCovered(protections[i := row], positions)
  {
    var after := protections[i := row];
    forall id: nat | id < |positions| && positions[id].remainingQty > 0
      ensures FindProtection(after, id).Some?
    {
      var j := FindProtection(protections, id).value;
      assert after[j].position == id;
    }
  }

  lemma PutStopRow(protections: seq<Protection>, positions: seq<Position>, i: nat, row: Protection)
    requires StopsSound(protections, positions) && i < |protections|
    requires row.position == protections[i].position && StopRow(row, positions)
    ensures StopsSound(protections[i := row], positions)
  {
    PutKeepsCover(protections, positions, i, row);
  }

  /** Position rows may change as long as quantity and stop price stay. */
  lemma SamePositionsKeepStops(protections: seq<Protection>, before: seq<Position>, after: seq<Position>)
    requires StopsSound(protections, before) && |before| <= |after|
    requires forall id: nat :: id < |before| ==>
      before[id].remainingQty == after[id].remainingQty && before[id].stopPrice == after[id].stopPrice
    requires forall id: nat :: |before| <= id < |after| ==> after[id].remainingQty == 0
    ensures StopsSound(protections, after)
  {
  }

  /** Everything about the stops of the other positions survives a change of position `id`. */
  lemma OthersKeepStops(
    protections: seq<Protection>, positions: seq<Position>, id: nat, p: Position, i: nat, row: Protection)
    requires StopsSound(protections, positions) && id < |positions|
    requires i < |protections| && protections[i].position == id && row.position == id
    requires StopRow(row, positions[id := p])
    ensures StopsSound(protections[i := row], positions[id := p])
  {
    var after, moved := protections[i := row], positions[id := p];
    forall j | 0 <= j < |after| ensures StopRow(after[j], moved) {
      if j != i {
        assert StopRow(protections[j], positions);
        assert protections[j].position != id;
      }
    }
    forall q: nat | q < |moved| && moved[q].remainingQty > 0 ensures FindProtection(after, q).Some? {
      if q == id {
        assert after[i].position == q;
      } else {
        var j := FindProtection(protections, q).value;
        assert after[j].position == q;
      }
    }
  }

  lemma NewStopRow(protections: seq<Protection>, positions: seq<Position>, id: nat, p: Position, row: Protection)
    requires StopsSound(protections, positions) && id < |positions|
    requires FindProtection(protections, id).None? && row.position == id
    requires StopRow(row, positions[id := p])
    ensures StopsSound(protections + [row], positions[id := p])
  {
  }

  /** A buy fill leaves a sound stop table: the stop now asks for the whole open quantity. */
  lemma BuyKeepsStops(db: Db, id: nat, qty: nat, price: real)
    requires StopsSound(db.protections, db.positions) && id < |db.positions| && 0 < qty
    requires BuyFill(db, id, qty, price).Ok?
    ensures var after := BuyFill(db, id, qty, price).value;
      StopsSound(after.protections, after.positions)
  {
    var p := db.positions[id];
    var row := Bought(p, qty, price);
    match FindProtection(db.protections, id)
    case Some(g) =>
      assert StopRow(db.protections[g], db.positions);
      OthersKeepStops(db.protections, db.positions, id, row, g,
                      Requested(db.protections[g], row.remainingQty, p.stopPrice));
    case None =>
      NewStopRow(db.protections, db.positions, id, row,
                 Protection(id, row.remainingQty, 0, p.stopPrice, p.stopPrice, StopPending));
  }

  lemma SellKeepsStops(db: Db, id: nat, qty: nat, price: real)
    requires StopsSound(db.protections, db.positions) && id < |db.positions| && 0 < qty
    requires SellFill(db, id, qty, price).Ok?
    ensures var after := SellFill(db, id, qty, price).value;
      StopsSound(after.protections, after.positions)
  {
    var row := Sold(db.positions[id], qty, price);
    var g := FindProtection(db.protections, id).value;
    assert StopRow(db.protections[g], db.positions);
    OthersKeepStops(db.protections, db.positions, id, row, g, Reduced(db.protections[g], row.remainingQty));
  }

  // ---- the stop log ----

  datatype StopImage =
    NoStop | BrokenStop | BuiltStop(status: ProtectionStatus, requiredQty: nat, protectedQty: nat, stop: real)

  function StopImageOf(g: Protection): StopImage {
    BuiltStop(g.status, g.requiredQty, g.protectedQty, g.currentStop)
  }

  /** An event that asks for zero shares (a flat position) leaves the last asked quantity standing. */
  function ReplayStopEvent(image: StopImage, e: ProtectionEvent): StopImage {
    match (image, e.from)
    case (NoStop, None) => BuiltStop(e.to, e.requiredQty, e.protectedQty, e.stop)
    case (BuiltStop(status, required, _, stop), Some(from)) =>
      if from != status || e.stop < stop then BrokenStop
      else BuiltStop(e.to, if e.requiredQty > 0 then e.requiredQty else required, e.protectedQty, e.stop)
    case _ => BrokenStop
  }

  function ReplayStop(events: seq<ProtectionEvent>, g: nat): StopImage {
    if events == [] then NoStop
    else
      var n := |events| - 1;
      var before := ReplayStop(events[..n], g);
      if events[n].protection == g then ReplayStopEvent(before, events[n]) else before
  }

  ghost predicate LogBuildsStops(events: seq<ProtectionEvent>, protections: seq<Protection>) {
    forall g: nat :: ReplayStop(events, g) == if g < |protections| then StopImageOf(protections[g]) else NoStop
  }

  lemma ReplayStopAppend(events: seq<ProtectionEvent>, e: ProtectionEvent, g: nat)
    ensures ReplayStop(events + [e], g)
            == if e.protection == g then ReplayStopEvent(ReplayStop(events, g), e) else ReplayStop(events, g)
  {
  }

  /** Does event `e` describe replacing row `g` by `row`? */
  ghost predicate Describes(e: ProtectionEvent, was: Protection, g: nat, row: Protection) {
    e.protection == g && e.from == Some(was.status) && e.to == row.status
    && row.requiredQty == (if e.requiredQty > 0 then e.requiredQty else was.requiredQty)
    && e.protectedQty == row.protectedQty && e.stop == row.currentStop && was.currentStop <= row.currentStop
  }

  lemma PutKeepsStopLog(
    events: seq<ProtectionEvent>, protections: seq<Protection>, e: ProtectionEvent, g: nat, row: Protection)
    requires LogBuildsStops(events, protections) && g < |protections|
    requires Describes(e, protections[g], g, row)
    ensures LogBuildsStops(events + [e], protections[g := row])
  {
    var after := protections[g := row];
    forall j: nat
      ensures ReplayStop(events + [e], j) == if j < |after| then StopImageOf(after[j]) else NoStop
    {
      ReplayStopAppend(events, e, j);
      assert ReplayStop(events, j) == if j < |protections| then StopImageOf(protections[j]) else NoStop;
    }
  }

  lemma UpsertKeepsStopLog(db: Db, id: nat, qty: nat, stop: real)
    requires LogBuildsStops(db.protectionEvents, db.protections) && 0 < qty
    requires !StopWouldDrop(db, id, stop)
    ensures var after := UpsertStop(db, id, qty, stop);
      LogBuildsStops(after.protectionEvents, after.protections)
  {
  }

  lemma ReduceKeepsStopLog(db: Db, id: nat, remaining: nat)
    requires LogBuildsStops(db.protectionEvents, db.protections)
    ensures var after := ReduceStop(db, id, remaining);
      LogBuildsStops(after.protectionEvents, after.protections)
  {
  }
}
