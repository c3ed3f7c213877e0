/**
 The broker may report the fills of one buy order in any order.  In exact arithmetic the result
 does not depend on it: every table row ends the same, and no delivery is refused on the way.
 */
module DeliveryOrder {
  import opened Sums
  import opened Wrappers
  import opened Tables
  import opened LedgerSteps
  import opened LedgerRuns

  datatype Delivery = Delivery(qty: nat, price: real, key: string)

  function DeliveredQty(): Delivery -> int { (d: Delivery) => d.qty }

  function DeliveredCash(): Delivery -> real { (d: Delivery) => d.price * d.qty as real }

  function WithKey(key: string): Delivery -> int { (d: Delivery) => if d.key == key then 1 else 0 }

  function Quantity(fs: seq<Delivery>): int { SumInt(fs, DeliveredQty()) }

  function Cash(fs: seq<Delivery>): real { SumReal(fs, DeliveredCash()) }

  function Commands(k: nat, fs: seq<Delivery>): seq<Command> {
    seq(|fs|, i requires 0 <= i < |fs| => ApplyFill(k, fs[i].qty, fs[i].price, fs[i].key))
  }

  /** The tables after delivering `fs`, in that order. */
  function Deliver(db: Db, k: nat, fs: seq<Delivery>): Db {
    Run(db, Commands(k, fs))
  }

  predicate AcceptedAsNew(db: Db, k: nat, d: Delivery) {
    var reply := ApplyManagedFill(db, k, d.qty, d.price, d.key).reply;
    reply.FillReport? && !reply.duplicate
  }

  /** Is every delivery of `fs` accepted as a new fill at its turn? */
  ghost predicate AllAccepted(db: Db, k: nat, fs: seq<Delivery>) {
    fs == []
    || (AllAccepted(db, k, fs[..|fs| - 1]) && AcceptedAsNew(Deliver(db, k, fs[..|fs| - 1]), k, fs[|fs| - 1]))
  }

  lemma DeliverLast(db: Db, k: nat, fs: seq<Delivery>)
    requires fs != []
    ensures var n := |fs| - 1;
      Deliver(db, k, fs) == ApplyManagedFill(Deliver(db, k, fs[..n]), k, fs[n].qty, fs[n].price, fs[n].key).db
  {
    var n := |fs| - 1;
    var last := ApplyFill(k, fs[n].qty, fs[n].price, fs[n].key);
    assert Commands(k, fs) == Commands(k, fs[..n]) + [last];
    RunConcat(db, Commands(k, fs[..n]), [last]);
    var before := Deliver(db, k, fs[..n]);
    assert Run(before, [last]) == Run(Step(before, last).db, []);
  }

  // ---- where a bag of fills leads, whatever its order ----

  function Blend(average: real, held: nat, cash: real, qty: nat): real
    requires 0 < held + qty
  {
    (average * held as real + cash) / (held + qty) as real
  }

  function OrderAfter(o: Order, qty: nat, cash: real): Order {
    if qty == 0 then o
    else
      o.(filledQty := o.filledQty + qty, averageFillPrice := Blend(o.averageFillPrice, o.filledQty, cash, qty),
         status := if o.filledQty + qty == o.requestedQty then Filled else PartiallyFilled)
  }

  function PositionAfter(p: Position, qty: nat, cash: real): Position {
    if qty == 0 then p
    else
      p.(filledQty := p.filledQty + qty, remainingQty := p.remainingQty + qty,
         averagePrice := Blend(p.averagePrice, p.remainingQty, cash, qty), status := Open)
  }

  function StopsAfter(protections: seq<Protection>, id: nat, p: Position, qty: nat): seq<Protection> {
    if qty == 0 then protections
    else
      match FindProtection(protections, id)
      case None =>
        protections + [Protection(id, p.remainingQty + qty, 0, p.stopPrice, p.stopPrice, StopPending)]
      case Some(g) => protections[g := Requested(protections[g], p.remainingQty + qty, p.stopPrice)]
  }

  lemma BlendThenAdd(average: real, held: nat, cash: real, qty: nat, price: real, more: nat)
    requires 0 < qty && 0 < more
    ensures Average(Blend(average, held, cash, qty), held + qty, price, more)
            == Blend(average, held, cash + price * more as real, qty + more)
  {
    var n := (held + qty) as real;
    var total := average * held as real + cash;
    assert total / n * n == total;
  }

  lemma BlendFromNothing(average: real, held: nat, price: real, more: nat)
    requires 0 < more
    ensures Average(average, held, price, more) == Blend(average, held, 0.0 + price * more as real, 0 + more)
  {
  }

  lemma OrderStep(o: Order, qty: nat, cash: real, more: nat, price: real)
    requires 0 < more && (qty == 0 ==> cash == 0.0)
    ensures FilledOrder(OrderAfter(o, qty, cash), more, price) == OrderAfter(o, qty + more, cash + price * more as real)
  {
    if qty > 0 {
      BlendThenAdd(o.averageFillPrice, o.filledQty, cash, qty, price, more);
    } else {
      BlendFromNothing(o.averageFillPrice, o.filledQty, price, more);
    }
  }

  lemma PositionStep(p: Position, qty: nat, cash: real, more: nat, price: real)
    requires 0 < more && (qty == 0 ==> cash == 0.0)
    ensures Bought(PositionAfter(p, qty, cash), more, price)
            == PositionAfter(p, qty + more, cash + price * more as real)
  {
    if qty > 0 {
      BlendThenAdd(p.averagePrice, p.remainingQty, cash, qty, price, more);
    } else {
      BlendFromNothing(p.averagePrice, p.remainingQty, price, more);
    }
  }

  lemma FindAppended(protections: seq<Protection>, row: Protection)
    ensures FindProtection(protections + [row], row.position) == Some(|protections|)
  {
  }

  lemma {:induction false} FindReplaced(protections: seq<Protection>, id: nat, g: nat, row: Protection)
    requires g < |protections| && row.position == protections[g].position
    ensures FindProtection(protections[g := row], id) == FindProtection(protections, id)
  {
    var n := |protections| - 1;
    if g == n {
      assert protections[g := row][..n] == protections[..n];
    } else {
      assert protections[g := row][..n] == protections[..n][g := row];
      FindReplaced(protections[..n], id, g, row);
    }
  }

  /** One more request on top of an already expanded stop. */
  lemma StopsStep(db: Db, id: nat, p: Position, qty: nat, more: nat)
    requires 0 < more
    ensures UpsertStop(db.(protections := StopsAfter(db.protections, id, p, qty)), id,
                       p.remainingQty + qty + more, p.stopPrice).protections
            == StopsAfter(db.protections, id, p, qty + more)
  {
    if qty > 0 {
      match FindProtection(db.protections, id)
      case None =>
        FindAppended(db.protections, Protection(id, p.remainingQty + qty, 0, p.stopPrice, p.stopPrice, StopPending));
      case Some(g) =>
        FindReplaced(db.protections, id, g, Requested(db.protections[g], p.remainingQty + qty, p.stopPrice));
    }
  }

  // ---- when a bag of fills can be delivered ----

  ghost predicate GoodDelivery(db: Db, k: nat, d: Delivery) {
    0 < d.qty && 0.0 < d.price && (d.key != "" ==> FindFill(db.fills, k, d.key).None?)
  }

  /** The order is open for these fills and its position may take them. */
  ghost predicate Deliverable(db: Db, k: nat, fs: seq<Delivery>) {
    k < |db.orders|
    && db.orders[k].action == "buy"
    && FillObstacle(db, k, 0).None?
    && db.orders[k].filledQty + Quantity(fs) <= db.orders[k].requestedQty
    && (forall d :: d in fs ==> GoodDelivery(db, k, d))
    && (forall key: string :: key != "" ==> SumInt(fs, WithKey(key)) <= 1)
    && var id := db.orders[k].position.value;
    0.0 < db.positions[id].stopPrice
    && !StopWouldDrop(db, id, db.positions[id].stopPrice)
    && !Clashes(db.positions, id, db.positions[id].(status := Open))
  }

  lemma QuantityIsNat(fs: seq<Delivery>)
    ensures 0 <= Quantity(fs)
    ensures Quantity(fs) == 0 && (forall d :: d in fs ==> 0 < d.qty) ==> fs == []
  {
    SumIntNonNegative(fs, DeliveredQty());
    if fs != [] {
      SumIntNonNegative(fs[..|fs| - 1], DeliveredQty());
      assert fs[|fs| - 1] in fs;
    }
  }

  lemma DeliverablePrefix(db: Db, k: nat, fs: seq<Delivery>)
    requires fs != [] && Deliverable(db, k, fs)
    ensures Deliverable(db, k, fs[..|fs| - 1])
  {
  }

  lemma {:induction false} KeyCountAtLeastOne(fs: seq<Delivery>, i: nat)
    requires i < |fs|
    ensures 1 <= SumInt(fs, WithKey(fs[i].key))
  {
    var n := |fs| - 1;
    SumIntNonNegative(fs[..n], WithKey(fs[i].key));
    if i < n {
      KeyCountAtLeastOne(fs[..n], i);
    }
  }

  lemma KeyCountTwice(fs: seq<Delivery>, j: nat)
    requires j < |fs| - 1 && fs[j].key == fs[|fs| - 1].key
    ensures 2 <= SumInt(fs, WithKey(fs[j].key))
  {
    KeyCountAtLeastOne(fs[..|fs| - 1], j);
  }

  /** The rows that keyed deliveries leave in the fill table, in delivery order. */
  function KeyedRows(k: nat, fs: seq<Delivery>): seq<Fill> {
    if fs == [] then []
    else
      var d := fs[|fs| - 1];
      KeyedRows(k, fs[..|fs| - 1]) + if d.key == "" then [] else [Fill(k, d.key, d.qty, d.price)]
  }

  lemma {:induction false} KeyedRowsComeFrom(k: nat, fs: seq<Delivery>, i: nat)
    requires i < |KeyedRows(k, fs)|
    ensures exists j :: 0 <= j < |fs| && fs[j].key != ""
                        && KeyedRows(k, fs)[i] == Fill(k, fs[j].key, fs[j].qty, fs[j].price)
  {
    var n := |fs| - 1;
    if i < |KeyedRows(k, fs[..n])| {
      KeyedRowsComeFrom(k, fs[..n], i);
      var j :| 0 <= j < n && fs[..n][j].key != ""
               && KeyedRows(k, fs[..n])[i] == Fill(k, fs[..n][j].key, fs[..n][j].qty, fs[..n][j].price);
      assert fs[j] == fs[..n][j];
    }
  }

  function CountsAs(k: nat, f: Fill): Delivery -> int {
    (d: Delivery) => if d.key != "" && Fill(k, d.key, d.qty, d.price) == f then 1 else 0
  }

  /** How often a row is recorded is a sum over the deliveries, so their order does not matter. */
  lemma {:induction false} KeyedRowsCount(k: nat, fs: seq<Delivery>, f: Fill)
    ensures multiset(KeyedRows(k, fs))[f] == SumInt(fs, CountsAs(k, f))
  {
    if fs != [] {
      KeyedRowsCount(k, fs[..|fs| - 1], f);
    }
  }

  lemma KeyedRowsPermute(k: nat, fs: seq<Delivery>, gs: seq<Delivery>)
    requires multiset(fs) == multiset(gs)
    ensures multiset(KeyedRows(k, fs)) == multiset(KeyedRows(k, gs))
  {
    forall f: Fill ensures multiset(KeyedRows(k, fs))[f] == multiset(KeyedRows(k, gs))[f] {
      KeyedRowsCount(k, fs, f);
      KeyedRowsCount(k, gs, f);
      SumsOfPermutation(fs, gs, CountsAs(k, f), DeliveredCash());
    }
  }

  /** The tables after buying `qty` shares for `cash` in all. */
  ghost predicate TablesAt(db: Db, k: nat, qty: nat, cash: real, after: Db)
    requires k < |db.orders| && FillObstacle(db, k, 0).None?
  {
    var id := db.orders[k].position.value;
    after.orders == db.orders[k := OrderAfter(db.orders[k], qty, cash)]
    && after.positions == db.positions[id := PositionAfter(db.positions[id], qty, cash)]
    && after.protections == StopsAfter(db.protections, id, db.positions[id], qty)
    && after.reservations == db.reservations
  }

  /** The state reached after delivering `fs`, in closed form. */
  ghost predicate Reached(db: Db, k: nat, fs: seq<Delivery>, after: Db)
    requires k < |db.orders| && FillObstacle(db, k, 0).None? && 0 <= Quantity(fs)
  {
    TablesAt(db, k, Quantity(fs), Cash(fs), after) && after.fills == db.fills + KeyedRows(k, fs)
  }

  lemma NextStopMayMove(db: Db, id: nat, p: Position, qty: nat, after: Db)
    requires p.stopPrice > 0.0 && !StopWouldDrop(db, id, p.stopPrice)
    requires after.protections == StopsAfter(db.protections, id, p, qty)
    ensures !StopWouldDrop(after, id, p.stopPrice)
  {
    if qty > 0 {
      match FindProtection(db.protections, id)
      case None =>
        FindAppended(db.protections, Protection(id, p.remainingQty + qty, 0, p.stopPrice, p.stopPrice, StopPending));
      case Some(g) =>
        FindReplaced(db.protections, id, g, Requested(db.protections[g], p.remainingQty + qty, p.stopPrice));
    }
  }

  /** The next delivery finds nothing in its way. */
  lemma NothingInTheWay(db: Db, k: nat, fs: seq<Delivery>, after: Db)
    requires fs != [] && Deliverable(db, k, fs)
    requires 0 <= Quantity(fs[..|fs| - 1]) && Reached(db, k, fs[..|fs| - 1], after)
    ensures var n := |fs| - 1;
      FillObstacle(after, k, fs[n].qty).None?
      && (fs[n].key != "" ==> FindFill(after.fills, k, fs[n].key).None?)
  {
    var n := |fs| - 1;
    var d := fs[n];
    assert GoodDelivery(db, k, d);
    assert Quantity(fs) == Quantity(fs[..n]) + d.qty;
    if d.key != "" && FindFill(after.fills, k, d.key).Some? {
      var i := FindFill(after.fills, k, d.key).value;
      if i < |db.fills| {
        assert false;
      } else {
        KeyedRowsComeFrom(k, fs[..n], i - |db.fills|);
        var j :| 0 <= j < n && fs[..n][j].key != ""
                 && after.fills[i] == Fill(k, fs[..n][j].key, fs[..n][j].qty, fs[..n][j].price);
        KeyCountTwice(fs, j);
        assert false;
      }
    }
  }

  lemma CashOfNothing(fs: seq<Delivery>)
    requires forall d :: d in fs ==> 0 < d.qty
    ensures Quantity(fs) == 0 ==> Cash(fs) == 0.0
  {
    QuantityIsNat(fs);
  }

  lemma NoClashAfter(positions: seq<Position>, id: nat, row: Position, qty: nat, cash: real, more: nat, price: real)
    requires id < |positions| && 0 < more && row == PositionAfter(positions[id], qty, cash)
    requires !Clashes(positions, id, positions[id].(status := Open))
    ensures !Clashes(positions[id := row], id, Bought(row, more, price))
  {
  }

  lemma OneMoreFill(k: nat, fs: seq<Delivery>, before: seq<Fill>)
    requires fs != []
    ensures var d := fs[|fs| - 1];
      var rows := before + KeyedRows(k, fs[..|fs| - 1]);
      before + KeyedRows(k, fs) == if d.key == "" then rows else rows + [Fill(k, d.key, d.qty, d.price)]
  {
  }

  lemma UpsertReadsOnlyStops(a: Db, b: Db, id: nat, qty: nat, stop: real)
    requires a.protections == b.protections
    ensures UpsertStop(a, id, qty, stop).protections == UpsertStop(b, id, qty, stop).protections
  {
  }

  /** The shape of one accepted buy. */
  ghost predicate BoughtShape(db: Db, k: nat, id: nat, d: Delivery)
    requires k < |db.orders| && id < |db.positions| && 0 < d.qty
  {
    var out := ApplyManagedFill(db, k, d.qty, d.price, d.key);
    AcceptedAsNew(db, k, d)
    && BoughtTables(db, k, id, d, out.db)
    && out.db.fills == if d.key == "" then db.fills else db.fills + [Fill(k, d.key, d.qty, d.price)]
  }

  lemma BoughtAfter(db: Db, k: nat, id: nat, d: Delivery)
    requires k < |db.orders| && db.orders[k].action == "buy" && db.orders[k].position == Some(id)
    requires 0 < d.qty && 0.0 < d.price
    requires FillObstacle(db, k, d.qty).None? && (d.key != "" ==> FindFill(db.fills, k, d.key).None?)
    requires 0.0 < db.positions[id].stopPrice && !StopWouldDrop(db, id, db.positions[id].stopPrice)
    requires !Clashes(db.positions, id, Bought(db.positions[id], d.qty, d.price))
    ensures BoughtShape(db, k, id, d)
  {
  }

  lemma {:induction false} NextIsAccepted(db: Db, k: nat, fs: seq<Delivery>, after: Db)
    requires fs != [] && Deliverable(db, k, fs)
    requires 0 <= Quantity(fs[..|fs| - 1]) && Reached(db, k, fs[..|fs| - 1], after)
    ensures var d := fs[|fs| - 1];
      0 < d.qty && db.orders[k].position.value < |after.positions| && k < |after.orders|
      && BoughtShape(after, k, db.orders[k].position.value, d)
  {
    var n := |fs| - 1;
    var d := fs[n];
    var id := db.orders[k].position.value;
    var q, c := Quantity(fs[..n]), Cash(fs[..n]);
    NothingInTheWay(db, k, fs, after);
    assert GoodDelivery(db, k, d);
    NextStopMayMove(db, id, db.positions[id], q, after);
    NoClashAfter(db.positions, id, after.positions[id], q, c, d.qty, d.price);
    BoughtAfter(after, k, id, d);
  }

  lemma PrefixIsPositive(db: Db, k: nat, fs: seq<Delivery>)
    requires fs != [] && Deliverable(db, k, fs)
    ensures 0 <= Quantity(fs[..|fs| - 1])
    ensures Quantity(fs[..|fs| - 1]) == 0 ==> Cash(fs[..|fs| - 1]) == 0.0
  {
    forall d | d in fs[..|fs| - 1] ensures 0 < d.qty {
      assert GoodDelivery(db, k, d);
    }
    QuantityIsNat(fs[..|fs| - 1]);
    CashOfNothing(fs[..|fs| - 1]);
  }

  lemma LastAdds(fs: seq<Delivery>)
    requires fs != []
    ensures var n := |fs| - 1;
      Quantity(fs) == Quantity(fs[..n]) + fs[n].qty && Cash(fs) == Cash(fs[..n]) + fs[n].price * fs[n].qty as real
  {
  }

  lemma OrderTableStep(
    orders: seq<Order>, k: nat, qty: nat, cash: real, more: nat, price: real, cash': real,
    after: seq<Order>, out: seq<Order>)
    requires k < |orders| && 0 < more && (qty == 0 ==> cash == 0.0) && cash' == cash + price * more as real
    requires after == orders[k := OrderAfter(orders[k], qty, cash)]
    requires out == after[k := FilledOrder(after[k], more, price)]
    ensures out == orders[k := OrderAfter(orders[k], qty + more, cash')]
  {
    OrderStep(orders[k], qty, cash, more, price);
  }

  lemma PositionTableStep(
    positions: seq<Position>, id: nat, qty: nat, cash: real, more: nat, price: real, cash': real,
    after: seq<Position>, out: seq<Position>)
    requires id < |positions| && 0 < more && (qty == 0 ==> cash == 0.0) && cash' == cash + price * more as real
    requires after == positions[id := PositionAfter(positions[id], qty, cash)]
    requires out == after[id := Bought(after[id], more, price)]
    ensures out == positions[id := PositionAfter(positions[id], qty + more, cash')]
    ensures after[id].remainingQty == positions[id].remainingQty + qty && after[id].stopPrice == positions[id].stopPrice
  {
    PositionStep(positions[id], qty, cash, more, price);
  }

  /** One delivery more, from closed form to closed form. */
  lemma {:induction false} DeliverOneMore(db: Db, k: nat, fs: seq<Delivery>, after: Db)
    requires fs != [] && Deliverable(db, k, fs)
    requires 0 <= Quantity(fs[..|fs| - 1]) && 0 <= Quantity(fs) && Reached(db, k, fs[..|fs| - 1], after)
    ensures var d := fs[|fs| - 1];
      AcceptedAsNew(after, k, d) && Reached(db, k, fs, ApplyManagedFill(after, k, d.qty, d.price, d.key).db)
  {
    var d := fs[|fs| - 1];
    var out := ApplyManagedFill(after, k, d.qty, d.price, d.key).db;
    NextIsAccepted(db, k, fs, after);
    PrefixIsPositive(db, k, fs);
    TablesGrow(db, k, fs, after, out);
    OneMoreFill(k, fs, db.fills);
  }

  /** How one accepted buy moves the tables. */
  ghost predicate BoughtTables(before: Db, k: nat, id: nat, d: Delivery, out: Db)
    requires k < |before.orders| && id < |before.positions| && 0 < d.qty
  {
    var row := Bought(before.positions[id], d.qty, d.price);
    out.orders == before.orders[k := FilledOrder(before.orders[k], d.qty, d.price)]
    && out.positions == before.positions[id := row]
    && out.protections
       == UpsertStop(before.(positions := before.positions[id := row]), id, row.remainingQty, row.stopPrice).protections
    && out.reservations == before.reservations
  }

  lemma TablesStep(
    db: Db, k: nat, id: nat, q: nat, c: real, d: Delivery, q': nat, c': real, after: Db, out: Db)
    requires k < |db.orders| && FillObstacle(db, k, 0).None? && id == db.orders[k].position.value
    requires 0 < d.qty && (q == 0 ==> c == 0.0) && q' == q + d.qty && c' == c + d.price * d.qty as real
    requires TablesAt(db, k, q, c, after) && BoughtTables(after, k, id, d, out)
    ensures TablesAt(db, k, q', c', out)
  {
    OrderTableStep(db.orders, k, q, c, d.qty, d.price, c', after.orders, out.orders);
    PositionTableStep(db.positions, id, q, c, d.qty, d.price, c', after.positions, out.positions);
    StopsAfterOneMore(db, k, id, q, d, after);
    assert out.protections == StopsAfter(db.protections, id, db.positions[id], q');
  }

  lemma {:induction false} TablesGrow(db: Db, k: nat, fs: seq<Delivery>, after: Db, out: Db)
    requires fs != [] && k < |db.orders| && FillObstacle(db, k, 0).None?
    requires 0 <= Quantity(fs[..|fs| - 1]) && 0 <= Quantity(fs) && 0 < fs[|fs| - 1].qty
    requires Quantity(fs[..|fs| - 1]) == 0 ==> Cash(fs[..|fs| - 1]) == 0.0
    requires TablesAt(db, k, Quantity(fs[..|fs| - 1]), Cash(fs[..|fs| - 1]), after)
    requires BoughtTables(after, k, db.orders[k].position.value, fs[|fs| - 1], out)
    ensures TablesAt(db, k, Quantity(fs), Cash(fs), out)
  {
    var n := |fs| - 1;
    LastAdds(fs);
    TablesStep(db, k, db.orders[k].position.value, Quantity(fs[..n]), Cash(fs[..n]), fs[n],
               Quantity(fs), Cash(fs), after, out);
  }

  lemma StopsAfterOneMore(db: Db, k: nat, id: nat, q: nat, d: Delivery, after: Db)
    requires id < |db.positions| && id < |after.positions| && 0 < d.qty
    requires after.positions[id].remainingQty == db.positions[id].remainingQty + q
    requires after.positions[id].stopPrice == db.positions[id].stopPrice
    requires after.protections == StopsAfter(db.protections, id, db.positions[id], q)
    ensures var row := Bought(after.positions[id], d.qty, d.price);
      UpsertStop(after.(positions := after.positions[id := row]), id, row.remainingQty, row.stopPrice).protections
      == StopsAfter(db.protections, id, db.positions[id], q + d.qty)
  {
    var p := db.positions[id];
    StopsStep(db, id, p, q, d.qty);
    UpsertReadsOnlyStops(db.(protections := after.protections),
                         after.(positions := after.positions[id := Bought(after.positions[id], d.qty, d.price)]),
                         id, p.remainingQty + q + d.qty, p.stopPrice);
  }

  lemma NothingDelivered(db: Db, k: nat)
    requires Deliverable(db, k, [])
    ensures AllAccepted(db, k, []) && Reached(db, k, [], Deliver(db, k, []))
  {
    assert Commands(k, []) == [];
  }

  lemma {:induction false} DeliverReaches(db: Db, k: nat, fs: seq<Delivery>)
    requires Deliverable(db, k, fs)
    ensures 0 <= Quantity(fs) && AllAccepted(db, k, fs) && Reached(db, k, fs, Deliver(db, k, fs))
    decreases |fs|
  {
    QuantityIsNat(fs);
    if fs == [] {
      NothingDelivered(db, k);
    } else {
      var n := |fs| - 1;
      DeliverablePrefix(db, k, fs);
      DeliverReaches(db, k, fs[..n]);
      DeliverOneMore(db, k, fs, Deliver(db, k, fs[..n]));
      DeliverLast(db, k, fs);
    }
  }

  lemma DeliverablePermutation(db: Db, k: nat, fs: seq<Delivery>, gs: seq<Delivery>)
    requires Deliverable(db, k, fs) && multiset(fs) == multiset(gs)
    ensures Deliverable(db, k, gs) && Quantity(gs) == Quantity(fs) && Cash(gs) == Cash(fs)
  {
    SumsOfPermutation(fs, gs, DeliveredQty(), DeliveredCash());
    forall key: string | key != "" ensures SumInt(gs, WithKey(key)) <= 1 {
      SumsOfPermutation(fs, gs, WithKey(key), DeliveredCash());
      assert SumInt(fs, WithKey(key)) <= 1;
    }
    forall d | d in gs ensures GoodDelivery(db, k, d) {
      assert d in multiset(gs);
      assert d in fs;
    }
  }

  /**
   Delivery-order independence: when the fills of `fs` fit their order, every reordering of them is
   fully accepted and ends with the same orders, positions, stops and reservations and the same bag
   of keyed fills.
   */
  lemma {:induction false} DeliveryOrderDoesNotMatter(db: Db, k: nat, fs: seq<Delivery>, gs: seq<Delivery>)
    requires Deliverable(db, k, fs) && multiset(fs) == multiset(gs)
    ensures AllAccepted(db, k, fs) && AllAccepted(db, k, gs)
    ensures var a, b := Deliver(db, k, fs), Deliver(db, k, gs);
      a.orders == b.orders && a.positions == b.positions && a.protections == b.protections
      && a.reservations == b.reservations && multiset(a.fills) == multiset(b.fills)
  {
    KeyedRowsPermute(k, fs, gs);
    DeliverablePermutation(db, k, fs, gs);
    DeliverReaches(db, k, fs);
    DeliverReaches(db, k, gs);
  }
}
