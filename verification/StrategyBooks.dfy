/**
 A whole strategy at once: the trade list of one book, all symbols and all successive positions
 mixed in log order, folds to what the ledger's position rows of that book add up to.
 */
module StrategyBooks {
  import opened Wrappers
  import opened Sums
  import opened Tables
  import opened LedgerSteps
  import opened EventLog
  import opened LedgerInvariant
  import opened LedgerRuns
  import opened AverageCost

  /** One strategy's trading in one account. */
  datatype Book = Book(market: string, account: string, strategy: string)

  predicate InBook(p: Position, b: Book) {
    p.market == b.market && p.account == b.account && p.strategy == b.strategy
  }

  predicate Owned(p: Position, b: Book, symbol: string) {
    InBook(p, b) && p.symbol == symbol
  }

  /** The trade row an event leaves in the list of the book, if it is a fill of one of its positions. */
  function BookRow(e: OrderEvent, orders: seq<Order>, positions: seq<Position>, b: Book): Option<TradeRow> {
    if e.fill.None? || e.order >= |orders| || orders[e.order].position.None? then None
    else
      var id := orders[e.order].position.value;
      if id < |positions| && InBook(positions[id], b)
      then Some(TradeRow(positions[id].symbol, orders[e.order].action, "filled", e.fill.value.qty, e.fill.value.qty,
                         e.fill.value.price))
      else None
  }

  /** All fills of the book, in log order. */
  function BookRows(events: seq<OrderEvent>, orders: seq<Order>, positions: seq<Position>, b: Book): seq<TradeRow> {
    if events == [] then []
    else
      var before := BookRows(events[..|events| - 1], orders, positions, b);
      match BookRow(events[|events| - 1], orders, positions, b)
      case None => before
      case Some(row) => before + [row]
  }

  function Shares(b: Book, symbol: string): Position -> int {
    (p: Position) => if Owned(p, b, symbol) then p.remainingQty else 0
  }

  function Profit(b: Book, symbol: string): Position -> real {
    (p: Position) => if Owned(p, b, symbol) then p.realizedPnl else 0.0
  }

  /** The fold's lot is what the rows of the book add up to, at the average of the one that holds shares. */
  ghost predicate LotAgrees(lot: Lot, positions: seq<Position>, b: Book, symbol: string) {
    lot.qty == SumInt(positions, Shares(b, symbol))
    && lot.realizedPnl == SumReal(positions, Profit(b, symbol))
    && forall id :: 0 <= id < |positions| && Owned(positions[id], b, symbol) && positions[id].remainingQty > 0
                    ==> lot.qty == positions[id].remainingQty && lot.avgCost == positions[id].averagePrice
  }

  /** Every fill in the log belongs to a position that exists. */
  ghost predicate FillsHaveOwners(events: seq<OrderEvent>, orders: seq<Order>, positions: seq<Position>) {
    forall i :: 0 <= i < |events| ==>
      events[i].order < |orders|
      && (events[i].fill.Some? ==>
            orders[events[i].order].position.Some? && orders[events[i].order].position.value < |positions|)
  }

  ghost predicate BookAgrees(db: Db, b: Book, symbol: string) {
    FillsHaveOwners(db.orderEvents, db.orders, db.positions)
    && LotAgrees(LotOf(BookRows(db.orderEvents, db.orders, db.positions, b), symbol), db.positions, b, symbol)
  }

  // ---- steps that fill nothing ----

  /** Positions keep their owners and rows are only added. */
  ghost predicate SameOwners(before: seq<Position>, after: seq<Position>) {
    |before| <= |after| && forall id :: 0 <= id < |before| ==> SameOwner(before[id], after[id])
  }

  lemma {:induction false} RowsNeedOnlyHands(
    events: seq<OrderEvent>, orders: seq<Order>, positions: seq<Position>,
    orders': seq<Order>, positions': seq<Position>, b: Book)
    requires FillsHaveOwners(events, orders, positions)
    requires SameHands(orders, orders') && SameOwners(positions, positions')
    ensures BookRows(events, orders', positions', b) == BookRows(events, orders, positions, b)
    ensures FillsHaveOwners(events, orders', positions')
  {
    if events != [] {
      var n := |events| - 1;
      assert events[..n] + [events[n]] == events;
      RowsNeedOnlyHands(events[..n], orders, positions, orders', positions', b);
      assert events[n].order < |orders|;
    }
  }

  /** At most one event more, and it is no fill. */
  ghost predicate LogOnlyWaits(before: seq<OrderEvent>, after: seq<OrderEvent>, orders: seq<Order>) {
    after == before
    || exists e: OrderEvent :: after == before + [e] && e.fill.None? && e.order < |orders|
  }

  lemma WaitingAddsNoRow(
    before: seq<OrderEvent>, after: seq<OrderEvent>, orders: seq<Order>, positions: seq<Position>, b: Book)
    requires LogOnlyWaits(before, after, orders) && FillsHaveOwners(before, orders, positions)
    ensures BookRows(after, orders, positions, b) == BookRows(before, orders, positions, b)
    ensures FillsHaveOwners(after, orders, positions)
  {
  }

  /** A new row, or a new status of an old one: nothing a sum of shares or profits sees. */
  ghost predicate PositionsOnlyWait(before: seq<Position>, after: seq<Position>) {
    after == before
    || (exists p: Position :: after == before + [p] && p.remainingQty == 0 && p.realizedPnl == 0.0)
    || (exists id: nat, s: PositionStatus :: id < |before| && after == before[id := before[id].(status := s)])
  }

  lemma NewRowKeepsLot(lot: Lot, before: seq<Position>, p: Position, b: Book, symbol: string)
    requires LotAgrees(lot, before, b, symbol) && p.remainingQty == 0 && p.realizedPnl == 0.0
    ensures LotAgrees(lot, before + [p], b, symbol)
  {
    SumIntAppend(before, p, Shares(b, symbol));
    SumRealAppend(before, p, Profit(b, symbol));
  }

  lemma NewStatusKeepsLot(
    lot: Lot, before: seq<Position>, id: nat, s: PositionStatus, b: Book, symbol: string)
    requires LotAgrees(lot, before, b, symbol) && id < |before|
    ensures LotAgrees(lot, before[id := before[id].(status := s)], b, symbol)
  {
    SumIntUpdate(before, id, before[id].(status := s), Shares(b, symbol));
    SumRealUpdate(before, id, before[id].(status := s), Profit(b, symbol));
  }

  lemma WaitingKeepsLot(lot: Lot, before: seq<Position>, after: seq<Position>, b: Book, symbol: string)
    requires PositionsOnlyWait(before, after) && LotAgrees(lot, before, b, symbol)
    ensures SameOwners(before, after) && LotAgrees(lot, after, b, symbol)
  {
    if p: Position :| after == before + [p] && p.remainingQty == 0 && p.realizedPnl == 0.0 {
      NewRowKeepsLot(lot, before, p, b, symbol);
    } else if id: nat, s: PositionStatus :| id < |before| && after == before[id := before[id].(status := s)] {
      NewStatusKeepsLot(lot, before, id, s, b, symbol);
    }
  }

  lemma WaitingKeepsBook(db: Db, after: Db, b: Book, symbol: string)
    requires BookAgrees(db, b, symbol) && SameHands(db.orders, after.orders)
    requires LogOnlyWaits(db.orderEvents, after.orderEvents, after.orders)
    requires PositionsOnlyWait(db.positions, after.positions)
    ensures BookAgrees(after, b, symbol)
  {
    var lot := LotOf(BookRows(db.orderEvents, db.orders, db.positions, b), symbol);
    WaitingKeepsLot(lot, db.positions, after.positions, b, symbol);
    RowsNeedOnlyHands(db.orderEvents, db.orders, db.positions, after.orders, after.positions, b);
    WaitingAddsNoRow(db.orderEvents, after.orderEvents, after.orders, after.positions, b);
  }

  /** Every command but a fill waits. */
  lemma OtherStepsWait(db: Db, c: Command)
    requires !c.ApplyFill?
    ensures var after := Step(db, c).db;
      SameHands(db.orders, after.orders)
      && LogOnlyWaits(db.orderEvents, after.orderEvents, after.orders)
      && PositionsOnlyWait(db.positions, after.positions)
  {
  }

  // ---- a fill ----

  /** Beside an active position every other row of its owner is closed and holds nothing. */
  lemma OthersHoldNothing(positions: seq<Position>, id: nat, row: Position, b: Book, symbol: string)
    requires PositionsSound(positions) && id < |positions| && !Clashes(positions, id, row)
    requires IsActive(row) && SameOwner(row, positions[id]) && Owned(row, b, symbol)
    ensures forall j :: 0 <= j < |positions| && j != id && Owned(positions[j], b, symbol)
                        ==> positions[j].remainingQty == 0
  {
    forall j | 0 <= j < |positions| && j != id && Owned(positions[j], b, symbol)
      ensures positions[j].remainingQty == 0
    {
      assert SameOwner(positions[j], row);
      assert PositionRow(positions[j]);
    }
  }

  lemma {:induction false} NoSharesSum(positions: seq<Position>, b: Book, symbol: string)
    requires forall p :: p in positions && Owned(p, b, symbol) ==> p.remainingQty == 0
    ensures SumInt(positions, Shares(b, symbol)) == 0
  {
    SumIntZero(positions, Shares(b, symbol));
  }

  lemma OneHolderSum(positions: seq<Position>, id: nat, b: Book, symbol: string)
    requires id < |positions| && Owned(positions[id], b, symbol)
    requires forall j :: 0 <= j < |positions| && j != id && Owned(positions[j], b, symbol)
                         ==> positions[j].remainingQty == 0
    ensures SumInt(positions, Shares(b, symbol)) == positions[id].remainingQty
  {
    var none := positions[id].(remainingQty := 0);
    SumIntUpdate(positions, id, none, Shares(b, symbol));
    NoSharesSum(positions[id := none], b, symbol);
  }

  /** One deal moves a lot that holds the row's shares as it moves the row. */
  lemma DealMovesLot(lot: Lot, p: Position, row: Position, action: string, qty: nat, price: real, symbol: string)
    requires symbol != "" && Moved(p, row, action, qty, price)
    requires lot.qty == p.remainingQty && (0 < lot.qty ==> lot.avgCost == p.averagePrice)
    ensures var t := TradeRow(symbol, action, "filled", qty, qty, price);
      Counts(t)
      && Absorb(lot, t).qty == row.remainingQty
      && Absorb(lot, t).realizedPnl == lot.realizedPnl + (row.realizedPnl - p.realizedPnl)
      && (0 < row.remainingQty ==> Absorb(lot, t).avgCost == row.averagePrice)
  {
    var deal := Deal(action == "buy", qty, price);
    var h := Held(0, p.remainingQty, p.averagePrice, lot.realizedPnl);
    OneDealAgrees(lot, h, symbol, deal);
    assert RowOf(symbol, deal) == TradeRow(symbol, action, "filled", qty, qty, price);
    if action == "buy" {
      assert ApplyDeal(h, deal)
          == Held(qty, row.remainingQty, row.averagePrice, lot.realizedPnl);
    } else {
      assert ApplyDeal(h, deal)
          == Held(0, row.remainingQty, row.averagePrice, lot.realizedPnl + (price - p.averagePrice) * qty as real);
    }
  }

  /** So the lot keeps agreeing when its only holder deals. */
  lemma HolderKeepsLot(
    lot: Lot, positions: seq<Position>, id: nat, row: Position, after: Lot, b: Book, symbol: string)
    requires LotAgrees(lot, positions, b, symbol)
    requires id < |positions| && Owned(positions[id], b, symbol) && SameOwner(positions[id], row)
    requires forall j :: 0 <= j < |positions| && j != id && Owned(positions[j], b, symbol)
                         ==> positions[j].remainingQty == 0
    requires after.qty == row.remainingQty && (0 < row.remainingQty ==> after.avgCost == row.averagePrice)
    requires after.realizedPnl == lot.realizedPnl + (row.realizedPnl - positions[id].realizedPnl)
    ensures LotAgrees(after, positions[id := row], b, symbol)
  {
    OneHolderSum(positions[id := row], id, b, symbol);
    SumRealUpdate(positions, id, row, Profit(b, symbol));
  }

  lemma DealKeepsLot(
    lot: Lot, positions: seq<Position>, id: nat, row: Position, action: string, qty: nat, price: real,
    b: Book, symbol: string)
    requires symbol != "" && LotAgrees(lot, positions, b, symbol)
    requires id < |positions| && Owned(positions[id], b, symbol) && Moved(positions[id], row, action, qty, price)
    requires forall j :: 0 <= j < |positions| && j != id && Owned(positions[j], b, symbol)
                         ==> positions[j].remainingQty == 0
    ensures var t := TradeRow(symbol, action, "filled", qty, qty, price);
      Counts(t) && LotAgrees(Absorb(lot, t), positions[id := row], b, symbol)
  {
    OneHolderSum(positions, id, b, symbol);
    DealMovesLot(lot, positions[id], row, action, qty, price, symbol);
    var t := TradeRow(symbol, action, "filled", qty, qty, price);
    HolderKeepsLot(lot, positions, id, row, Absorb(lot, t), b, symbol);
  }

  /** A deal of somebody else moves nothing of this owner. */
  lemma OtherDealKeepsLot(
    lot: Lot, positions: seq<Position>, id: nat, row: Position, b: Book, symbol: string)
    requires LotAgrees(lot, positions, b, symbol)
    requires id < |positions| && !Owned(positions[id], b, symbol) && SameOwner(positions[id], row)
    ensures LotAgrees(lot, positions[id := row], b, symbol)
  {
    SumIntUpdate(positions, id, row, Shares(b, symbol));
    SumRealUpdate(positions, id, row, Profit(b, symbol));
  }

  lemma HolderIsAlone(positions: seq<Position>, id: nat, row: Position, action: string, qty: nat, price: real,
                      b: Book, symbol: string)
    requires PositionsSound(positions) && id < |positions| && Owned(positions[id], b, symbol)
    requires Moved(positions[id], row, action, qty, price) && !Clashes(positions, id, row)
    ensures forall j :: 0 <= j < |positions| && j != id && Owned(positions[j], b, symbol)
                        ==> positions[j].remainingQty == 0
  {
    if action == "buy" {
      OthersHoldNothing(positions, id, row, b, symbol);
    } else {
      var p := positions[id];
      assert PositionRow(p);
      forall j | 0 <= j < |positions| && j != id && IsActive(positions[j]) ensures !SameOwner(positions[j], p) {
        assert !SameOwner(positions[if j < id then j else id], positions[if j < id then id else j]);
      }
      OthersHoldNothing(positions, id, p, b, symbol);
    }
  }

  lemma FillKeepsLot(
    lot: Lot, positions: seq<Position>, id: nat, row: Position, action: string, qty: nat, price: real,
    b: Book, symbol: string)
    requires symbol != "" && LotAgrees(lot, positions, b, symbol) && PositionsSound(positions)
    requires id < |positions| && Moved(positions[id], row, action, qty, price) && !Clashes(positions, id, row)
    ensures var t := TradeRow(symbol, action, "filled", qty, qty, price);
      Counts(t)
      && LotAgrees(if Owned(positions[id], b, symbol) then Absorb(lot, t) else lot, positions[id := row], b, symbol)
  {
    if Owned(positions[id], b, symbol) {
      HolderIsAlone(positions, id, row, action, qty, price, b, symbol);
      DealKeepsLot(lot, positions, id, row, action, qty, price, b, symbol);
    } else {
      OtherDealKeepsLot(lot, positions, id, row, b, symbol);
    }
  }

  /** What a new fill does to the tables that the book is read from. */
  ghost predicate FilledTables(db: Db, after: Db, k: nat, row: Position, qty: nat, price: real)
    requires k < |db.orders| && 0 < qty && FillObstacle(db, k, qty).None?
  {
    var id := db.orders[k].position.value;
    after.positions == db.positions[id := row]
    && after.orderEvents == db.orderEvents + [FillEvent(db.orders[k], k, qty, price)]
    && SameHands(db.orders, after.orders)
    && Moved(db.positions[id], row, db.orders[k].action, qty, price) && !Clashes(db.positions, id, row)
  }

  lemma FilledTablesKeepBook(
    db: Db, after: Db, k: nat, row: Position, qty: nat, price: real, b: Book, symbol: string)
    requires PositionsSound(db.positions) && BookAgrees(db, b, symbol) && symbol != ""
    requires k < |db.orders| && 0 < qty && FillObstacle(db, k, qty).None?
    requires FilledTables(db, after, k, row, qty, price)
    ensures BookAgrees(after, b, symbol)
  {
    var id := db.orders[k].position.value;
    var e := FillEvent(db.orders[k], k, qty, price);
    RowsNeedOnlyHands(db.orderEvents, db.orders, db.positions, after.orders, after.positions, b);
    OneRowMore(db.orderEvents, e, after.orders, after.positions, b, symbol);
    FillKeepsLot(LotOf(BookRows(db.orderEvents, db.orders, db.positions, b), symbol), db.positions, id, row,
                 db.orders[k].action, qty, price, b, symbol);
  }

  lemma FillIsFilledTables(db: Db, k: nat, qty: nat, price: real, key: string)
    requires k < |db.orders| && 0 < qty
    requires FillObstacle(db, k, qty).None? && AttributeFill(db, k, qty, price).Ok?
    ensures var row := AttributeFill(db, k, qty, price).value.positions[db.orders[k].position.value];
      FilledTables(db, NewFill(db, k, qty, price, key).db, k, row, qty, price)
  {
    AttributedShape(db, k, qty, price);
  }

  lemma FillKeepsBook(db: Db, k: nat, qty: nat, price: real, key: string, b: Book, symbol: string)
    requires PositionsSound(db.positions) && k < |db.orders| && 0 < qty && symbol != "" && BookAgrees(db, b, symbol)
    requires FillObstacle(db, k, qty).None? && AttributeFill(db, k, qty, price).Ok?
    ensures BookAgrees(NewFill(db, k, qty, price, key).db, b, symbol)
  {
    var row := AttributeFill(db, k, qty, price).value.positions[db.orders[k].position.value];
    FillIsFilledTables(db, k, qty, price, key);
    FilledTablesKeepBook(db, NewFill(db, k, qty, price, key).db, k, row, qty, price, b, symbol);
  }

  lemma OneRowMore(
    events: seq<OrderEvent>, e: OrderEvent, orders: seq<Order>, positions: seq<Position>, b: Book, symbol: string)
    requires FillsHaveOwners(events, orders, positions)
    requires e.order < |orders| && orders[e.order].position.Some? && orders[e.order].position.value < |positions|
    ensures FillsHaveOwners(events + [e], orders, positions)
    ensures var row := BookRow(e, orders, positions, b);
      var lot := LotOf(BookRows(events, orders, positions, b), symbol);
      LotOf(BookRows(events + [e], orders, positions, b), symbol)
      == if row.Some? && Counts(row.value) && row.value.symbol == symbol then Absorb(lot, row.value) else lot
  {
    assert (events + [e])[..|events|] == events;
    var rows := BookRows(events, orders, positions, b);
    match BookRow(e, orders, positions, b)
    case None =>
    case Some(row) =>
      assert (rows + [row])[..|rows|] == rows;
  }

  // ---- runs ----

  lemma StepKeepsBook(db: Db, c: Command, b: Book, symbol: string)
    requires Valid(db) && symbol != "" && BookAgrees(db, b, symbol)
    ensures BookAgrees(Step(db, c).db, b, symbol)
  {
    if c.ApplyFill? {
      FillIsNewOrNothing(db, c.order, c.qty, c.price, c.fillKey);
      if Step(db, c).db != db && FillObstacle(db, c.order, c.qty).None?
         && AttributeFill(db, c.order, c.qty, c.price).Ok? {
        FillKeepsBook(db, c.order, c.qty, c.price, c.fillKey, b, symbol);
      }
    } else {
      OtherStepsWait(db, c);
      WaitingKeepsBook(db, Step(db, c).db, b, symbol);
    }
  }

  lemma {:induction false} RunKeepsBook(db: Db, run: seq<Command>, b: Book, symbol: string)
    requires Valid(db) && symbol != "" && BookAgrees(db, b, symbol)
    ensures BookAgrees(Run(db, run), b, symbol)
    decreases |run|
  {
    if run != [] {
      StepKeepsBook(db, run[0], b, symbol);
      StepKeepsValid(db, run[0]);
      RunKeepsBook(Step(db, run[0]).db, run[1..], b, symbol);
    }
  }

  lemma EmptyBookAgrees(b: Book, symbol: string)
    ensures BookAgrees(EMPTY_DB, b, symbol)
  {
  }

  lemma EveryRunKeepsBook(run: seq<Command>, b: Book, symbol: string)
    requires symbol != ""
    ensures BookAgrees(Run(EMPTY_DB, run), b, symbol)
  {
    EmptyIsValid();
    EmptyBookAgrees(b, symbol);
    RunKeepsBook(EMPTY_DB, run, b, symbol);
  }

  lemma BookSaysLot(db: Db, b: Book, symbol: string)
    requires BookAgrees(db, b, symbol)
    ensures LotAgrees(LotOf(BookRows(db.orderEvents, db.orders, db.positions, b), symbol), db.positions, b, symbol)
  {
  }

  /**
   For every run and every book: one fold over all fills of the book, with its symbols and its
   closed, reopened and successive positions mixed, gives for each symbol the shares of the one row
   that holds any, at that row's average, and the profit of all its rows together.
   */
  lemma {:induction false} TradeListAgreesWithBook(run: seq<Command>, b: Book, symbol: string)
    requires symbol != ""
    ensures var db := Run(EMPTY_DB, run);
      LotAgrees(LotOf(BookRows(db.orderEvents, db.orders, db.positions, b), symbol), db.positions, b, symbol)
  {
    EveryRunKeepsBook(run, b, symbol);
    BookSaysLot(Run(EMPTY_DB, run), b, symbol);
  }
}
