/**
 The second, independent ledger: positions rebuilt from the tagged trade list by an average-cost
 fold, and its agreement with the transactional ledger.
 */
module AverageCost {
  import opened Tables
  import opened Books
  import opened EventLog
  import opened LedgerRuns

  /** One successful trade row of a strategy, in time order. */
  datatype TradeRow = TradeRow(
    symbol: string, action: string, orderStatus: string, filledQty: int, qty: int, price: real)

  datatype Lot = Lot(qty: nat, avgCost: real, realizedPnl: real)

  const NO_LOT := Lot(0, 0.0, 0.0)

  function EffectiveQty(t: TradeRow): int {
    if t.filledQty > 0 then t.filledQty else t.qty
  }

  /** Rows without a symbol, not filled, or without a quantity are skipped. */
  predicate Counts(t: TradeRow) {
    t.symbol != ""
    && (t.orderStatus == "" || t.orderStatus == "filled" || t.orderStatus == "demo_local_filled")
    && EffectiveQty(t) > 0
  }

  /** Average cost per share after buying `more` shares at `price` on top of `held`. */
  function CostAfterBuy(held: nat, avgCost: real, more: nat, price: real): real
    requires 0 < more
  {
    (held as real * avgCost + more as real * price) / (held + more) as real
  }

  function Absorb(lot: Lot, t: TradeRow): Lot
    requires Counts(t)
  {
    var qty := EffectiveQty(t);
    if t.action == "buy" then
      var total := lot.qty + qty;
      lot.(qty := total, avgCost := CostAfterBuy(lot.qty, lot.avgCost, qty, t.price))
    else if t.action == "sell" then
      var sold := if qty < lot.qty then qty else lot.qty;
      var left := lot.qty - sold;
      Lot(left, if left == 0 then 0.0 else lot.avgCost,
          lot.realizedPnl + (t.price - lot.avgCost) * sold as real)
    else lot
  }

  /** What the rows say about one symbol, ignoring all others. */
  function LotOf(rows: seq<TradeRow>, symbol: string): Lot {
    if rows == [] then NO_LOT
    else
      var n := |rows| - 1;
      var before := LotOf(rows[..n], symbol);
      if Counts(rows[n]) && rows[n].symbol == symbol then Absorb(before, rows[n]) else before
  }

  lemma LotAppend(rows: seq<TradeRow>, r: TradeRow, symbol: string)
    ensures LotOf(rows + [r], symbol)
            == if Counts(r) && r.symbol == symbol then Absorb(LotOf(rows, symbol), r) else LotOf(rows, symbol)
  {
  }

  /** The quantity a row stands for: what is known to be filled, else what was ordered. */
  function KnownQty(t: TradeRow): int {
    if t.filledQty > 0 then t.filledQty else t.qty
  }

  /** The rows of a symbol that are filled or carry no status, each as a plain filled row of its quantity. */
  function PlainRows(rows: seq<TradeRow>): seq<TradeRow> {
    if rows == [] then []
    else
      var t := rows[|rows| - 1];
      var before := PlainRows(rows[..|rows| - 1]);
      if t.symbol != "" && t.orderStatus in {"", "filled", "demo_local_filled"} && KnownQty(t) > 0
      then before + [TradeRow(t.symbol, t.action, "filled", KnownQty(t), KnownQty(t), t.price)] else before
  }

  lemma CountsAsPlain(t: TradeRow)
    ensures Counts(t)
            <==> t.symbol != "" && t.orderStatus in {"", "filled", "demo_local_filled"} && KnownQty(t) > 0
    ensures Counts(t) ==> Counts(TradeRow(t.symbol, t.action, "filled", KnownQty(t), KnownQty(t), t.price))
    ensures EffectiveQty(t) == KnownQty(t)
  {
  }

  lemma AbsorbReadsQuantity(lot: Lot, t: TradeRow, u: TradeRow)
    requires Counts(t) && Counts(u) && EffectiveQty(t) == EffectiveQty(u) && t.action == u.action && t.price == u.price
    ensures Absorb(lot, t) == Absorb(lot, u)
  {
  }

  /**
   Which rows count and for how much: only those of a symbol, filled or without a status, for their
   filled quantity if it is known and else for the quantity ordered.
   */
  lemma {:induction false} RowsCountAsPlain(rows: seq<TradeRow>, symbol: string)
    ensures LotOf(rows, symbol) == LotOf(PlainRows(rows), symbol)
  {
    if rows != [] {
      var n := |rows| - 1;
      var t := rows[n];
      var plain := TradeRow(t.symbol, t.action, "filled", KnownQty(t), KnownQty(t), t.price);
      RowsCountAsPlain(rows[..n], symbol);
      CountsAsPlain(t);
      if Counts(t) {
        LotAppend(PlainRows(rows[..n]), plain, symbol);
        AbsorbReadsQuantity(LotOf(rows[..n], symbol), t, plain);
      }
    }
  }

  /** Selling more than is held sells what is held, and forgets the cost once nothing is left. */
  lemma OversellSellsWhatIsHeld(lot: Lot, t: TradeRow)
    requires Counts(t) && t.action == "sell" && EffectiveQty(t) >= lot.qty
    ensures Absorb(lot, t) == Lot(0, 0.0, lot.realizedPnl + (t.price - lot.avgCost) * lot.qty as real)
  {
  }

  /** Rows that are neither buys nor sells move nothing. */
  lemma OtherActionsMoveNothing(lot: Lot, t: TradeRow)
    requires Counts(t) && t.action != "buy" && t.action != "sell"
    ensures Absorb(lot, t) == lot
  {
  }

  predicate Mentions(rows: seq<TradeRow>, symbol: string) {
    exists i :: 0 <= i < |rows| && Counts(rows[i]) && rows[i].symbol == symbol
  }

  /**
   One pass over the rows with a dictionary of lots.  Every symbol gets exactly what a pass over
   its own rows alone would give, and only lots that are open or earned something are returned.
   */
  method ReconstructStrategyPositions(rows: seq<TradeRow>) returns (result: map<string, Lot>)
    ensures forall s: string :: s in result <==>
      Mentions(rows, s) && (LotOf(rows, s).qty > 0 || LotOf(rows, s).realizedPnl != 0.0)
    ensures forall s: string :: s in result ==> result[s] == LotOf(rows, s)
  {
    var lots: map<string, Lot> := map[];
    for i := 0 to |rows|
      invariant forall s: string :: s in lots <==> Mentions(rows[..i], s)
      invariant forall s: string :: s in lots ==> lots[s] == LotOf(rows[..i], s)
      invariant forall s: string :: s !in lots ==> LotOf(rows[..i], s) == NO_LOT
    {
      assert rows[..i + 1] == rows[..i] + [rows[i]];
      assert rows[..i + 1][..i] == rows[..i];
      var t := rows[i];
      forall s: string ensures Mentions(rows[..i + 1], s) <==> Mentions(rows[..i], s) || (Counts(t) && t.symbol == s) {
        MentionsLast(rows[..i], t, s);
      }
      if Counts(t) {
        var lot := if t.symbol in lots then lots[t.symbol] else NO_LOT;
        lots := lots[t.symbol := Absorb(lot, t)];
      }
    }
    assert rows[..|rows|] == rows;
    result := map s | s in lots && (lots[s].qty > 0 || lots[s].realizedPnl != 0.0) :: lots[s];
  }

  lemma MentionsLast(rows: seq<TradeRow>, t: TradeRow, s: string)
    ensures Mentions(rows + [t], s) <==> Mentions(rows, s) || (Counts(t) && t.symbol == s)
  {
    if Mentions(rows, s) {
      var i :| 0 <= i < |rows| && Counts(rows[i]) && rows[i].symbol == s;
      assert (rows + [t])[i] == rows[i];
    }
    if Counts(t) && t.symbol == s {
      assert (rows + [t])[|rows|] == t;
    }
  }

  // ---- agreement with the transactional ledger ----

  function RowOf(symbol: string, d: Deal): TradeRow {
    TradeRow(symbol, if d.isBuy then "buy" else "sell", "filled", d.qty, d.qty, d.price)
  }

  /** The trade rows a position's fills would have left behind. */
  function RowsOf(symbol: string, deals: seq<Deal>): seq<TradeRow> {
    seq(|deals|, i requires 0 <= i < |deals| => RowOf(symbol, deals[i]))
  }

  /** Same quantity and profit, and the same average cost while anything is held. */
  predicate SameHolding(lot: Lot, h: Holding) {
    h.Held? && lot.qty == h.remainingQty && lot.realizedPnl == h.realizedPnl
    && (lot.qty > 0 ==> lot.avgCost == h.averagePrice)
  }

  /** Both codes average the same way, whatever is remembered of an average of nothing. */
  lemma CostIsAverage(held: nat, cost: real, average: real, more: nat, price: real)
    requires 0 < more && (0 < held ==> cost == average)
    ensures CostAfterBuy(held, cost, more, price) == Average(average, held, price, more)
  {
  }

  lemma OneDealAgrees(lot: Lot, h: Holding, symbol: string, d: Deal)
    requires symbol != "" && SameHolding(lot, h) && ApplyDeal(h, d).Held?
    ensures Counts(RowOf(symbol, d)) && SameHolding(Absorb(lot, RowOf(symbol, d)), ApplyDeal(h, d))
  {
    if d.isBuy {
      CostIsAverage(lot.qty, lot.avgCost, h.averagePrice, d.qty, d.price);
    }
  }

  lemma {:induction false} LedgersAgree(symbol: string, deals: seq<Deal>)
    requires symbol != "" && ApplyDeals(deals).Held?
    ensures SameHolding(LotOf(RowsOf(symbol, deals), symbol), ApplyDeals(deals))
  {
    if deals != [] {
      var n := |deals| - 1;
      LedgersAgree(symbol, deals[..n]);
      assert RowsOf(symbol, deals)[..n] == RowsOf(symbol, deals[..n]);
      OneDealAgrees(LotOf(RowsOf(symbol, deals[..n]), symbol), ApplyDeals(deals[..n]), symbol, deals[n]);
    }
  }

  /**
   For every run and every position: folding the position's accepted fills with the trade-list
   rules gives the quantity, realized profit and (while open) average cost the ledger stores.
   */
  lemma TradeListAgreesWithLedger(run: seq<Command>, id: nat, symbol: string)
    requires id < |Run(EMPTY_DB, run).positions| && symbol != ""
    ensures var db := Run(EMPTY_DB, run);
      var lot := LotOf(RowsOf(symbol, DealsOf(db.orderEvents, db.orders, id)), symbol);
      var p := db.positions[id];
      lot.qty == p.remainingQty && lot.realizedPnl == p.realizedPnl
      && (p.remainingQty > 0 ==> lot.avgCost == p.averagePrice)
  {
    ReachableIsValid(run);
    var db := Run(EMPTY_DB, run);
    assert ReplayPosition(db.orderEvents, db.orders, id) == HoldingOf(RowAt(db.positions, id));
    LedgersAgree(symbol, DealsOf(db.orderEvents, db.orders, id));
  }
}
