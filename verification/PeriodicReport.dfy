/** Daily, monthly and per-strategy trading reports, accumulated in one pass over the trades. */
module PeriodicReport {
  import opened Sums
  import opened Reals
  import AverageCost

  /** One account trade, oldest first; `ts` starts with an ISO date. */
  datatype ReportTrade = ReportTrade(
    ts: string, action: string, symbol: string, strategy: string, qty: int, price: int)

  datatype Holding = Holding(qty: nat, avgCost: real)

  datatype Bucket = Bucket(
    orders: int, buys: int, sells: int, buyAmount: int, sellAmount: int, realizedPnl: int, costOfSold: int)

  const ZERO := Bucket(0, 0, 0, 0, 0, 0, 0)

  function Plus(a: Bucket, b: Bucket): Bucket {
    Bucket(a.orders + b.orders, a.buys + b.buys, a.sells + b.sells, a.buyAmount + b.buyAmount,
           a.sellAmount + b.sellAmount, a.realizedPnl + b.realizedPnl, a.costOfSold + b.costOfSold)
  }

  predicate Counted(t: ReportTrade) {
    |t.ts| >= 10 && t.ts[0] != '-' && t.qty > 0 && (t.action == "buy" || t.action == "sell")
  }

  function DayKey(ts: string): string { if |ts| < 10 then ts else ts[..10] }

  function MonthKey(ts: string): string { if |ts| < 7 then ts else ts[..7] }

  // ---- what one trade does ----

  function SoldQty(h: Holding, t: ReportTrade): int { MinInt(t.qty, h.qty) }

  /** Profit of a sell before it is cut to whole won. */
  function ExactProfit(h: Holding, t: ReportTrade): real {
    if t.action == "sell" && t.price > 0 then (t.price as real - h.avgCost) * SoldQty(h, t) as real else 0.0
  }

  function HoldingNext(h: Holding, t: ReportTrade): Holding
    requires Counted(t)
  {
    if t.price <= 0 then h
    else if t.action == "buy" then
      var total := h.qty + t.qty;
      Holding(total, AverageCost.CostAfterBuy(h.qty, h.avgCost, t.qty, t.price as real))
    else
      var left := h.qty - SoldQty(h, t);
      Holding(left, if left <= 0 then 0.0 else h.avgCost)
  }

  /** The entry a counted trade adds to its day and month. */
  function Contribution(h: Holding, t: ReportTrade): Bucket {
    var amount := if t.price > 0 then t.qty * t.price else 0;
    if t.action == "buy" then Bucket(1, 1, 0, amount, 0, 0, 0)
    else
      Bucket(1, 0, 1, 0, amount, Trunc(ExactProfit(h, t)),
             if t.price > 0 then Trunc(h.avgCost * SoldQty(h, t) as real) else 0)
  }

  datatype Entry = Entry(day: string, month: string, strategy: string, symbol: string, bucket: Bucket)

  /** Holding of one symbol after the trades; profit is matched by symbol, not by strategy. */
  function HoldingAfter(trades: seq<ReportTrade>, symbol: string): Holding {
    if trades == [] then Holding(0, 0.0)
    else
      var n := |trades| - 1;
      var before := HoldingAfter(trades[..n], symbol);
      if Counted(trades[n]) && trades[n].symbol == symbol then HoldingNext(before, trades[n]) else before
  }

  function EntryOf(trades: seq<ReportTrade>, t: ReportTrade): Entry {
    Entry(DayKey(t.ts), MonthKey(t.ts), t.strategy, t.symbol, Contribution(HoldingAfter(trades, t.symbol), t))
  }

  /** All entries, in trade order. */
  function Entries(trades: seq<ReportTrade>): seq<Entry> {
    if trades == [] then []
    else
      var n := |trades| - 1;
      if Counted(trades[n]) then Entries(trades[..n]) + [EntryOf(trades[..n], trades[n])] else Entries(trades[..n])
  }

  // ---- sums of entries ----

  /** The three ways the report groups its entries. */
  datatype View = ByDay | ByMonth | ByStrategy

  function KeyOf(v: View, e: Entry): string {
    match v
    case ByDay => e.day
    case ByMonth => e.month
    case ByStrategy => e.strategy
  }

  /** A strategy keeps its order counts and profit only. */
  function StrategyPart(b: Bucket): Bucket { b.(buyAmount := 0, sellAmount := 0, costOfSold := 0) }

  function PartOf(v: View, b: Bucket): Bucket { if v == ByStrategy then StrategyPart(b) else b }

  /** Sum of the entries with one of these keys. */
  function Gather(entries: seq<Entry>, v: View, keys: set<string>): Bucket {
    if entries == [] then ZERO
    else
      var before := Gather(entries[..|entries| - 1], v, keys);
      var e := entries[|entries| - 1];
      if KeyOf(v, e) in keys then Plus(before, PartOf(v, e.bucket)) else before
  }

  lemma GatherAppend(entries: seq<Entry>, e: Entry, v: View, keys: set<string>)
    ensures Gather(entries + [e], v, keys)
            == if KeyOf(v, e) in keys then Plus(Gather(entries, v, keys), PartOf(v, e.bucket))
               else Gather(entries, v, keys)
  {
  }

  lemma {:induction false} GatherNothing(entries: seq<Entry>, v: View, keys: set<string>)
    requires forall e :: e in entries ==> KeyOf(v, e) !in keys
    ensures Gather(entries, v, keys) == ZERO
  {
    if entries != [] {
      GatherNothing(entries[..|entries| - 1], v, keys);
      assert entries[|entries| - 1] in entries;
    }
  }

  /** Disjoint sets of keys gather disjoint entries. */
  lemma {:induction false} GatherUnion(entries: seq<Entry>, v: View, a: set<string>, b: set<string>)
    requires a !! b
    ensures Gather(entries, v, a + b) == Plus(Gather(entries, v, a), Gather(entries, v, b))
  {
    if entries != [] {
      GatherUnion(entries[..|entries| - 1], v, a, b);
    }
  }

  /** Two groupings that pick the same entries, and keep the same part of them, gather the same. */
  lemma {:induction false} GatherSame(entries: seq<Entry>, v: View, a: set<string>, w: View, b: set<string>)
    requires v != ByStrategy && w != ByStrategy
    requires forall e :: e in entries ==> (KeyOf(v, e) in a <==> KeyOf(w, e) in b)
    ensures Gather(entries, v, a) == Gather(entries, w, b)
  {
    if entries != [] {
      GatherSame(entries[..|entries| - 1], v, a, w, b);
      assert entries[|entries| - 1] in entries;
    }
  }

  /** A dictionary that remembers the order its keys arrived in. */
  datatype Table = Table(keys: seq<string>, rows: map<string, Bucket>)

  function AddTo(t: Table, key: string, b: Bucket): Table {
    if key in t.rows then t.(rows := t.rows[key := Plus(t.rows[key], b)])
    else Table(t.keys + [key], t.rows[key := Plus(ZERO, b)])
  }

  ghost predicate Distinct(keys: seq<string>) {
    forall i, j :: 0 <= i < j < |keys| ==> keys[i] != keys[j]
  }

  /** The table holds exactly the keys that occur, each with the sum of its entries. */
  ghost predicate Tabulates(t: Table, entries: seq<Entry>, v: View) {
    Distinct(t.keys)
    && (forall k :: k in t.keys <==> k in t.rows)
    && (forall e :: e in entries ==> KeyOf(v, e) in t.rows)
    && (forall k :: k in t.rows ==> t.rows[k] == Gather(entries, v, {k}))
  }

  lemma AddKeepsTable(t: Table, entries: seq<Entry>, e: Entry, v: View)
    requires Tabulates(t, entries, v)
    ensures Tabulates(AddTo(t, KeyOf(v, e), PartOf(v, e.bucket)), entries + [e], v)
  {
    var key := KeyOf(v, e);
    var after := AddTo(t, key, PartOf(v, e.bucket));
    if key !in t.rows {
      GatherNothing(entries, v, {key});
    }
    forall k | k in after.rows ensures after.rows[k] == Gather(entries + [e], v, {k}) {
      GatherAppend(entries, e, v, {k});
    }
  }

  /** The three tables of the report. */
  datatype Report = Report(daily: Table, monthly: Table, stats: Table)

  ghost predicate Reports(r: Report, entries: seq<Entry>) {
    Tabulates(r.daily, entries, ByDay)
    && Tabulates(r.monthly, entries, ByMonth)
    && Tabulates(r.stats, entries, ByStrategy)
  }

  function AddEntry(r: Report, e: Entry): Report {
    Report(AddTo(r.daily, e.day, e.bucket), AddTo(r.monthly, e.month, e.bucket),
           AddTo(r.stats, e.strategy, StrategyPart(e.bucket)))
  }

  lemma AddEntryKeepsReport(r: Report, entries: seq<Entry>, e: Entry)
    requires Reports(r, entries)
    ensures Reports(AddEntry(r, e), entries + [e])
  {
    AddKeepsTable(r.daily, entries, e, ByDay);
    AddKeepsTable(r.monthly, entries, e, ByMonth);
    AddKeepsTable(r.stats, entries, e, ByStrategy);
  }

  /** The running holdings dictionary: a missing symbol has never been traded. */
  ghost predicate Tracks(holdings: map<string, Holding>, trades: seq<ReportTrade>) {
    forall s: string :: HoldingAfter(trades, s) == if s in holdings then holdings[s] else Holding(0, 0.0)
  }

  lemma TrackOneMore(holdings: map<string, Holding>, trades: seq<ReportTrade>, t: ReportTrade)
    requires Tracks(holdings, trades)
    ensures var h := if t.symbol in holdings then holdings[t.symbol] else Holding(0, 0.0);
      h == HoldingAfter(trades, t.symbol)
      && Tracks(if Counted(t) then holdings[t.symbol := HoldingNext(h, t)] else holdings, trades + [t])
  {
  }

  lemma EntriesOneMore(trades: seq<ReportTrade>, t: ReportTrade)
    ensures Entries(trades + [t]) == if Counted(t) then Entries(trades) + [EntryOf(trades, t)] else Entries(trades)
  {
  }

  method BuildPeriodicPerformance(trades: seq<ReportTrade>) returns (r: Report)
    ensures Reports(r, Entries(trades))
  {
    r := Report(Table([], map[]), Table([], map[]), Table([], map[]));
    var holdings: map<string, Holding> := map[];
    for i := 0 to |trades|
      invariant Reports(r, Entries(trades[..i]))
      invariant Tracks(holdings, trades[..i])
    {
      var t := trades[i];
      assert trades[..i + 1] == trades[..i] + [t];
      TrackOneMore(holdings, trades[..i], t);
      EntriesOneMore(trades[..i], t);
      if Counted(t) {
        var holding := if t.symbol in holdings then holdings[t.symbol] else Holding(0, 0.0);
        var e := Entry(DayKey(t.ts), MonthKey(t.ts), t.strategy, t.symbol, Contribution(holding, t));
        AddEntryKeepsReport(r, Entries(trades[..i]), e);
        r := AddEntry(r, e);
        holdings := holdings[t.symbol := HoldingNext(holding, t)];
      }
    }
    assert trades[..|trades|] == trades;
  }

  // ---- the tables agree with each other ----

  /** Grand total of some keys of a table. */
  function TotalOf(keys: seq<string>, rows: map<string, Bucket>): Bucket
    requires forall k :: k in keys ==> k in rows
  {
    if keys == [] then ZERO else Plus(TotalOf(keys[..|keys| - 1], rows), rows[keys[|keys| - 1]])
  }

  ghost function KeySet(keys: seq<string>): set<string> { set k | k in keys }

  lemma KeySetOneMore(keys: seq<string>)
    requires keys != [] && Distinct(keys)
    ensures var n := |keys| - 1;
      KeySet(keys) == KeySet(keys[..n]) + {keys[n]} && KeySet(keys[..n]) !! {keys[n]}
  {
    var n := |keys| - 1;
    assert keys == keys[..n] + [keys[n]] && keys[n] !in keys[..n];
  }

  /** Adding up the rows of some keys is gathering the entries with those keys. */
  lemma {:induction false} TotalGathers(keys: seq<string>, t: Table, entries: seq<Entry>, v: View)
    requires Tabulates(t, entries, v)
    requires Distinct(keys) && forall k :: k in keys ==> k in t.rows
    ensures TotalOf(keys, t.rows) == Gather(entries, v, KeySet(keys))
  {
    if keys == [] {
      GatherNothing(entries, v, KeySet(keys));
    } else {
      var n := |keys| - 1;
      var last := keys[n];
      TotalGathers(keys[..n], t, entries, v);
      KeySetOneMore(keys);
      GatherUnion(entries, v, KeySet(keys[..n]), {last});
    }
  }

  /** The sum of all entries. */
  function GatherAll(entries: seq<Entry>): Bucket {
    if entries == [] then ZERO else Plus(GatherAll(entries[..|entries| - 1]), entries[|entries| - 1].bucket)
  }

  lemma {:induction false} GatherEverything(entries: seq<Entry>, v: View, keys: set<string>)
    requires forall e :: e in entries ==> KeyOf(v, e) in keys
    ensures Gather(entries, v, keys) == PartOf(v, GatherAll(entries))
  {
    if entries != [] {
      GatherEverything(entries[..|entries| - 1], v, keys);
      assert entries[|entries| - 1] in entries;
    }
  }

  lemma TableTotal(t: Table, entries: seq<Entry>, v: View)
    requires Tabulates(t, entries, v)
    ensures TotalOf(t.keys, t.rows) == PartOf(v, GatherAll(entries))
  {
    TotalGathers(t.keys, t, entries, v);
    GatherEverything(entries, v, KeySet(t.keys));
  }

  /** Days, months and strategies have the same grand totals: counts, profit, and amounts where kept. */
  lemma {:induction false} GrandTotalsAgree(trades: seq<ReportTrade>, r: Report)
    requires Reports(r, Entries(trades))
    ensures TotalOf(r.daily.keys, r.daily.rows) == TotalOf(r.monthly.keys, r.monthly.rows)
    ensures TotalOf(r.stats.keys, r.stats.rows) == StrategyPart(TotalOf(r.daily.keys, r.daily.rows))
  {
    TableTotal(r.daily, Entries(trades), ByDay);
    TableTotal(r.monthly, Entries(trades), ByMonth);
    TableTotal(r.stats, Entries(trades), ByStrategy);
  }

  /** The days of a table that fall into a month. */
  function DaysIn(days: seq<string>, month: string): seq<string> {
    if days == [] then []
    else
      var d := days[|days| - 1];
      var before := DaysIn(days[..|days| - 1], month);
      if MonthKey(d) == month then before + [d] else before
  }

  lemma {:induction false} DaysInAreDays(days: seq<string>, month: string)
    requires Distinct(days)
    ensures Distinct(DaysIn(days, month))
    ensures forall d :: d in DaysIn(days, month) <==> d in days && MonthKey(d) == month
  {
    if days != [] {
      var n := |days| - 1;
      DaysInAreDays(days[..n], month);
      assert days == days[..n] + [days[n]];
    }
  }

  lemma {:induction false} EntriesKeepMonth(trades: seq<ReportTrade>)
    ensures forall e :: e in Entries(trades) ==> MonthKey(e.day) == e.month
  {
    if trades != [] {
      var n := |trades| - 1;
      EntriesKeepMonth(trades[..n]);
      if Counted(trades[n]) {
        assert trades[n].ts[..10][..7] == trades[n].ts[..7];
      }
    }
  }

  /** Every month is the sum of its days, field by field. */
  lemma {:induction false} MonthIsSumOfDays(trades: seq<ReportTrade>, r: Report, month: string)
    requires Reports(r, Entries(trades)) && month in r.monthly.rows
    ensures (forall d :: d in DaysIn(r.daily.keys, month) ==> d in r.daily.rows)
    ensures r.monthly.rows[month] == TotalOf(DaysIn(r.daily.keys, month), r.daily.rows)
  {
    var days := DaysIn(r.daily.keys, month);
    DaysInAreDays(r.daily.keys, month);
    EntriesKeepMonth(trades);
    TotalGathers(days, r.daily, Entries(trades), ByDay);
    GatherSame(Entries(trades), ByDay, KeySet(days), ByMonth, {month});
  }

  // ---- agreement with the average-cost ledger ----

  function RowOf(t: ReportTrade): AverageCost.TradeRow {
    AverageCost.TradeRow(t.symbol, t.action, "filled", t.qty, t.qty, t.price as real)
  }

  /** The rows the trade-list fold would see: counted trades with a price. */
  function PricedRows(trades: seq<ReportTrade>): seq<AverageCost.TradeRow> {
    if trades == [] then []
    else
      var n := |trades| - 1;
      var t := trades[n];
      if Counted(t) && t.price > 0 then PricedRows(trades[..n]) + [RowOf(t)] else PricedRows(trades[..n])
  }

  function ProfitOf(symbol: string): Entry -> int {
    (e: Entry) => if e.symbol == symbol then e.bucket.realizedPnl else 0
  }

  function SellOf(symbol: string): Entry -> int {
    (e: Entry) => if e.symbol == symbol then e.bucket.sells else 0
  }

  function Abs(x: real): real { if x < 0.0 then -x else x }

  /** Cut to whole numbers `sells` times, a total is off by less than one per cut. */
  ghost predicate CloseTo(exact: real, reported: int, sells: int) {
    0 <= sells
    && if sells == 0 then exact == reported as real else Abs(exact - reported as real) < sells as real
  }

  lemma CutOnce(exact: real, reported: int, sells: int, x: real)
    requires CloseTo(exact, reported, sells)
    ensures CloseTo(exact + x, reported + Trunc(x), sells + 1)
  {
  }

  /** The two codes hold the same quantity at the same average cost after one more trade. */
  lemma HoldingAndLotStep(h: Holding, lot: AverageCost.Lot, t: ReportTrade)
    requires Counted(t) && t.price > 0 && t.symbol != "" && lot.qty == h.qty && lot.avgCost == h.avgCost
    ensures AverageCost.Absorb(lot, RowOf(t))
            == AverageCost.Lot(HoldingNext(h, t).qty, HoldingNext(h, t).avgCost, lot.realizedPnl + ExactProfit(h, t))
  {
  }

  /**
   The report's profit per symbol, cut to whole won sell by sell, stays within one won per sell of
   the exact profit that the independent trade-list fold finds on the same trades.
   */
  lemma {:induction false} ReportedProfitIsClose(trades: seq<ReportTrade>, symbol: string)
    requires symbol != ""
    ensures var lot := AverageCost.LotOf(PricedRows(trades), symbol);
      lot.qty == HoldingAfter(trades, symbol).qty && lot.avgCost == HoldingAfter(trades, symbol).avgCost
    ensures CloseTo(AverageCost.LotOf(PricedRows(trades), symbol).realizedPnl,
                    SumInt(Entries(trades), ProfitOf(symbol)), SumInt(Entries(trades), SellOf(symbol)))
  {
    if trades != [] {
      var n := |trades| - 1;
      ReportedProfitIsClose(trades[..n], symbol);
      if Counted(trades[n]) && trades[n].symbol == symbol {
        OneTradeMore(trades, symbol);
      } else if Counted(trades[n]) {
        OtherSymbolMore(trades, symbol);
      }
    }
  }

  lemma OtherSymbolMore(trades: seq<ReportTrade>, symbol: string)
    requires trades != [] && Counted(trades[|trades| - 1]) && trades[|trades| - 1].symbol != symbol
    ensures var before := trades[..|trades| - 1];
      AverageCost.LotOf(PricedRows(trades), symbol) == AverageCost.LotOf(PricedRows(before), symbol)
      && SumInt(Entries(trades), ProfitOf(symbol)) == SumInt(Entries(before), ProfitOf(symbol))
      && SumInt(Entries(trades), SellOf(symbol)) == SumInt(Entries(before), SellOf(symbol))
  {
  }

  lemma OneTradeMore(trades: seq<ReportTrade>, symbol: string)
    requires trades != [] && Counted(trades[|trades| - 1]) && trades[|trades| - 1].symbol == symbol && symbol != ""
    requires var before := trades[..|trades| - 1];
      var lot := AverageCost.LotOf(PricedRows(before), symbol);
      lot.qty == HoldingAfter(before, symbol).qty && lot.avgCost == HoldingAfter(before, symbol).avgCost
      && CloseTo(lot.realizedPnl, SumInt(Entries(before), ProfitOf(symbol)), SumInt(Entries(before), SellOf(symbol)))
    ensures var lot := AverageCost.LotOf(PricedRows(trades), symbol);
      lot.qty == HoldingAfter(trades, symbol).qty && lot.avgCost == HoldingAfter(trades, symbol).avgCost
      && CloseTo(lot.realizedPnl, SumInt(Entries(trades), ProfitOf(symbol)), SumInt(Entries(trades), SellOf(symbol)))
  {
    var n := |trades| - 1;
    var t := trades[n];
    var h := HoldingAfter(trades[..n], symbol);
    var lot := AverageCost.LotOf(PricedRows(trades[..n]), symbol);
    var profit, sells := SumInt(Entries(trades[..n]), ProfitOf(symbol)), SumInt(Entries(trades[..n]), SellOf(symbol));
    SumIntAppend(Entries(trades[..n]), EntryOf(trades[..n], t), ProfitOf(symbol));
    SumIntAppend(Entries(trades[..n]), EntryOf(trades[..n], t), SellOf(symbol));
    CutOnce(lot.realizedPnl, profit, sells, ExactProfit(h, t));
    if t.price > 0 {
      AverageCost.LotAppend(PricedRows(trades[..n]), RowOf(t), symbol);
      HoldingAndLotStep(h, lot, t);
    }
  }

  // ---- the same for the grand total ----

  /** Exact profit of all counted trades, each against the holding of its own symbol. */
  function ExactTotal(trades: seq<ReportTrade>): real {
    if trades == [] then 0.0
    else
      var n := |trades| - 1;
      var t := trades[n];
      ExactTotal(trades[..n])
      + (if Counted(t) then ExactProfit(HoldingAfter(trades[..n], t.symbol), t) else 0.0)
  }

  lemma {:induction false} AllEntriesAreClose(trades: seq<ReportTrade>)
    ensures CloseTo(ExactTotal(trades), GatherAll(Entries(trades)).realizedPnl, GatherAll(Entries(trades)).sells)
  {
    if trades != [] {
      var n := |trades| - 1;
      var t := trades[n];
      AllEntriesAreClose(trades[..n]);
      if Counted(t) {
        var h := HoldingAfter(trades[..n], t.symbol);
        var before := GatherAll(Entries(trades[..n]));
        assert GatherAll(Entries(trades)) == Plus(before, Contribution(h, t));
        CutOnce(ExactTotal(trades[..n]), before.realizedPnl, before.sells, ExactProfit(h, t));
      }
    }
  }

  /** Exact profits of these symbols in the trade-list fold, added up. */
  function LotTotal(trades: seq<ReportTrade>, symbols: seq<string>): real {
    if symbols == [] then 0.0
    else
      LotTotal(trades, symbols[..|symbols| - 1])
      + AverageCost.LotOf(PricedRows(trades), symbols[|symbols| - 1]).realizedPnl
  }

  /** One more trade moves the fold of its own symbol by its exact profit, and no other. */
  lemma LotStep(trades: seq<ReportTrade>, symbol: string)
    requires trades != [] && symbol != ""
    ensures var n := |trades| - 1;
      AverageCost.LotOf(PricedRows(trades), symbol).realizedPnl
      == AverageCost.LotOf(PricedRows(trades[..n]), symbol).realizedPnl
         + (if Counted(trades[n]) && trades[n].symbol == symbol
            then ExactProfit(HoldingAfter(trades[..n], symbol), trades[n]) else 0.0)
  {
    var n := |trades| - 1;
    var t := trades[n];
    ReportedProfitIsClose(trades[..n], symbol);
    if Counted(t) && t.price > 0 {
      AverageCost.LotAppend(PricedRows(trades[..n]), RowOf(t), symbol);
      if t.symbol == symbol {
        HoldingAndLotStep(HoldingAfter(trades[..n], symbol), AverageCost.LotOf(PricedRows(trades[..n]), symbol), t);
      }
    }
  }

  lemma {:induction false} LotTotalStep(trades: seq<ReportTrade>, symbols: seq<string>)
    requires trades != [] && Distinct(symbols) && "" !in symbols
    ensures var n := |trades| - 1;
      LotTotal(trades, symbols)
      == LotTotal(trades[..n], symbols)
         + (if Counted(trades[n]) && trades[n].symbol in symbols
            then ExactProfit(HoldingAfter(trades[..n], trades[n].symbol), trades[n]) else 0.0)
    decreases |symbols|
  {
    if symbols != [] {
      var m := |symbols| - 1;
      assert symbols == symbols[..m] + [symbols[m]];
      LotTotalStep(trades, symbols[..m]);
      LotStep(trades, symbols[m]);
    }
  }

  lemma {:induction false} NoTradesNoLots(symbols: seq<string>)
    ensures LotTotal([], symbols) == 0.0
    decreases |symbols|
  {
    if symbols != [] {
      NoTradesNoLots(symbols[..|symbols| - 1]);
    }
  }

  lemma {:induction false} LotsAddUp(trades: seq<ReportTrade>, symbols: seq<string>)
    requires Distinct(symbols) && "" !in symbols
    requires forall t :: t in trades && Counted(t) ==> t.symbol in symbols
    ensures LotTotal(trades, symbols) == ExactTotal(trades)
    decreases |trades|
  {
    if trades == [] {
      NoTradesNoLots(symbols);
    } else {
      var n := |trades| - 1;
      assert trades[n] in trades;
      LotsAddUp(trades[..n], symbols);
      LotTotalStep(trades, symbols);
    }
  }

  /**
   The grand total of the days is within less than one won per sell of the exact profit.  When every
   counted trade names a symbol, that is the profit of the trade-list fold over all symbols.
   */
  lemma {:induction false} TotalProfitIsClose(trades: seq<ReportTrade>, r: Report, symbols: seq<string>)
    requires Reports(r, Entries(trades))
    ensures var total := TotalOf(r.daily.keys, r.daily.rows);
      CloseTo(ExactTotal(trades), total.realizedPnl, total.sells)
      && (Distinct(symbols) && "" !in symbols && (forall t :: t in trades && Counted(t) ==> t.symbol in symbols) ==>
            CloseTo(LotTotal(trades, symbols), total.realizedPnl, total.sells))
  {
    TableTotal(r.daily, Entries(trades), ByDay);
    AllEntriesAreClose(trades);
    if Distinct(symbols) && "" !in symbols && (forall t :: t in trades && Counted(t) ==> t.symbol in symbols) {
      LotsAddUp(trades, symbols);
    }
  }

  // ---- the counts and amounts, from the trades themselves ----

  /** A buy or sell of something, with a date. */
  predicate InReport(t: ReportTrade) {
    10 <= |t.ts| && t.ts[0] != '-' && 0 < t.qty && t.action in {"buy", "sell"}
  }

  /** The day, month or strategy a trade is reported under. */
  function ReportedUnder(v: View, t: ReportTrade): string
    requires InReport(t)
  {
    match v
    case ByDay => t.ts[..10]
    case ByMonth => t.ts[..7]
    case ByStrategy => t.strategy
  }

  datatype Tally = Orders | Buys | Sells | BuyAmount | SellAmount

  function FieldOf(x: Tally, b: Bucket): int {
    match x
    case Orders => b.orders
    case Buys => b.buys
    case Sells => b.sells
    case BuyAmount => b.buyAmount
    case SellAmount => b.sellAmount
  }

  /** What one trade adds: itself, and its quantity at its price if the price is known. */
  function TallyOf(x: Tally, t: ReportTrade): int {
    var amount := if 0 < t.price then t.qty * t.price else 0;
    match x
    case Orders => 1
    case Buys => if t.action == "buy" then 1 else 0
    case Sells => if t.action == "sell" then 1 else 0
    case BuyAmount => if t.action == "buy" then amount else 0
    case SellAmount => if t.action == "sell" then amount else 0
  }

  function TallyUnder(x: Tally, v: View, key: string): ReportTrade -> int {
    (t: ReportTrade) => if InReport(t) && ReportedUnder(v, t) == key then TallyOf(x, t) else 0
  }

  lemma EntryTally(trades: seq<ReportTrade>, t: ReportTrade, x: Tally)
    requires Counted(t)
    ensures FieldOf(x, EntryOf(trades, t).bucket) == TallyOf(x, t)
  {
  }

  lemma PartAdds(x: Tally, v: View, a: Bucket, b: Bucket)
    requires v == ByStrategy ==> x == Orders || x == Buys || x == Sells
    ensures FieldOf(x, Plus(a, PartOf(v, b))) == FieldOf(x, a) + FieldOf(x, b)
  {
  }

  lemma EntryKey(trades: seq<ReportTrade>, t: ReportTrade, v: View)
    ensures Counted(t) <==> InReport(t)
    ensures Counted(t) ==> KeyOf(v, EntryOf(trades, t)) == ReportedUnder(v, t)
  {
  }

  /** Every count and amount of a row is the sum over the trades reported under its key. */
  lemma {:induction false} GatherTallies(trades: seq<ReportTrade>, v: View, key: string, x: Tally)
    requires v == ByStrategy ==> x == Orders || x == Buys || x == Sells
    ensures FieldOf(x, Gather(Entries(trades), v, {key})) == SumInt(trades, TallyUnder(x, v, key))
  {
    if trades != [] {
      var n := |trades| - 1;
      var t := trades[n];
      assert trades == trades[..n] + [t];
      GatherTallies(trades[..n], v, key, x);
      SumIntAppend(trades[..n], t, TallyUnder(x, v, key));
      EntriesOneMore(trades[..n], t);
      EntryKey(trades[..n], t, v);
      if Counted(t) {
        var e := EntryOf(trades[..n], t);
        GatherAppend(Entries(trades[..n]), e, v, {key});
        EntryTally(trades[..n], t, x);
        PartAdds(x, v, Gather(Entries(trades[..n]), v, {key}), e.bucket);
      }
    }
  }

  /** The three tables, row by row, from the trades themselves. */
  lemma TablesTallyTrades(trades: seq<ReportTrade>, r: Report, key: string, x: Tally)
    requires Reports(r, Entries(trades))
    ensures key in r.daily.rows ==> FieldOf(x, r.daily.rows[key]) == SumInt(trades, TallyUnder(x, ByDay, key))
    ensures key in r.monthly.rows ==> FieldOf(x, r.monthly.rows[key]) == SumInt(trades, TallyUnder(x, ByMonth, key))
    ensures key in r.stats.rows && (x == Orders || x == Buys || x == Sells) ==>
              FieldOf(x, r.stats.rows[key]) == SumInt(trades, TallyUnder(x, ByStrategy, key))
  {
    GatherTallies(trades, ByDay, key, x);
    GatherTallies(trades, ByMonth, key, x);
    if x == Orders || x == Buys || x == Sells {
      GatherTallies(trades, ByStrategy, key, x);
    }
  }

  /** What the shares sold by a trade had cost, before any cut to whole won. */
  function SoldCost(h: Holding, t: ReportTrade): real {
    if t.action == "sell" && 0 < t.price then h.avgCost * SoldQty(h, t) as real else 0.0
  }

  /** A sell sells what is held, at most. */
  lemma SellsAtMostHeld(h: Holding, t: ReportTrade)
    ensures SoldQty(h, t) == if t.qty < h.qty then t.qty else h.qty
  {
  }

  function ExactSoldCost(trades: seq<ReportTrade>): real {
    if trades == [] then 0.0
    else
      var n := |trades| - 1;
      var t := trades[n];
      ExactSoldCost(trades[..n]) + (if InReport(t) then SoldCost(HoldingAfter(trades[..n], t.symbol), t) else 0.0)
  }

  lemma SoldCostIsCut(h: Holding, t: ReportTrade)
    requires Counted(t)
    ensures Contribution(h, t).sells == if t.action == "sell" then 1 else 0
    ensures Contribution(h, t).costOfSold == if t.action == "sell" then Trunc(SoldCost(h, t)) else 0
  {
  }

  lemma CloseStep(exact: real, reported: int, sells: int, isSell: bool, x: real)
    requires CloseTo(exact, reported, sells) && (!isSell ==> x == 0.0)
    ensures CloseTo(exact + x, reported + (if isSell then Trunc(x) else 0), sells + (if isSell then 1 else 0))
  {
    if isSell {
      CutOnce(exact, reported, sells, x);
    }
  }

  /** The reported cost of the shares sold is within less than one won per sell of what they had cost. */
  lemma {:induction false} SoldCostIsClose(trades: seq<ReportTrade>)
    ensures CloseTo(ExactSoldCost(trades), GatherAll(Entries(trades)).costOfSold, GatherAll(Entries(trades)).sells)
  {
    if trades != [] {
      var n := |trades| - 1;
      var t := trades[n];
      SoldCostIsClose(trades[..n]);
      if Counted(t) {
        var h := HoldingAfter(trades[..n], t.symbol);
        var before := GatherAll(Entries(trades[..n]));
        assert GatherAll(Entries(trades)) == Plus(before, Contribution(h, t));
        SoldCostIsCut(h, t);
        CloseStep(ExactSoldCost(trades[..n]), before.costOfSold, before.sells, t.action == "sell", SoldCost(h, t));
      }
    }
  }
}
