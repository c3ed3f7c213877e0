/** Positions at each session open: one sweep with two pointers over sorted trades and sorted dates. */
module HoldingSweep {
  import AverageCost

  /** A valid trade; `day` orders like the ISO date it stands for. */
  datatype DayTrade = DayTrade(day: int, symbol: string, isBuy: bool, qty: nat)

  predicate SortedByDay(trades: seq<DayTrade>) {
    forall i, j :: 0 <= i < j < |trades| ==> trades[i].day <= trades[j].day
  }

  predicate Ascending(dates: seq<int>) {
    forall i, j :: 0 <= i < j < |dates| ==> dates[i] < dates[j]
  }

  /** A sell never takes a position below zero. */
  function Apply(qty: nat, t: DayTrade): nat {
    if t.isBuy then qty + t.qty else if qty < t.qty then 0 else qty - t.qty
  }

  /** The from-scratch definition: fold all trades of one symbol dated before `day`. */
  function HeldBefore(trades: seq<DayTrade>, day: int, symbol: string): nat {
    if trades == [] then 0
    else
      var t := trades[|trades| - 1];
      var before := HeldBefore(trades[..|trades| - 1], day, symbol);
      if t.day < day && t.symbol == symbol then Apply(before, t) else before
  }

  ghost predicate Shows(positions: map<string, nat>, trades: seq<DayTrade>, day: int) {
    forall s: string :: HeldBefore(trades, day, s) == if s in positions then positions[s] else 0
  }

  lemma {:induction false} LaterTradesDoNotCount(trades: seq<DayTrade>, n: nat, day: int, symbol: string)
    requires n <= |trades| && forall i :: n <= i < |trades| ==> day <= trades[i].day
    ensures HeldBefore(trades, day, symbol) == HeldBefore(trades[..n], day, symbol)
    decreases |trades|
  {
    if n == |trades| {
      assert trades[..n] == trades;
    } else {
      var m := |trades| - 1;
      assert trades[..m][..n] == trades[..n];
      LaterTradesDoNotCount(trades[..m], n, day, symbol);
    }
  }

  lemma {:induction false} EarlierTradesAllCount(trades: seq<DayTrade>, a: int, b: int, symbol: string)
    requires forall i :: 0 <= i < |trades| ==> trades[i].day < a && trades[i].day < b
    ensures HeldBefore(trades, a, symbol) == HeldBefore(trades, b, symbol)
  {
    if trades != [] {
      EarlierTradesAllCount(trades[..|trades| - 1], a, b, symbol);
    }
  }

  /** The trade pointer stands right behind the trades dated before `day`. */
  ghost predicate Behind(trades: seq<DayTrade>, n: nat, day: int) {
    n <= |trades| && forall i :: 0 <= i < n ==> trades[i].day < day
  }

  /** Everything the sweep has absorbed is what a later date would count of it. */
  lemma NextDate(positions: map<string, nat>, trades: seq<DayTrade>, n: nat, day: int, next: int)
    requires Behind(trades, n, day) && day <= next && Shows(positions, trades[..n], day)
    ensures Behind(trades, n, next) && Shows(positions, trades[..n], next)
  {
    forall s: string ensures HeldBefore(trades[..n], next, s) == if s in positions then positions[s] else 0 {
      EarlierTradesAllCount(trades[..n], day, next, s);
    }
  }

  lemma AbsorbOne(positions: map<string, nat>, trades: seq<DayTrade>, n: nat, day: int)
    requires n < |trades| && trades[n].day < day && Shows(positions, trades[..n], day)
    ensures var t := trades[n];
      var held := if t.symbol in positions then positions[t.symbol] else 0;
      Shows(positions[t.symbol := Apply(held, t)], trades[..n + 1], day)
  {
    var t := trades[n];
    assert trades[..n + 1][..n] == trades[..n] && trades[..n + 1][n] == t;
  }

  /**
   One sweep: the trades are read once, yet on every date the positions are those a fresh fold of
   all trades before that date would give.
   */
  method SweepPositions(trades: seq<DayTrade>, dates: seq<int>) returns (opens: seq<map<string, nat>>)
    requires SortedByDay(trades) && Ascending(dates)
    ensures |opens| == |dates|
    ensures forall i :: 0 <= i < |dates| ==> Shows(opens[i], trades, dates[i])
  {
    opens := [];
    var positions: map<string, nat> := map[];
    var tradeIndex: nat := 0;
    if dates == [] {
      return;
    }
    for i := 0 to |dates|
      invariant |opens| == i
      invariant forall j :: 0 <= j < i ==> Shows(opens[j], trades, dates[j])
      invariant tradeIndex <= |trades|
      invariant i < |dates| ==> Behind(trades, tradeIndex, dates[i]) && Shows(positions, trades[..tradeIndex], dates[i])
    {
      var day := dates[i];
      while tradeIndex < |trades| && trades[tradeIndex].day < day
        invariant Behind(trades, tradeIndex, day)
        invariant Shows(positions, trades[..tradeIndex], day)
      {
        var t := trades[tradeIndex];
        AbsorbOne(positions, trades, tradeIndex, day);
        var held := if t.symbol in positions then positions[t.symbol] else 0;
        positions := positions[t.symbol := Apply(held, t)];
        tradeIndex := tradeIndex + 1;
      }
      forall s: string ensures HeldBefore(trades, day, s) == HeldBefore(trades[..tradeIndex], day, s) {
        LaterTradesDoNotCount(trades, tradeIndex, day, s);
      }
      opens := opens + [positions];
      if i + 1 < |dates| {
        NextDate(positions, trades, tradeIndex, day, dates[i + 1]);
      }
    }
  }

  // ---- agreement with the trade list ----

  /** The trades before a day as rows of the trade list; their price does not matter for quantities. */
  function RowsBefore(trades: seq<DayTrade>, day: int, price: real): seq<AverageCost.TradeRow> {
    if trades == [] then []
    else
      var t := trades[|trades| - 1];
      var before := RowsBefore(trades[..|trades| - 1], day, price);
      if t.day < day
      then before + [AverageCost.TradeRow(t.symbol, if t.isBuy then "buy" else "sell", "filled", t.qty, t.qty, price)]
      else before
  }

  /** The sweep's quantity of a symbol on a date is the one the trade list rebuilds from the trades before it. */
  lemma {:induction false} SweepAgreesWithTradeList(trades: seq<DayTrade>, day: int, symbol: string, price: real)
    requires symbol != ""
    ensures HeldBefore(trades, day, symbol) == AverageCost.LotOf(RowsBefore(trades, day, price), symbol).qty
  {
    if trades != [] {
      var n := |trades| - 1;
      var t := trades[n];
      SweepAgreesWithTradeList(trades[..n], day, symbol, price);
      if t.day < day {
        var row := AverageCost.TradeRow(t.symbol, if t.isBuy then "buy" else "sell", "filled", t.qty, t.qty, price);
        AverageCost.LotAppend(RowsBefore(trades[..n], day, price), row, symbol);
      }
    }
  }
}
