/** Time-weighted return and drawdown of the account, computed in one pass over finalized days. */
module EquityCurve {
  import opened Reals
  import opened Wrappers

  /** One day's last finalized equity, confirmed net flow, and whether a flow is still unconfirmed. */
  datatype Day = Day(equity: real, flow: real, unresolved: bool)

  datatype Curve = Curve(previous: Option<real>, index: real, peak: real, mdd: real, blocked: bool)

  const START := Curve(None, 100.0, 100.0, 0.0, false)

  predicate Blocks(c: Curve, d: Day)
    requires c.previous.Some?
  {
    c.previous.value + d.flow <= 0.0 || d.unresolved || c.blocked
  }

  /** The index after a day's return on the capital the day started from. */
  function Grown(index: real, equity: real, base: real): real
    requires base != 0.0
  {
    var dailyReturn := equity / base - 1.0;
    index * (1.0 + dailyReturn)
  }

  /** One day of the loop.  The divisor `peak` is never below 100. */
  function NextDay(c: Curve, d: Day): (r: Curve)
    requires 100.0 <= c.peak
    ensures 100.0 <= r.peak
  {
    if c.previous.None? then c.(previous := Some(d.equity))
    else if Blocks(c, d) then c.(previous := Some(d.equity), blocked := true)
    else
      var index := Grown(c.index, d.equity, c.previous.value + d.flow);
      var peak := Max(c.peak, index);
      Curve(Some(d.equity), index, peak, Min(c.mdd, (index / peak - 1.0) * 100.0), false)
  }

  function CurveOf(days: seq<Day>): (c: Curve)
    ensures 100.0 <= c.peak
    ensures c.previous == if days == [] then None else Some(days[|days| - 1].equity)
  {
    if days == [] then START else NextDay(CurveOf(days[..|days| - 1]), days[|days| - 1])
  }

  datatype Observation = Observation(dailyReturn: Option<real>, index: Option<real>, mdd: Option<real>)

  /** The return published for day `i`: none on the first day, and none once anything blocked. */
  function ReturnOn(days: seq<Day>, i: nat): Option<real>
    requires i < |days|
  {
    if i == 0 || CurveOf(days[..i + 1]).blocked then None
    else
      assert days[..i + 1][..i] == days[..i] && CurveOf(days[..i]).previous == Some(days[i - 1].equity);
      Some(days[i].equity / (days[i - 1].equity + days[i].flow) - 1.0)
  }

  /** What is published for day `i`: index and drawdown are withheld once anything blocked. */
  function ObservationOn(days: seq<Day>, i: nat): Observation
    requires i < |days|
  {
    var c := CurveOf(days[..i + 1]);
    Observation(ReturnOn(days, i), if c.blocked then None else Some(c.index), if c.blocked then None else Some(c.mdd))
  }

  datatype Report = Report(available: bool, twr: Option<real>, maxDrawdown: Option<real>, daily: seq<Observation>)

  method BuildAccountEquityPerformance(days: seq<Day>) returns (r: Report)
    ensures r.available <==> 2 <= |days| && !CurveOf(days).blocked
    ensures r.twr == if r.available then Some(CurveOf(days).index - 100.0) else None
    ensures r.maxDrawdown == if r.available then Some(CurveOf(days).mdd) else None
    ensures |r.daily| == |days|
    ensures forall i :: 0 <= i < |days| ==> r.daily[i] == ObservationOn(days, i)
  {
    var curve := START;
    var daily: seq<Observation> := [];
    for i := 0 to |days|
      invariant curve == CurveOf(days[..i])
      invariant |daily| == i
      invariant forall j :: 0 <= j < i ==> daily[j] == ObservationOn(days, j)
    {
      assert days[..i + 1][..i] == days[..i] && days[..i + 1][i] == days[i];
      var today := NextDay(curve, days[i]);
      var dailyReturn: Option<real> := None;
      if curve.previous.Some? && !today.blocked {
        dailyReturn := Some(days[i].equity / (curve.previous.value + days[i].flow) - 1.0);
      }
      curve := today;
      var index := if curve.blocked then None else Some(curve.index);
      daily := daily + [Observation(dailyReturn, index, if curve.blocked then None else Some(curve.mdd))];
    }
    assert days[..|days|] == days;
    var available := |daily| >= 2 && !curve.blocked;
    r := Report(available, if available then Some(curve.index - 100.0) else None,
                if available then Some(curve.mdd) else None, daily);
  }

  /** Is day `i` unmeasurable: no positive capital to start from, or a flow still unconfirmed? */
  predicate Unmeasurable(days: seq<Day>, i: nat) {
    0 < i < |days| && (days[i - 1].equity + days[i].flow <= 0.0 || days[i].unresolved)
  }

  /** The curve is blocked exactly from the first unmeasurable day on. */
  lemma {:induction false} BlockedIff(days: seq<Day>)
    ensures CurveOf(days).blocked <==> exists i: nat :: Unmeasurable(days, i)
  {
    if days != [] {
      var n := |days| - 1;
      BlockedIff(days[..n]);
      if i: nat :| Unmeasurable(days[..n], i) {
        assert Unmeasurable(days, i);
      }
      if i: nat :| Unmeasurable(days, i) {
        assert i < n ==> Unmeasurable(days[..n], i);
      }
      assert 0 < n && (days[n - 1].equity + days[n].flow <= 0.0 || days[n].unresolved) ==> Unmeasurable(days, n);
    }
  }

  /**
   What is published for a day: nothing once a day up to it was unmeasurable; before that the index,
   the drawdown and, from the second day on, the return on yesterday's equity plus today's flow.
   */
  lemma PublishedUnlessUnmeasurable(days: seq<Day>, i: nat)
    requires i < |days|
    ensures var o := ObservationOn(days, i);
      var hidden := exists j: nat :: j <= i && Unmeasurable(days, j);
      (o.index.None? <==> hidden) && (o.mdd.None? <==> hidden) && (o.dailyReturn.None? <==> hidden || i == 0)
      && (o.dailyReturn.Some? ==>
            (1.0 + o.dailyReturn.value) * (days[i - 1].equity + days[i].flow) == days[i].equity)
  {
    BlockedUpTo(days, i);
    if ReturnOn(days, i).Some? {
      UnblockedPrefix(days[..i + 1]);
      DivTimes(days[i].equity, days[i - 1].equity + days[i].flow);
    }
  }

  lemma BlockedUpTo(days: seq<Day>, i: nat)
    requires i < |days|
    ensures CurveOf(days[..i + 1]).blocked <==> exists j: nat :: j <= i && Unmeasurable(days, j)
  {
    var prefix := days[..i + 1];
    BlockedIff(prefix);
    if j: nat :| Unmeasurable(prefix, j) {
      assert Unmeasurable(days, j);
    }
    if j: nat :| j <= i && Unmeasurable(days, j) {
      assert Unmeasurable(prefix, j);
    }
  }

  // ---- the index against its definition ----

  /** Product of the equities after the first day. */
  function Ends(days: seq<Day>): real {
    if |days| <= 1 then 1.0 else Ends(days[..|days| - 1]) * days[|days| - 1].equity
  }

  /** Product of the capital each of those days started from: yesterday's equity plus today's flow. */
  function Bases(days: seq<Day>): real {
    if |days| <= 1 then 1.0
    else
      var n := |days| - 1;
      Bases(days[..n]) * (days[n - 1].equity + days[n].flow)
  }

  lemma UnblockedPrefix(days: seq<Day>)
    requires days != [] && !CurveOf(days).blocked
    ensures !CurveOf(days[..|days| - 1]).blocked
    ensures 2 <= |days| ==> 0.0 < days[|days| - 2].equity + days[|days| - 1].flow
  {
  }

  /** How the last day of an unblocked curve moves the index. */
  lemma LastReturn(days: seq<Day>)
    requires 2 <= |days| && !CurveOf(days).blocked
    ensures var n := |days| - 1;
      var base := days[n - 1].equity + days[n].flow;
      0.0 < base && CurveOf(days).index == Grown(CurveOf(days[..n]).index, days[n].equity, base)
  {
  }

  /** The definition of the time-weighted index, without quotients. */
  ghost predicate TimeWeighted(index: real, days: seq<Day>) {
    index * Bases(days) == 100.0 * Ends(days)
  }

  ghost predicate Telescoped(index: real, days: seq<Day>)
    requires days != []
  {
    index * days[0].equity == 100.0 * days[|days| - 1].equity
  }

  lemma IndexStep(index: real, ends: real, bases: real, base: real, equity: real,
                  index': real, ends': real, bases': real)
    requires 0.0 < base && index * bases == 100.0 * ends
    requires index' == Grown(index, equity, base) && ends' == ends * equity && bases' == bases * base
    ensures index' * bases' == 100.0 * ends'
  {
  }

  lemma WeightedStep(days: seq<Day>, before: real, after: real)
    requires 2 <= |days| && TimeWeighted(before, days[..|days| - 1])
    requires var n := |days| - 1;
      var base := days[n - 1].equity + days[n].flow;
      0.0 < base && after == Grown(before, days[n].equity, base)
    ensures TimeWeighted(after, days)
  {
    var n := |days| - 1;
    IndexStep(before, Ends(days[..n]), Bases(days[..n]), days[n - 1].equity + days[n].flow, days[n].equity,
              after, Ends(days), Bases(days));
  }

  lemma WeightedStart(days: seq<Day>)
    requires |days| == 1
    ensures TimeWeighted(CurveOf(days).index, days)
  {
    assert CurveOf(days[..0]) == START;
  }

  /** While nothing blocks, index times all starting capitals is 100 times all ending equities. */
  lemma {:induction false} IndexIsTimeWeighted(days: seq<Day>)
    requires days != [] && !CurveOf(days).blocked
    ensures TimeWeighted(CurveOf(days).index, days)
  {
    if |days| >= 2 {
      UnblockedPrefix(days);
      IndexIsTimeWeighted(days[..|days| - 1]);
      LastReturn(days);
      WeightedStep(days, CurveOf(days[..|days| - 1]).index, CurveOf(days).index);
    } else {
      WeightedStart(days);
    }
  }

  lemma TelescopeStep(days: seq<Day>, before: real, after: real)
    requires 2 <= |days| && Telescoped(before, days[..|days| - 1])
    requires var n := |days| - 1;
      0.0 < days[n - 1].equity && after == Grown(before, days[n].equity, days[n - 1].equity)
    ensures Telescoped(after, days)
  {
    var n := |days| - 1;
    var g := days[n].equity / days[n - 1].equity;
    DivTimes(days[n].equity, days[n - 1].equity);
    assert after == before * g;
    assert before * g * days[0].equity == before * days[0].equity * g;
    assert 100.0 * days[n - 1].equity * g == 100.0 * (g * days[n - 1].equity);
  }

  /** Without flows the index telescopes to 100 times last equity over first. */
  lemma {:induction false} IndexTelescopes(days: seq<Day>)
    requires days != [] && !CurveOf(days).blocked
    requires forall i :: 0 <= i < |days| ==> days[i].flow == 0.0
    ensures Telescoped(CurveOf(days).index, days)
  {
    if |days| >= 2 {
      UnblockedPrefix(days);
      IndexTelescopes(days[..|days| - 1]);
      LastReturn(days);
      TelescopeStep(days, CurveOf(days[..|days| - 1]).index, CurveOf(days).index);
    } else {
      assert CurveOf(days[..0]) == START;
    }
  }

  // ---- the drawdown against its definition ----

  /** The index after day `i`. */
  function IndexAt(days: seq<Day>, i: nat): real
    requires i < |days|
  {
    CurveOf(days[..i + 1]).index
  }

  function Drop(later: real, earlier: real): real
    requires earlier != 0.0
  {
    (later / earlier - 1.0) * 100.0
  }

  /** A lower later value and a higher earlier value make a deeper drop. */
  lemma DropIsMonotone(later: real, high: real, earlier: real)
    requires 0.0 <= later && 0.0 < earlier <= high
    ensures Drop(later, high) <= Drop(later, earlier)
  {
  }

  lemma DropRange(later: real, high: real)
    requires 0.0 <= later <= high && 0.0 < high
    ensures -100.0 <= Drop(later, high) <= 0.0
  {
  }

  /** The invariant of the pass: `peak` is the highest index so far, `mdd` the deepest drop so far. */
  ghost predicate PeakIsHighest(days: seq<Day>, c: Curve) {
    (forall i: nat :: i < |days| ==> 0.0 <= IndexAt(days, i) <= c.peak)
    && (days != [] ==> exists i: nat :: i < |days| && IndexAt(days, i) == c.peak)
  }

  ghost predicate IsDrop(days: seq<Day>, i: nat, j: nat, x: real) {
    j <= i < |days| && 0.0 < IndexAt(days, j) && x == Drop(IndexAt(days, i), IndexAt(days, j))
  }

  ghost predicate MddIsDeepest(days: seq<Day>, mdd: real) {
    -100.0 <= mdd <= 0.0
    && (forall i: nat, j: nat :: j <= i < |days| && 0.0 < IndexAt(days, j) ==>
          mdd <= Drop(IndexAt(days, i), IndexAt(days, j)))
    && (days != [] ==> exists i: nat, j: nat :: IsDrop(days, i, j, mdd))
  }

  lemma IndexOfPrefix(days: seq<Day>, n: nat, i: nat)
    requires i < n <= |days|
    ensures IndexAt(days[..n], i) == IndexAt(days, i)
  {
    assert days[..n][..i + 1] == days[..i + 1];
  }

  lemma IndexStaysNonNegative(c: Curve, d: Day)
    requires 100.0 <= c.peak && 0.0 <= c.index && 0.0 <= d.equity
    ensures 0.0 <= NextDay(c, d).index
  {
  }

  /** Today's index and peak, in terms of yesterday's curve. */
  lemma LastPeak(days: seq<Day>)
    requires 2 <= |days| && !CurveOf(days).blocked && 0.0 <= days[|days| - 1].equity
    requires 0.0 <= CurveOf(days[..|days| - 1]).index
    ensures 0.0 <= CurveOf(days).index
    ensures CurveOf(days).peak == Max(CurveOf(days[..|days| - 1]).peak, CurveOf(days).index)
    ensures IndexAt(days, |days| - 1) == CurveOf(days).index
  {
    IndexStaysNonNegative(CurveOf(days[..|days| - 1]), days[|days| - 1]);
    assert days[..|days|] == days;
  }

  /** The peak of a series is the higher of the peak so far and the newest index. */
  lemma PeakOfOneMore(days: seq<Day>, before: Curve, after: Curve)
    requires 2 <= |days| && PeakIsHighest(days[..|days| - 1], before)
    requires 0.0 <= after.index == IndexAt(days, |days| - 1) && after.peak == Max(before.peak, after.index)
    ensures PeakIsHighest(days, after)
  {
    var n := |days| - 1;
    forall i: nat | i < |days| ensures 0.0 <= IndexAt(days, i) <= after.peak {
      if i < n {
        IndexOfPrefix(days, n, i);
      }
    }
    if after.peak == after.index {
      assert IndexAt(days, n) == after.peak;
    } else {
      var i: nat :| i < n && IndexAt(days[..n], i) == before.peak;
      IndexOfPrefix(days, n, i);
      assert IndexAt(days, i) == after.peak;
    }
  }

  lemma PeakStep(days: seq<Day>)
    requires 2 <= |days| && !CurveOf(days).blocked && 0.0 <= days[|days| - 1].equity
    requires PeakIsHighest(days[..|days| - 1], CurveOf(days[..|days| - 1]))
    ensures PeakIsHighest(days, CurveOf(days))
  {
    var n := |days| - 1;
    assert days[..n][..n] == days[..n];
    assert 0.0 <= IndexAt(days[..n], n - 1);
    LastPeak(days);
    PeakOfOneMore(days, CurveOf(days[..n]), CurveOf(days));
  }

  /** Every drop from an earlier day to today is at most as deep as the one from the peak. */
  lemma DropsToToday(days: seq<Day>, peak: real, j: nat)
    requires days != [] && j < |days| && 0.0 < IndexAt(days, j) <= peak
    requires 0.0 <= IndexAt(days, |days| - 1)
    ensures Drop(IndexAt(days, |days| - 1), peak) <= Drop(IndexAt(days, |days| - 1), IndexAt(days, j))
  {
    DropIsMonotone(IndexAt(days, |days| - 1), peak, IndexAt(days, j));
  }

  lemma DropsStayBounded(days: seq<Day>, mdd: real, peak: real)
    requires 2 <= |days| && MddIsDeepest(days[..|days| - 1], mdd)
    requires forall i: nat :: i < |days| ==> 0.0 <= IndexAt(days, i) <= peak
    requires 0.0 < peak
    ensures forall i: nat, j: nat :: j <= i < |days| && 0.0 < IndexAt(days, j) ==>
              Min(mdd, Drop(IndexAt(days, |days| - 1), peak)) <= Drop(IndexAt(days, i), IndexAt(days, j))
  {
    var n := |days| - 1;
    forall i: nat, j: nat | j <= i < |days| && 0.0 < IndexAt(days, j)
      ensures Min(mdd, Drop(IndexAt(days, n), peak)) <= Drop(IndexAt(days, i), IndexAt(days, j))
    {
      if i < n {
        IndexOfPrefix(days, n, i);
        IndexOfPrefix(days, n, j);
      } else {
        DropsToToday(days, peak, j);
      }
    }
  }

  lemma DropIsAttained(days: seq<Day>, mdd: real, peak: real, worst: real)
    requires 2 <= |days| && MddIsDeepest(days[..|days| - 1], mdd) && 0.0 < peak
    requires exists i: nat :: i < |days| && IndexAt(days, i) == peak
    requires worst == Min(mdd, Drop(IndexAt(days, |days| - 1), peak))
    ensures exists i: nat, j: nat :: IsDrop(days, i, j, worst)
  {
    var n := |days| - 1;
    if worst == mdd {
      var i: nat, j: nat :| IsDrop(days[..n], i, j, mdd);
      IndexOfPrefix(days, n, i);
      IndexOfPrefix(days, n, j);
      assert IsDrop(days, i, j, worst);
    } else {
      var j: nat :| j < |days| && IndexAt(days, j) == peak;
      assert IsDrop(days, n, j, worst);
    }
  }

  lemma LastMdd(days: seq<Day>)
    requires 2 <= |days| && !CurveOf(days).blocked
    ensures IndexAt(days, |days| - 1) == CurveOf(days).index
    ensures CurveOf(days).mdd == Min(CurveOf(days[..|days| - 1]).mdd, Drop(CurveOf(days).index, CurveOf(days).peak))
  {
    assert days[..|days|] == days;
  }

  lemma MddStep(days: seq<Day>)
    requires 2 <= |days| && !CurveOf(days).blocked
    requires PeakIsHighest(days, CurveOf(days))
    requires MddIsDeepest(days[..|days| - 1], CurveOf(days[..|days| - 1]).mdd)
    ensures MddIsDeepest(days, CurveOf(days).mdd)
  {
    var mdd, peak := CurveOf(days[..|days| - 1]).mdd, CurveOf(days).peak;
    LastMdd(days);
    DropRange(CurveOf(days).index, peak);
    DropsStayBounded(days, mdd, peak);
    DropIsAttained(days, mdd, peak, CurveOf(days).mdd);
  }

  /**
   The one-pass peak and drawdown are what they claim to be: the highest index so far, and the
   minimum over all pairs of days of the percentage drop from the earlier to the later index.
   */
  lemma {:induction false} DrawdownIsWorstPair(days: seq<Day>)
    requires !CurveOf(days).blocked
    requires forall i :: 0 <= i < |days| ==> 0.0 <= days[i].equity
    ensures PeakIsHighest(days, CurveOf(days)) && MddIsDeepest(days, CurveOf(days).mdd)
  {
    if |days| == 1 {
      assert days[..1] == days && IndexAt(days, 0) == 100.0;
      assert IsDrop(days, 0, 0, 0.0);
    } else if |days| >= 2 {
      UnblockedPrefix(days);
      DrawdownIsWorstPair(days[..|days| - 1]);
      PeakStep(days);
      MddStep(days);
    }
  }
}
