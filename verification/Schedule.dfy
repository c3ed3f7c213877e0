/**
 The fixed-grid schedule.  Times are whole seconds of local time; a day is 86400 of them.  A slot
 is a grid point of the day: the window start plus a multiple of the interval.
 */
module Schedule {
  import opened Wrappers

  const DAY := 86400

  /** `interval` is in minutes after the default for a missing value; window bounds are minutes of the day. */
  datatype Plan = Plan(enabled: bool, interval: int, startMinute: nat, endMinute: nat)

  function DayStart(t: nat): nat { t / DAY * DAY }

  function MinuteOfDay(t: nat): nat { (t % DAY) / 60 }

  function WindowStart(p: Plan, t: nat): nat { DayStart(t) + p.startMinute * 60 }

  function ElapsedMinutes(p: Plan, t: nat): nat {
    if t < WindowStart(p, t) then 0 else (t - WindowStart(p, t)) / 60
  }

  /** The grid point `t` belongs to. */
  function SlotAt(p: Plan, t: nat): nat
    requires 0 < p.interval
  {
    WindowStart(p, t) + ElapsedMinutes(p, t) / p.interval * p.interval * 60
  }

  predicate InWindow(p: Plan, t: nat) {
    p.startMinute <= MinuteOfDay(t) <= p.endMinute
  }

  /** `gates` says whether weekday and market session allow a run at `now`. */
  predicate IsScheduleDue(p: Plan, last: Option<nat>, now: nat, gates: bool) {
    p.enabled && gates && InWindow(p, now)
    && (last.None? || (0 < p.interval && last.value < SlotAt(p, now)))
  }

  // ---- one dispatcher poll ----

  datatype Outcome = Succeeds(finish: nat) | Fails

  datatype Poll = Poll(now: nat, gates: bool, outcome: Outcome)

  predicate Runs(p: Plan, last: Option<nat>, poll: Poll) {
    IsScheduleDue(p, last, poll.now, poll.gates) && poll.outcome.Succeeds?
  }

  /** Only a successful run marks the schedule, with its completion time. */
  function AfterPoll(p: Plan, last: Option<nat>, poll: Poll): Option<nat> {
    if Runs(p, last, poll) then Some(poll.outcome.finish) else last
  }

  function LastAfter(p: Plan, last: Option<nat>, polls: seq<Poll>): Option<nat> {
    if polls == [] then last else AfterPoll(p, LastAfter(p, last, polls[..|polls| - 1]), polls[|polls| - 1])
  }

  /** Did poll `i` of the run execute the strategy successfully? */
  predicate Executed(p: Plan, last: Option<nat>, polls: seq<Poll>, i: nat)
    requires i < |polls|
  {
    Runs(p, LastAfter(p, last, polls[..i]), polls[i])
  }

  /** The stored schedule row. */
  class ScheduleRow {
    const plan: Plan
    var lastRunAt: Option<nat>

    constructor (plan: Plan, lastRunAt: Option<nat>)
      ensures this.plan == plan && this.lastRunAt == lastRunAt
    {
      this.plan, this.lastRunAt := plan, lastRunAt;
    }

    method MarkStrategyScheduleRun(ts: nat)
      modifies this
      ensures lastRunAt == Some(ts)
    {
      lastRunAt := Some(ts);
    }

    /** Serve the polls in turn and say which of them ran. */
    method Dispatch(polls: seq<Poll>) returns (ran: seq<bool>)
      modifies this
      ensures lastRunAt == LastAfter(plan, old(lastRunAt), polls)
      ensures |ran| == |polls|
      ensures forall i: nat :: i < |polls| ==> ran[i] == Executed(plan, old(lastRunAt), polls, i)
    {
      ran := [];
      ghost var before := lastRunAt;
      for k := 0 to |polls|
        invariant lastRunAt == LastAfter(plan, before, polls[..k])
        invariant |ran| == k
        invariant forall i: nat :: i < k ==> ran[i] == Executed(plan, before, polls, i)
      {
        assert polls[..k + 1][..k] == polls[..k];
        var poll := polls[k];
        var runs := IsScheduleDue(plan, lastRunAt, poll.now, poll.gates) && poll.outcome.Succeeds?;
        if runs {
          MarkStrategyScheduleRun(poll.outcome.finish);
        }
        ran := ran + [runs];
      }
      assert polls[..|polls|] == polls;
    }
  }

  // ---- slot arithmetic ----

  lemma DownToMultiple(a: nat, b: nat, m: nat)
    requires a <= b && 0 < m
    ensures a / m * m <= b / m * m
    ensures a / m * m <= a < a / m * m + m
  {
    var x, y := a / m, b / m;
    assert a == x * m + a % m && b == y * m + b % m;
    if y < x {
      assert (y + 1) * m <= x * m;
    }
  }

  lemma MultipleStays(k: nat, m: nat)
    requires 0 < m
    ensures k * m / m * m == k * m
  {
    var q := k * m / m;
    DownToMultiple(k * m, k * m, m);
    assert q < k ==> (q + 1) * m <= k * m;
  }

  lemma SameDay(t: nat, u: nat)
    requires DayStart(t) <= u < DayStart(t) + DAY
    ensures DayStart(u) == DayStart(t)
  {
  }

  lemma DayStartIsMonotone(t: nat, u: nat)
    requires t <= u
    ensures DayStart(t) <= DayStart(u) && (DayStart(t) < DayStart(u) ==> DayStart(t) + DAY <= DayStart(u))
    ensures DayStart(t) <= t < DayStart(t) + DAY
  {
  }

  ghost predicate Sensible(p: Plan) {
    0 < p.interval && p.startMinute < 1440
  }

  /** A slot never lies past its day, and only before the window opens past its own time. */
  lemma SlotBounds(p: Plan, t: nat)
    requires Sensible(p)
    ensures WindowStart(p, t) <= SlotAt(p, t) < DayStart(t) + DAY
    ensures WindowStart(p, t) <= t ==> SlotAt(p, t) <= t
  {
    var elapsed := ElapsedMinutes(p, t);
    DownToMultiple(elapsed, elapsed, p.interval);
    var steps := elapsed / p.interval * p.interval;
    assert 0 <= steps <= elapsed;
    assert SlotAt(p, t) == WindowStart(p, t) + steps * 60;
    DayStartIsMonotone(t, t);
  }

  lemma SlotIsMonotone(p: Plan, t: nat, u: nat)
    requires Sensible(p) && t <= u
    ensures SlotAt(p, t) <= SlotAt(p, u)
  {
    DayStartIsMonotone(t, u);
    if DayStart(t) < DayStart(u) {
      SlotBounds(p, t);
      SlotBounds(p, u);
    } else {
      DownToMultiple(ElapsedMinutes(p, t), ElapsedMinutes(p, u), p.interval);
    }
  }

  lemma SlotOfSlot(p: Plan, t: nat)
    requires Sensible(p)
    ensures SlotAt(p, SlotAt(p, t)) == SlotAt(p, t)
  {
    var s := SlotAt(p, t);
    SlotBounds(p, t);
    SameDay(t, s);
    var k := ElapsedMinutes(p, t) / p.interval;
    assert s - WindowStart(p, t) == k * p.interval * 60;
    assert ElapsedMinutes(p, s) == k * p.interval;
    MultipleStays(k, p.interval);
  }

  lemma InWindowAfterStart(p: Plan, t: nat)
    requires InWindow(p, t)
    ensures WindowStart(p, t) <= t
  {
  }

  // ---- runs of polls ----

  /** Polls come in time order and no run finishes before it was polled. */
  ghost predicate InOrder(polls: seq<Poll>) {
    (forall i, j :: 0 <= i < j < |polls| ==> polls[i].now <= polls[j].now)
    && (forall i :: 0 <= i < |polls| && polls[i].outcome.Succeeds? ==> polls[i].now <= polls[i].outcome.finish)
  }

  /** After an execution the mark never falls behind that execution's slot again. */
  lemma {:induction false} MarkCoversSlot(p: Plan, last: Option<nat>, polls: seq<Poll>, i: nat)
    requires Sensible(p) && InOrder(polls) && i < |polls| && Executed(p, last, polls, i)
    ensures var m := LastAfter(p, last, polls); m.Some? && SlotAt(p, polls[i].now) <= m.value
    decreases |polls|
  {
    var n := |polls| - 1;
    SlotBounds(p, polls[i].now);
    InWindowAfterStart(p, polls[i].now);
    if i < n {
      assert polls[..n][..i] == polls[..i];
      MarkCoversSlot(p, last, polls[..n], i);
    }
  }

  /**
   At most once per slot: of any two executions in a run, the later one belongs to a later slot.
   Failed runs, late polls, long runs and day changes included.
   */
  lemma {:induction false} EachSlotAtMostOnce(p: Plan, last: Option<nat>, polls: seq<Poll>, i: nat, j: nat)
    requires Sensible(p) && InOrder(polls) && i < j < |polls|
    requires Executed(p, last, polls, i) && Executed(p, last, polls, j)
    ensures SlotAt(p, polls[i].now) < SlotAt(p, polls[j].now)
  {
    assert polls[..j][..i] == polls[..i];
    MarkCoversSlot(p, last, polls[..j], i);
  }

  /** If the run this poll may start succeeds, it is over before the next slot begins. */
  ghost predicate FitsItsSlot(p: Plan, poll: Poll)
    requires 0 < p.interval
  {
    poll.outcome.Succeeds? ==> SlotAt(p, poll.outcome.finish) == SlotAt(p, poll.now)
  }

  ghost predicate Eligible(p: Plan, poll: Poll) {
    p.enabled && poll.gates && InWindow(p, poll.now)
  }

  /** While no poll could run and succeed, the mark stays where it was. */
  lemma {:induction false} FailuresLeaveMark(p: Plan, last: Option<nat>, polls: seq<Poll>)
    requires forall i :: 0 <= i < |polls| ==> !(Eligible(p, polls[i]) && polls[i].outcome.Succeeds?)
    ensures LastAfter(p, last, polls) == last
    decreases |polls|
  {
    if polls != [] {
      FailuresLeaveMark(p, last, polls[..|polls| - 1]);
    }
  }

  /** The first poll that can succeed does: until then the slot is due. */
  lemma {:induction false} FirstSuccessRuns(p: Plan, last: Option<nat>, polls: seq<Poll>, slot: nat, i: nat)
    requires Sensible(p) && i < |polls| && Eligible(p, polls[i]) && polls[i].outcome.Succeeds?
    requires last.None? || last.value < slot
    requires forall j :: 0 <= j < |polls| ==> SlotAt(p, polls[j].now) == slot
    ensures exists j: nat :: j <= i && Executed(p, last, polls, j)
    decreases i
  {
    if j: nat :| j < i && Eligible(p, polls[j]) && polls[j].outcome.Succeeds? {
      FirstSuccessRuns(p, last, polls, slot, j);
    } else {
      FailuresLeaveMark(p, last, polls[..i]);
      assert Executed(p, last, polls, i);
    }
  }

  /**
   Failed runs leave their slot due: whatever polls a due slot has seen, an eligible poll in it still
   finds it due exactly when none of them was eligible and succeeded.
   */
  lemma {:induction false} FailedRunsStayDue(p: Plan, last: Option<nat>, polls: seq<Poll>, later: Poll)
    requires Sensible(p) && InOrder(polls) && Eligible(p, later)
    requires last.None? || last.value < SlotAt(p, later.now)
    requires forall i :: 0 <= i < |polls| ==> SlotAt(p, polls[i].now) == SlotAt(p, later.now)
    ensures IsScheduleDue(p, LastAfter(p, last, polls), later.now, later.gates)
            <==> forall i :: 0 <= i < |polls| ==> !(Eligible(p, polls[i]) && polls[i].outcome.Succeeds?)
  {
    if i: nat :| i < |polls| && Eligible(p, polls[i]) && polls[i].outcome.Succeeds? {
      FirstSuccessRuns(p, last, polls, SlotAt(p, later.now), i);
      var j: nat :| j <= i && Executed(p, last, polls, j);
      MarkCoversSlot(p, last, polls, j);
    } else {
      FailuresLeaveMark(p, last, polls);
    }
  }

  /** Where the mark comes from: it is still the first one, or the finish of some execution. */
  lemma {:induction false} MarkOrigin(p: Plan, last: Option<nat>, polls: seq<Poll>)
    ensures LastAfter(p, last, polls) == last
            || exists i: nat :: i < |polls| && Executed(p, last, polls, i)
                                && LastAfter(p, last, polls) == Some(polls[i].outcome.finish)
    decreases |polls|
  {
    if polls != [] {
      var n := |polls| - 1;
      MarkOrigin(p, last, polls[..n]);
      if Executed(p, last, polls, n) {
        assert LastAfter(p, last, polls) == Some(polls[n].outcome.finish);
      } else if LastAfter(p, last, polls[..n]) != last {
        var i: nat :| i < n && Executed(p, last, polls[..n], i)
                      && LastAfter(p, last, polls[..n]) == Some(polls[..n][i].outcome.finish);
        assert polls[..n][..i] == polls[..i] && polls[..n][i] == polls[i];
        assert Executed(p, last, polls, i);
      }
    }
  }

  /** Every run that was executed before poll `i` was over before its next slot began. */
  ghost predicate EarlierRunsFit(p: Plan, last: Option<nat>, polls: seq<Poll>, i: nat)
    requires 0 < p.interval && i <= |polls|
  {
    forall j: nat :: j < i && Executed(p, last, polls, j) ==> FitsItsSlot(p, polls[j])
  }

  /**
   No drift: when the runs executed so far fit their slots, every slot with an eligible poll whose
   run would succeed has been executed by then.
   */
  lemma {:induction false} EveryPolledSlotRuns(p: Plan, last: Option<nat>, polls: seq<Poll>, i: nat)
    requires Sensible(p) && InOrder(polls) && i < |polls| && Eligible(p, polls[i]) && polls[i].outcome.Succeeds?
    requires EarlierRunsFit(p, last, polls, i)
    requires last.None? || last.value < SlotAt(p, polls[0].now)
    ensures exists j: nat :: j <= i && Executed(p, last, polls, j) && SlotAt(p, polls[j].now) == SlotAt(p, polls[i].now)
  {
    if !Executed(p, last, polls, i) {
      var m := LastAfter(p, last, polls[..i]);
      MarkOrigin(p, last, polls[..i]);
      SlotIsMonotone(p, polls[0].now, polls[i].now);
      var j: nat :| j < i && Executed(p, last, polls[..i], j) && m == Some(polls[..i][j].outcome.finish);
      assert polls[..i][..j] == polls[..j] && polls[..i][j] == polls[j];
      assert Executed(p, last, polls, j);
      SlotIsMonotone(p, polls[j].now, polls[i].now);
      SlotIsMonotone(p, SlotAt(p, polls[i].now), polls[j].outcome.finish);
      SlotOfSlot(p, polls[i].now);
    }
  }

  /** Then the slot is executed exactly once, however many more polls it sees. */
  lemma {:induction false} EverySlotExactlyOnce(p: Plan, last: Option<nat>, polls: seq<Poll>, i: nat)
    requires Sensible(p) && InOrder(polls) && i < |polls| && Eligible(p, polls[i]) && polls[i].outcome.Succeeds?
    requires EarlierRunsFit(p, last, polls, i)
    requires last.None? || last.value < SlotAt(p, polls[0].now)
    ensures exists j: nat ::
              j <= i && Executed(p, last, polls, j) && SlotAt(p, polls[j].now) == SlotAt(p, polls[i].now)
              && forall k: nat ::
                   k < |polls| && Executed(p, last, polls, k) && SlotAt(p, polls[k].now) == SlotAt(p, polls[i].now)
                   ==> k == j
  {
    EveryPolledSlotRuns(p, last, polls, i);
    var j: nat :| j <= i && Executed(p, last, polls, j) && SlotAt(p, polls[j].now) == SlotAt(p, polls[i].now);
    forall k: nat | k < |polls| && Executed(p, last, polls, k) && SlotAt(p, polls[k].now) == SlotAt(p, polls[i].now)
      ensures k == j
    {
      if k < j {
        EachSlotAtMostOnce(p, last, polls, k, j);
      } else if j < k {
        EachSlotAtMostOnce(p, last, polls, j, k);
      }
    }
  }

  /** The mark never falls behind the start or any completion. */
  lemma {:induction false} MarkIsLatest(p: Plan, last: Option<nat>, polls: seq<Poll>)
    requires Sensible(p) && InOrder(polls)
    ensures last.Some? ==> LastAfter(p, last, polls).Some? && last.value <= LastAfter(p, last, polls).value
    ensures forall j: nat :: j < |polls| && Executed(p, last, polls, j) ==>
              LastAfter(p, last, polls).Some? && polls[j].outcome.finish <= LastAfter(p, last, polls).value
    decreases |polls|
  {
    if polls != [] {
      var n := |polls| - 1;
      MarkIsLatest(p, last, polls[..n]);
      InWindowSlot(p, polls[n].now);
      forall j: nat | j < |polls| && Executed(p, last, polls, j)
        ensures LastAfter(p, last, polls).Some? && polls[j].outcome.finish <= LastAfter(p, last, polls).value
      {
        if j < n {
          assert polls[..n][..j] == polls[..j] && polls[..n][j] == polls[j];
          assert Executed(p, last, polls[..n], j);
        }
      }
    }
  }

  lemma InWindowSlot(p: Plan, t: nat)
    requires Sensible(p)
    ensures InWindow(p, t) ==> SlotAt(p, t) <= t
  {
    SlotBounds(p, t);
    if InWindow(p, t) {
      InWindowAfterStart(p, t);
    }
  }

  /**
   Which polls run: the eligible ones that succeed and whose slot began after everything that ran
   before them was over.  A run that overruns its slot thereby also uses up the slots it runs into.
   */
  lemma {:induction false} ExecutedIff(p: Plan, last: Option<nat>, polls: seq<Poll>, i: nat)
    requires Sensible(p) && InOrder(polls) && i < |polls|
    ensures Executed(p, last, polls, i)
            <==> Eligible(p, polls[i]) && polls[i].outcome.Succeeds?
                 && (last.Some? ==> last.value < SlotAt(p, polls[i].now))
                 && forall j: nat :: j < i && Executed(p, last, polls, j) ==>
                      polls[j].outcome.finish < SlotAt(p, polls[i].now)
  {
    MarkIsLatest(p, last, polls[..i]);
    MarkOrigin(p, last, polls[..i]);
    forall j: nat | j < i
      ensures Executed(p, last, polls[..i], j) == Executed(p, last, polls, j) && polls[..i][j] == polls[j]
    {
      assert polls[..i][..j] == polls[..j];
    }
  }

  // ---- the grid, spelled out ----

  /** Grid point `k` of a day: the window start plus `k` whole intervals. */
  function GridPoint(p: Plan, day: nat, k: nat): int {
    day * 86400 + p.startMinute * 60 + k * p.interval * 60
  }

  /** Is `t` a moment of that day, at or after grid point `k` and before the next? */
  predicate InGridSlot(p: Plan, t: nat, day: nat, k: nat) {
    t / 86400 == day && GridPoint(p, day, k) <= t < GridPoint(p, day, k) + p.interval * 60
  }

  lemma GridStep(k: nat, m: nat, interval: int)
    requires k < m && 0 < interval
    ensures k * interval * 60 + interval * 60 <= m * interval * 60
  {
    assert (k + 1) * interval <= m * interval;
  }

  /** The slot of a moment of the window is the grid point it follows. */
  lemma SlotIsGridPoint(p: Plan, t: nat)
    requires Sensible(p) && WindowStart(p, t) <= t
    ensures var k: nat := ElapsedMinutes(p, t) / p.interval;
      SlotAt(p, t) == GridPoint(p, t / 86400, k) && InGridSlot(p, t, t / 86400, k)
  {
    var elapsed := ElapsedMinutes(p, t);
    DownToMultiple(elapsed, elapsed, p.interval);
    var k: nat := elapsed / p.interval;
    assert k * p.interval <= elapsed < k * p.interval + p.interval;
    assert SlotAt(p, t) == WindowStart(p, t) + k * p.interval * 60;
  }

  lemma OneGridSlot(p: Plan, t: nat, day: nat, k: nat, m: nat)
    requires Sensible(p) && InGridSlot(p, t, day, k) && InGridSlot(p, t, day, m)
    ensures k == m
  {
    if k < m {
      GridStep(k, m, p.interval);
    } else if m < k {
      GridStep(m, k, p.interval);
    }
  }

  /** So a moment of the window is in grid slot `k` exactly when that grid point is its slot. */
  lemma SlotOfGrid(p: Plan, t: nat, day: nat, k: nat)
    requires Sensible(p) && WindowStart(p, t) <= t
    ensures InGridSlot(p, t, day, k) <==> day == t / 86400 && SlotAt(p, t) == GridPoint(p, day, k)
  {
    var m: nat := ElapsedMinutes(p, t) / p.interval;
    SlotIsGridPoint(p, t);
    if InGridSlot(p, t, day, k) {
      OneGridSlot(p, t, day, k, m);
    } else if day == t / 86400 && SlotAt(p, t) == GridPoint(p, day, k) {
      if k < m {
        GridStep(k, m, p.interval);
      } else if m < k {
        GridStep(m, k, p.interval);
      }
    }
  }

  /**
   When a schedule is due: enabled, gates open, within the minutes of its window, and either never run
   or some grid point of today lies after the last run and not after now.
   */
  lemma DueIffGridPointPassed(p: Plan, last: Option<nat>, now: nat, gates: bool)
    requires p.startMinute < 1440
    ensures IsScheduleDue(p, last, now, gates)
            <==> p.enabled && gates
                 && p.startMinute * 60 <= now % 86400 < p.endMinute * 60 + 60
                 && (last.None?
                     || (0 < p.interval
                         && exists k: nat :: last.value < GridPoint(p, now / 86400, k) <= now))
  {
    if 0 < p.interval && p.startMinute * 60 <= now % 86400 && last.Some? {
      var m: nat := ElapsedMinutes(p, now) / p.interval;
      SlotIsGridPoint(p, now);
      if k: nat :| last.value < GridPoint(p, now / 86400, k) <= now {
        if m < k {
          GridStep(m, k, p.interval);
        } else if k < m {
          GridStep(k, m, p.interval);
        }
      }
      assert last.value < SlotAt(p, now) ==> last.value < GridPoint(p, now / 86400, m) <= now;
    }
  }

  /** A poll in the window at least one interval after the last completion is always due. */
  lemma DueAfterOneInterval(p: Plan, last: nat, now: nat)
    requires Sensible(p) && p.enabled && p.startMinute * 60 <= now % 86400 < p.endMinute * 60 + 60
    requires last + p.interval * 60 <= now
    ensures IsScheduleDue(p, Some(last), now, true)
  {
    SlotIsGridPoint(p, now);
  }

  /**
   On every day, each slot of the grid with an eligible poll whose run would succeed is executed
   exactly once, by a poll within that slot, when the runs before fit their slots.
   */
  lemma {:induction false} EveryGridSlotExactlyOnce(
    p: Plan, last: Option<nat>, polls: seq<Poll>, i: nat, day: nat, k: nat)
    requires Sensible(p) && InOrder(polls) && i < |polls| && Eligible(p, polls[i]) && polls[i].outcome.Succeeds?
    requires InGridSlot(p, polls[i].now, day, k)
    requires EarlierRunsFit(p, last, polls, i)
    requires last.None? || last.value < SlotAt(p, polls[0].now)
    ensures exists j: nat ::
              j <= i && Executed(p, last, polls, j) && InGridSlot(p, polls[j].now, day, k)
              && forall m: nat ::
                   m < |polls| && Executed(p, last, polls, m) && InGridSlot(p, polls[m].now, day, k) ==> m == j
  {
    EverySlotExactlyOnce(p, last, polls, i);
    var j: nat :| j <= i && Executed(p, last, polls, j) && SlotAt(p, polls[j].now) == SlotAt(p, polls[i].now)
                  && forall m: nat ::
                       m < |polls| && Executed(p, last, polls, m) && SlotAt(p, polls[m].now) == SlotAt(p, polls[i].now)
                       ==> m == j;
    SameSlotSameGrid(p, polls[i].now, polls[j].now, day, k);
    forall m: nat | m < |polls| && Executed(p, last, polls, m) && InGridSlot(p, polls[m].now, day, k) ensures m == j {
      InWindowAfterStart(p, polls[m].now);
      InWindowAfterStart(p, polls[i].now);
      SlotOfGrid(p, polls[m].now, day, k);
      SlotOfGrid(p, polls[i].now, day, k);
    }
  }

  lemma SameSlotSameGrid(p: Plan, t: nat, u: nat, day: nat, k: nat)
    requires Sensible(p) && InWindow(p, t) && InWindow(p, u)
    requires SlotAt(p, t) == SlotAt(p, u) && InGridSlot(p, t, day, k)
    ensures InGridSlot(p, u, day, k)
  {
    InWindowAfterStart(p, t);
    InWindowAfterStart(p, u);
    SlotBounds(p, t);
    SlotBounds(p, u);
    assert u / 86400 == t / 86400 by {
      DayStartIsMonotone(if t < u then t else u, if t < u then u else t);
    }
    SlotOfGrid(p, t, day, k);
    SlotOfGrid(p, u, day, k);
  }
}
