/**
 Cron catch-up (enqueueMissedRuns in apps/web/src/lib/dag-scheduler.ts): ticks that read a bookmark,
 insert the missed boundaries and move the bookmark, overlapping or crashing in between.
 */
module CatchUp {
  import opened Wrappers

  const ENQUEUE_BOUNDARY_CAP := 60 * 24 * 365

  /** A fixed schedule: its boundaries in milliseconds, in order, as far as any clock below looks. */
  datatype Schedule = Schedule(boundaries: seq<int>, startDate: int, catchup: bool)

  ghost predicate ValidSchedule(d: Schedule) {
    forall i, j :: 0 <= i < j < |d.boundaries| ==> d.boundaries[i] < d.boundaries[j]
  }

  /** How many boundaries lie at or before `time`; the next one comes at that index. */
  function UpTo(bs: seq<int>, time: int): (n: nat)
    ensures n <= |bs|
  {
    if bs == [] then 0
    else if bs[|bs| - 1] <= time then |bs|
    else UpTo(bs[..|bs| - 1], time)
  }

  lemma {:induction false} UpToSplits(bs: seq<int>, time: int)
    requires forall i, j :: 0 <= i < j < |bs| ==> bs[i] < bs[j]
    ensures forall i :: 0 <= i < |bs| ==> (bs[i] <= time <==> i < UpTo(bs, time))
  {
    if bs != [] && bs[|bs| - 1] > time {
      UpToSplits(bs[..|bs| - 1], time);
      assert forall i :: 0 <= i < |bs| - 1 ==> bs[..|bs| - 1][i] == bs[i];
    }
  }

  // ----- what one tick enqueues -----

  /** Where a tick starts reading: behind the bookmark, the start date, or just the latest boundary. */
  function FirstIndex(d: Schedule, bookmark: Option<int>, now: int): nat {
    if bookmark.Some? then UpTo(d.boundaries, bookmark.value)
    else if d.catchup then UpTo(d.boundaries, d.startDate)
    else if UpTo(d.boundaries, now) > 0 then UpTo(d.boundaries, now) - 1
    else 0
  }

  function StopAt(bs: seq<int>, first: nat, now: int): (e: nat)
    ensures first <= e <= first + ENQUEUE_BOUNDARY_CAP
    ensures first <= |bs| ==> e <= |bs|
  {
    var b := UpTo(bs, now);
    if b <= first then first else if b - first <= ENQUEUE_BOUNDARY_CAP then b else first + ENQUEUE_BOUNDARY_CAP
  }

  /** The first index a tick leaves to a later one. */
  function EndIndex(d: Schedule, bookmark: Option<int>, now: int): nat {
    StopAt(d.boundaries, FirstIndex(d, bookmark, now), now)
  }

  lemma FirstIndexBound(d: Schedule, bookmark: Option<int>, now: int)
    ensures FirstIndex(d, bookmark, now) <= |d.boundaries|
    ensures EndIndex(d, bookmark, now) <= |d.boundaries|
  {
  }

  /** Steps the cron iterator behind `cursor` until it passes `now` or reaches the cap. */
  method StepIterator(bs: seq<int>, cursor: int, now: int) returns (enqueued: seq<int>)
    requires forall i, j :: 0 <= i < j < |bs| ==> bs[i] < bs[j]
    ensures enqueued == bs[UpTo(bs, cursor)..StopAt(bs, UpTo(bs, cursor), now)]
  {
    UpToSplits(bs, now);
    var first := UpTo(bs, cursor);
    enqueued := [];
    var i := 0;
    while i < ENQUEUE_BOUNDARY_CAP && first + i < |bs| && bs[first + i] <= now
      invariant first + i <= |bs| && i <= ENQUEUE_BOUNDARY_CAP
      invariant enqueued == bs[first..first + i]
      invariant i == 0 || first + i <= UpTo(bs, now)
    {
      enqueued := enqueued + [bs[first + i]];
      i := i + 1;
    }
    assert first + i == StopAt(bs, first, now);
  }

  /** The boundaries one tick enqueues. */
  method MissedBoundaries(d: Schedule, bookmark: Option<int>, now: int) returns (enqueued: seq<int>)
    requires ValidSchedule(d)
    ensures EndIndex(d, bookmark, now) <= |d.boundaries|
    ensures enqueued == d.boundaries[FirstIndex(d, bookmark, now)..EndIndex(d, bookmark, now)]
  {
    FirstIndexBound(d, bookmark, now);
    var cursor: int;
    if bookmark.Some? {
      cursor := bookmark.value;
    } else if d.catchup {
      cursor := d.startDate;
    } else {
      var past := UpTo(d.boundaries, now);
      if past == 0 {
        return [];
      }
      cursor := d.boundaries[past - 1] - 1;
    }
    CursorIndex(d, bookmark, now, cursor);
    enqueued := StepIterator(d.boundaries, cursor, now);
  }

  lemma CursorIndex(d: Schedule, bookmark: Option<int>, now: int, cursor: int)
    requires ValidSchedule(d)
    requires bookmark.Some? ==> cursor == bookmark.value
    requires bookmark.None? && d.catchup ==> cursor == d.startDate
    requires bookmark.None? && !d.catchup ==> UpTo(d.boundaries, now) > 0 && cursor == d.boundaries[UpTo(d.boundaries, now) - 1] - 1
    ensures UpTo(d.boundaries, cursor) == FirstIndex(d, bookmark, now)
  {
    if bookmark.None? && !d.catchup {
      JustBefore(d.boundaries, UpTo(d.boundaries, now) - 1);
    }
  }

  lemma JustBefore(bs: seq<int>, last: nat)
    requires last < |bs| && forall i, j :: 0 <= i < j < |bs| ==> bs[i] < bs[j]
    ensures UpTo(bs, bs[last] - 1) == last
  {
  }

  lemma {:induction false} UpToIs(bs: seq<int>, time: int, m: nat)
    requires m <= |bs| && forall i :: 0 <= i < |bs| ==> (bs[i] <= time <==> i < m)
    ensures UpTo(bs, time) == m
  {
    if bs != [] && bs[|bs| - 1] > time {
      var front := bs[..|bs| - 1];
      assert forall i :: 0 <= i < |front| ==> front[i] == bs[i];
      UpToIs(front, time, m);
    }
  }

  // ----- the scheduler over time -----

  /** A tick in flight: what it read and computed, whether it found no bookmark, and whether its insert has landed. */
  datatype Tick = Tick(now: int, first: nat, end: nat, unmarked: bool, inserted: bool)

  /**
   `rows` are the logical datetimes with a run row; `seen` is the latest clock of any tick; `fired`
   are the indices at which ticks that found no bookmark have landed.
   */
  datatype State = State(rows: set<int>, bookmark: Option<int>, ticks: seq<Tick>, seen: int, fired: set<nat>)

  datatype Step = Begin(now: int) | Insert(tick: nat) | MoveBookmark(tick: nat) | Crash(tick: nat)

  function Range(bs: seq<int>, a: nat, b: nat): set<int>
    requires a <= b <= |bs|
  {
    set i | a <= i < b :: bs[i]
  }

  ghost predicate Enabled(d: Schedule, s: State, step: Step) {
    match step
    case Begin(now) => true
    case Insert(k) => k < |s.ticks| && !s.ticks[k].inserted && s.ticks[k].first < s.ticks[k].end <= |d.boundaries|
    case MoveBookmark(k) => k < |s.ticks| && s.ticks[k].inserted && 0 < s.ticks[k].end <= |d.boundaries|
    case Crash(k) => k < |s.ticks|
  }

  /** Inserting is "on conflict do nothing"; the bookmark is overwritten unconditionally. */
  ghost function Next(d: Schedule, s: State, step: Step): State
    requires Enabled(d, s, step)
  {
    match step
    case Begin(now) =>
      var t := Tick(now, FirstIndex(d, s.bookmark, now), EndIndex(d, s.bookmark, now), s.bookmark.None?, false);
      s.(ticks := s.ticks + [t], seen := if now > s.seen then now else s.seen)
    case Insert(k) =>
      var t := s.ticks[k];
      s.(rows := s.rows + Range(d.boundaries, t.first, t.end), ticks := s.ticks[k := t.(inserted := true)],
         fired := if t.unmarked then s.fired + {t.first} else s.fired)
    case MoveBookmark(k) =>
      s.(bookmark := Some(d.boundaries[s.ticks[k].end - 1]), ticks := s.ticks[..k] + s.ticks[k + 1..])
    case Crash(k) => s.(ticks := s.ticks[..k] + s.ticks[k + 1..])
  }

  ghost predicate Steps(d: Schedule, before: State, step: Step, s: State) {
    Enabled(d, before, step) && s == Next(d, before, step)
  }

  /** A DAG just enabled. */
  ghost predicate Fresh(s: State) {
    s.rows == {} && s.bookmark == None && s.ticks == [] && s.fired == {}
  }

  ghost predicate Run(d: Schedule, steps: seq<Step>, s: State)
    decreases |steps|, 0
  {
    if steps == [] then Fresh(s)
    else RunThen(d, steps[..|steps| - 1], steps[|steps| - 1], s)
  }

  ghost predicate RunThen(d: Schedule, steps: seq<Step>, last: Step, s: State)
    decreases |steps|, 1
  {
    exists before :: Run(d, steps, before) && Steps(d, before, last, s)
  }

  function Lo(d: Schedule): nat { UpTo(d.boundaries, d.startDate) }

  /** The rows are the boundaries from the start date up to index `n`, and nothing else. */
  ghost predicate Contiguous(d: Schedule, rows: set<int>, n: nat) {
    Lo(d) <= n <= |d.boundaries| && rows == Range(d.boundaries, Lo(d), n)
  }

  ghost predicate TickInv(d: Schedule, t: Tick, n: nat, seen: int) {
    && Lo(d) <= t.first <= n && t.first <= t.end <= |d.boundaries|
    && t.now <= seen && t.end <= (if UpTo(d.boundaries, t.now) > t.first then UpTo(d.boundaries, t.now) else t.first)
    && (t.inserted ==> t.first < t.end <= n)
    && (t.end - t.first < ENQUEUE_BOUNDARY_CAP ==> UpTo(d.boundaries, t.now) <= t.end)
  }

  ghost predicate InvAt(d: Schedule, s: State, n: nat) {
    && Contiguous(d, s.rows, n)
    && (n > Lo(d) ==> d.boundaries[n - 1] <= s.seen)
    && (s.bookmark.Some? ==> Lo(d) < UpTo(d.boundaries, s.bookmark.value) <= n)
    && forall k :: 0 <= k < |s.ticks| ==> TickInv(d, s.ticks[k], n, s.seen)
  }

  /** One more step keeps the rows contiguous, and never takes one away. */
  lemma StepKeeps(d: Schedule, s: State, step: Step, n: nat) returns (m: nat)
    requires ValidSchedule(d) && d.catchup && InvAt(d, s, n) && Enabled(d, s, step)
    ensures n <= m && InvAt(d, Next(d, s, step), m)
    ensures step.Insert? && s.ticks[step.tick].end - s.ticks[step.tick].first < ENQUEUE_BOUNDARY_CAP ==>
              UpTo(d.boundaries, s.ticks[step.tick].now) <= m
  {
    m := n;
    match step
    case Begin(now) => BeginKeeps(d, s, now, n);
    case Insert(k) => m := InsertKeeps(d, s, k, n);
    case MoveBookmark(k) => MoveKeeps(d, s, k, n);
    case Crash(k) =>
  }

  lemma BeginKeeps(d: Schedule, s: State, now: int, n: nat)
    requires ValidSchedule(d) && d.catchup && InvAt(d, s, n)
    ensures InvAt(d, Next(d, s, Begin(now)), n)
  {
  }

  lemma RangeJoin(bs: seq<int>, lo: nat, a: nat, n: nat, b: nat)
    requires lo <= a <= n <= |bs| && a <= b <= |bs|
    ensures Range(bs, lo, n) + Range(bs, a, b) == Range(bs, lo, if b > n then b else n)
  {
  }

  lemma InsertKeeps(d: Schedule, s: State, k: nat, n: nat) returns (m: nat)
    requires ValidSchedule(d) && d.catchup && InvAt(d, s, n) && Enabled(d, s, Insert(k))
    ensures n <= m && InvAt(d, Next(d, s, Insert(k)), m)
    ensures s.ticks[k].end <= m
  {
    var t := s.ticks[k];
    assert TickInv(d, t, n, s.seen);
    m := if t.end > n then t.end else n;
    RangeJoin(d.boundaries, Lo(d), t.first, n, t.end);
    UpToSplits(d.boundaries, t.now);
    assert d.boundaries[t.end - 1] <= t.now;
    forall j | 0 <= j < |s.ticks|
      ensures TickInv(d, Next(d, s, Insert(k)).ticks[j], m, s.seen)
    {
      assert TickInv(d, s.ticks[j], n, s.seen);
    }
  }

  lemma MoveKeeps(d: Schedule, s: State, k: nat, n: nat)
    requires ValidSchedule(d) && d.catchup && InvAt(d, s, n) && Enabled(d, s, MoveBookmark(k))
    ensures InvAt(d, Next(d, s, MoveBookmark(k)), n)
  {
    var t := s.ticks[k];
    assert TickInv(d, t, n, s.seen);
    BoundaryIndex(d.boundaries, t.end - 1);
  }

  // ----- the theorems -----

  /**
   With catchup on, whatever ticks overlap, stop at the cap or crash: the enqueued datetimes are
   exactly the boundaries in (startDate, M], with M at or after the bookmark and no later than the clock.
   */
  lemma {:induction false} CatchUpGapFree(d: Schedule, steps: seq<Step>, s: State) returns (n: nat)
    requires ValidSchedule(d) && d.catchup && Run(d, steps, s)
    ensures InvAt(d, s, n)
    ensures forall b :: b in s.rows <==> exists i :: Lo(d) <= i < n && d.boundaries[i] == b
  {
    if steps == [] {
      n := Lo(d);
    } else {
      var last := steps[|steps| - 1];
      assert RunThen(d, steps[..|steps| - 1], last, s);
      var before :| Run(d, steps[..|steps| - 1], before) && Steps(d, before, last, s);
      var m := CatchUpGapFree(d, steps[..|steps| - 1], before);
      n := StepKeeps(d, before, last, m);
    }
  }

  /** As soon as a tick at the latest clock inserts without hitting the cap, everything due is there, once. */
  lemma CaughtUp(d: Schedule, steps: seq<Step>, s: State, k: nat)
    requires ValidSchedule(d) && d.catchup && Run(d, steps, s) && Enabled(d, s, Insert(k))
    requires s.ticks[k].end - s.ticks[k].first < ENQUEUE_BOUNDARY_CAP && s.ticks[k].now == s.seen
    ensures var rows := Next(d, s, Insert(k)).rows;
            forall b :: b in rows <==> b in d.boundaries && d.startDate < b <= s.seen
  {
    var n := CatchUpGapFree(d, steps, s);
    var m := StepKeeps(d, s, Insert(k), n);
    DueIsRange(d, s.seen, m);
  }

  /** The boundaries that are due at `time`, by index and by value. */
  lemma DueIsRange(d: Schedule, time: int, m: nat)
    requires ValidSchedule(d) && Lo(d) <= m <= |d.boundaries| && UpTo(d.boundaries, time) <= m
    requires m > Lo(d) ==> d.boundaries[m - 1] <= time
    ensures forall b :: b in Range(d.boundaries, Lo(d), m) <==> b in d.boundaries && d.startDate < b <= time
  {
    UpToSplits(d.boundaries, d.startDate);
    UpToSplits(d.boundaries, time);
    forall i | 0 <= i < |d.boundaries|
      ensures Lo(d) <= i < m <==> d.startDate < d.boundaries[i] <= time
    {
      assert Lo(d) <= i < m - 1 ==> d.boundaries[i] < d.boundaries[m - 1];
    }
  }

  // ----- ticks one after the other -----

  datatype Progress = Progress(rows: set<int>, bookmark: Option<int>)

  /** One complete tick: insert, then move the bookmark; nothing happens when nothing is missed. */
  ghost function OneTick(d: Schedule, now: int, p: Progress): Progress {
    var a, e := FirstIndex(d, p.bookmark, now), EndIndex(d, p.bookmark, now);
    FirstIndexBound(d, p.bookmark, now);
    if a == e then p else Progress(p.rows + Range(d.boundaries, a, e), Some(d.boundaries[e - 1]))
  }

  /** `k` complete ticks at `now`, from a fresh DAG. */
  ghost function AfterTicks(d: Schedule, now: int, k: nat): Progress {
    if k == 0 then Progress({}, None) else OneTick(d, now, AfterTicks(d, now, k - 1))
  }

  function Min(a: int, b: int): int { if a <= b then a else b }

  ghost predicate At(d: Schedule, p: Progress, n: int) {
    n >= 0 && Contiguous(d, p.rows, n) && p.bookmark == if n == Lo(d) then None else Some(d.boundaries[n - 1])
  }

  lemma TickIndices(d: Schedule, now: int, p: Progress, n: nat)
    requires ValidSchedule(d) && d.catchup && At(d, p, n) && n <= UpTo(d.boundaries, now)
    ensures FirstIndex(d, p.bookmark, now) == n
    ensures EndIndex(d, p.bookmark, now) == Min(UpTo(d.boundaries, now), n + ENQUEUE_BOUNDARY_CAP)
  {
    if n != Lo(d) {
      BoundaryIndex(d.boundaries, n - 1);
    }
  }

  lemma OneMoreTick(d: Schedule, now: int, p: Progress, n: nat)
    requires ValidSchedule(d) && d.catchup && At(d, p, n) && n <= UpTo(d.boundaries, now)
    ensures At(d, OneTick(d, now, p), Min(UpTo(d.boundaries, now), n + ENQUEUE_BOUNDARY_CAP))
  {
    TickIndices(d, now, p, n);
    var e := EndIndex(d, p.bookmark, now);
    FirstIndexBound(d, p.bookmark, now);
    MoreRows(d, p.rows, n, e);
  }

  lemma MoreRows(d: Schedule, rows: set<int>, n: nat, e: nat)
    requires Contiguous(d, rows, n) && n <= e <= |d.boundaries|
    ensures Contiguous(d, rows + Range(d.boundaries, n, e), e)
  {
  }

  /** How far `k` capped ticks get. */
  function Reach(d: Schedule, now: int, k: nat): int {
    Min(UpTo(d.boundaries, now), Lo(d) + k * ENQUEUE_BOUNDARY_CAP)
  }

  /** `k` capped ticks enqueue exactly the first `k * CAP` of what one uncapped tick would. */
  lemma {:induction false} ManyTicksOneTick(d: Schedule, now: int, k: nat)
    requires ValidSchedule(d) && d.catchup && Lo(d) <= UpTo(d.boundaries, now)
    ensures At(d, AfterTicks(d, now, k), Reach(d, now, k))
  {
    if k == 0 {
      FreshDag(d, now);
    } else {
      ManyTicksOneTick(d, now, k - 1);
      NextTick(d, now, AfterTicks(d, now, k - 1), k - 1);
    }
  }

  lemma NextTick(d: Schedule, now: int, p: Progress, k: nat)
    requires ValidSchedule(d) && d.catchup && Lo(d) <= UpTo(d.boundaries, now) && At(d, p, Reach(d, now, k))
    ensures At(d, OneTick(d, now, p), Reach(d, now, k + 1))
  {
    ReachStep(d, now, k);
    OneMoreTick(d, now, p, Reach(d, now, k));
  }

  lemma FreshDag(d: Schedule, now: int)
    requires Lo(d) <= UpTo(d.boundaries, now)
    ensures Reach(d, now, 0) == Lo(d) && At(d, Progress({}, None), Lo(d))
  {
  }

  lemma ReachStep(d: Schedule, now: int, k: nat)
    requires Lo(d) <= UpTo(d.boundaries, now)
    ensures 0 <= Reach(d, now, k) <= UpTo(d.boundaries, now)
    ensures Reach(d, now, k + 1) == Min(UpTo(d.boundaries, now), Reach(d, now, k) + ENQUEUE_BOUNDARY_CAP)
  {
    assert (k + 1) * ENQUEUE_BOUNDARY_CAP == k * ENQUEUE_BOUNDARY_CAP + ENQUEUE_BOUNDARY_CAP;
  }

  lemma RangeOne(bs: seq<int>, a: nat)
    requires a < |bs|
    ensures Range(bs, a, a + 1) == {bs[a]}
  {
  }

  lemma BoundaryIndex(bs: seq<int>, i: nat)
    requires i < |bs| && forall i, j :: 0 <= i < j < |bs| ==> bs[i] < bs[j]
    ensures UpTo(bs, bs[i]) == i + 1
  {
  }
}
