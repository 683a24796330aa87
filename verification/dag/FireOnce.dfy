/**
 Cron catch-up with catchup off (apps/web/src/lib/dag-scheduler.ts:45-125): a tick that finds no
 bookmark fires the latest past boundary only. Exactly these firings can leave gaps.
 */
module FireOnce {
  import opened Wrappers
  import opened CatchUp

  /** Without catchup a fresh DAG fires once, for its most recent boundary. */
  lemma FirstTickFiresOnce(d: Schedule, now: int)
    requires ValidSchedule(d) && !d.catchup
    ensures EndIndex(d, None, now) - FirstIndex(d, None, now) == if UpTo(d.boundaries, now) > 0 then 1 else 0
    ensures UpTo(d.boundaries, now) > 0 ==>
              var b := d.boundaries[FirstIndex(d, None, now)];
              b <= now && forall c :: c in d.boundaries && c <= now ==> c <= b
  {
    UpToSplits(d.boundaries, now);
    if UpTo(d.boundaries, now) > 0 {
      var last := UpTo(d.boundaries, now) - 1;
      forall c | c in d.boundaries && c <= now
        ensures c <= d.boundaries[last]
      {
        var i :| 0 <= i < |d.boundaries| && d.boundaries[i] == c;
        assert i <= last;
      }
    }
  }

  // ----- gaps, by index -----

  /** The indices of the boundaries that have a row. */
  function Rows(d: Schedule, rows: set<int>): set<nat> {
    set j: nat | j < |d.boundaries| && d.boundaries[j] in rows
  }

  /** No boundary between two with rows is left out. */
  ghost predicate GapFree(has: set<nat>) {
    forall i, j, k :: i in has && k in has && i < j < k ==> j in has
  }

  ghost predicate Filled(has: set<nat>, i: nat, k: nat) {
    forall j :: i <= j <= k ==> j in has
  }

  /** The boundary at `j` is joined to a firing before it. */
  ghost predicate Grounded(has: set<nat>, fired: set<nat>, j: nat) {
    exists i :: i in fired && i <= j && Filled(has, i, j)
  }

  ghost predicate AllGrounded(has: set<nat>, fired: set<nat>) {
    fired <= has && forall j {:trigger Grounded(has, fired, j)} :: j in has ==> Grounded(has, fired, j)
  }

  /** `after` is `has` with the boundaries from `a` up to `e`. */
  ghost predicate Grown(has: set<nat>, a: nat, e: nat, after: set<nat>) {
    forall j :: j in after <==> j in has || a <= j < e
  }

  lemma StaysGrounded(has: set<nat>, fired: set<nat>, more: set<nat>, wider: set<nat>, j: nat)
    requires Grounded(has, fired, j) && fired <= wider && has <= more
    ensures Grounded(more, wider, j)
  {
    var i :| i in fired && i <= j && Filled(has, i, j);
    assert Filled(more, i, j);
  }

  /** A tick that goes on behind a row. */
  lemma GoesOn(has: set<nat>, fired: set<nat>, a: nat, e: nat, after: set<nat>)
    requires AllGrounded(has, fired) && Grown(has, a, e, after) && 0 < a && a - 1 in has
    ensures AllGrounded(after, fired)
  {
    assert Grounded(has, fired, a - 1);
    var i :| i in fired && i <= a - 1 && Filled(has, i, a - 1);
    forall j | j in after
      ensures Grounded(after, fired, j)
    {
      if j in has {
        assert Grounded(has, fired, j);
        StaysGrounded(has, fired, after, fired, j);
      } else {
        assert Filled(after, i, j);
      }
    }
  }

  /** A tick that fires anywhere. */
  lemma Fires(has: set<nat>, fired: set<nat>, a: nat, after: set<nat>)
    requires AllGrounded(has, fired) && Grown(has, a, a + 1, after)
    ensures AllGrounded(after, fired + {a})
  {
    forall j | j in after
      ensures Grounded(after, fired + {a}, j)
    {
      if j in has {
        assert Grounded(has, fired, j);
        StaysGrounded(has, fired, after, fired + {a}, j);
      } else {
        assert Filled(after, a, j);
      }
    }
  }

  /** Nothing is missing between any two firings. */
  ghost predicate FiringsJoined(has: set<nat>, fired: set<nat>) {
    forall i, k :: i in fired && k in fired && i < k ==> Filled(has, i, k)
  }

  lemma JoinedFills(has: set<nat>, fired: set<nat>, i: nat, j: nat, k: nat)
    requires AllGrounded(has, fired) && FiringsJoined(has, fired) && i < j < k && i in has && k in has
    ensures j in has
  {
    assert Grounded(has, fired, i) && Grounded(has, fired, k);
    var below :| below in fired && below <= i && Filled(has, below, i);
    var above :| above in fired && above <= k && Filled(has, above, k);
    if j < above {
      assert Filled(has, below, above);
    }
  }

  lemma GapFreeIffJoined(has: set<nat>, fired: set<nat>)
    requires AllGrounded(has, fired)
    ensures GapFree(has) <==> FiringsJoined(has, fired)
  {
    if FiringsJoined(has, fired) {
      forall i, j, k | i in has && k in has && i < j < k
        ensures j in has
      {
        JoinedFills(has, fired, i, j, k);
      }
    }
  }

  // ----- what every step keeps -----

  ghost predicate TickGrounded(d: Schedule, has: set<nat>, t: Tick) {
    && t.first <= t.end <= |d.boundaries|
    && (if t.unmarked then t.end <= t.first + 1 else 0 < t.first && t.first - 1 in has)
    && (t.inserted ==> t.first < t.end && t.end - 1 in has)
  }

  /** The rows are boundaries, all joined to firings; bookmark and ticks point at rows. */
  ghost predicate Inv(d: Schedule, s: State) {
    var has := Rows(d, s.rows);
    && (forall b :: b in s.rows ==> b in d.boundaries)
    && AllGrounded(has, s.fired)
    && (s.bookmark.Some? ==> s.bookmark.value in s.rows)
    && forall k :: 0 <= k < |s.ticks| ==> TickGrounded(d, has, s.ticks[k])
  }

  lemma RowsMore(d: Schedule, rows: set<int>, a: nat, e: nat)
    requires ValidSchedule(d) && a <= e <= |d.boundaries|
    ensures Grown(Rows(d, rows), a, e, Rows(d, rows + Range(d.boundaries, a, e)))
  {
  }

  lemma BeginGrounded(d: Schedule, s: State, now: int)
    requires ValidSchedule(d) && !d.catchup && Inv(d, s)
    ensures var t := Tick(now, FirstIndex(d, s.bookmark, now), EndIndex(d, s.bookmark, now), s.bookmark.None?, false);
            TickGrounded(d, Rows(d, s.rows), t)
  {
    FirstIndexBound(d, s.bookmark, now);
    match s.bookmark
    case None =>
    case Some(b) =>
      var m :| 0 <= m < |d.boundaries| && d.boundaries[m] == b;
      BoundaryIndex(d.boundaries, m);
  }

  lemma InsertKeeps(d: Schedule, s: State, k: nat)
    requires ValidSchedule(d) && Inv(d, s) && Enabled(d, s, Insert(k))
    ensures Inv(d, Next(d, s, Insert(k)))
  {
    var t, after := s.ticks[k], Next(d, s, Insert(k));
    var has := Rows(d, s.rows);
    RowsMore(d, s.rows, t.first, t.end);
    assert TickGrounded(d, has, t);
    if t.unmarked {
      Fires(has, s.fired, t.first, Rows(d, after.rows));
    } else {
      GoesOn(has, s.fired, t.first, t.end, Rows(d, after.rows));
    }
  }

  lemma StepKeeps(d: Schedule, s: State, step: Step)
    requires ValidSchedule(d) && !d.catchup && Inv(d, s) && Enabled(d, s, step)
    ensures Inv(d, Next(d, s, step))
  {
    match step
    case Begin(now) => BeginGrounded(d, s, now);
    case Insert(k) => InsertKeeps(d, s, k);
    case MoveBookmark(k) => MoveKeeps(d, s, k);
    case Crash(k) =>
  }

  lemma MoveKeeps(d: Schedule, s: State, k: nat)
    requires ValidSchedule(d) && Inv(d, s) && Enabled(d, s, MoveBookmark(k))
    ensures Inv(d, Next(d, s, MoveBookmark(k)))
  {
    assert TickGrounded(d, Rows(d, s.rows), s.ticks[k]);
  }

  lemma {:induction false} RunInv(d: Schedule, steps: seq<Step>, s: State)
    requires ValidSchedule(d) && !d.catchup && Run(d, steps, s)
    ensures Inv(d, s)
  {
    if steps != [] {
      var last := steps[|steps| - 1];
      assert RunThen(d, steps[..|steps| - 1], last, s);
      var before :| Run(d, steps[..|steps| - 1], before) && Steps(d, before, last, s);
      RunInv(d, steps[..|steps| - 1], before);
      StepKeeps(d, before, last);
    }
  }

  // ----- where gaps are -----

  /**
   With catchup off, after any overlapping, capped or crashing ticks: every row is a boundary joined
   without a gap to a firing at or before it, and the rows are without a gap if and only if nothing is missing between two
   firings of ticks that found no bookmark. Every other tick goes on where a row already is.
   */
  lemma GapsLieBetweenFirings(d: Schedule, steps: seq<Step>, s: State)
    requires ValidSchedule(d) && !d.catchup && Run(d, steps, s)
    ensures GapFree(Rows(d, s.rows)) <==> FiringsJoined(Rows(d, s.rows), s.fired)
    ensures AllGrounded(Rows(d, s.rows), s.fired) && forall b :: b in s.rows ==> b in d.boundaries
  {
    RunInv(d, steps, s);
    GapFreeIffJoined(Rows(d, s.rows), s.fired);
  }

  // ----- what a tick can check before it inserts -----

  /** A run exists at the boundary at `i` or right beside it, or there is none at all. */
  predicate Beside(has: set<nat>, i: nat) {
    has == {} || i in has || i + 1 in has || (i > 0 && i - 1 in has)
  }

  /** A tick that found no bookmark inserts only beside an existing run. */
  predicate Careful(d: Schedule, s: State, step: Step) {
    step.Insert? && step.tick < |s.ticks| && s.ticks[step.tick].unmarked ==> Beside(Rows(d, s.rows), s.ticks[step.tick].first)
  }

  lemma FiringGap(has: set<nat>, i: nat, after: set<nat>)
    requires GapFree(has) && Grown(has, i, i + 1, after)
    ensures GapFree(after) <==> Beside(has, i)
  {
    if GapFree(after) && has != {} {
      var j :| j in has;
      assert j in after && i in after;
      assert j < i - 1 ==> i - 1 in after;
      assert i + 1 < j ==> i + 1 in after;
    }
  }

  lemma GoingOnGap(has: set<nat>, a: nat, e: nat, after: set<nat>)
    requires GapFree(has) && Grown(has, a, e, after) && 0 < a && a - 1 in has
    ensures GapFree(after)
  {
  }

  /** One step from rows without a gap leaves none exactly when it is careful. */
  lemma StepGap(d: Schedule, s: State, step: Step)
    requires ValidSchedule(d) && Inv(d, s) && GapFree(Rows(d, s.rows)) && Enabled(d, s, step)
    ensures GapFree(Rows(d, Next(d, s, step).rows)) <==> Careful(d, s, step)
  {
    if step.Insert? {
      var t, has, after := s.ticks[step.tick], Rows(d, s.rows), Rows(d, Next(d, s, step).rows);
      assert TickGrounded(d, has, t);
      RowsMore(d, s.rows, t.first, t.end);
      if t.unmarked {
        FiringGap(has, t.first, after);
      } else {
        GoingOnGap(has, t.first, t.end, after);
      }
    }
  }

  /** The states a run goes through. */
  ghost predicate Trace(d: Schedule, steps: seq<Step>, states: seq<State>) {
    && |states| == |steps| + 1 && Fresh(states[0])
    && forall i :: 0 <= i < |steps| ==> Steps(d, states[i], steps[i], states[i + 1])
  }

  lemma {:induction false} RunTrace(d: Schedule, steps: seq<Step>, s: State) returns (states: seq<State>)
    requires Run(d, steps, s)
    ensures Trace(d, steps, states) && states[|steps|] == s
  {
    if steps == [] {
      states := [s];
    } else {
      var last := steps[|steps| - 1];
      assert RunThen(d, steps[..|steps| - 1], last, s);
      var before :| Run(d, steps[..|steps| - 1], before) && Steps(d, before, last, s);
      var earlier := RunTrace(d, steps[..|steps| - 1], before);
      states := earlier + [s];
    }
  }

  lemma {:induction false} TraceInv(d: Schedule, steps: seq<Step>, states: seq<State>, n: nat)
    requires ValidSchedule(d) && !d.catchup && Trace(d, steps, states) && n < |states|
    ensures Inv(d, states[n])
  {
    if n > 0 {
      TraceInv(d, steps, states, n - 1);
      assert Steps(d, states[n - 1], steps[n - 1], states[n - 1 + 1]);
      StepKeeps(d, states[n - 1], steps[n - 1]);
    }
  }

  ghost predicate NoGapAt(d: Schedule, states: seq<State>, i: nat) {
    i < |states| && GapFree(Rows(d, states[i].rows))
  }

  ghost predicate CarefulAt(d: Schedule, steps: seq<Step>, states: seq<State>, i: nat) {
    i < |steps| && i < |states| && Careful(d, states[i], steps[i])
  }

  lemma TraceStep(d: Schedule, steps: seq<Step>, states: seq<State>, i: nat)
    requires ValidSchedule(d) && !d.catchup && Trace(d, steps, states) && i < |steps| && NoGapAt(d, states, i)
    ensures NoGapAt(d, states, i + 1) <==> CarefulAt(d, steps, states, i)
  {
    TraceInv(d, steps, states, i);
    assert Steps(d, states[i], steps[i], states[i + 1]);
    StepGap(d, states[i], steps[i]);
  }

  /**
   With catchup off, a run never has a gap if and only if each tick that found no bookmark, at the
   moment it inserts, sees a run at its boundary or right beside it, or none at all.
   */
  lemma NeverGappedIffCareful(d: Schedule, steps: seq<Step>, states: seq<State>)
    requires ValidSchedule(d) && !d.catchup && Trace(d, steps, states)
    ensures (forall i :: 0 <= i < |states| ==> NoGapAt(d, states, i)) <==>
            (forall i :: 0 <= i < |steps| ==> CarefulAt(d, steps, states, i))
  {
    if forall i :: 0 <= i < |states| ==> NoGapAt(d, states, i) {
      forall i | 0 <= i < |steps|
        ensures CarefulAt(d, steps, states, i)
      {
        assert NoGapAt(d, states, i) && NoGapAt(d, states, i + 1);
        TraceStep(d, steps, states, i);
      }
    }
    if forall i :: 0 <= i < |steps| ==> CarefulAt(d, steps, states, i) {
      CarefulKeepsFilled(d, steps, states, |steps|);
    }
  }

  lemma {:induction false} CarefulKeepsFilled(d: Schedule, steps: seq<Step>, states: seq<State>, n: nat)
    requires ValidSchedule(d) && !d.catchup && Trace(d, steps, states) && n <= |steps|
    requires forall i :: 0 <= i < n ==> CarefulAt(d, steps, states, i)
    ensures forall i :: 0 <= i <= n ==> NoGapAt(d, states, i)
  {
    if n > 0 {
      CarefulKeepsFilled(d, steps, states, n - 1);
      assert CarefulAt(d, steps, states, n - 1);
      TraceStep(d, steps, states, n - 1);
    }
  }

  // ----- one tick at a time, and a bookmark as soon as there is a row -----

  /** A tick begins only when no other is in flight, and only with a bookmark once a run exists. */
  predicate Calm(s: State, step: Step) {
    step.Begin? ==> s.ticks == [] && (s.rows != {} ==> s.bookmark.Some?)
  }

  ghost predicate CalmInv(s: State) {
    && |s.ticks| <= 1 && (s.rows == {} ==> s.fired == {}) && (forall i, j :: i in s.fired && j in s.fired ==> i == j)
    && forall k :: 0 <= k < |s.ticks| && s.ticks[k].unmarked && !s.ticks[k].inserted ==> s.rows == {}
  }

  lemma NoRows(d: Schedule, has: set<nat>)
    requires has == Rows(d, {})
    ensures has == {}
  {
  }

  lemma CalmStep(d: Schedule, s: State, step: Step)
    requires ValidSchedule(d) && !d.catchup && Inv(d, s) && CalmInv(s) && Enabled(d, s, step) && Calm(s, step)
    ensures CalmInv(Next(d, s, step)) && Careful(d, s, step)
  {
    NoRows(d, Rows(d, {}));
    if step.Insert? {
      var t := s.ticks[step.tick];
      assert TickGrounded(d, Rows(d, s.rows), t);
      assert d.boundaries[t.first] in Next(d, s, step).rows;
    }
  }

  ghost predicate CalmAt(steps: seq<Step>, states: seq<State>, i: nat) {
    i < |steps| && i < |states| && Calm(states[i], steps[i])
  }

  /** Ticks that do not overlap and do not die between insert and bookmark never leave a gap: one firing, then on from it. */
  lemma CalmTicksLeaveNoGap(d: Schedule, steps: seq<Step>, states: seq<State>)
    requires ValidSchedule(d) && !d.catchup && Trace(d, steps, states)
    requires forall i :: 0 <= i < |steps| ==> CalmAt(steps, states, i)
    ensures forall i :: 0 <= i < |states| ==> NoGapAt(d, states, i) && forall j, k :: j in states[i].fired && k in states[i].fired ==> j == k
  {
    CalmUpTo(d, steps, states, |steps|);
    NeverGappedIffCareful(d, steps, states);
    forall i | 0 <= i < |states|
      ensures forall j, k :: j in states[i].fired && k in states[i].fired ==> j == k
    {
      CalmUpTo(d, steps, states, i);
    }
  }

  lemma {:induction false} CalmUpTo(d: Schedule, steps: seq<Step>, states: seq<State>, n: nat)
    requires ValidSchedule(d) && !d.catchup && Trace(d, steps, states) && n <= |steps|
    requires forall i :: 0 <= i < n ==> CalmAt(steps, states, i)
    ensures CalmInv(states[n]) && forall i :: 0 <= i < n ==> CarefulAt(d, steps, states, i)
  {
    if n > 0 {
      CalmUpTo(d, steps, states, n - 1);
      assert CalmAt(steps, states, n - 1);
      CalmTraceStep(d, steps, states, n - 1);
    }
  }

  lemma CalmTraceStep(d: Schedule, steps: seq<Step>, states: seq<State>, i: nat)
    requires ValidSchedule(d) && !d.catchup && Trace(d, steps, states) && i < |steps| && CalmInv(states[i]) && CalmAt(steps, states, i)
    ensures CalmInv(states[i + 1]) && CarefulAt(d, steps, states, i)
  {
    TraceInv(d, steps, states, i);
    assert Steps(d, states[i], steps[i], states[i + 1]);
    CalmStep(d, states[i], steps[i]);
  }

  // ----- the two ways to a gap -----

  const GAPPED := Schedule([60, 120, 180], 0, false)

  function Fire(now: int, i: nat, inserted: bool): Tick {
    Tick(now, i, i + 1, true, inserted)
  }

  const START := State({}, None, [], 0, {})
  const TWO_BEGUN := State({}, None, [Fire(60, 0, false), Fire(180, 2, false)], 180, {})
  const DIED := State({60}, None, [], 60, {0})

  /** A tick begins without a bookmark at 60 or at 180. */
  lemma FirstTick(steps: seq<Step>, s: State, now: int)
    requires Run(GAPPED, steps, s) && s.bookmark == None && (now == 60 || now == 180) && s.seen <= now
    ensures Run(GAPPED, steps + [Begin(now)], s.(ticks := s.ticks + [Fire(now, if now == 60 then 0 else 2, false)], seen := now))
  {
    var bs := GAPPED.boundaries;
    assert bs[..2] == [60, 120] && bs[..2][..1] == [60];
    assert UpTo([60], 60) == 1 && UpTo(bs[..2], 60) == 1 && UpTo(bs, 60) == 1;
    assert UpTo(bs, 180) == 3;
    var t := s.(ticks := s.ticks + [Fire(now, if now == 60 then 0 else 2, false)], seen := now);
    assert Next(GAPPED, s, Begin(now)) == t;
    Extend(GAPPED, steps, s, Begin(now), t);
  }

  /** Such a tick inserts its boundary. */
  lemma FirstInsert(steps: seq<Step>, s: State, k: nat, now: int, i: nat)
    requires Run(GAPPED, steps, s) && k < |s.ticks| && i < 3 && s.ticks[k] == Fire(now, i, false)
    ensures Run(GAPPED, steps + [Insert(k)],
                s.(rows := s.rows + {GAPPED.boundaries[i]}, ticks := s.ticks[k := Fire(now, i, true)], fired := s.fired + {i}))
  {
    RangeOne(GAPPED.boundaries, i);
    var t := s.(rows := s.rows + {GAPPED.boundaries[i]}, ticks := s.ticks[k := Fire(now, i, true)], fired := s.fired + {i});
    assert Next(GAPPED, s, Insert(k)) == t;
    Extend(GAPPED, steps, s, Insert(k), t);
  }

  lemma LastMove(steps: seq<Step>, s: State, k: nat)
    requires Run(GAPPED, steps, s) && k < |s.ticks| && s.ticks[k] == Fire(180, 2, true)
    ensures Run(GAPPED, steps + [MoveBookmark(k)], s.(bookmark := Some(180), ticks := s.ticks[..k] + s.ticks[k + 1..]))
  {
    var t := s.(bookmark := Some(180), ticks := s.ticks[..k] + s.ticks[k + 1..]);
    Extend(GAPPED, steps, s, MoveBookmark(k), t);
  }

  lemma TwoBegin() returns (steps: seq<Step>)
    ensures Run(GAPPED, steps, TWO_BEGUN)
  {
    assert Run(GAPPED, [], START);
    FirstTick([], START, 60);
    FirstTick([] + [Begin(60)], State({}, None, [Fire(60, 0, false)], 60, {}), 180);
    steps := [] + [Begin(60)] + [Begin(180)];
    assert [Fire(60, 0, false)] + [Fire(180, 2, false)] == TWO_BEGUN.ticks;
  }

  /** Two first ticks that overlap leave a boundary out. */
  lemma OverlapLeavesGap() returns (steps: seq<Step>, s: State)
    ensures Run(GAPPED, steps, s) && s == State({60, 180}, Some(180), [Fire(60, 0, true)], 180, {0, 2})
    ensures ValidSchedule(GAPPED) && !GapFree(Rows(GAPPED, s.rows))
  {
    var begun := TwoBegin();
    var one := State({60}, None, [Fire(60, 0, true), Fire(180, 2, false)], 180, {0});
    var two := State({60, 180}, None, [Fire(60, 0, true), Fire(180, 2, true)], 180, {0, 2});
    FirstInsert(begun, TWO_BEGUN, 0, 60, 0);
    assert TWO_BEGUN.ticks[0 := Fire(60, 0, true)] == one.ticks && {} + {60} == one.rows && {} + {0} == one.fired;
    FirstInsert(begun + [Insert(0)], one, 1, 180, 2);
    assert one.ticks[1 := Fire(180, 2, true)] == two.ticks && one.rows + {180} == two.rows && one.fired + {2} == two.fired;
    LastMove(begun + [Insert(0)] + [Insert(1)], two, 1);
    steps := begun + [Insert(0)] + [Insert(1)] + [MoveBookmark(1)];
    s := State({60, 180}, Some(180), [Fire(60, 0, true)], 180, {0, 2});
    assert two.ticks[..1] + two.ticks[2..] == s.ticks;
    OneIsMissing();
  }

  lemma DiesInBetween() returns (steps: seq<Step>)
    ensures Run(GAPPED, steps, DIED)
  {
    assert Run(GAPPED, [], START);
    FirstTick([], START, 60);
    var begun := State({}, None, [Fire(60, 0, false)], 60, {});
    assert [] + [Fire(60, 0, false)] == begun.ticks;
    FirstInsert([] + [Begin(60)], begun, 0, 60, 0);
    var landed := State({60}, None, [Fire(60, 0, true)], 60, {0});
    assert begun.ticks[0 := Fire(60, 0, true)] == landed.ticks && {} + {60} == landed.rows && {} + {0} == landed.fired;
    assert landed.ticks[..0] + landed.ticks[1..] == [];
    Extend(GAPPED, [] + [Begin(60)] + [Insert(0)], landed, Crash(0), DIED);
    steps := [] + [Begin(60)] + [Insert(0)] + [Crash(0)];
  }

  /** So does a first tick that dies between its insert and its bookmark, without any overlap. */
  lemma CrashLeavesGap() returns (steps: seq<Step>, s: State)
    ensures Run(GAPPED, steps, s) && s == State({60, 180}, Some(180), [], 180, {0, 2})
    ensures ValidSchedule(GAPPED) && !GapFree(Rows(GAPPED, s.rows))
  {
    var died := DiesInBetween();
    FirstTick(died, DIED, 180);
    var begun := State({60}, None, [Fire(180, 2, false)], 180, {0});
    assert [] + [Fire(180, 2, false)] == begun.ticks;
    FirstInsert(died + [Begin(180)], begun, 0, 180, 2);
    var landed := State({60, 180}, None, [Fire(180, 2, true)], 180, {0, 2});
    assert begun.ticks[0 := Fire(180, 2, true)] == landed.ticks && {60} + {180} == landed.rows && {0} + {2} == landed.fired;
    LastMove(died + [Begin(180)] + [Insert(0)], landed, 0);
    s := State({60, 180}, Some(180), [], 180, {0, 2});
    assert landed.ticks[..0] + landed.ticks[1..] == s.ticks;
    steps := died + [Begin(180)] + [Insert(0)] + [MoveBookmark(0)];
    OneIsMissing();
  }

  lemma OneIsMissing()
    ensures ValidSchedule(GAPPED) && !GapFree(Rows(GAPPED, {60, 180}))
  {
    var has := Rows(GAPPED, {60, 180});
    assert 0 in has && 2 in has && 1 !in has;
  }

  lemma Extend(d: Schedule, steps: seq<Step>, s: State, step: Step, t: State)
    requires Run(d, steps, s) && Steps(d, s, step, t)
    ensures Run(d, steps + [step], t)
  {
    assert (steps + [step])[..|steps|] == steps;
    assert RunThen(d, steps, step, t);
  }
}
