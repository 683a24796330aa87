/**
 Dispatching queued runs (dispatchQueued in apps/web/src/lib/dag-scheduler.ts) as interleaved steps
 of any number of ticks: the maxActiveRuns bound and the exclusiveness of the queued -> running claim.
 */
module Dispatch {
  import opened Wrappers

  datatype Status = Queued | Running | Succeeded | Failed | Cancelled

  datatype Run = Run(status: Status, logicalDatetime: int)

  type Table = map<string, Run>

  /** Where a tick stands: slots counted, or working through the runs it selected; `held` is claimed but not started. */
  datatype Tick = Counted(slots: nat) | Working(todo: seq<string>, held: Option<string>)

  datatype Event = Start(id: string) | Rollback(id: string)

  /** `history` records the claims, each followed by one `start` call, and the rollbacks. */
  datatype State = State(runs: Table, ticks: seq<Tick>, history: seq<Event>)

  datatype Step =
    | Enqueue(id: string, logicalDatetime: int)
    | Count
    | Select(tick: nat, rows: seq<string>)
    | Claim(tick: nat)
    | StartOk(tick: nat)
    | StartFails(tick: nat)
    | Finish(tick: nat)
    | End(id: string, status: Status)

  function RunningIds(runs: Table): set<string> {
    set id | id in runs && runs[id].status == Running
  }

  function Slots(max: nat, runs: Table): nat {
    if |RunningIds(runs)| >= max then 0 else max - |RunningIds(runs)|
  }

  /** The first `slots` queued runs by logical datetime. */
  ghost predicate Selection(runs: Table, slots: nat, rows: seq<string>) {
    && |rows| <= slots
    && (forall k :: 0 <= k < |rows| ==> rows[k] in runs && runs[rows[k]].status == Queued)
    && (forall j, k :: 0 <= j < k < |rows| ==> rows[j] != rows[k] && runs[rows[j]].logicalDatetime <= runs[rows[k]].logicalDatetime)
    && (forall id :: id in runs && runs[id].status == Queued && id !in rows ==>
          |rows| == slots && forall k :: 0 <= k < |rows| ==> runs[rows[k]].logicalDatetime <= runs[id].logicalDatetime)
  }

  predicate IsWorking(s: State, k: nat) {
    k < |s.ticks| && s.ticks[k].Working?
  }

  ghost predicate Enabled(max: nat, s: State, step: Step) {
    match step
    case Enqueue(id, _) => id !in s.runs
    case Count => true
    case Select(k, rows) => k < |s.ticks| && s.ticks[k].Counted? && Selection(s.runs, s.ticks[k].slots, rows)
    case Claim(k) => IsWorking(s, k) && s.ticks[k].held.None? && s.ticks[k].todo != []
    case StartOk(k) => IsWorking(s, k) && s.ticks[k].held.Some?
    case StartFails(k) => IsWorking(s, k) && s.ticks[k].held.Some? && s.ticks[k].held.value in s.runs
    case Finish(k) => IsWorking(s, k) && s.ticks[k].held.None? && s.ticks[k].todo == []
    case End(id, status) => id in s.runs && s.runs[id].status in {Queued, Running} && status in {Succeeded, Failed, Cancelled}
  }

  function Claimable(runs: Table, id: string): bool {
    id in runs && runs[id].status == Queued
  }

  function SetStatus(runs: Table, id: string, status: Status): Table
    requires id in runs
  {
    runs[id := runs[id].(status := status)]
  }

  ghost function Next(max: nat, s: State, step: Step): State
    requires Enabled(max, s, step)
  {
    match step
    case Enqueue(id, dt) => s.(runs := s.runs[id := Run(Queued, dt)])
    case Count => s.(ticks := s.ticks + [Counted(Slots(max, s.runs))])
    case Select(k, rows) => s.(ticks := s.ticks[k := Working(rows, None)])
    case Claim(k) =>
      var id, rest := s.ticks[k].todo[0], s.ticks[k].todo[1..];
      if Claimable(s.runs, id)
      then State(SetStatus(s.runs, id, Running), s.ticks[k := Working(rest, Some(id))], s.history + [Start(id)])
      else s.(ticks := s.ticks[k := Working(rest, None)])
    case StartOk(k) => s.(ticks := s.ticks[k := s.ticks[k].(held := None)])
    case StartFails(k) =>
      var id := s.ticks[k].held.value;
      State(SetStatus(s.runs, id, Queued), s.ticks[k := s.ticks[k].(held := None)], s.history + [Rollback(id)])
    case Finish(k) => s.(ticks := s.ticks[..k] + s.ticks[k + 1..])
    case End(id, status) => s.(runs := SetStatus(s.runs, id, status))
  }

  ghost predicate Steps(max: nat, before: State, step: Step, s: State) {
    Enabled(max, before, step) && s == Next(max, before, step)
  }

  /** With `most`, a tick only begins while fewer others are in flight. */
  predicate Allowed(most: Option<nat>, s: State, step: Step) {
    step.Count? && most.Some? ==> |s.ticks| < most.value
  }

  ghost predicate Reaches(max: nat, most: Option<nat>, steps: seq<Step>, s: State)
    decreases |steps|, 0
  {
    if steps == [] then s == State(map[], [], [])
    else ReachesThen(max, most, steps[..|steps| - 1], steps[|steps| - 1], s)
  }

  ghost predicate ReachesThen(max: nat, most: Option<nat>, steps: seq<Step>, last: Step, s: State)
    decreases |steps|, 1
  {
    exists before :: Reaches(max, most, steps, before) && Steps(max, before, last, s) && Allowed(most, before, last)
  }

  // ----- the bound -----

  /** The runs a tick may still set running. */
  function Budget(t: Tick): nat {
    if t.Counted? then t.slots else |t.todo|
  }

  function Budgets(ticks: seq<Tick>): nat {
    if ticks == [] then 0 else Budgets(ticks[..|ticks| - 1]) + Budget(ticks[|ticks| - 1])
  }

  ghost predicate Bounded(max: nat, n: nat, s: State) {
    && |s.ticks| <= n && (forall k :: 0 <= k < |s.ticks| ==> Budget(s.ticks[k]) <= max)
    && |RunningIds(s.runs)| + Budgets(s.ticks) <= n * max
  }

  lemma {:induction false} BudgetsJoin(a: seq<Tick>, b: seq<Tick>)
    ensures Budgets(a + b) == Budgets(a) + Budgets(b)
  {
    if b == [] {
      assert a + b == a;
    } else {
      assert (a + b)[..|a + b| - 1] == a + b[..|b| - 1];
      BudgetsJoin(a, b[..|b| - 1]);
    }
  }

  lemma BudgetOf(t: Tick)
    ensures Budgets([t]) == Budget(t)
  {
    assert [t][..0] == [];
  }

  lemma BudgetsAround(ticks: seq<Tick>, k: nat, t: Tick)
    requires k < |ticks|
    ensures Budgets(ticks[k := t]) == Budgets(ticks) - Budget(ticks[k]) + Budget(t)
    ensures Budgets(ticks[..k] + ticks[k + 1..]) == Budgets(ticks) - Budget(ticks[k])
  {
    var a, b := ticks[..k], ticks[k + 1..];
    assert ticks == a + [ticks[k]] + b && ticks[k := t] == a + [t] + b;
    BudgetsJoin(a + [ticks[k]], b);
    BudgetsJoin(a, [ticks[k]]);
    BudgetsJoin(a + [t], b);
    BudgetsJoin(a, [t]);
    BudgetsJoin(a, b);
    BudgetOf(ticks[k]);
    BudgetOf(t);
  }

  lemma {:induction false} BudgetsWithin(max: nat, ticks: seq<Tick>)
    requires forall k :: 0 <= k < |ticks| ==> Budget(ticks[k]) <= max
    ensures Budgets(ticks) <= |ticks| * max
  {
    if ticks != [] {
      BudgetsWithin(max, ticks[..|ticks| - 1]);
      assert (|ticks| - 1) * max + max == |ticks| * max;
    }
  }

  lemma SetRunning(runs: Table, id: string)
    requires id in runs && runs[id].status != Running
    ensures RunningIds(SetStatus(runs, id, Running)) == RunningIds(runs) + {id}
    ensures |RunningIds(SetStatus(runs, id, Running))| == |RunningIds(runs)| + 1
  {
  }

  lemma Smaller(a: set<string>, b: set<string>)
    requires a <= b
    ensures |a| <= |b|
  {
    assert b == a + (b - a);
  }

  lemma SetNotRunning(runs: Table, id: string, status: Status)
    requires id in runs && status != Running
    ensures |RunningIds(SetStatus(runs, id, status))| <= |RunningIds(runs)|
  {
    Smaller(RunningIds(SetStatus(runs, id, status)), RunningIds(runs));
  }

  /** A new tick takes the free slots, which the others may have taken as well. */
  lemma CountKeeps(max: nat, n: nat, s: State)
    requires Bounded(max, n, s) && |s.ticks| < n
    ensures Bounded(max, n, Next(max, s, Count))
  {
    var t := Counted(Slots(max, s.runs));
    BudgetsJoin(s.ticks, [t]);
    BudgetOf(t);
    BudgetsWithin(max, s.ticks);
    SlotsFit(|RunningIds(s.runs)|, Budgets(s.ticks), max, |s.ticks|, n);
  }

  lemma SlotsFit(r: nat, b: nat, max: nat, t: nat, n: nat)
    requires b <= t * max && t < n && r + b <= n * max
    ensures r + b + (if r >= max then 0 else max - r) <= n * max
  {
    MulMonotone(t + 1, n, max);
    assert t * max + max == (t + 1) * max;
  }

  lemma MulMonotone(a: nat, b: nat, c: nat)
    requires a <= b
    ensures a * c <= b * c
  {
  }

  lemma ClaimKeepsBound(max: nat, n: nat, s: State, k: nat)
    requires Bounded(max, n, s) && Enabled(max, s, Claim(k))
    ensures Bounded(max, n, Next(max, s, Claim(k)))
  {
    var id, rest := s.ticks[k].todo[0], s.ticks[k].todo[1..];
    BudgetsAround(s.ticks, k, Working(rest, Some(id)));
    BudgetsAround(s.ticks, k, Working(rest, None));
    if Claimable(s.runs, id) {
      SetRunning(s.runs, id);
    }
  }

  lemma BoundStep(max: nat, n: nat, s: State, step: Step)
    requires Bounded(max, n, s) && Enabled(max, s, step) && Allowed(Some(n), s, step)
    ensures Bounded(max, n, Next(max, s, step))
  {
    match step
    case Enqueue(id, dt) =>
      assert RunningIds(Next(max, s, step).runs) == RunningIds(s.runs);
    case Count => CountKeeps(max, n, s);
    case Claim(k) => ClaimKeepsBound(max, n, s, k);
    case End(id, status) => SetNotRunning(s.runs, id, status);
    case _ => TickKeepsBound(max, n, s, step);
  }

  /** The steps of one tick that set nothing running. */
  lemma TickKeepsBound(max: nat, n: nat, s: State, step: Step)
    requires Bounded(max, n, s) && Enabled(max, s, step) && (step.Select? || step.StartOk? || step.StartFails? || step.Finish?)
    ensures Bounded(max, n, Next(max, s, step))
  {
    var k := step.tick;
    match step
    case Select(_, rows) => BudgetsAround(s.ticks, k, Working(rows, None));
    case StartOk(_) => BudgetsAround(s.ticks, k, s.ticks[k].(held := None));
    case StartFails(_) =>
      BudgetsAround(s.ticks, k, s.ticks[k].(held := None));
      SetNotRunning(s.runs, s.ticks[k].held.value, Queued);
    case Finish(_) => BudgetsAround(s.ticks, k, s.ticks[k]);
  }

  /** With at most `n` ticks in flight at a time, there are never more than `n` times `max` running runs. */
  lemma {:induction false} OverlapBound(max: nat, n: nat, steps: seq<Step>, s: State)
    requires Reaches(max, Some(n), steps, s)
    ensures Bounded(max, n, s) && |RunningIds(s.runs)| <= n * max
  {
    if steps == [] {
      assert RunningIds(s.runs) == {};
    } else {
      var last := steps[|steps| - 1];
      assert ReachesThen(max, Some(n), steps[..|steps| - 1], last, s);
      var before :| Reaches(max, Some(n), steps[..|steps| - 1], before) && Steps(max, before, last, s) && Allowed(Some(n), before, last);
      OverlapBound(max, n, steps[..|steps| - 1], before);
      BoundStep(max, n, before, last);
    }
  }

  /** With ticks that do not overlap, there are never more than `max` running runs. */
  lemma AtMostMaxActive(max: nat, steps: seq<Step>, s: State)
    requires Reaches(max, Some(1), steps, s)
    ensures Bounded(max, 1, s) && |RunningIds(s.runs)| <= max
  {
    OverlapBound(max, 1, steps, s);
  }

  // ----- exclusive claims -----

  predicate IsAbout(e: Event, id: string) {
    e.id == id
  }

  /** The last event of a run is a `start`. */
  predicate Open(history: seq<Event>, id: string) {
    if history == [] then false
    else if IsAbout(history[|history| - 1], id) then history[|history| - 1].Start?
    else Open(history[..|history| - 1], id)
  }

  predicate RolledBackBetween(history: seq<Event>, i: int, j: int, id: string) {
    exists k :: 0 <= i < k < j <= |history| && history[k] == Rollback(id)
  }

  /** Between two `start` calls of one run lies a rollback to queued. */
  ghost predicate Alternates(history: seq<Event>) {
    forall i, j :: 0 <= i < j < |history| && history[i].Start? && history[j] == history[i] ==>
      RolledBackBetween(history, i, j, history[i].id)
  }

  ghost predicate Exclusive(s: State) {
    && Alternates(s.history)
    && (forall id :: id in s.runs && Open(s.history, id) ==> s.runs[id].status != Queued)
    && (forall id :: Open(s.history, id) ==> id in s.runs)
  }

  lemma {:induction false} ClosedSince(history: seq<Event>, i: nat, id: string)
    requires i < |history| && history[i] == Start(id) && !Open(history, id)
    ensures RolledBackBetween(history, i, |history|, id)
    decreases |history|
  {
    var last := |history| - 1;
    if IsAbout(history[last], id) {
      assert history[last] == Rollback(id);
    } else {
      ClosedSince(history[..last], i, id);
      var k :| i < k < last && history[..last][k] == Rollback(id);
      assert history[k] == Rollback(id);
    }
  }

  lemma ClaimKeeps(s: State, id: string, ticks: seq<Tick>)
    requires Exclusive(s) && Claimable(s.runs, id)
    ensures Exclusive(State(SetStatus(s.runs, id, Running), ticks, s.history + [Start(id)]))
  {
    var history := s.history + [Start(id)];
    assert history[..|s.history|] == s.history;
    forall i, j | 0 <= i < j < |history| && history[i].Start? && history[j] == history[i]
      ensures RolledBackBetween(history, i, j, history[i].id)
    {
      if j == |s.history| {
        ClosedSince(s.history, i, id);
      } else {
        assert RolledBackBetween(s.history, i, j, s.history[i].id);
      }
      var k :| i < k < j && s.history[k] == Rollback(history[i].id);
      assert history[k] == Rollback(history[i].id);
    }
  }

  lemma RollbackKeeps(s: State, id: string, ticks: seq<Tick>)
    requires Exclusive(s) && id in s.runs
    ensures Exclusive(State(SetStatus(s.runs, id, Queued), ticks, s.history + [Rollback(id)]))
  {
    var history := s.history + [Rollback(id)];
    assert history[..|s.history|] == s.history;
    forall i, j | 0 <= i < j < |history| && history[i].Start? && history[j] == history[i]
      ensures RolledBackBetween(history, i, j, history[i].id)
    {
      assert RolledBackBetween(s.history, i, j, s.history[i].id);
      var k :| i < k < j && s.history[k] == Rollback(history[i].id);
      assert history[k] == Rollback(history[i].id);
    }
  }

  lemma ExclusiveStep(max: nat, s: State, step: Step)
    requires Exclusive(s) && Enabled(max, s, step)
    ensures Exclusive(Next(max, s, step))
  {
    match step
    case Enqueue(id, dt) =>
    case Count =>
    case Select(k, rows) =>
    case Claim(k) =>
      var id := s.ticks[k].todo[0];
      if Claimable(s.runs, id) {
        ClaimKeeps(s, id, Next(max, s, step).ticks);
      }
    case StartOk(k) =>
    case StartFails(k) => RollbackKeeps(s, s.ticks[k].held.value, Next(max, s, step).ticks);
    case Finish(k) =>
    case End(id, status) =>
  }

  /** However ticks overlap, a run is started again only after it was rolled back to queued. */
  lemma {:induction false} ExclusiveClaims(max: nat, most: Option<nat>, steps: seq<Step>, s: State)
    requires Reaches(max, most, steps, s)
    ensures Exclusive(s)
  {
    if steps != [] {
      var last := steps[|steps| - 1];
      assert ReachesThen(max, most, steps[..|steps| - 1], last, s);
      var before :| Reaches(max, most, steps[..|steps| - 1], before) && Steps(max, before, last, s) && Allowed(most, before, last);
      ExclusiveClaims(max, most, steps[..|steps| - 1], before);
      ExclusiveStep(max, before, last);
    }
  }

  /** What was last done to a run: started or rolled back. */
  function LastEvent(history: seq<Event>, id: string): Option<Event> {
    if history == [] then None
    else if history[|history| - 1].id == id then Some(history[|history| - 1])
    else LastEvent(history[..|history| - 1], id)
  }

  /** A running run was started last; a queued one was never started, or rolled back since. */
  ghost predicate Tracked(s: State) {
    forall id :: id in s.runs ==>
      && (s.runs[id].status == Running ==> LastEvent(s.history, id) == Some(Start(id)))
      && (s.runs[id].status == Queued ==> LastEvent(s.history, id) != Some(Start(id)))
  }

  lemma EventAdded(history: seq<Event>, e: Event, id: string)
    ensures LastEvent(history + [e], id) == if e.id == id then Some(e) else LastEvent(history, id)
  {
    assert (history + [e])[..|history|] == history;
  }

  lemma TrackedWith(s: State, id: string, status: Status, e: Event, t: State)
    requires Tracked(s) && id in s.runs && e.id == id && (status == Running ==> e.Start?) && (status == Queued ==> e.Rollback?)
    requires t.runs == SetStatus(s.runs, id, status) && t.history == s.history + [e]
    ensures Tracked(t)
  {
    forall other | other in t.runs
      ensures t.runs[other].status == Running ==> LastEvent(t.history, other) == Some(Start(other))
      ensures t.runs[other].status == Queued ==> LastEvent(t.history, other) != Some(Start(other))
    {
      EventAdded(s.history, e, other);
    }
  }

  /** No event speaks of a run that is not there. */
  ghost predicate Known(s: State) {
    forall i :: 0 <= i < |s.history| ==> s.history[i].id in s.runs
  }

  lemma {:induction false} NeverNamed(history: seq<Event>, id: string)
    requires forall i :: 0 <= i < |history| ==> history[i].id != id
    ensures LastEvent(history, id) == None
  {
    if history != [] {
      NeverNamed(history[..|history| - 1], id);
    }
  }

  lemma TrackedStep(max: nat, s: State, step: Step)
    requires Tracked(s) && Known(s) && Enabled(max, s, step)
    ensures Tracked(Next(max, s, step)) && Known(Next(max, s, step))
  {
    var t := Next(max, s, step);
    match step
    case Enqueue(id, dt) => NeverNamed(s.history, id);
    case Claim(k) =>
      var id := s.ticks[k].todo[0];
      if Claimable(s.runs, id) {
        TrackedWith(s, id, Running, Start(id), t);
      }
    case StartFails(k) =>
      var id := s.ticks[k].held.value;
      TrackedWith(s, id, Queued, Rollback(id), t);
    case _ =>
  }

  /** However ticks overlap: a run is running only if it was started last, and queued only if it was not. */
  lemma {:induction false} RunsAreTracked(max: nat, most: Option<nat>, steps: seq<Step>, s: State)
    requires Reaches(max, most, steps, s)
    ensures Tracked(s) && Known(s)
  {
    if steps != [] {
      var last := steps[|steps| - 1];
      assert ReachesThen(max, most, steps[..|steps| - 1], last, s);
      var before :| Reaches(max, most, steps[..|steps| - 1], before) && Steps(max, before, last, s) && Allowed(most, before, last);
      RunsAreTracked(max, most, steps[..|steps| - 1], before);
      TrackedStep(max, before, last);
    }
  }

  // ----- the bound is reached -----

  lemma Extend(max: nat, n: nat, steps: seq<Step>, s: State, step: Step, t: State)
    requires Reaches(max, Some(n), steps, s) && Steps(max, s, step, t) && Allowed(Some(n), s, step)
    ensures Reaches(max, Some(n), steps + [step], t)
  {
    assert (steps + [step])[..|steps|] == steps;
    assert ReachesThen(max, Some(n), steps, step, t);
  }

  /** Names for as many runs as needed. */
  function Id(i: nat): (id: string)
    ensures |id| == i
  {
    seq(i, _ => 'r')
  }

  /** `q` runs in order of their datetimes, the first `r` of them running and the others queued. */
  function Runs(r: nat, q: nat): Table
    decreases q
  {
    if q == 0 then map[] else Runs(r, q - 1)[Id(q - 1) := Run(if q - 1 < r then Running else Queued, q - 1)]
  }

  lemma {:induction false} RunsAre(r: nat, q: nat)
    ensures forall i: nat :: i < q ==> Id(i) in Runs(r, q) && Runs(r, q)[Id(i)] == Run(if i < r then Running else Queued, i)
    ensures forall id :: id in Runs(r, q) ==> |id| < q && id == Id(|id|)
    decreases q
  {
    if q > 0 {
      RunsAre(r, q - 1);
    }
  }

  lemma OneMoreRunning(r: nat, q: nat)
    requires r < q
    ensures Id(r) in Runs(r, q) && Runs(r, q)[Id(r)].status == Queued
    ensures SetStatus(Runs(r, q), Id(r), Running) == Runs(r + 1, q)
  {
    RunsAre(r, q);
    RunsAre(r + 1, q);
    var a, b := SetStatus(Runs(r, q), Id(r), Running), Runs(r + 1, q);
    forall id
      ensures id in a <==> id in b
      ensures id in a ==> a[id] == b[id]
    {
      assert id in a ==> |id| < q && id == Id(|id|);
    }
  }

  lemma {:induction false} RunningAre(r: nat, q: nat)
    requires r <= q
    ensures |RunningIds(Runs(r, q))| == r
  {
    if r == 0 {
      RunsAre(0, q);
      assert RunningIds(Runs(0, q)) == {};
    } else {
      RunningAre(r - 1, q);
      OneMoreRunning(r - 1, q);
      SetRunning(Runs(r - 1, q), Id(r - 1));
    }
  }

  lemma {:induction false} EnqueueAll(max: nat, n: nat, q: nat) returns (steps: seq<Step>)
    ensures Reaches(max, Some(n), steps, State(Runs(0, q), [], []))
  {
    if q == 0 {
      steps := [];
    } else {
      var before := EnqueueAll(max, n, q - 1);
      var s := State(Runs(0, q - 1), [], []);
      RunsAre(0, q - 1);
      assert Id(q - 1) !in s.runs;
      Extend(max, n, before, s, Enqueue(Id(q - 1), q - 1), State(Runs(0, q), [], []));
      steps := before + [Enqueue(Id(q - 1), q - 1)];
    }
  }

  function Full(max: nat, k: nat): seq<Tick> {
    seq(k, _ => Counted(max))
  }

  /** `k` ticks count before any of them claims: each sees all slots free. */
  lemma {:induction false} CountAll(max: nat, n: nat, q: nat, k: nat) returns (steps: seq<Step>)
    requires k <= n
    ensures Reaches(max, Some(n), steps, State(Runs(0, q), Full(max, k), []))
  {
    if k == 0 {
      steps := EnqueueAll(max, n, q);
      assert Full(max, 0) == [];
    } else {
      var before := CountAll(max, n, q, k - 1);
      var s := State(Runs(0, q), Full(max, k - 1), []);
      RunningAre(0, q);
      assert Full(max, k) == Full(max, k - 1) + [Counted(max)];
      Extend(max, n, before, s, Count, State(Runs(0, q), Full(max, k), []));
      steps := before + [Count];
    }
  }

  function Ids(at: nat, m: nat): (rows: seq<string>)
    ensures |rows| == m && forall j :: 0 <= j < m ==> rows[j] == Id(at + j)
  {
    seq(m, j requires 0 <= j < m => Id(at + j))
  }

  lemma NextQueued(r: nat, q: nat, m: nat)
    requires r + m <= q
    ensures Selection(Runs(r, q), m, Ids(r, m))
  {
    var runs, rows := Runs(r, q), Ids(r, m);
    forall k | 0 <= k < m
      ensures rows[k] in runs && runs[rows[k]] == Run(Queued, r + k) && |rows[k]| == r + k
    {
      RunIs(r, q, r + k);
    }
    forall id | id in runs
      ensures runs[id] == Run(if |id| < r then Running else Queued, |id|) && (r <= |id| < r + m ==> id in rows)
    {
      RunsAre(r, q);
      if r <= |id| < r + m {
        assert rows[|id| - r] == id;
      }
    }
  }

  lemma RunIs(r: nat, q: nat, i: nat)
    requires i < q
    ensures Id(i) in Runs(r, q) && Runs(r, q)[Id(i)] == Run(if i < r then Running else Queued, i)
  {
    RunsAre(r, q);
  }

  /** Claim the first run of a tick's list, and start it. */
  lemma StartOne(max: nat, n: nat, steps: seq<Step>, s: State, k: nat, r: nat, q: nat, todo: seq<string>)
    returns (more: seq<Step>, t: State)
    requires Reaches(max, Some(n), steps, s) && k < |s.ticks| && r < q && s.runs == Runs(r, q)
    requires todo != [] && todo[0] == Id(r) && s.ticks[k] == Working(todo, None)
    ensures Reaches(max, Some(n), more, t) && t.runs == Runs(r + 1, q) && t.ticks == s.ticks[k := Working(todo[1..], None)]
  {
    OneMoreRunning(r, q);
    var claimed := State(Runs(r + 1, q), s.ticks[k := Working(todo[1..], Some(Id(r)))], s.history + [Start(Id(r))]);
    t := claimed.(ticks := s.ticks[k := Working(todo[1..], None)]);
    Extend(max, n, steps, s, Claim(k), claimed);
    Extend(max, n, steps + [Claim(k)], claimed, StartOk(k), t);
    more := steps + [Claim(k)] + [StartOk(k)];
  }

  lemma IdsSplit(r: nat, m: nat)
    requires m > 0
    ensures Ids(r, m)[0] == Id(r) && Ids(r, m)[1..] == Ids(r + 1, m - 1)
  {
  }

  /** A tick claims and starts all the runs it selected. */
  lemma {:induction false} StartAll(max: nat, n: nat, steps: seq<Step>, s: State, k: nat, r: nat, q: nat, m: nat)
    returns (more: seq<Step>, t: State)
    requires Reaches(max, Some(n), steps, s) && k < |s.ticks| && r + m <= q
    requires s.runs == Runs(r, q) && s.ticks[k] == Working(Ids(r, m), None)
    ensures Reaches(max, Some(n), more, t) && t.runs == Runs(r + m, q)
    ensures |t.ticks| == |s.ticks| && forall i :: 0 <= i < |s.ticks| && i != k ==> t.ticks[i] == s.ticks[i]
    decreases m
  {
    if m == 0 {
      more, t := steps, s;
    } else {
      IdsSplit(r, m);
      var first, u := StartOne(max, n, steps, s, k, r, q, Ids(r, m));
      more, t := StartAll(max, n, first, u, k, r + 1, q, m - 1);
    }
  }

  /** A tick that counted all slots selects the next `max` runs and starts them. */
  lemma DispatchTick(max: nat, n: nat, before: seq<Step>, u: State, k: nat, r: nat, q: nat) returns (steps: seq<Step>, s: State)
    requires Reaches(max, Some(n), before, u) && k < |u.ticks| && u.ticks[k] == Counted(max) && r + max <= q && u.runs == Runs(r, q)
    ensures Reaches(max, Some(n), steps, s) && s.runs == Runs(r + max, q)
    ensures |s.ticks| == |u.ticks| && forall i :: 0 <= i < |u.ticks| && i != k ==> s.ticks[i] == u.ticks[i]
  {
    NextQueued(r, q, max);
    var selected := u.(ticks := u.ticks[k := Working(Ids(r, max), None)]);
    Extend(max, n, before, u, Select(k, Ids(r, max)), selected);
    steps, s := StartAll(max, n, before + [Select(k, Ids(r, max))], selected, k, r, q, max);
  }

  /** What `k` ticks may start in all. */
  function Share(max: nat, k: nat): nat {
    if k == 0 then 0 else Share(max, k - 1) + max
  }

  lemma {:induction false} ShareIs(max: nat, k: nat)
    ensures Share(max, k) == k * max
  {
    if k > 0 {
      ShareIs(max, k - 1);
    }
  }

  lemma {:induction false} ShareGrows(max: nat, k: nat, n: nat)
    requires k <= n
    ensures Share(max, k) <= Share(max, n)
  {
    if k < n {
      ShareGrows(max, k, n - 1);
    }
  }

  /** The first `k` of `n` ticks that all counted before claim `max` runs each. */
  lemma {:induction false} DispatchAll(max: nat, n: nat, k: nat) returns (steps: seq<Step>, s: State)
    requires k <= n
    ensures Reaches(max, Some(n), steps, s) && s.runs == Runs(Share(max, k), Share(max, n))
    ensures |s.ticks| == n && forall i :: k <= i < n ==> s.ticks[i] == Counted(max)
  {
    if k == 0 {
      steps := CountAll(max, n, Share(max, n), n);
      s := State(Runs(0, Share(max, n)), Full(max, n), []);
    } else {
      var before, u := DispatchAll(max, n, k - 1);
      ShareGrows(max, k, n);
      steps, s := DispatchTick(max, n, before, u, k - 1, Share(max, k - 1), Share(max, n));
    }
  }

  /** For every limit and every number of overlapping ticks, the bound is reached: ticks that all count before any of them claims. */
  lemma OverlapReachesBound(max: nat, n: nat) returns (steps: seq<Step>, s: State)
    ensures Reaches(max, Some(n), steps, s) && |RunningIds(s.runs)| == n * max
  {
    steps, s := DispatchAll(max, n, n);
    RunningAre(Share(max, n), Share(max, n));
    ShareIs(max, n);
  }
}
