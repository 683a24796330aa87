/**
 One DAG run (apps/web/src/workflows/dag-runner.ts) as interleaved steps of its task futures:
 launch safety, confluence, the overall verdict, and re-spawning on the rows a run left behind.
 */
module DagRun {
  import opened Wrappers
  import opened TaskGraph

  datatype Status = Succeeded | Failed | Skipped

  /** A task attempt row of the database. */
  datatype Row = Queued | Running | Ended(status: Status)

  /** A task's promise: waiting for its dependencies, sandbox launched, or resolved. */
  datatype Phase = Waiting | Launched | Settled(status: Status)

  /** `waitsFor` are the results of looking up the dependencies' futures; a miss waits for nothing. */
  datatype Future = Future(task: TaskDef, waitsFor: seq<Option<string>>)

  /** What a run starts from: the sorted tasks, the existing rows, and how each sandbox would end. */
  datatype Config = Config(tasks: seq<TaskDef>, rows: map<string, Row>, outcome: string -> bool)

  datatype RunState = RunState(phase: map<string, Phase>, rows: map<string, Row>, launches: seq<string>)

  datatype Step = Resolve(id: string) | Finish(id: string)

  // ----- creating the futures -----

  function Lookups(futures: map<string, Future>, deps: seq<string>): (r: seq<Option<string>>)
    ensures |r| == |deps|
    ensures forall k :: 0 <= k < |deps| ==> r[k] == if deps[k] in futures then Some(deps[k]) else None
  {
    seq(|deps|, k requires 0 <= k < |deps| => if deps[k] in futures then Some(deps[k]) else None)
  }

  function Spawned(tasks: seq<TaskDef>): map<string, Future> {
    if tasks == [] then map[]
    else
      var t := tasks[|tasks| - 1];
      var before := Spawned(tasks[..|tasks| - 1]);
      before[t.id := Future(t, Lookups(before, Deps(t)))]
  }

  method Spawn(tasks: seq<TaskDef>) returns (futures: map<string, Future>)
    ensures futures == Spawned(tasks)
  {
    futures := map[];
    for i := 0 to |tasks|
      invariant futures == Spawned(tasks[..i])
    {
      assert tasks[..i + 1][..i] == tasks[..i];
      futures := futures[tasks[i].id := Future(tasks[i], Lookups(futures, Deps(tasks[i])))];
    }
    assert tasks[..|tasks|] == tasks;
  }

  ghost predicate Hits(f: Future) {
    |f.waitsFor| == |Deps(f.task)| && forall k :: 0 <= k < |f.waitsFor| ==> f.waitsFor[k] == Some(Deps(f.task)[k])
  }

  lemma {:induction false} SpawnedKeys(tasks: seq<TaskDef>)
    ensures forall id :: id in Spawned(tasks) <==> Before(tasks, |tasks|, id)
  {
    if tasks != [] {
      var last := |tasks| - 1;
      var front := tasks[..last];
      SpawnedKeys(front);
      forall id
        ensures id in Spawned(tasks) <==> Before(tasks, |tasks|, id)
      {
        assert Before(front, last, id) <==> Before(tasks, last, id);
        assert Before(tasks, |tasks|, id) <==> Before(tasks, last, id) || tasks[last].id == id;
      }
    }
  }

  lemma {:induction false} SpawnedAt(tasks: seq<TaskDef>, i: nat)
    requires UniqueIds(tasks) && i < |tasks|
    ensures tasks[i].id in Spawned(tasks)
    ensures Spawned(tasks)[tasks[i].id] == Future(tasks[i], Lookups(Spawned(tasks[..i]), Deps(tasks[i])))
  {
    if i < |tasks| - 1 {
      SpawnedAt(tasks[..|tasks| - 1], i);
      assert tasks[..|tasks| - 1][..i] == tasks[..i];
    }
  }

  ghost predicate DepsBefore(tasks: seq<TaskDef>, i: nat)
    requires i < |tasks|
  {
    forall k :: 0 <= k < |Deps(tasks[i])| ==> Before(tasks, i, Deps(tasks[i])[k])
  }

  ghost predicate HitsAt(tasks: seq<TaskDef>, i: nat)
    requires i < |tasks|
  {
    tasks[i].id in Spawned(tasks) && Hits(Spawned(tasks)[tasks[i].id])
  }

  lemma HitsBefore(tasks: seq<TaskDef>, i: nat)
    requires UniqueIds(tasks) && i < |tasks|
    ensures HitsAt(tasks, i) <==> DepsBefore(tasks, i)
  {
    SpawnedAt(tasks, i);
    PrefixLookup(tasks, i);
    var deps := Deps(tasks[i]);
    var r := Lookups(Spawned(tasks[..i]), deps);
    assert forall k :: 0 <= k < |deps| ==> (r[k] == Some(deps[k]) <==> Before(tasks, i, deps[k]));
  }

  /** Every dependency lookup hits a future created before, exactly because dependencies come first. */
  lemma LookupsHit(tasks: seq<TaskDef>)
    requires UniqueIds(tasks)
    ensures (forall i :: 0 <= i < |tasks| ==> HitsAt(tasks, i)) <==> DepsFirst(tasks)
  {
    forall i | 0 <= i < |tasks|
      ensures HitsAt(tasks, i) <==> DepsBefore(tasks, i)
    {
      HitsBefore(tasks, i);
    }
    if forall i :: 0 <= i < |tasks| ==> HitsAt(tasks, i) {
      forall i, k | 0 <= i < |tasks| && 0 <= k < |Deps(tasks[i])|
        ensures Before(tasks, i, Deps(tasks[i])[k])
      {
        assert HitsAt(tasks, i) && DepsBefore(tasks, i);
      }
    }
  }

  lemma PrefixLookup(tasks: seq<TaskDef>, i: nat)
    requires i < |tasks|
    ensures forall d :: d in Spawned(tasks[..i]) <==> Before(tasks, i, d)
  {
    var front := tasks[..i];
    SpawnedKeys(front);
    assert forall j :: 0 <= j < i ==> front[j] == tasks[j];
    assert forall d :: Before(front, i, d) <==> Before(tasks, i, d);
  }

  // ----- the steps of a run -----

  /** succeeded and failed rows are honoured; skipped rows are derived again. */
  predicate Earned(rows: map<string, Row>, id: string) {
    id in rows && rows[id].Ended? && rows[id].status != Skipped
  }

  predicate AllResolved(f: Future, phase: map<string, Phase>) {
    forall k :: 0 <= k < |f.waitsFor| && f.waitsFor[k].Some? && f.waitsFor[k].value in phase ==> phase[f.waitsFor[k].value].Settled?
  }

  predicate Blocked(f: Future, phase: map<string, Phase>) {
    exists k :: 0 <= k < |f.waitsFor| && f.waitsFor[k].Some? && f.waitsFor[k].value in phase
                && phase[f.waitsFor[k].value].Settled? && phase[f.waitsFor[k].value].status != Succeeded
  }

  ghost predicate Enabled(c: Config, s: RunState, step: Step) {
    match step
    case Resolve(id) =>
      id in s.phase && s.phase[id] == Waiting && id in Spawned(c.tasks) && AllResolved(Spawned(c.tasks)[id], s.phase)
    case Finish(id) => id in s.phase && s.phase[id] == Launched
  }

  ghost function Next(c: Config, s: RunState, step: Step): RunState
    requires Enabled(c, s, step)
  {
    match step
    case Resolve(id) =>
      if Earned(c.rows, id) then s.(phase := s.phase[id := Settled(c.rows[id].status)])
      else if Blocked(Spawned(c.tasks)[id], s.phase) then
        RunState(s.phase[id := Settled(Skipped)], s.rows[id := Row.Ended(Skipped)], s.launches)
      else RunState(s.phase[id := Launched], s.rows[id := Running], s.launches + [id])
    case Finish(id) =>
      var status := if c.outcome(id) then Succeeded else Failed;
      RunState(s.phase[id := Settled(status)], s.rows[id := Row.Ended(status)], s.launches)
  }

  ghost function Start(c: Config): RunState {
    RunState(map id | id in Ids(c.tasks) :: Waiting, c.rows, [])
  }

  ghost predicate Steps(c: Config, before: RunState, step: Step, s: RunState) {
    Enabled(c, before, step) && s == Next(c, before, step)
  }

  ghost predicate Run(c: Config, steps: seq<Step>, s: RunState)
    decreases |steps|, 0
  {
    if steps == [] then s == Start(c) else RunThen(c, steps[..|steps| - 1], steps[|steps| - 1], s)
  }

  ghost predicate RunThen(c: Config, steps: seq<Step>, last: Step, s: RunState)
    decreases |steps|, 1
  {
    exists before :: Run(c, steps, before) && Steps(c, before, last, s)
  }

  /** What `topoSort` hands over. */
  ghost predicate Sorted(c: Config) {
    UniqueIds(c.tasks) && DepsFirst(c.tasks)
  }

  // ----- the verdict of every task, by sequential evaluation -----

  predicate Clean(verdicts: map<string, Status>, deps: seq<string>) {
    forall k :: 0 <= k < |deps| ==> deps[k] in verdicts && verdicts[deps[k]] == Succeeded
  }

  function Verdict(c: Config, verdicts: map<string, Status>, t: TaskDef): Status {
    if Earned(c.rows, t.id) then c.rows[t.id].status
    else if !Clean(verdicts, Deps(t)) then Skipped
    else if c.outcome(t.id) then Succeeded
    else Failed
  }

  function VerdictsTo(c: Config, n: nat): map<string, Status>
    requires n <= |c.tasks|
  {
    if n == 0 then map[]
    else
      var before := VerdictsTo(c, n - 1);
      before[c.tasks[n - 1].id := Verdict(c, before, c.tasks[n - 1])]
  }

  function Verdicts(c: Config): map<string, Status> {
    VerdictsTo(c, |c.tasks|)
  }

  lemma {:induction false} VerdictsKeys(c: Config, n: nat)
    requires n <= |c.tasks|
    ensures forall id :: id in VerdictsTo(c, n) <==> exists j :: 0 <= j < n && c.tasks[j].id == id
  {
    if n > 0 {
      VerdictsKeys(c, n - 1);
    }
  }

  lemma {:induction false} VerdictsStable(c: Config, m: nat, n: nat, id: string)
    requires UniqueIds(c.tasks) && m <= n <= |c.tasks| && id in VerdictsTo(c, m)
    ensures id in VerdictsTo(c, n) && VerdictsTo(c, n)[id] == VerdictsTo(c, m)[id]
    decreases n
  {
    if m < n {
      VerdictsStable(c, m, n - 1, id);
      VerdictsKeys(c, m);
    }
  }

  /** The verdicts solve their own equations. */
  lemma VerdictsAt(c: Config, i: nat)
    requires Sorted(c) && i < |c.tasks|
    ensures c.tasks[i].id in Verdicts(c)
    ensures forall k :: 0 <= k < |Deps(c.tasks[i])| ==> Deps(c.tasks[i])[k] in Verdicts(c)
    ensures Verdicts(c)[c.tasks[i].id] == Verdict(c, Verdicts(c), c.tasks[i])
  {
    var t := c.tasks[i];
    var before := VerdictsTo(c, i);
    VerdictsStable(c, i + 1, |c.tasks|, t.id);
    VerdictsKeys(c, i);
    forall k | 0 <= k < |Deps(t)|
      ensures Deps(t)[k] in before && Deps(t)[k] in Verdicts(c) && Verdicts(c)[Deps(t)[k]] == before[Deps(t)[k]]
    {
      assert Before(c.tasks, i, Deps(t)[k]);
      VerdictsStable(c, i, |c.tasks|, Deps(t)[k]);
    }
    assert Clean(before, Deps(t)) <==> Clean(Verdicts(c), Deps(t));
  }

  // ----- the invariant -----

  /** A task is launched exactly when it has no earned row and all dependencies succeed. */
  ghost predicate Launches(c: Config, id: string) {
    !Earned(c.rows, id) && exists i :: 0 <= i < |c.tasks| && c.tasks[i].id == id && Clean(Verdicts(c), Deps(c.tasks[i]))
  }

  ghost predicate TaskInv(c: Config, s: RunState, id: string)
    requires id in s.phase
  {
    match s.phase[id]
    case Waiting => id !in s.launches && (id in s.rows <==> id in c.rows) && (id in s.rows ==> s.rows[id] == c.rows[id])
    case Launched => Launches(c, id) && id in s.launches && id in s.rows && s.rows[id] == Running
    case Settled(status) =>
      && id in Verdicts(c) && status == Verdicts(c)[id] && id in s.rows && s.rows[id] == Row.Ended(status)
      && (id in s.launches <==> Launches(c, id))
  }

  ghost predicate Inv(c: Config, s: RunState) {
    && s.phase.Keys == Ids(c.tasks)
    && (forall id :: id in s.phase ==> TaskInv(c, s, id))
    && (forall id :: id in s.launches ==> id in s.phase)
    && (forall i, j :: 0 <= i < j < |s.launches| ==> s.launches[i] != s.launches[j])
    && (forall id :: id in s.launches ==> DepsSucceeded(c, s, id))
    && (forall id :: id !in s.phase ==> (id in s.rows <==> id in c.rows) && (id in s.rows ==> s.rows[id] == c.rows[id]))
  }

  /** All direct dependencies of a task have ended succeeded. */
  ghost predicate DepsSucceeded(c: Config, s: RunState, id: string) {
    forall i, k :: 0 <= i < |c.tasks| && c.tasks[i].id == id && 0 <= k < |Deps(c.tasks[i])| ==>
      Deps(c.tasks[i])[k] in s.phase && s.phase[Deps(c.tasks[i])[k]] == Settled(Succeeded)
  }

  // ----- preservation -----

  lemma TaskOf(c: Config, id: string) returns (i: nat)
    requires Sorted(c) && id in Ids(c.tasks)
    ensures i < |c.tasks| && c.tasks[i].id == id && id in Spawned(c.tasks)
    ensures Spawned(c.tasks)[id].task == c.tasks[i] && Hits(Spawned(c.tasks)[id])
  {
    i :| 0 <= i < |c.tasks| && c.tasks[i].id == id;
    SpawnedAt(c.tasks, i);
    HitsBefore(c.tasks, i);
  }

  /** When a task's dependencies are settled, its future sees their verdicts. */
  lemma SeesVerdicts(c: Config, s: RunState, i: nat)
    requires Sorted(c) && Inv(c, s) && i < |c.tasks|
    requires c.tasks[i].id in Spawned(c.tasks) && Spawned(c.tasks)[c.tasks[i].id].task == c.tasks[i]
    requires Hits(Spawned(c.tasks)[c.tasks[i].id]) && AllResolved(Spawned(c.tasks)[c.tasks[i].id], s.phase)
    ensures forall k :: 0 <= k < |Deps(c.tasks[i])| ==>
              var d := Deps(c.tasks[i])[k]; d in s.phase && d in Verdicts(c) && s.phase[d] == Settled(Verdicts(c)[d])
    ensures Blocked(Spawned(c.tasks)[c.tasks[i].id], s.phase) <==> !Clean(Verdicts(c), Deps(c.tasks[i]))
  {
    var deps := Deps(c.tasks[i]);
    var f := Spawned(c.tasks)[c.tasks[i].id];
    forall k | 0 <= k < |deps|
      ensures deps[k] in s.phase && deps[k] in Verdicts(c) && s.phase[deps[k]] == Settled(Verdicts(c)[deps[k]])
    {
      assert Before(c.tasks, i, deps[k]);
      assert f.waitsFor[k] == Some(deps[k]);
      assert TaskInv(c, s, deps[k]);
    }
    if !Clean(Verdicts(c), deps) {
      var k :| 0 <= k < |deps| && Verdicts(c)[deps[k]] != Succeeded;
      assert f.waitsFor[k] == Some(deps[k]);
    }
  }

  /** A step touches one task: its phase, its row and perhaps one launch. */
  ghost predicate Touches(c: Config, s: RunState, t: RunState, id: string) {
    && id in s.phase && !s.phase[id].Settled?
    && id in t.phase && t.phase == s.phase[id := t.phase[id]]
    && id in t.rows && t.rows == s.rows[id := t.rows[id]]
    && (t.launches == s.launches || (id !in s.launches && t.launches == s.launches + [id] && DepsSucceeded(c, s, id)))
  }

  lemma DepsStaySucceeded(c: Config, s: RunState, t: RunState, id: string, other: string)
    requires Touches(c, s, t, id) && DepsSucceeded(c, s, other)
    ensures DepsSucceeded(c, t, other)
  {
  }

  lemma OthersKeep(c: Config, s: RunState, t: RunState, id: string, other: string)
    requires Touches(c, s, t, id) && other != id && other in s.phase && TaskInv(c, s, other)
    ensures other in t.phase && TaskInv(c, t, other)
  {
  }

  lemma TouchKeeps(c: Config, s: RunState, t: RunState, id: string)
    requires Inv(c, s) && Touches(c, s, t, id) && TaskInv(c, t, id)
    ensures Inv(c, t)
  {
    forall other | other in t.phase
      ensures TaskInv(c, t, other)
    {
      if other != id {
        OthersKeep(c, s, t, id, other);
      }
    }
    forall other | other in t.launches
      ensures other in t.phase && DepsSucceeded(c, t, other)
    {
      DepsStaySucceeded(c, s, t, id, other);
    }
  }

  lemma DepsOnlyOf(c: Config, s: RunState, i: nat)
    requires UniqueIds(c.tasks) && i < |c.tasks|
    requires forall k :: 0 <= k < |Deps(c.tasks[i])| ==>
               Deps(c.tasks[i])[k] in s.phase && s.phase[Deps(c.tasks[i])[k]] == Settled(Succeeded)
    ensures DepsSucceeded(c, s, c.tasks[i].id)
  {
  }

  lemma LaunchesAt(c: Config, i: nat)
    requires UniqueIds(c.tasks) && i < |c.tasks|
    ensures Launches(c, c.tasks[i].id) <==> !Earned(c.rows, c.tasks[i].id) && Clean(Verdicts(c), Deps(c.tasks[i]))
  {
  }

  lemma ResolveKeeps(c: Config, s: RunState, id: string)
    requires Sorted(c) && Inv(c, s) && Enabled(c, s, Resolve(id))
    ensures Inv(c, Next(c, s, Resolve(id)))
  {
    var i := TaskOf(c, id);
    var t := Next(c, s, Resolve(id));
    SeesVerdicts(c, s, i);
    VerdictsAt(c, i);
    LaunchesAt(c, i);
    assert TaskInv(c, s, id);
    if Clean(Verdicts(c), Deps(c.tasks[i])) {
      DepsOnlyOf(c, s, i);
    }
    if Earned(c.rows, id) {
      assert t.rows == s.rows[id := t.rows[id]];
    }
    TouchKeeps(c, s, t, id);
  }

  lemma FinishKeeps(c: Config, s: RunState, id: string)
    requires Sorted(c) && Inv(c, s) && Enabled(c, s, Finish(id))
    ensures Inv(c, Next(c, s, Finish(id)))
  {
    var i := TaskOf(c, id);
    VerdictsAt(c, i);
    LaunchesAt(c, i);
    assert TaskInv(c, s, id);
    TouchKeeps(c, s, Next(c, s, Finish(id)), id);
  }

  // ----- the theorems -----

  lemma {:induction false} RunInv(c: Config, steps: seq<Step>, s: RunState)
    requires Sorted(c) && Run(c, steps, s)
    ensures Inv(c, s)
  {
    if steps != [] {
      var last := steps[|steps| - 1];
      assert RunThen(c, steps[..|steps| - 1], last, s);
      var before :| Run(c, steps[..|steps| - 1], before) && Steps(c, before, last, s);
      RunInv(c, steps[..|steps| - 1], before);
      match last
      case Resolve(id) => ResolveKeeps(c, before, id);
      case Finish(id) => FinishKeeps(c, before, id);
    }
  }

  /** Under every interleaving, a launched task has all its direct dependencies ended succeeded, and is launched once. */
  lemma LaunchSafety(c: Config, steps: seq<Step>, s: RunState)
    requires Sorted(c) && Run(c, steps, s)
    ensures forall id :: id in s.launches ==> DepsSucceeded(c, s, id) && !Earned(c.rows, id)
    ensures forall i, j :: 0 <= i < j < |s.launches| ==> s.launches[i] != s.launches[j]
  {
    RunInv(c, steps, s);
    forall id | id in s.launches
      ensures !Earned(c.rows, id)
    {
      assert TaskInv(c, s, id);
    }
  }

  /** A run that still has an unsettled task can take a step. */
  lemma {:induction false} Progress(c: Config, steps: seq<Step>, s: RunState, i: nat) returns (step: Step)
    requires Sorted(c) && Run(c, steps, s)
    requires i < |c.tasks| && (c.tasks[i].id in s.phase ==> !s.phase[c.tasks[i].id].Settled?)
    ensures Enabled(c, s, step)
    decreases i
  {
    RunInv(c, steps, s);
    var id := c.tasks[i].id;
    var at := TaskOf(c, id);
    step := if s.phase[id] == Launched then Finish(id) else Resolve(id);
    if s.phase[id] == Waiting && !AllResolved(Spawned(c.tasks)[id], s.phase) {
      var f := Spawned(c.tasks)[id];
      var k :| 0 <= k < |f.waitsFor| && f.waitsFor[k].Some? && f.waitsFor[k].value in s.phase && !s.phase[f.waitsFor[k].value].Settled?;
      assert Before(c.tasks, at, Deps(c.tasks[at])[k]);
      var j :| 0 <= j < at && c.tasks[j].id == f.waitsFor[k].value;
      step := Progress(c, steps, s, j);
    }
  }

  ghost predicate Maximal(c: Config, s: RunState) {
    forall step :: !Enabled(c, s, step)
  }

  /** Task `id` has ended with its verdict, in memory and in the database. */
  ghost predicate SettledAs(c: Config, s: RunState, id: string) {
    && id in Verdicts(c) && id in s.phase && id in s.rows
    && s.phase[id] == Settled(Verdicts(c)[id]) && s.rows[id] == Row.Ended(Verdicts(c)[id])
  }

  /** All runs that have come to an end agree: phases, rows and the set of launched tasks are those of the verdicts. */
  lemma Confluence(c: Config, steps: seq<Step>, s: RunState)
    requires Sorted(c) && Run(c, steps, s) && Maximal(c, s)
    ensures s.phase.Keys == Ids(c.tasks)
    ensures forall id :: id in Ids(c.tasks) ==> SettledAs(c, s, id)
    ensures forall id :: id in s.launches <==> Launches(c, id)
  {
    RunInv(c, steps, s);
    forall id | id in Ids(c.tasks)
      ensures SettledAs(c, s, id) && (id in s.launches <==> Launches(c, id))
    {
      assert TaskInv(c, s, id);
      if !s.phase[id].Settled? {
        var i := TaskOf(c, id);
        var step := Progress(c, steps, s, i);
        assert false;
      }
    }
  }

  /** The steps still to come: two for a waiting task, one for a launched one. */
  ghost function Remaining(c: Config, s: RunState, n: nat): nat
    requires n <= |c.tasks|
  {
    if n == 0 then 0
    else
      var id := c.tasks[n - 1].id;
      Remaining(c, s, n - 1) + if id !in s.phase || s.phase[id].Settled? then 0 else if s.phase[id] == Launched then 1 else 2
  }

  lemma {:induction false} StepRemaining(c: Config, s: RunState, step: Step, n: nat)
    requires UniqueIds(c.tasks) && n <= |c.tasks| && Enabled(c, s, step)
    ensures Remaining(c, Next(c, s, step), n) <= Remaining(c, s, n)
    ensures step.id in Ids(c.tasks[..n]) ==> Remaining(c, Next(c, s, step), n) < Remaining(c, s, n)
  {
    if n > 0 {
      StepRemaining(c, s, step, n - 1);
      assert forall i :: 0 <= i < n - 1 ==> c.tasks[..n][i] == c.tasks[..n - 1][i];
    }
  }

  lemma {:induction false} StartRemaining(c: Config, n: nat)
    requires n <= |c.tasks|
    ensures Remaining(c, Start(c), n) <= 2 * n
  {
    if n > 0 {
      StartRemaining(c, n - 1);
    }
  }

  /** No run takes more than two steps per task. */
  lemma {:induction false} RunsEnd(c: Config, steps: seq<Step>, s: RunState)
    requires Sorted(c) && Run(c, steps, s)
    ensures |steps| + Remaining(c, s, |c.tasks|) <= 2 * |c.tasks|
  {
    if steps == [] {
      StartRemaining(c, |c.tasks|);
    } else {
      var last := steps[|steps| - 1];
      assert RunThen(c, steps[..|steps| - 1], last, s);
      var before :| Run(c, steps[..|steps| - 1], before) && Steps(c, before, last, s);
      RunsEnd(c, steps[..|steps| - 1], before);
      RunInv(c, steps[..|steps| - 1], before);
      assert c.tasks[..|c.tasks|] == c.tasks;
      StepRemaining(c, before, last, |c.tasks|);
    }
  }

  // ----- the overall verdict -----

  /** A skipped task has a failed ancestor. */
  lemma {:induction false} FailedAncestor(c: Config, i: nat) returns (walk: seq<string>)
    requires Sorted(c) && i < |c.tasks|
    requires c.tasks[i].id in Verdicts(c) && Verdicts(c)[c.tasks[i].id] != Succeeded
    ensures |walk| >= 1 && walk[0] == c.tasks[i].id && IsWalk(c.tasks, walk)
    ensures walk[|walk| - 1] in Verdicts(c) && Verdicts(c)[walk[|walk| - 1]] == Failed
    decreases i
  {
    var t := c.tasks[i];
    VerdictsAt(c, i);
    walk := [t.id];
    if Verdicts(c)[t.id] == Skipped {
      var k :| 0 <= k < |Deps(t)| && Verdicts(c)[Deps(t)[k]] != Succeeded;
      assert Before(c.tasks, i, Deps(t)[k]);
      var j :| 0 <= j < i && c.tasks[j].id == Deps(t)[k];
      var rest := FailedAncestor(c, j);
      walk := [t.id] + rest;
      ExtendWalk(c.tasks, t.id, rest);
    }
  }

  lemma ExtendWalk(tasks: seq<TaskDef>, id: string, rest: seq<string>)
    requires |rest| >= 1 && IsWalk(tasks, rest) && Edge(tasks, id, rest[0])
    ensures IsWalk(tasks, [id] + rest)
  {
  }

  predicate HasVerdict(c: Config, id: string, status: Status) {
    id in Verdicts(c) && Verdicts(c)[id] == status
  }

  /** The verdict loop after all futures have resolved: the failed tasks in order, and the run's status. */
  method Overall(c: Config, s: RunState) returns (overall: Status, failed: seq<string>)
    requires Sorted(c) && forall id :: id in Ids(c.tasks) ==> SettledAs(c, s, id)
    ensures overall == Succeeded || overall == Failed
    ensures overall == Succeeded <==> forall id :: id in Ids(c.tasks) ==> HasVerdict(c, id, Succeeded)
    ensures forall id :: id in failed <==> id in Ids(c.tasks) && HasVerdict(c, id, Failed)
  {
    failed := [];
    for i := 0 to |c.tasks|
      invariant forall id :: id in failed <==> Before(c.tasks, i, id) && HasVerdict(c, id, Failed)
    {
      assert SettledAs(c, s, c.tasks[i].id);
      if s.phase[c.tasks[i].id] == Settled(Failed) {
        failed := failed + [c.tasks[i].id];
      }
    }
    AllBefore(c.tasks);
    overall := if |failed| > 0 then Failed else Succeeded;
    FirstIn(failed);
    if |failed| == 0 {
      NoneFailed(c);
    }
  }

  lemma AllBefore(tasks: seq<TaskDef>)
    ensures forall id :: Before(tasks, |tasks|, id) <==> id in Ids(tasks)
  {
  }

  lemma NoneFailed(c: Config)
    requires Sorted(c) && forall id :: id in Ids(c.tasks) ==> !HasVerdict(c, id, Failed)
    ensures forall id :: id in Ids(c.tasks) ==> HasVerdict(c, id, Succeeded)
  {
    forall i | 0 <= i < |c.tasks|
      ensures HasVerdict(c, c.tasks[i].id, Succeeded)
    {
      VerdictsAt(c, i);
      if Verdicts(c)[c.tasks[i].id] != Succeeded {
        var walk := FailedAncestor(c, i);
        VerdictsKeys(c, |c.tasks|);
        assert HasVerdict(c, walk[|walk| - 1], Failed);
        assert false;
      }
    }
  }

  // ----- re-spawning -----

  /** The run of a second `dagRunner` on the rows the first one left, some of them cleared. */
  ghost predicate Respawns(c: Config, s: RunState, cleared: set<string>, d: Config) {
    d.tasks == c.tasks && d.rows == s.rows - cleared
  }

  predicate SameVerdict(c: Config, d: Config, id: string) {
    id in Verdicts(c) && id in Verdicts(d) && Verdicts(d)[id] == Verdicts(c)[id]
  }

  lemma {:induction false} RespawnVerdicts(c: Config, s: RunState, d: Config, n: nat)
    requires Sorted(c) && Respawns(c, s, {}, d) && n <= |c.tasks|
    requires forall id :: id in Ids(c.tasks) ==> SettledAs(c, s, id)
    ensures forall j :: 0 <= j < n ==> SameVerdict(c, d, c.tasks[j].id)
  {
    if n > 0 {
      RespawnVerdicts(c, s, d, n - 1);
      var t := c.tasks[n - 1];
      VerdictsAt(c, n - 1);
      VerdictsAt(d, n - 1);
      assert SettledAs(c, s, t.id);
      forall k | 0 <= k < |Deps(t)|
        ensures SameVerdict(c, d, Deps(t)[k])
      {
        assert Before(c.tasks, n - 1, Deps(t)[k]);
      }
      assert Clean(Verdicts(c), Deps(t)) <==> Clean(Verdicts(d), Deps(t));
    }
  }

  /** Re-spawning on all rows launches nothing and reproduces every status, whatever sandboxes would do now. */
  lemma RespawnIsFixedPoint(c: Config, steps: seq<Step>, s: RunState, d: Config, again: seq<Step>, t: RunState)
    requires Sorted(c) && Run(c, steps, s) && Maximal(c, s)
    requires Respawns(c, s, {}, d) && Run(d, again, t) && Maximal(d, t)
    ensures t.launches == [] && t.phase == s.phase
    ensures forall id :: id in Ids(c.tasks) ==> id in s.rows && id in t.rows && t.rows[id] == s.rows[id]
  {
    Confluence(c, steps, s);
    Confluence(d, again, t);
    RespawnVerdicts(c, s, d, |c.tasks|);
    forall id | id in Ids(c.tasks)
      ensures id in s.phase && id in t.phase && t.phase[id] == s.phase[id]
      ensures id in s.rows && id in t.rows && t.rows[id] == s.rows[id] && id !in t.launches
    {
      var i :| 0 <= i < |c.tasks| && c.tasks[i].id == id;
      RespawnLaunch(c, s, d, i);
      assert SettledAs(c, s, id) && SettledAs(d, t, id);
    }
    RunInv(d, again, t);
    FirstIn(t.launches);
  }

  lemma FirstIn(s: seq<string>)
    ensures s == [] || s[0] in s
  {
  }

  lemma RespawnLaunch(c: Config, s: RunState, d: Config, i: nat)
    requires Sorted(c) && Respawns(c, s, {}, d) && i < |c.tasks|
    requires forall id :: id in Ids(c.tasks) ==> SettledAs(c, s, id)
    ensures !Launches(d, c.tasks[i].id)
  {
    RespawnVerdicts(c, s, d, |c.tasks|);
    VerdictsAt(c, i);
    VerdictsAt(d, i);
    LaunchesAt(d, i);
    assert SettledAs(c, s, c.tasks[i].id);
    assert forall k :: 0 <= k < |Deps(c.tasks[i])| ==> Before(c.tasks, i, Deps(c.tasks[i])[k]);
  }

  /** The dependencies of a task of a finished run have all succeeded. */
  ghost predicate CleanNow(c: Config, t: RunState, i: nat)
    requires i < |c.tasks|
  {
    forall k :: 0 <= k < |Deps(c.tasks[i])| ==>
      Deps(c.tasks[i])[k] in t.phase && t.phase[Deps(c.tasks[i])[k]] == Settled(Succeeded)
  }

  lemma CleanAtEnd(c: Config, t: RunState, i: nat)
    requires Sorted(c) && i < |c.tasks| && forall id :: id in Ids(c.tasks) ==> SettledAs(c, t, id)
    ensures CleanNow(c, t, i) <==> Clean(Verdicts(c), Deps(c.tasks[i]))
  {
    var deps := Deps(c.tasks[i]);
    forall k | 0 <= k < |deps|
      ensures SettledAs(c, t, deps[k])
    {
      assert Before(c.tasks, i, deps[k]);
    }
  }

  /**
   After clearing any rows, surviving succeeded and failed tasks keep their status and are not
   launched; every other task runs exactly when all its dependencies now succeed.
   */
  lemma PartialClear(c: Config, steps: seq<Step>, s: RunState, cleared: set<string>, d: Config, again: seq<Step>, t: RunState, i: nat)
    requires Sorted(c) && Run(c, steps, s) && Maximal(c, s)
    requires Respawns(c, s, cleared, d) && Run(d, again, t) && Maximal(d, t)
    requires i < |c.tasks|
    ensures c.tasks[i].id in s.phase && c.tasks[i].id in t.phase
    ensures c.tasks[i].id !in cleared && s.phase[c.tasks[i].id] != Settled(Skipped) ==>
              t.phase[c.tasks[i].id] == s.phase[c.tasks[i].id] && c.tasks[i].id !in t.launches
    ensures c.tasks[i].id in cleared || s.phase[c.tasks[i].id] == Settled(Skipped) ==>
              (c.tasks[i].id in t.launches <==> CleanNow(d, t, i))
  {
    Confluence(c, steps, s);
    Confluence(d, again, t);
    assert SettledAs(c, s, c.tasks[i].id) && SettledAs(d, t, c.tasks[i].id);
    VerdictsAt(d, i);
    LaunchesAt(d, i);
    CleanAtEnd(d, t, i);
  }

  // ----- reading the surviving rows -----

  /** A row of task_attempts. */
  datatype Attempt = Attempt(taskId: string, attempt: int, row: Row)

  /** The terminal row of `id` that is kept: a higher attempt replaces a lower one. */
  function Latest(rows: seq<Attempt>, id: string): Option<Attempt> {
    if rows == [] then None
    else
      var before := Latest(rows[..|rows| - 1], id);
      var r := rows[|rows| - 1];
      if r.taskId == id && r.row.Ended? && r.attempt > (if before.Some? then before.value.attempt else -1)
      then Some(r)
      else before
  }

  /** It is a terminal row of the task with the highest attempt number, if there is any. */
  lemma {:induction false} LatestIsHighest(rows: seq<Attempt>, id: string)
    ensures var a := Latest(rows, id);
            && (a.Some? ==> a.value in rows && a.value.taskId == id && a.value.row.Ended? && a.value.attempt >= 0)
            && (forall j :: 0 <= j < |rows| && rows[j].taskId == id && rows[j].row.Ended? && rows[j].attempt >= 0 ==>
                  a.Some? && rows[j].attempt <= a.value.attempt)
  {
    if rows != [] {
      var front := rows[..|rows| - 1];
      LatestIsHighest(front, id);
      assert forall j :: 0 <= j < |front| ==> front[j] == rows[j];
    }
  }

  ghost predicate Keeps(out: map<string, Status>, maxAttempt: map<string, int>, rows: seq<Attempt>, id: string) {
    var a := Latest(rows, id);
    && (id in out <==> a.Some?) && (id in maxAttempt <==> a.Some?)
    && (a.Some? ==> a.value.row == Row.Ended(out[id]) && maxAttempt[id] == a.value.attempt)
  }

  /** The terminal status of each task's newest terminal attempt. */
  method LoadExistingTerminalStatuses(rows: seq<Attempt>) returns (out: map<string, Status>)
    ensures forall id :: id in out <==> Latest(rows, id).Some?
    ensures forall id :: id in out ==> Latest(rows, id).value.row == Row.Ended(out[id])
  {
    out := map[];
    var maxAttempt: map<string, int> := map[];
    for i := 0 to |rows|
      invariant forall id :: Keeps(out, maxAttempt, rows[..i], id)
    {
      var r := rows[i];
      assert rows[..i + 1][..i] == rows[..i];
      ghost var out0, max0 := out, maxAttempt;
      assert Keeps(out0, max0, rows[..i], r.taskId);
      if r.row.Ended? {
        var prev := if r.taskId in maxAttempt then maxAttempt[r.taskId] else -1;
        if r.attempt > prev {
          maxAttempt := maxAttempt[r.taskId := r.attempt];
          out := out[r.taskId := r.row.status];
        }
      }
      ghost var read := rows[..i + 1];
      forall id
        ensures Keeps(out, maxAttempt, read, id)
      {
        assert Keeps(out0, max0, rows[..i], id);
      }
    }
    assert rows[..|rows|] == rows;
    forall id
      ensures id in out <==> Latest(rows, id).Some?
      ensures id in out ==> Latest(rows, id).value.row == Row.Ended(out[id])
    {
      assert Keeps(out, maxAttempt, rows[..|rows|], id);
    }
  }

  /** With one attempt per task, as this runner writes them, the loaded statuses are the ended rows. */
  lemma {:induction false} SingleAttempts(rows: seq<Attempt>, id: string, j: nat)
    requires forall i :: 0 <= i < |rows| ==> rows[i].attempt == 1
    requires forall i, k :: 0 <= i < |rows| && 0 <= k < |rows| && i != k ==> rows[i].taskId != rows[k].taskId
    requires j < |rows| && rows[j].taskId == id
    ensures Latest(rows, id) == if rows[j].row.Ended? then Some(rows[j]) else None
  {
    LatestIsHighest(rows, id);
    var a := Latest(rows, id);
    if a.Some? {
      var k :| 0 <= k < |rows| && rows[k] == a.value;
      assert k == j;
    }
  }
}
