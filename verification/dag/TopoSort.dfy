/**
 Kahn's algorithm as `topoSort` runs it (apps/web/src/lib/dag-topology.ts). It returns an order
 exactly for DAGs with unique ids, known dependencies and no cycle.
 */
module TopoSort {
  import opened Wrappers
  import opened TaskGraph

  datatype Sorting = Sorted(tasks: seq<TaskDef>) | UnknownTask(task: string, dep: string) | Cycle

  // ----- counting links -----

  /** How often `dep` occurs among the dependencies of the tasks called `id`. */
  function Links(tasks: seq<TaskDef>, dep: string, id: string): nat {
    if tasks == [] then 0
    else
      var t := tasks[|tasks| - 1];
      Links(tasks[..|tasks| - 1], dep, id) + if t.id == id then multiset(Deps(t))[dep] else 0
  }

  lemma {:induction false} LinksAbsent(tasks: seq<TaskDef>, dep: string, id: string)
    requires id !in Ids(tasks)
    ensures Links(tasks, dep, id) == 0
  {
    if tasks != [] {
      var front := tasks[..|tasks| - 1];
      assert forall i :: 0 <= i < |front| ==> front[i].id == tasks[i].id;
      LinksAbsent(front, dep, id);
    }
  }

  lemma {:induction false} LinksUnique(tasks: seq<TaskDef>, i: nat, dep: string)
    requires UniqueIds(tasks) && i < |tasks|
    ensures Links(tasks, dep, tasks[i].id) == multiset(Deps(tasks[i]))[dep]
  {
    var front := tasks[..|tasks| - 1];
    if i == |tasks| - 1 {
      assert tasks[i].id !in Ids(front);
      LinksAbsent(front, dep, tasks[i].id);
    } else {
      LinksUnique(front, i, dep);
    }
  }

  /** The dependencies, counted with repetition, that are not among `done`. */
  function Left(deps: seq<string>, done: set<string>): nat {
    if deps == [] then 0
    else Left(deps[..|deps| - 1], done) + if deps[|deps| - 1] in done then 0 else 1
  }

  lemma {:induction false} LeftAll(deps: seq<string>)
    ensures Left(deps, {}) == |deps|
  {
    if deps != [] {
      LeftAll(deps[..|deps| - 1]);
    }
  }

  lemma {:induction false} LeftStep(deps: seq<string>, done: set<string>, id: string)
    requires id !in done
    ensures Left(deps, done + {id}) == Left(deps, done) - multiset(deps)[id]
  {
    if deps != [] {
      var front := deps[..|deps| - 1];
      LeftStep(front, done, id);
      assert deps == front + [deps[|deps| - 1]];
    }
  }

  lemma {:induction false} LeftZero(deps: seq<string>, done: set<string>)
    ensures Left(deps, done) == 0 <==> forall k :: 0 <= k < |deps| ==> deps[k] in done
  {
    if deps != [] {
      LeftZero(deps[..|deps| - 1], done);
    }
  }

  // ----- building the graph -----

  datatype Graph = Graph(byId: map<string, TaskDef>, order: seq<string>, indegree: map<string, int>, adj: map<string, seq<string>>)

  /** `adj.get(id) ?? []` */
  function Children(adj: map<string, seq<string>>, id: string): seq<string> {
    if id in adj then adj[id] else []
  }

  function LinkCount(adj: map<string, seq<string>>, dep: string, id: string): nat {
    multiset(Children(adj, dep))[id]
  }

  ghost predicate Distinct(s: seq<string>) {
    forall i, j :: 0 <= i < j < |s| ==> s[i] != s[j]
  }

  ghost predicate Indexes(byId: map<string, TaskDef>, tasks: seq<TaskDef>) {
    && byId.Keys == Ids(tasks)
    && forall id :: id in byId ==> byId[id].id == id && byId[id] in tasks
  }

  ghost predicate Linked(adj: map<string, seq<string>>, tasks: seq<TaskDef>) {
    forall dep, id {:trigger LinkCount(adj, dep, id)} :: LinkCount(adj, dep, id) == Links(tasks, dep, id)
  }

  /** Insertion order lists each key of a map once. */
  ghost predicate Lists(order: seq<string>, keys: set<string>) {
    Distinct(order) && forall id :: id in order <==> id in keys
  }

  ghost predicate Degrees(indegree: map<string, int>, tasks: seq<TaskDef>) {
    && indegree.Keys == Ids(tasks)
    && forall id :: id in indegree ==> indegree[id] >= 0
  }

  ghost predicate UniqueDegrees(indegree: map<string, int>, tasks: seq<TaskDef>) {
    UniqueIds(tasks) ==> forall i :: 0 <= i < |tasks| ==> tasks[i].id in indegree && indegree[tasks[i].id] == |Deps(tasks[i])|
  }

  ghost predicate Builds(g: Graph, tasks: seq<TaskDef>) {
    && Indexes(g.byId, tasks) && Lists(g.order, Ids(tasks))
    && Degrees(g.indegree, tasks) && UniqueDegrees(g.indegree, tasks) && Linked(g.adj, tasks)
  }

  method Index(tasks: seq<TaskDef>) returns (byId: map<string, TaskDef>)
    ensures Indexes(byId, tasks)
  {
    byId := map[];
    for i := 0 to |tasks|
      invariant byId.Keys == Ids(tasks[..i])
      invariant forall id :: id in byId ==> byId[id].id == id && byId[id] in tasks
    {
      byId := byId[tasks[i].id := tasks[i]];
      IdsStep(tasks, i);
    }
    assert tasks[..|tasks|] == tasks;
  }

  lemma IdsStep(tasks: seq<TaskDef>, i: nat)
    requires i < |tasks|
    ensures Ids(tasks[..i + 1]) == Ids(tasks[..i]) + {tasks[i].id}
  {
  }

  ghost predicate LinksAdded(more: map<string, seq<string>>, adj: map<string, seq<string>>, task: string, deps: seq<string>) {
    forall dep, id {:trigger LinkCount(more, dep, id)} ::
      LinkCount(more, dep, id) == LinkCount(adj, dep, id) + if task == id then multiset(deps)[dep] else 0
  }

  lemma NoLinkAdded(adj: map<string, seq<string>>, task: string, deps: seq<string>)
    ensures LinksAdded(adj, adj, task, deps[..0])
  {
  }

  lemma OneMoreLink(more: map<string, seq<string>>, adj: map<string, seq<string>>, task: string, deps: seq<string>, k: nat)
    requires k < |deps| && LinksAdded(more, adj, task, deps[..k])
    ensures LinksAdded(more[deps[k] := Children(more, deps[k]) + [task]], adj, task, deps[..k + 1])
  {
    var next := more[deps[k] := Children(more, deps[k]) + [task]];
    forall dep, id
      ensures LinkCount(next, dep, id) == LinkCount(adj, dep, id) + if task == id then multiset(deps[..k + 1])[dep] else 0
    {
      CountMore(more, deps[k], task, dep, id);
      OccursMore(deps, k, dep);
      assert LinkCount(more, dep, id) == LinkCount(adj, dep, id) + if task == id then multiset(deps[..k])[dep] else 0;
    }
  }

  lemma CountMore(more: map<string, seq<string>>, parent: string, task: string, dep: string, id: string)
    ensures LinkCount(more[parent := Children(more, parent) + [task]], dep, id)
         == LinkCount(more, dep, id) + if dep == parent && id == task then 1 else 0
  {
  }

  lemma OccursMore(deps: seq<string>, k: nat, dep: string)
    requires k < |deps|
    ensures multiset(deps[..k + 1])[dep] == multiset(deps[..k])[dep] + if dep == deps[k] then 1 else 0
  {
    assert deps[..k + 1] == deps[..k] + [deps[k]];
  }

  /** The links of one task, or its first dependency that names no task. */
  method AddLinks(ids: set<string>, adj: map<string, seq<string>>, t: TaskDef)
    returns (more: map<string, seq<string>>, unknown: Option<string>)
    ensures unknown.None? ==> forall k :: 0 <= k < |Deps(t)| ==> Deps(t)[k] in ids
    ensures unknown.Some? ==> unknown.value in Deps(t) && unknown.value !in ids
    ensures unknown.None? ==> LinksAdded(more, adj, t.id, Deps(t))
  {
    more := adj;
    var deps := Deps(t);
    NoLinkAdded(adj, t.id, deps);
    for k := 0 to |deps|
      invariant forall j :: 0 <= j < k ==> deps[j] in ids
      invariant LinksAdded(more, adj, t.id, deps[..k])
    {
      if deps[k] !in ids {
        return more, Some(deps[k]);
      }
      OneMoreLink(more, adj, t.id, deps, k);
      more := more[deps[k] := Children(more, deps[k]) + [t.id]];
    }
    assert deps[..|deps|] == deps;
    unknown := None;
  }

  /** `error` names the first task with an unknown dependency, and that dependency. */
  ghost predicate FirstUnknown(tasks: seq<TaskDef>, error: Sorting) {
    error.UnknownTask? && error.dep !in Ids(tasks)
    && exists i :: 0 <= i < |tasks| && tasks[i].id == error.task && error.dep in Deps(tasks[i])
                   && KnownIn(tasks[..i], Ids(tasks))
  }

  lemma UniqueDegreesStep(indegree: map<string, int>, tasks: seq<TaskDef>, i: nat)
    requires i < |tasks| && UniqueDegrees(indegree, tasks[..i])
    ensures UniqueDegrees(indegree[tasks[i].id := |Deps(tasks[i])|], tasks[..i + 1])
  {
  }

  lemma ListsStep(order: seq<string>, keys: set<string>, id: string)
    requires Lists(order, keys)
    ensures Lists(if id in keys then order else order + [id], keys + {id})
  {
  }

  lemma LinkedStep(adj: map<string, seq<string>>, more: map<string, seq<string>>, tasks: seq<TaskDef>, i: nat)
    requires i < |tasks| && Linked(adj, tasks[..i]) && LinksAdded(more, adj, tasks[i].id, Deps(tasks[i]))
    ensures Linked(more, tasks[..i + 1])
  {
    assert tasks[..i + 1][..i] == tasks[..i];
    forall dep, id
      ensures LinkCount(more, dep, id) == Links(tasks[..i + 1], dep, id)
    {
      assert LinkCount(adj, dep, id) == Links(tasks[..i], dep, id);
    }
  }

  lemma KnownStep(tasks: seq<TaskDef>, i: nat, ids: set<string>)
    requires i < |tasks| && KnownIn(tasks[..i], ids)
    requires forall k :: 0 <= k < |Deps(tasks[i])| ==> Deps(tasks[i])[k] in ids
    ensures KnownIn(tasks[..i + 1], ids)
  {
  }

  /** The tables after the first `i` tasks. */
  ghost predicate BuiltTo(order: seq<string>, indegree: map<string, int>, adj: map<string, seq<string>>, tasks: seq<TaskDef>, i: nat)
    requires i <= |tasks|
  {
    && Lists(order, Ids(tasks[..i])) && Degrees(indegree, tasks[..i]) && UniqueDegrees(indegree, tasks[..i])
    && Linked(adj, tasks[..i]) && KnownIn(tasks[..i], Ids(tasks))
  }

  lemma BuiltStep(order: seq<string>, indegree: map<string, int>, adj: map<string, seq<string>>, more: map<string, seq<string>>,
                  tasks: seq<TaskDef>, i: nat)
    requires i < |tasks| && BuiltTo(order, indegree, adj, tasks, i)
    requires LinksAdded(more, adj, tasks[i].id, Deps(tasks[i]))
    requires forall k :: 0 <= k < |Deps(tasks[i])| ==> Deps(tasks[i])[k] in Ids(tasks)
    ensures BuiltTo(if tasks[i].id in indegree then order else order + [tasks[i].id],
                    indegree[tasks[i].id := |Deps(tasks[i])|], more, tasks, i + 1)
  {
    IdsStep(tasks, i);
    ListsStep(order, Ids(tasks[..i]), tasks[i].id);
    UniqueDegreesStep(indegree, tasks, i);
    LinkedStep(adj, more, tasks, i);
    KnownStep(tasks, i, Ids(tasks));
  }

  lemma BuiltStart(tasks: seq<TaskDef>)
    ensures BuiltTo([], map[], map[], tasks, 0)
  {
  }

  lemma BuiltEnd(g: Graph, tasks: seq<TaskDef>)
    requires Indexes(g.byId, tasks) && BuiltTo(g.order, g.indegree, g.adj, tasks, |tasks|)
    ensures Known(tasks) && Builds(g, tasks)
  {
    assert tasks[..|tasks|] == tasks;
  }

  lemma FoundUnknown(tasks: seq<TaskDef>, i: nat, dep: string)
    requires i < |tasks| && dep in Deps(tasks[i]) && dep !in Ids(tasks) && KnownIn(tasks[..i], Ids(tasks))
    ensures FirstUnknown(tasks, UnknownTask(tasks[i].id, dep))
  {
  }

  method Build(tasks: seq<TaskDef>) returns (g: Graph, error: Option<Sorting>)
    ensures error.None? ==> Known(tasks) && Builds(g, tasks)
    ensures error.Some? ==> FirstUnknown(tasks, error.value)
  {
    var byId := Index(tasks);
    var order: seq<string>, indegree: map<string, int>, adj: map<string, seq<string>> := [], map[], map[];
    var i := 0;
    BuiltStart(tasks);
    while i < |tasks|
      invariant i <= |tasks| && BuiltTo(order, indegree, adj, tasks, i)
    {
      var unknown;
      order, indegree, adj, unknown := AddTask(byId.Keys, order, indegree, adj, tasks, i);
      if unknown.Some? {
        FoundUnknown(tasks, i, unknown.value);
        return Graph(byId, order, indegree, adj), Some(UnknownTask(tasks[i].id, unknown.value));
      }
      i := i + 1;
    }
    g := Graph(byId, order, indegree, adj);
    BuiltEnd(g, tasks);
    error := None;
  }

  /** One turn of the first loop; stops at a dependency that names no task. */
  method AddTask(ids: set<string>, order: seq<string>, indegree: map<string, int>, adj: map<string, seq<string>>,
                 tasks: seq<TaskDef>, i: nat)
    returns (order': seq<string>, indegree': map<string, int>, adj': map<string, seq<string>>, unknown: Option<string>)
    requires ids == Ids(tasks) && i < |tasks| && BuiltTo(order, indegree, adj, tasks, i)
    ensures unknown.None? ==> BuiltTo(order', indegree', adj', tasks, i + 1)
    ensures unknown.Some? ==> unknown.value in Deps(tasks[i]) && unknown.value !in Ids(tasks)
    ensures KnownIn(tasks[..i], Ids(tasks))
  {
    var t := tasks[i];
    order' := if t.id in indegree then order else order + [t.id];
    indegree' := indegree[t.id := |Deps(t)|];
    adj', unknown := AddLinks(ids, adj, t);
    if unknown.None? {
      BuiltStep(order, indegree, adj, adj', tasks, i);
    }
  }

  // ----- draining the ready queue -----

  function Elements(s: seq<string>): set<string> {
    set i | 0 <= i < |s| :: s[i]
  }

  lemma ElementsStep(s: seq<string>, id: string)
    ensures Elements(s + [id]) == Elements(s) + {id}
  {
    var more := s + [id];
    assert more[|s|] == id;
    assert forall i :: 0 <= i < |s| ==> more[i] == s[i];
    forall x | x in Elements(s)
      ensures x in Elements(more)
    {
      var i :| 0 <= i < |s| && s[i] == x;
      assert more[i] == x;
    }
  }

  /** Where the loop stands: `done` are the ids already output, `ready` the queue. */
  ghost predicate Draining(tasks: seq<TaskDef>, indegree: map<string, int>, done: seq<string>, ready: seq<string>) {
    && indegree.Keys == Ids(tasks)
    && Distinct(done + ready)
    && (forall id :: id in done + ready ==> id in indegree)
    && (forall id :: id in indegree ==> (indegree[id] <= 0 <==> id in done + ready))
  }

  /** With unique ids, a degree is the number of dependencies still missing. */
  ghost predicate Missing(tasks: seq<TaskDef>, indegree: map<string, int>, done: seq<string>) {
    forall i :: 0 <= i < |tasks| ==> tasks[i].id in indegree && indegree[tasks[i].id] == Left(Deps(tasks[i]), Elements(done))
  }

  ghost predicate Lowered(after: map<string, int>, indegree: map<string, int>, children: seq<string>) {
    after.Keys == indegree.Keys && forall c :: c in indegree ==> after[c] == indegree[c] - multiset(children)[c]
  }

  /** The ids whose degree has just reached zero, each once. */
  ghost predicate Freed(freed: seq<string>, after: map<string, int>, indegree: map<string, int>)
    requires after.Keys == indegree.Keys
  {
    Distinct(freed) && forall c :: c in freed <==> c in indegree && indegree[c] > 0 && after[c] <= 0
  }

  /** Lowers the degree of every child of an output task and queues those that reach zero. */
  method Release(indegree: map<string, int>, ready: seq<string>, children: seq<string>)
    returns (after: map<string, int>, queue: seq<string>, ghost freed: seq<string>)
    requires forall c :: c in children ==> c in indegree
    ensures queue == ready + freed && Lowered(after, indegree, children) && Freed(freed, after, indegree)
  {
    after, queue, freed := indegree, ready, [];
    for k := 0 to |children|
      invariant queue == ready + freed && Lowered(after, indegree, children[..k]) && Freed(freed, after, indegree)
    {
      var n := after[children[k]] - 1;
      assert children[..k + 1] == children[..k] + [children[k]];
      after := after[children[k] := n];
      if n == 0 {
        queue := queue + [children[k]];
        freed := freed + [children[k]];
      }
    }
    assert children[..|children|] == children;
  }

  lemma ChildrenKnown(g: Graph, tasks: seq<TaskDef>, dep: string)
    requires Builds(g, tasks)
    ensures forall c :: c in Children(g.adj, dep) ==> c in Ids(tasks)
  {
    forall c | c in Children(g.adj, dep)
      ensures c in Ids(tasks)
    {
      assert LinkCount(g.adj, dep, c) == Links(tasks, dep, c);
      if c !in Ids(tasks) {
        LinksAbsent(tasks, dep, c);
      }
    }
  }

  lemma DrainStep(tasks: seq<TaskDef>, indegree: map<string, int>, done: seq<string>, id: string, rest: seq<string>,
                  after: map<string, int>, children: seq<string>, freed: seq<string>)
    requires Draining(tasks, indegree, done, [id] + rest)
    requires Lowered(after, indegree, children) && Freed(freed, after, indegree)
    ensures Draining(tasks, after, done + [id], rest + freed)
  {
    assert done + ([id] + rest) == done + [id] + rest;
    assert done + [id] + (rest + freed) == done + [id] + rest + freed;
    var whole := done + [id] + rest;
    forall c | c in indegree
      ensures after[c] <= 0 <==> c in whole + freed
      ensures c in freed ==> c !in whole
    {
      assert after[c] <= indegree[c];
    }
    DistinctJoin(whole, freed);
  }

  lemma DistinctJoin(a: seq<string>, b: seq<string>)
    requires Distinct(a) && Distinct(b) && forall c :: c in b ==> c !in a
    ensures Distinct(a + b)
  {
    forall i, j | 0 <= i < j < |a + b|
      ensures (a + b)[i] != (a + b)[j]
    {
      if i < |a| <= j {
        assert (a + b)[j] in b && (a + b)[i] in a;
      }
    }
  }

  lemma MissingStep(g: Graph, tasks: seq<TaskDef>, indegree: map<string, int>, done: seq<string>, id: string, after: map<string, int>)
    requires Builds(g, tasks) && UniqueIds(tasks) && Missing(tasks, indegree, done) && id !in done
    requires Lowered(after, indegree, Children(g.adj, id))
    ensures Missing(tasks, after, done + [id])
  {
    ElementsStep(done, id);
    forall i | 0 <= i < |tasks|
      ensures tasks[i].id in after && after[tasks[i].id] == Left(Deps(tasks[i]), Elements(done + [id]))
    {
      LeftStep(Deps(tasks[i]), Elements(done), id);
      LinksUnique(tasks, i, id);
      assert LinkCount(g.adj, id, tasks[i].id) == Links(tasks, id, tasks[i].id);
    }
  }

  /** The tasks output so far, in order. */
  ghost predicate Outputs(out: seq<TaskDef>, done: seq<string>, tasks: seq<TaskDef>) {
    && |out| == |done|
    && forall i :: 0 <= i < |out| ==> out[i].id == done[i] && out[i] in tasks
  }

  /** A task that leaves the queue stands behind all of its dependencies. */
  lemma OutStep(tasks: seq<TaskDef>, indegree: map<string, int>, done: seq<string>, out: seq<TaskDef>, i: nat)
    requires Missing(tasks, indegree, done) && Outputs(out, done, tasks) && DepsFirst(out)
    requires i < |tasks| && tasks[i].id in indegree && indegree[tasks[i].id] <= 0
    ensures DepsFirst(out + [tasks[i]])
  {
    var more := out + [tasks[i]];
    LeftZero(Deps(tasks[i]), Elements(done));
    forall j, k | 0 <= j < |more| && 0 <= k < |Deps(more[j])|
      ensures Before(more, j, Deps(more[j])[k])
    {
      if j < |out| {
        assert Before(out, j, Deps(out[j])[k]);
        var b :| 0 <= b < j && out[b].id == Deps(out[j])[k];
        assert more[b] == out[b];
      } else {
        assert Deps(tasks[i])[k] in Elements(done);
        var b :| 0 <= b < |done| && done[b] == Deps(tasks[i])[k];
        assert more[b] == out[b];
      }
    }
  }

  // ----- when the queue has run empty -----

  lemma {:induction false} ElementsCount(s: seq<string>)
    requires Distinct(s)
    ensures |Elements(s)| == |s|
  {
    if s != [] {
      var front := s[..|s| - 1];
      ElementsCount(front);
      ElementsStep(front, s[|s| - 1]);
      assert front + [s[|s| - 1]] == s;
    }
  }

  lemma UniqueSnoc(tasks: seq<TaskDef>)
    requires tasks != []
    ensures var last := |tasks| - 1;
            && Ids(tasks) == Ids(tasks[..last]) + {tasks[last].id}
            && (UniqueIds(tasks) <==> UniqueIds(tasks[..last]) && tasks[last].id !in Ids(tasks[..last]))
  {
  }

  lemma {:induction false} IdsCount(tasks: seq<TaskDef>)
    ensures |Ids(tasks)| <= |tasks|
    ensures |Ids(tasks)| == |tasks| <==> UniqueIds(tasks)
  {
    if tasks != [] {
      IdsCount(tasks[..|tasks| - 1]);
      UniqueSnoc(tasks);
    }
  }

  lemma {:induction false} UniqueOnce(tasks: seq<TaskDef>, t: TaskDef)
    requires UniqueIds(tasks)
    ensures multiset(tasks)[t] == if t in tasks then 1 else 0
  {
    if tasks != [] {
      var last := |tasks| - 1;
      UniqueOnce(tasks[..last], t);
      assert tasks == tasks[..last] + [tasks[last]];
      assert forall i :: 0 <= i < last ==> tasks[i] in tasks[..last] && tasks[i].id != tasks[last].id;
    }
  }

  /** Tasks are told apart by their ids, so all ids output means all tasks output. */
  lemma SameTasks(out: seq<TaskDef>, tasks: seq<TaskDef>)
    requires UniqueIds(tasks) && UniqueIds(out) && Ids(tasks) <= Ids(out)
    requires forall i :: 0 <= i < |out| ==> out[i] in tasks
    ensures multiset(out) == multiset(tasks)
  {
    forall t
      ensures multiset(out)[t] == multiset(tasks)[t]
    {
      UniqueOnce(out, t);
      UniqueOnce(tasks, t);
      if t in tasks {
        assert t.id in Ids(tasks);
        var j :| 0 <= j < |out| && out[j].id == t.id;
        assert out[j] == t;
      }
    }
  }

  /** A task that was never output still misses a dependency. */
  lemma StillMissing(tasks: seq<TaskDef>, indegree: map<string, int>, done: seq<string>, i: nat) returns (k: nat)
    requires Draining(tasks, indegree, done, []) && Missing(tasks, indegree, done)
    requires i < |tasks| && tasks[i].id !in Elements(done)
    ensures k < |Deps(tasks[i])| && Deps(tasks[i])[k] !in Elements(done)
  {
    assert done + [] == done;
    assert tasks[i].id in indegree && tasks[i].id !in done;
    LeftZero(Deps(tasks[i]), Elements(done));
    k :| k < |Deps(tasks[i])| && Deps(tasks[i])[k] !in Elements(done);
  }

  lemma StuckWaits(tasks: seq<TaskDef>, indegree: map<string, int>, done: seq<string>)
    requires UniqueIds(tasks) && Known(tasks) && Draining(tasks, indegree, done, []) && Missing(tasks, indegree, done)
    ensures Waiting(tasks, Ids(tasks) - Elements(done))
  {
    var stuck := Ids(tasks) - Elements(done);
    forall id | id in stuck
      ensures WaitsIn(tasks, id, stuck)
    {
      var i :| 0 <= i < |tasks| && tasks[i].id == id;
      var k := StillMissing(tasks, indegree, done, i);
      KnownDep(tasks, i, k);
      assert Edge(tasks, id, Deps(tasks[i])[k]);
    }
  }

  lemma KnownDep(tasks: seq<TaskDef>, i: nat, k: nat)
    requires Known(tasks) && i < |tasks| && k < |Deps(tasks[i])|
    ensures Deps(tasks[i])[k] in Ids(tasks) && Edge(tasks, tasks[i].id, Deps(tasks[i])[k])
  {
  }

  lemma AllOut(tasks: seq<TaskDef>, done: seq<string>, out: seq<TaskDef>)
    requires Distinct(done) && Elements(done) <= Ids(tasks) && Outputs(out, done, tasks)
    ensures |out| <= |Ids(tasks)| <= |tasks|
    ensures |out| == |tasks| ==> UniqueIds(tasks)
    ensures |out| == |Ids(tasks)| ==> Elements(done) == Ids(tasks)
  {
    ElementsCount(done);
    IdsCount(tasks);
    Subset(Elements(done), Ids(tasks));
  }

  lemma Complete(tasks: seq<TaskDef>, done: seq<string>, out: seq<TaskDef>)
    requires Distinct(done) && Elements(done) == Ids(tasks) && Outputs(out, done, tasks) && UniqueIds(tasks) && DepsFirst(out)
    ensures multiset(out) == multiset(tasks) && Acyclic(tasks)
  {
    forall id | id in Ids(tasks)
      ensures id in Ids(out)
    {
      var j :| 0 <= j < |done| && done[j] == id;
      assert out[j].id == id;
    }
    SameTasks(out, tasks);
    OrderedAcyclic(out);
    SameGraph(out, tasks);
  }

  /** An exhausted queue has output every task exactly when the DAG is well formed. */
  lemma Exhausted(tasks: seq<TaskDef>, indegree: map<string, int>, done: seq<string>, out: seq<TaskDef>)
    requires Known(tasks) && Draining(tasks, indegree, done, []) && Outputs(out, done, tasks)
    requires UniqueIds(tasks) ==> Missing(tasks, indegree, done) && DepsFirst(out)
    ensures |out| == |tasks| <==> UniqueIds(tasks) && Acyclic(tasks)
    ensures |out| == |tasks| ==> multiset(out) == multiset(tasks) && DepsFirst(out)
  {
    assert done + [] == done;
    AllOut(tasks, done, out);
    if |out| == |tasks| {
      Complete(tasks, done, out);
    } else if UniqueIds(tasks) {
      StuckCyclic(tasks, indegree, done);
    }
  }

  lemma LeftOver(tasks: seq<TaskDef>, done: seq<string>)
    requires UniqueIds(tasks) && Distinct(done) && Elements(done) <= Ids(tasks) && |done| != |tasks|
    ensures Ids(tasks) - Elements(done) != {}
  {
    IdsCount(tasks);
    ElementsCount(done);
    Subset(Elements(done), Ids(tasks));
  }

  lemma StuckCyclic(tasks: seq<TaskDef>, indegree: map<string, int>, done: seq<string>)
    requires UniqueIds(tasks) && Known(tasks) && Draining(tasks, indegree, done, []) && Missing(tasks, indegree, done)
    requires Distinct(done) && Elements(done) <= Ids(tasks) && |done| != |tasks|
    ensures !Acyclic(tasks)
  {
    LeftOver(tasks, done);
    StuckWaits(tasks, indegree, done);
    StuckHasCycle(tasks, Ids(tasks) - Elements(done));
  }

  lemma Subset(a: set<string>, b: set<string>)
    requires a <= b
    ensures |a| <= |b|
    ensures |a| == |b| <==> a == b
    ensures a != b ==> b - a != {}
  {
    assert b == a + (b - a);
    assert |b| == |a| + |b - a|;
  }

  lemma DrainStart(g: Graph, tasks: seq<TaskDef>, ready: seq<string>)
    requires Builds(g, tasks) && Distinct(ready)
    requires forall id :: id in ready <==> id in g.indegree && g.indegree[id] == 0
    ensures Draining(tasks, g.indegree, [], ready)
    ensures UniqueIds(tasks) ==> Missing(tasks, g.indegree, [])
  {
    assert [] + ready == ready;
    if UniqueIds(tasks) {
      forall i | 0 <= i < |tasks|
        ensures g.indegree[tasks[i].id] == Left(Deps(tasks[i]), Elements([]))
      {
        LeftAll(Deps(tasks[i]));
        assert Elements([]) == {};
      }
    }
  }

  method Sources(g: Graph, tasks: seq<TaskDef>) returns (ready: seq<string>)
    requires Builds(g, tasks)
    ensures Distinct(ready) && forall id :: id in ready <==> id in g.indegree && g.indegree[id] == 0
  {
    ready := [];
    for i := 0 to |g.order|
      invariant Distinct(ready)
      invariant forall id :: id in ready <==> id in g.order[..i] && g.indegree[id] == 0
    {
      if g.indegree[g.order[i]] == 0 {
        ready := ready + [g.order[i]];
      }
    }
    assert g.order[..|g.order|] == g.order;
  }

  /**
   The DAG's tasks in an order with every dependency first, exactly when ids are unique,
   dependencies known and the graph acyclic; otherwise the error that is thrown.
   */
  method TopologicalSort(tasks: seq<TaskDef>) returns (r: Sorting)
    ensures r.Sorted? <==> UniqueIds(tasks) && Known(tasks) && Acyclic(tasks)
    ensures r.Sorted? ==> multiset(r.tasks) == multiset(tasks) && DepsFirst(r.tasks)
    ensures r.UnknownTask? <==> !Known(tasks)
    ensures r.UnknownTask? ==> FirstUnknown(tasks, r)
  {
    var g, error := Build(tasks);
    if error.Some? {
      return error.value;
    }
    var ready := Sources(g, tasks);
    var indegree := g.indegree;
    var out: seq<TaskDef> := [];
    ghost var done: seq<string> := [];
    DrainStart(g, tasks, ready);
    while ready != []
      invariant Draining(tasks, indegree, done, ready) && Outputs(out, done, tasks)
      invariant UniqueIds(tasks) ==> Missing(tasks, indegree, done) && DepsFirst(out)
      decreases Ids(tasks) - Elements(done)
    {
      var id := ready[0];
      var rest := ready[1..];
      assert ready == [id] + rest;
      QueueHead(g, tasks, indegree, done, out, id, rest);
      var after, queue;
      ghost var freed;
      after, queue, freed := Release(indegree, rest, Children(g.adj, id));
      DrainStep(tasks, indegree, done, id, rest, after, Children(g.adj, id), freed);
      if UniqueIds(tasks) {
        MissingStep(g, tasks, indegree, done, id, after);
      }
      out, done := out + [g.byId[id]], done + [id];
      indegree, ready := after, queue;
    }
    Exhausted(tasks, indegree, done, out);
    return if |out| != |tasks| then Cycle else Sorted(out);
  }

  lemma QueueHead(g: Graph, tasks: seq<TaskDef>, indegree: map<string, int>, done: seq<string>, out: seq<TaskDef>, id: string,
                  rest: seq<string>)
    requires Builds(g, tasks) && Draining(tasks, indegree, done, [id] + rest) && Outputs(out, done, tasks)
    requires UniqueIds(tasks) ==> Missing(tasks, indegree, done) && DepsFirst(out)
    ensures id in g.byId && id !in done && forall c :: c in Children(g.adj, id) ==> c in indegree
    ensures Outputs(out + [g.byId[id]], done + [id], tasks)
    ensures UniqueIds(tasks) ==> DepsFirst(out + [g.byId[id]])
    ensures id !in Elements(done) && id in Ids(tasks) && Elements(done + [id]) == Elements(done) + {id}
  {
    assert id in done + ([id] + rest);
    assert (done + ([id] + rest))[|done|] == id;
    ChildrenKnown(g, tasks, id);
    ElementsStep(done, id);
    assert id !in done by {
      assert forall i :: 0 <= i < |done| ==> (done + ([id] + rest))[i] == done[i];
    }
    if UniqueIds(tasks) {
      var i :| 0 <= i < |tasks| && tasks[i] == g.byId[id];
      OutStep(tasks, indegree, done, out, i);
    }
  }
}
