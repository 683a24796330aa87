/**
 The task graph of a DAG definition (apps/web/src/lib/dag-topology.ts): what makes it sortable,
 and why a graph in which every remaining task waits for another one has a cycle.
 */
module TaskGraph {
  import opened Wrappers

  datatype TaskDef = TaskDef(id: string, fn: string, dependsOn: Option<seq<string>>)

  /** A task without `dependsOn` has no dependencies. */
  function Deps(t: TaskDef): seq<string> {
    if t.dependsOn.Some? then t.dependsOn.value else []
  }

  function Ids(tasks: seq<TaskDef>): set<string> {
    set i | 0 <= i < |tasks| :: tasks[i].id
  }

  predicate UniqueIds(tasks: seq<TaskDef>) {
    forall i, j :: 0 <= i < j < |tasks| ==> tasks[i].id != tasks[j].id
  }

  predicate KnownIn(tasks: seq<TaskDef>, ids: set<string>) {
    forall i, k :: 0 <= i < |tasks| && 0 <= k < |Deps(tasks[i])| ==> Deps(tasks[i])[k] in ids
  }

  /** Every dependency names a task of the DAG. */
  predicate Known(tasks: seq<TaskDef>) {
    KnownIn(tasks, Ids(tasks))
  }

  predicate Edge(tasks: seq<TaskDef>, task: string, dep: string) {
    exists i :: 0 <= i < |tasks| && tasks[i].id == task && dep in Deps(tasks[i])
  }

  ghost predicate IsWalk(tasks: seq<TaskDef>, walk: seq<string>) {
    forall i, j :: 0 <= i && j == i + 1 && j < |walk| ==> Edge(tasks, walk[i], walk[j])
  }

  /** No walk along dependencies comes back to where it started. */
  ghost predicate Acyclic(tasks: seq<TaskDef>) {
    forall walk :: |walk| >= 2 && IsWalk(tasks, walk) ==> walk[0] != walk[|walk| - 1]
  }

  predicate Before(out: seq<TaskDef>, n: nat, dep: string) {
    exists j :: 0 <= j < n && j < |out| && out[j].id == dep
  }

  /** Every task stands after each of its dependencies. */
  predicate DepsFirst(out: seq<TaskDef>) {
    forall i, k :: 0 <= i < |out| && 0 <= k < |Deps(out[i])| ==> Before(out, i, Deps(out[i])[k])
  }

  // ----- an order excludes cycles -----

  lemma DepsFirstEdge(out: seq<TaskDef>, i: nat, dep: string) returns (j: nat)
    requires UniqueIds(out) && DepsFirst(out) && i < |out| && Edge(out, out[i].id, dep)
    ensures j < i && out[j].id == dep
  {
    var i' :| 0 <= i' < |out| && out[i'].id == out[i].id && dep in Deps(out[i']);
    assert i' == i;
    var k :| 0 <= k < |Deps(out[i])| && Deps(out[i])[k] == dep;
    assert Before(out, i, Deps(out[i])[k]);
    j :| 0 <= j < i && out[j].id == dep;
  }

  lemma {:induction false} WalkDescends(out: seq<TaskDef>, walk: seq<string>, i: nat) returns (j: nat)
    requires UniqueIds(out) && DepsFirst(out) && |walk| >= 1 && IsWalk(out, walk)
    requires i < |out| && out[i].id == walk[0]
    ensures j < |out| && out[j].id == walk[|walk| - 1] && (|walk| >= 2 ==> j < i)
    decreases |walk|
  {
    j := i;
    if |walk| >= 2 {
      assert Edge(out, walk[0], walk[1]);
      var next := DepsFirstEdge(out, i, walk[1]);
      assert IsWalk(out, walk[1..]) by {
        forall a, b | 0 <= a && b == a + 1 && b < |walk[1..]|
          ensures Edge(out, walk[1..][a], walk[1..][b])
        {
          assert Edge(out, walk[a + 1], walk[b + 1]);
        }
      }
      j := WalkDescends(out, walk[1..], next);
    }
  }

  lemma OrderedAcyclic(out: seq<TaskDef>)
    requires UniqueIds(out) && DepsFirst(out)
    ensures Acyclic(out)
  {
    forall walk | |walk| >= 2 && IsWalk(out, walk)
      ensures walk[0] != walk[|walk| - 1]
    {
      assert Edge(out, walk[0], walk[1]);
      var i :| 0 <= i < |out| && out[i].id == walk[0] && walk[1] in Deps(out[i]);
      var j := WalkDescends(out, walk, i);
    }
  }

  /** Acyclicity and known dependencies do not depend on the order of the tasks. */
  lemma SameGraph(a: seq<TaskDef>, b: seq<TaskDef>)
    requires multiset(a) == multiset(b)
    ensures Acyclic(a) ==> Acyclic(b)
  {
    forall t
      ensures t in a <==> t in b
    {
      assert t in multiset(a) <==> t in multiset(b);
    }
    forall walk | |walk| >= 2 && IsWalk(b, walk)
      ensures IsWalk(a, walk)
    {
      forall i, j | 0 <= i && j == i + 1 && j < |walk|
        ensures Edge(a, walk[i], walk[j])
      {
        assert Edge(b, walk[i], walk[j]);
        var n :| 0 <= n < |b| && b[n].id == walk[i] && walk[j] in Deps(b[n]);
        assert b[n] in a;
      }
    }
  }

  // ----- waiting in a circle -----

  predicate WaitsIn(tasks: seq<TaskDef>, id: string, stuck: set<string>) {
    exists d :: d in stuck && Edge(tasks, id, d)
  }

  /** Each task of `stuck` depends on another task of `stuck`. */
  predicate Waiting(tasks: seq<TaskDef>, stuck: set<string>) {
    forall id {:trigger WaitsIn(tasks, id, stuck)} :: id in stuck ==> WaitsIn(tasks, id, stuck)
  }

  lemma {:induction false} LongWalk(tasks: seq<TaskDef>, stuck: set<string>, start: string, n: nat) returns (walk: seq<string>)
    requires Waiting(tasks, stuck) && start in stuck
    ensures |walk| == n + 1 && walk[0] == start && IsWalk(tasks, walk)
    ensures forall i :: 0 <= i < |walk| ==> walk[i] in stuck
    decreases n
  {
    walk := [start];
    if n > 0 {
      assert WaitsIn(tasks, start, stuck);
      var d :| d in stuck && Edge(tasks, start, d);
      var rest := LongWalk(tasks, stuck, d, n - 1);
      walk := [start] + rest;
      forall i, j | 0 <= i && j == i + 1 && j < |walk|
        ensures Edge(tasks, walk[i], walk[j])
      {
        if i > 0 {
          assert Edge(tasks, rest[i - 1], rest[j - 1]);
        }
      }
    }
  }

  lemma {:induction false} Pigeonhole(walk: seq<string>, ids: set<string>) returns (i: nat, j: nat)
    requires |walk| > |ids| && forall k :: 0 <= k < |walk| ==> walk[k] in ids
    ensures i < j < |walk| && walk[i] == walk[j]
    decreases |walk|
  {
    var last := |walk| - 1;
    if k: nat :| k < last && walk[k] == walk[last] {
      i, j := k, last;
    } else {
      var rest := ids - {walk[last]};
      assert forall k :: 0 <= k < last ==> walk[..last][k] in rest;
      i, j := Pigeonhole(walk[..last], rest);
    }
  }

  lemma StuckHasCycle(tasks: seq<TaskDef>, stuck: set<string>)
    requires stuck != {} && Waiting(tasks, stuck)
    ensures !Acyclic(tasks)
  {
    var start :| start in stuck;
    var walk := LongWalk(tasks, stuck, start, |stuck|);
    var i, j := Pigeonhole(walk, stuck);
    var loop := walk[i..j + 1];
    assert IsWalk(tasks, loop) by {
      forall a, b | 0 <= a && b == a + 1 && b < |loop|
        ensures Edge(tasks, loop[a], loop[b])
      {
        assert Edge(tasks, walk[i + a], walk[i + b]);
      }
    }
  }
}
