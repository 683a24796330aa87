/**
 Manifest-driven reconciliation of DAG rows (apps/web/src/lib/dag-reconciler.ts), for contents that
 are determined by path and hash.
 */
module Reconciler {
  import opened Wrappers

  datatype Def = Def(id: string, body: string)

  datatype Entry = Entry(path: string, sha: string)

  datatype Key = Key(id: string, branch: string)

  datatype Row = Row(path: string, sha: string, def: Def, archived: bool)

  type Table = map<Key, Row>

  /** What fetching and parsing a file gives, with the id derived from the path if absent; None is an error. */
  type Loader = Entry -> Option<Def>

  function StripPrefix(s: string, prefix: string): string {
    if prefix <= s then s[|prefix|..] else s
  }

  /** Rows of PR branches carry the PR number in their id, so they coexist with prod rows. */
  function DagRowId(id: string, branch: string): string {
    if branch == "prod" then id else id + "_pr_" + StripPrefix(branch, "pr-")
  }

  /** The branches there are: production and pull requests. */
  predicate IsBranch(branch: string) {
    branch == "prod" || "pr-" <= branch
  }

  /** Within a branch, and for one DAG across branches, different rows have different ids. */
  lemma RowIdsDiffer(id: string, branch: string, other: string)
    requires IsBranch(branch)
    ensures DagRowId(id, branch) == DagRowId(other, branch) <==> id == other
    ensures IsBranch(other) ==> (DagRowId(id, branch) == DagRowId(id, other) <==> branch == other)
  {
    if branch != "prod" && DagRowId(id, branch) == DagRowId(other, branch) {
      SameSuffix(id, other, StripPrefix(branch, "pr-"));
    }
    if IsBranch(other) && DagRowId(id, branch) == DagRowId(id, other) {
      BranchOf(id, branch);
      BranchOf(id, other);
    }
  }

  lemma SameSuffix(a: string, b: string, suffix: string)
    requires a + "_pr_" + suffix == b + "_pr_" + suffix
    ensures a == b
  {
    assert |a| == |b|;
    assert (a + "_pr_" + suffix)[..|a|] == a && (b + "_pr_" + suffix)[..|b|] == b;
  }

  /** The branch can be read off the row id of a known DAG. */
  lemma BranchOf(id: string, branch: string)
    requires IsBranch(branch)
    ensures branch == "prod" ==> |DagRowId(id, branch)| == |id|
    ensures branch != "prod" ==> |DagRowId(id, branch)| >= |id| + 4 && branch == "pr-" + DagRowId(id, branch)[|id| + 4..]
  {
  }

  predicate Good(load: Loader, e: Entry) {
    load(e).Some?
  }

  function IdOf(load: Loader, branch: string, e: Entry): string
    requires Good(load, e)
  {
    DagRowId(load(e).value.id, branch)
  }

  /** Rows hold what their path and hash determine. */
  predicate Consistent(load: Loader, rows: Table) {
    forall k :: k in rows ==>
      load(Entry(rows[k].path, rows[k].sha)) == Some(rows[k].def) && k.id == DagRowId(rows[k].def.id, k.branch)
  }

  /** Distinct entries have distinct ids. */
  ghost predicate DistinctIds(load: Loader, branch: string, manifest: seq<Entry>) {
    forall i, j :: 0 <= i < j < |manifest| && Good(load, manifest[i]) && Good(load, manifest[j]) ==>
      IdOf(load, branch, manifest[i]) != IdOf(load, branch, manifest[j])
  }

  /** Entry `i` of the manifest determines the row `k`. */
  predicate Determines(load: Loader, branch: string, manifest: seq<Entry>, i: int, k: Key) {
    0 <= i < |manifest| && Good(load, manifest[i]) && k == Key(IdOf(load, branch, manifest[i]), branch)
  }

  predicate Wanted(load: Loader, branch: string, manifest: seq<Entry>, n: nat, k: Key) {
    exists i :: 0 <= i < n && Determines(load, branch, manifest, i, k)
  }

  function RowOf(load: Loader, e: Entry): Row
    requires Good(load, e)
  {
    Row(e.path, e.sha, load(e).value, false)
  }

  ghost predicate SameRow(a: Table, b: Table, k: Key) {
    (k in a <==> k in b) && (k in a ==> a[k] == b[k])
  }

  /** After `n` entries: their rows are upserted or were already right, all others are as before. */
  ghost predicate Upserted(load: Loader, branch: string, manifest: seq<Entry>, n: nat, before: Table, rows: Table) {
    && (forall i, k :: 0 <= i < n && Determines(load, branch, manifest, i, k) ==> k in rows && rows[k] == RowOf(load, manifest[i]))
    && (forall k :: !Wanted(load, branch, manifest, n, k) ==> SameRow(before, rows, k))
  }

  /** The reconciled table: wanted rows active with the manifest's content, the branch's others archived. */
  ghost predicate Reconciled(load: Loader, branch: string, manifest: seq<Entry>, before: Table, rows: Table) {
    && (forall i, k :: Determines(load, branch, manifest, i, k) ==> k in rows && rows[k] == RowOf(load, manifest[i]))
    && (forall k :: !Wanted(load, branch, manifest, |manifest|, k) ==>
          (k in rows <==> k in before)
          && (k in rows ==> rows[k] == if k.branch == branch then before[k].(archived := true) else before[k]))
  }

  datatype Counts = Counts(processed: nat, same: nat, errors: nat)

  datatype Failure = ManifestMissing

  class Database {
    var rows: Table

    constructor (rows: Table)
      ensures this.rows == rows
    {
      this.rows := rows;
    }

    /** The branch's rows by source path, as a Map built from the listing: a later row replaces an earlier one. */
    method ExistingBySourcePath(listing: seq<Key>) returns (existing: map<string, Key>)
      requires forall i :: 0 <= i < |listing| ==> listing[i] in rows
      ensures forall p :: p in existing ==> existing[p] in listing && rows[existing[p]].path == p
    {
      existing := map[];
      for i := 0 to |listing|
        invariant forall p :: p in existing ==> existing[p] in listing && existing[p] in rows && rows[existing[p]].path == p
      {
        existing := existing[rows[listing[i]].path := listing[i]];
      }
    }

    method Upsert(load: Loader, branch: string, e: Entry)
      requires Good(load, e)
      modifies this
      ensures rows == old(rows)[Key(IdOf(load, branch, e), branch) := RowOf(load, e)]
    {
      rows := rows[Key(IdOf(load, branch, e), branch) := RowOf(load, e)];
    }

    /** Soft-archives the branch's active rows that are not among `seenIds`. */
    method ArchiveOthers(branch: string, seenIds: seq<string>)
      modifies this
      ensures rows.Keys == old(rows).Keys
      ensures forall k :: k in rows ==>
                rows[k] == if k.branch == branch && k.id !in seenIds then old(rows)[k].(archived := true) else old(rows)[k]
    {
      var before := rows;
      rows := map k | k in before :: if k.branch == branch && k.id !in seenIds then before[k].(archived := true) else before[k];
    }

    /** `listing` is the SELECT of the branch's rows, in whatever order the database returns them. */
    method ReconcileDags(load: Loader, branch: string, manifest: Option<seq<Entry>>, listing: seq<Key>)
      returns (r: Fallible<Counts, Failure>)
      requires Consistent(load, rows)
      requires forall k :: k in listing <==> k in rows && k.branch == branch
      requires manifest.Some? ==> DistinctIds(load, branch, manifest.value)
      modifies this
      ensures r.Err? <==> manifest.None?
      ensures r.Err? ==> rows == old(rows)
      ensures r.Ok? ==> Reconciled(load, branch, manifest.value, old(rows), rows) && Consistent(load, rows)
      ensures r.Ok? ==> r.value.processed + r.value.same + r.value.errors == |manifest.value|
    {
      if manifest.None? {
        return Err(ManifestMissing);
      }
      var entries := manifest.value;
      var existing := ExistingBySourcePath(listing);
      var snapshot := rows;
      var seenIds: seq<string> := [];
      var counts := Counts(0, 0, 0);
      for i := 0 to |entries|
        invariant Upserted(load, branch, entries, i, snapshot, rows)
        invariant forall id :: id in seenIds <==> Wanted(load, branch, entries, i, Key(id, branch))
        invariant counts.processed + counts.same + counts.errors == i
      {
        var e := entries[i];
        if e.path in existing && snapshot[existing[e.path]].sha == e.sha && !snapshot[existing[e.path]].archived {
          var k := existing[e.path];
          UnchangedStep(load, branch, entries, i, snapshot, rows, k);
          SeenStep(load, branch, entries, i, seenIds);
          seenIds := seenIds + [k.id];
          counts := counts.(same := counts.same + 1);
        } else if load(e).None? {
          ErrorStep(load, branch, entries, i, snapshot, rows);
          counts := counts.(errors := counts.errors + 1);
        } else {
          UpsertStep(load, branch, entries, i, snapshot, rows);
          SeenStep(load, branch, entries, i, seenIds);
          seenIds := seenIds + [IdOf(load, branch, e)];
          Upsert(load, branch, e);
          counts := counts.(processed := counts.processed + 1);
        }
      }
      ghost var upserted := rows;
      ArchiveOthers(branch, seenIds);
      Archived(load, branch, entries, snapshot, upserted, rows, seenIds);
      r := Ok(counts);
    }
  }

  lemma WantedStep(load: Loader, branch: string, manifest: seq<Entry>, i: nat, k: Key)
    requires i < |manifest|
    ensures Wanted(load, branch, manifest, i + 1, k) <==>
            Wanted(load, branch, manifest, i, k) || Determines(load, branch, manifest, i, k)
  {
  }

  lemma SeenStep(load: Loader, branch: string, manifest: seq<Entry>, i: nat, seenIds: seq<string>)
    requires i < |manifest| && Good(load, manifest[i])
    requires forall id :: id in seenIds <==> Wanted(load, branch, manifest, i, Key(id, branch))
    ensures forall id :: id in seenIds + [IdOf(load, branch, manifest[i])] <==> Wanted(load, branch, manifest, i + 1, Key(id, branch))
  {
    forall id
      ensures id in seenIds + [IdOf(load, branch, manifest[i])] <==> Wanted(load, branch, manifest, i + 1, Key(id, branch))
    {
      WantedStep(load, branch, manifest, i, Key(id, branch));
    }
  }

  lemma ErrorStep(load: Loader, branch: string, manifest: seq<Entry>, i: nat, before: Table, rows: Table)
    requires i < |manifest| && !Good(load, manifest[i]) && Upserted(load, branch, manifest, i, before, rows)
    ensures Upserted(load, branch, manifest, i + 1, before, rows)
    ensures forall k :: Wanted(load, branch, manifest, i + 1, k) <==> Wanted(load, branch, manifest, i, k)
  {
  }

  /** No earlier entry determines the row of this one. */
  lemma NotYet(load: Loader, branch: string, manifest: seq<Entry>, i: nat)
    requires DistinctIds(load, branch, manifest) && i < |manifest| && Good(load, manifest[i])
    ensures !Wanted(load, branch, manifest, i, Key(IdOf(load, branch, manifest[i]), branch))
  {
  }

  lemma UpsertStep(load: Loader, branch: string, manifest: seq<Entry>, i: nat, before: Table, rows: Table)
    requires DistinctIds(load, branch, manifest) && i < |manifest| && Good(load, manifest[i])
    requires Upserted(load, branch, manifest, i, before, rows)
    ensures Upserted(load, branch, manifest, i + 1, before,
                     rows[Key(IdOf(load, branch, manifest[i]), branch) := RowOf(load, manifest[i])])
  {
    var mine := Key(IdOf(load, branch, manifest[i]), branch);
    var after := rows[mine := RowOf(load, manifest[i])];
    NotYet(load, branch, manifest, i);
    forall j, k | 0 <= j < i + 1 && Determines(load, branch, manifest, j, k)
      ensures k in after && after[k] == RowOf(load, manifest[j])
    {
      if j < i {
        assert Wanted(load, branch, manifest, i, k);
      }
    }
    forall k | !Wanted(load, branch, manifest, i + 1, k)
      ensures SameRow(before, after, k)
    {
      WantedStep(load, branch, manifest, i, k);
      assert Determines(load, branch, manifest, i, mine);
      assert SameRow(before, rows, k);
    }
  }

  /** An active row with the entry's path and hash already is what the entry would upsert. */
  lemma UnchangedStep(load: Loader, branch: string, manifest: seq<Entry>, i: nat, before: Table, rows: Table, k: Key)
    requires DistinctIds(load, branch, manifest) && i < |manifest| && Consistent(load, before)
    requires k in before && k.branch == branch && !before[k].archived
    requires before[k].path == manifest[i].path && before[k].sha == manifest[i].sha
    requires Upserted(load, branch, manifest, i, before, rows)
    ensures Good(load, manifest[i]) && k.id == IdOf(load, branch, manifest[i])
    ensures Upserted(load, branch, manifest, i + 1, before, rows)
  {
    assert Entry(before[k].path, before[k].sha) == manifest[i];
    NotYet(load, branch, manifest, i);
    assert SameRow(before, rows, k);
    UpsertStep(load, branch, manifest, i, before, rows);
    assert rows[k := RowOf(load, manifest[i])] == rows;
  }

  lemma Archived(load: Loader, branch: string, manifest: seq<Entry>, before: Table, upserted: Table, rows: Table, seenIds: seq<string>)
    requires Consistent(load, before) && Upserted(load, branch, manifest, |manifest|, before, upserted)
    requires forall id :: id in seenIds <==> Wanted(load, branch, manifest, |manifest|, Key(id, branch))
    requires rows.Keys == upserted.Keys
    requires forall k :: k in rows ==>
               rows[k] == if k.branch == branch && k.id !in seenIds then upserted[k].(archived := true) else upserted[k]
    ensures Reconciled(load, branch, manifest, before, rows) && Consistent(load, rows)
  {
  }

  /** The active rows of the branch are exactly those of the manifest's loadable entries; other branches are untouched. */
  lemma ActiveRowsAreTheManifest(load: Loader, branch: string, manifest: seq<Entry>, before: Table, rows: Table, k: Key)
    requires Reconciled(load, branch, manifest, before, rows)
    ensures k.branch == branch ==> (k in rows && !rows[k].archived <==> Wanted(load, branch, manifest, |manifest|, k))
    ensures k.branch != branch ==> SameRow(before, rows, k)
  {
  }

  /** A second pass over the same manifest changes no row. */
  lemma SecondPassChangesNothing(load: Loader, branch: string, manifest: seq<Entry>, before: Table, once: Table, twice: Table)
    requires Reconciled(load, branch, manifest, before, once) && Reconciled(load, branch, manifest, once, twice)
    ensures twice == once
  {
  }
}
