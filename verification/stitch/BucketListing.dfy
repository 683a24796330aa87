/**
 How the reader finds the files of its buckets (lattik-stitch/crates/lattik-format-vortex/src/reader.rs:73-108):
 data files and index files are listed and sorted separately, and a place in one list is used as a
 place in the other.
 */
module BucketListing {
  import opened Strings
  import opened VortexIndex
  import opened Wrappers

  const DATA_FILE := "data.vortex"
  const INDEX_FILE := "pk_index.vortex"

  /** What the writer has stored so far, by directory; the data file of a bucket is written before its index. */
  datatype Store = Store(data: map<string, seq<Row>>, index: map<string, seq<Entry>>)

  function Path(dir: string, name: string): string { dir + "/" + name }

  predicate Before(d: string, e: string, name: string) {
    StringLt(Path(d, name), Path(e, name))
  }

  /** The directories whose files of this name a listing returns, sorted by full path. */
  ghost predicate Listed(dirs: seq<string>, all: set<string>, name: string) {
    && (forall d :: d in all <==> d in dirs)
    && forall i, j :: 0 <= i < j < |dirs| ==> Before(dirs[i], dirs[j], name)
  }

  // ----- listing -----

  lemma SamePath(d: string, e: string, name: string)
    requires Path(d, name) == Path(e, name)
    ensures d == e
  {
    assert |d| == |e|;
    assert Path(d, name)[..|d|] == d && Path(e, name)[..|e|] == e;
  }

  lemma BeforeTransitive(d: string, e: string, f: string, name: string)
    requires Before(d, e, name) && Before(e, f, name)
    ensures Before(d, f, name)
  {
    LeTransitive(Path(d, name), Path(e, name), Path(f, name));
    if Path(d, name) == Path(f, name) {
      LeAntisymmetric(Path(d, name), Path(e, name));
    }
  }

  lemma BeforeTotal(d: string, e: string, name: string)
    requires d != e
    ensures Before(d, e, name) != Before(e, d, name)
  {
    if Path(d, name) == Path(e, name) {
      SamePath(d, e, name);
    }
    LeTotal(Path(d, name), Path(e, name));
    if StringLe(Path(d, name), Path(e, name)) && StringLe(Path(e, name), Path(d, name)) {
      LeAntisymmetric(Path(d, name), Path(e, name));
    }
  }

  /** A directory that comes behind `a` and in front of `b`. */
  lemma Placed(a: seq<string>, dir: string, b: seq<string>, all: set<string>, name: string)
    requires Listed(a + b, all, name)
    requires a != [] ==> Before(a[|a| - 1], dir, name)
    requires b != [] ==> Before(dir, b[0], name)
    ensures Listed(a + [dir] + b, all + {dir}, name)
  {
    var dirs, r := a + b, a + [dir] + b;
    forall j | 0 <= j < |a|
      ensures Before(a[j], dir, name)
    {
      assert dirs[j] == a[j] && dirs[|a| - 1] == a[|a| - 1];
      if j < |a| - 1 {
        BeforeTransitive(a[j], a[|a| - 1], dir, name);
      }
    }
    forall j | 0 <= j < |b|
      ensures Before(dir, b[j], name)
    {
      assert dirs[|a| + j] == b[j] && dirs[|a|] == b[0];
      if 0 < j {
        BeforeTransitive(dir, b[0], b[j], name);
      }
    }
    forall i, j | 0 <= i < j < |r|
      ensures Before(r[i], r[j], name)
    {
      PlacedPair(a, dir, b, i, j, name);
    }
  }

  lemma PlacedPair(a: seq<string>, dir: string, b: seq<string>, i: nat, j: nat, name: string)
    requires i < j < |a| + 1 + |b|
    requires forall i, j :: 0 <= i < j < |a + b| ==> Before((a + b)[i], (a + b)[j], name)
    requires forall j :: 0 <= j < |a| ==> Before(a[j], dir, name)
    requires forall j :: 0 <= j < |b| ==> Before(dir, b[j], name)
    ensures Before((a + [dir] + b)[i], (a + [dir] + b)[j], name)
  {
    var dirs, r := a + b, a + [dir] + b;
    var k, l := if i < |a| then i else i - 1, if j < |a| then j else j - 1;
    assert i != |a| ==> r[i] == dirs[k];
    assert j != |a| ==> r[j] == dirs[l];
    assert j > |a| ==> r[j] == b[j - |a| - 1];
    assert i < |a| ==> r[i] == a[i];
  }

  method InsertDir(dirs: seq<string>, dir: string, ghost all: set<string>, name: string) returns (r: seq<string>)
    requires Listed(dirs, all, name) && dir !in all
    ensures Listed(r, all + {dir}, name)
  {
    var i := |dirs|;
    while i > 0 && !Before(dirs[i - 1], dir, name)
      invariant 0 <= i <= |dirs|
      invariant i < |dirs| ==> Before(dir, dirs[i], name)
    {
      i := i - 1;
      assert dirs[i] in dirs;
      BeforeTotal(dirs[i], dir, name);
    }
    assert dirs[..i] + dirs[i..] == dirs;
    Placed(dirs[..i], dir, dirs[i..], all, name);
    r := dirs[..i] + [dir] + dirs[i..];
  }

  /** Lists the files of one name: filtered by suffix, sorted by path. */
  method ListFiles(all: set<string>, name: string) returns (dirs: seq<string>)
    ensures Listed(dirs, all, name)
  {
    dirs := [];
    var todo := all;
    while todo != {}
      invariant todo <= all && Listed(dirs, all - todo, name)
      decreases |todo|
    {
      var dir :| dir in todo;
      dirs := InsertDir(dirs, dir, all - todo, name);
      assert all - (todo - {dir}) == (all - todo) + {dir};
      todo := todo - {dir};
    }
  }

  /** A listing is determined by what is there. */
  lemma {:induction false} ListedUnique(a: seq<string>, b: seq<string>, all: set<string>, name: string)
    requires Listed(a, all, name) && Listed(b, all, name)
    ensures a == b
    decreases |a|
  {
    EmptyListing(a, all, name);
    EmptyListing(b, all, name);
    if a != [] {
      FirstAgree(a, b, all, name);
      assert a == [a[0]] + a[1..] && b == [b[0]] + b[1..];
      RestListed(a, all, name);
      RestListed(b, all, name);
      ListedUnique(a[1..], b[1..], all - {a[0]}, name);
    }
  }

  lemma EmptyListing(dirs: seq<string>, all: set<string>, name: string)
    requires Listed(dirs, all, name)
    ensures dirs == [] <==> all == {}
  {
    if dirs != [] {
      assert dirs[0] in dirs;
    }
  }

  lemma FirstAgree(a: seq<string>, b: seq<string>, all: set<string>, name: string)
    requires Listed(a, all, name) && Listed(b, all, name) && a != [] && b != []
    ensures a[0] == b[0]
  {
    assert a[0] in all && b[0] in all;
    var i :| 0 <= i < |b| && b[i] == a[0];
    var j :| 0 <= j < |a| && a[j] == b[0];
    if a[0] != b[0] {
      BeforeTotal(a[0], b[0], name);
    }
  }

  lemma RestListed(a: seq<string>, all: set<string>, name: string)
    requires Listed(a, all, name) && a != []
    ensures Listed(a[1..], all - {a[0]}, name)
  {
    forall i | 0 < i < |a|
      ensures a[i] != a[0]
    {
      assert Before(a[0], a[i], name);
    }
    assert forall d :: d in a <==> d == a[0] || d in a[1..] by {
      assert a == [a[0]] + a[1..];
    }
  }

  // ----- when the two lists pair up -----

  /** The two names sort the directories alike. */
  ghost predicate SortAlike(all: set<string>) {
    forall d, e :: d in all && e in all ==> (Before(d, e, DATA_FILE) <==> Before(d, e, INDEX_FILE))
  }

  /** Place for place the same directories: exactly when every directory holds both files and both names sort them alike. */
  lemma PairedIff(store: Store, dataDirs: seq<string>, indexDirs: seq<string>)
    requires Listed(dataDirs, store.data.Keys, DATA_FILE) && Listed(indexDirs, store.index.Keys, INDEX_FILE)
    ensures dataDirs == indexDirs <==> store.data.Keys == store.index.Keys && SortAlike(store.data.Keys)
  {
    if store.data.Keys == store.index.Keys && SortAlike(store.data.Keys) {
      forall i, j | 0 <= i < j < |dataDirs|
        ensures Before(dataDirs[i], dataDirs[j], INDEX_FILE)
      {
        assert dataDirs[i] in store.data.Keys && dataDirs[j] in store.data.Keys;
      }
      ListedUnique(dataDirs, indexDirs, store.index.Keys, INDEX_FILE);
    }
    if dataDirs == indexDirs {
      assert store.data.Keys == store.index.Keys by {
        assert forall d :: d in store.data.Keys <==> d in store.index.Keys;
      }
      forall d, e | d in store.data.Keys && e in store.data.Keys
        ensures Before(d, e, DATA_FILE) <==> Before(d, e, INDEX_FILE)
      {
        ListedAlike(dataDirs, store.data.Keys, d, e);
      }
    }
  }

  lemma ListedAlike(dirs: seq<string>, all: set<string>, d: string, e: string)
    requires Listed(dirs, all, DATA_FILE) && Listed(dirs, all, INDEX_FILE) && d in all && e in all
    ensures Before(d, e, DATA_FILE) <==> Before(d, e, INDEX_FILE)
  {
    var i :| 0 <= i < |dirs| && dirs[i] == d;
    var j :| 0 <= j < |dirs| && dirs[j] == e;
    if d != e {
      BeforeTotal(d, e, DATA_FILE);
      BeforeTotal(d, e, INDEX_FILE);
      assert i < j ==> Before(dirs[i], dirs[j], DATA_FILE) && Before(dirs[i], dirs[j], INDEX_FILE);
      assert j < i ==> Before(dirs[j], dirs[i], DATA_FILE) && Before(dirs[j], dirs[i], INDEX_FILE);
    }
  }

  /** `e` is a directory somewhere below `d`. */
  predicate Below(d: string, e: string) {
    |d| < |e| && e[..|d|] == d && e[|d|] == '/'
  }

  /** The directory `sub` below another one comes on the same side of its files under both names. */
  predicate SubSortsAlike(sub: string) {
    StringLe(DATA_FILE, Path(sub, DATA_FILE)) <==> StringLe(INDEX_FILE, Path(sub, INDEX_FILE))
  }

  lemma {:induction false} PrefixLe(p: string, a: string, b: string)
    ensures StringLe(p + a, p + b) == StringLe(a, b)
  {
    if p == "" {
      assert p + a == a && p + b == b;
    } else {
      assert (p + a)[1..] == p[1..] + a && (p + b)[1..] == p[1..] + b;
      PrefixLe(p[1..], a, b);
    }
  }

  /** Directories that do not lie in each other are sorted by their own names. */
  lemma {:induction false} ApartAlike(d: string, e: string, name: string, other: string)
    requires d != e && !Below(d, e) && !Below(e, d)
    ensures StringLe(Path(d, name), Path(e, name)) == StringLe(Path(d, other), Path(e, other))
    decreases |d|
  {
    if d == "" {
      assert Path(d, name)[0] == '/' && Path(e, name)[0] == e[0] && e[..0] == d;
      assert Path(d, other)[0] == '/' && Path(e, other)[0] == e[0];
    } else if e == "" {
      assert Path(e, name)[0] == '/' && Path(d, name)[0] == d[0] && d[..0] == e;
      assert Path(e, other)[0] == '/' && Path(d, other)[0] == d[0];
    } else if d[0] == e[0] {
      assert d == [d[0]] + d[1..] && e == [e[0]] + e[1..];
      assert Below(d[1..], e[1..]) ==> Below(d, e);
      assert Below(e[1..], d[1..]) ==> Below(e, d);
      ApartAlike(d[1..], e[1..], name, other);
      TailPath(d, name);
      TailPath(d, other);
      TailPath(e, name);
      TailPath(e, other);
    } else {
      TailPath(d, name);
      TailPath(d, other);
      TailPath(e, name);
      TailPath(e, other);
    }
  }

  lemma TailPath(d: string, name: string)
    requires d != ""
    ensures Path(d, name) != "" && Path(d, name)[0] == d[0] && Path(d, name)[1..] == Path(d[1..], name)
  {
  }

  lemma BelowOrder(d: string, e: string, name: string)
    requires Below(d, e)
    ensures StringLe(Path(d, name), Path(e, name)) == StringLe(name, Path(e[|d| + 1..], name))
  {
    assert e == d + "/" + e[|d| + 1..];
    assert Path(e, name) == (d + "/") + Path(e[|d| + 1..], name);
    PrefixLe(d + "/", name, Path(e[|d| + 1..], name));
  }

  /** For two directories, the names decide differently only when one lies below the other. */
  lemma PairAlike(d: string, e: string)
    requires d != e
    ensures (Before(d, e, DATA_FILE) == Before(d, e, INDEX_FILE)) <==>
            (Below(d, e) ==> SubSortsAlike(e[|d| + 1..])) && (Below(e, d) ==> SubSortsAlike(d[|e| + 1..]))
  {
    BeforeTotal(d, e, DATA_FILE);
    BeforeTotal(d, e, INDEX_FILE);
    PathsDiffer(d, e);
    if Below(d, e) {
      BelowOrder(d, e, DATA_FILE);
      BelowOrder(d, e, INDEX_FILE);
    } else if Below(e, d) {
      BelowOrder(e, d, DATA_FILE);
      BelowOrder(e, d, INDEX_FILE);
    } else {
      ApartAlike(d, e, DATA_FILE, INDEX_FILE);
    }
  }

  lemma PathsDiffer(d: string, e: string)
    requires d != e
    ensures Path(d, DATA_FILE) != Path(e, DATA_FILE) && Path(d, INDEX_FILE) != Path(e, INDEX_FILE)
  {
    if Path(d, DATA_FILE) == Path(e, DATA_FILE) {
      SamePath(d, e, DATA_FILE);
    }
    if Path(d, INDEX_FILE) == Path(e, INDEX_FILE) {
      SamePath(d, e, INDEX_FILE);
    }
  }

  /** What a look at the directory names tells: no directory lies below another one whose two files it comes between. */
  lemma SortAlikeIff(all: set<string>)
    ensures SortAlike(all) <==>
            forall d, e :: d in all && e in all && Below(d, e) ==> SubSortsAlike(e[|d| + 1..])
  {
    forall d, e | d in all && e in all && d != e
      ensures (Before(d, e, DATA_FILE) == Before(d, e, INDEX_FILE)) <==>
              (Below(d, e) ==> SubSortsAlike(e[|d| + 1..])) && (Below(e, d) ==> SubSortsAlike(d[|e| + 1..]))
    {
      PairAlike(d, e);
    }
  }

  // ----- looking up -----

  function DataOf(store: Store, dirs: seq<string>): (files: seq<seq<Row>>)
    requires forall d :: d in dirs ==> d in store.data
    ensures |files| == |dirs| && forall i :: 0 <= i < |dirs| ==> files[i] == store.data[dirs[i]]
  {
    seq(|dirs|, i requires 0 <= i < |dirs| => store.data[dirs[i]])
  }

  function IndexesOf(store: Store, dirs: seq<string>): (files: seq<seq<Entry>>)
    requires forall d :: d in dirs ==> d in store.index
    ensures |files| == |dirs| && forall i :: 0 <= i < |dirs| ==> files[i] == store.index[dirs[i]]
  {
    seq(|dirs|, i requires 0 <= i < |dirs| => store.index[dirs[i]])
  }

  /** Where both files of a bucket were written, the index is that of the data. */
  ghost predicate ValidStore(store: Store) {
    forall d :: d in store.data && d in store.index ==> ValidBucket(Bucket(store.data[d], store.index[d]))
  }

  /**
   Probes the listed index files and fetches from the listed data files. When every directory holds
   both files and the names sort alike, the answer is the scanned rows that match.
   */
  method Lookup(store: Store, filter: PkFilter)
    returns (dataDirs: seq<string>, hits: Fallible<seq<(PkValue, nat)>, Error>, rows: Fallible<seq<Row>, Error>)
    requires ValidStore(store) && |store.index| <= U32_MAX + 1
    ensures Listed(dataDirs, store.data.Keys, DATA_FILE)
    ensures hits.Ok? && store.data.Keys == store.index.Keys && SortAlike(store.data.Keys) ==>
              var scanned := ScanRows(DataOf(store, dataDirs));
              && (rows.Ok? <==> SomeAsked(scanned, filter))
              && (rows.Ok? ==> RightAnswer(hits.value, rows.value, scanned, filter))
  {
    dataDirs := ListFiles(store.data.Keys, DATA_FILE);
    var indexDirs := ListFiles(store.index.Keys, INDEX_FILE);
    PairedIff(store, dataDirs, indexDirs);
    ListedLength(indexDirs, store.index.Keys, INDEX_FILE);
    var files, indexes := DataOf(store, dataDirs), IndexesOf(store, indexDirs);
    hits, rows := LookupFiles(files, indexes, filter);
    if dataDirs == indexDirs {
      PairedFiles(store, dataDirs);
    }
  }

  lemma PairedFiles(store: Store, dirs: seq<string>)
    requires ValidStore(store) && forall d :: d in dirs ==> d in store.data && d in store.index
    ensures ValidBuckets(DataOf(store, dirs), IndexesOf(store, dirs))
  {
    forall b | 0 <= b < |dirs|
      ensures ValidBucket(Bucket(DataOf(store, dirs)[b], IndexesOf(store, dirs)[b]))
    {
      assert dirs[b] in dirs;
    }
  }

  lemma {:induction false} ListedLength(dirs: seq<string>, all: set<string>, name: string)
    requires Listed(dirs, all, name)
    ensures |dirs| == |all|
    decreases |dirs|
  {
    if dirs == [] {
      assert all == {};
    } else {
      assert dirs[0] in all;
      RestListed(dirs, all, name);
      ListedLength(dirs[1..], all - {dirs[0]}, name);
    }
  }

  // ----- when they do not -----

  /**
   A directory left with its data file only (the writer stopped before the index): every index file
   behind it in the order is used with the data file one place too early.
   */
  lemma DataOnlyShifts(store: Store, before: seq<string>, lone: string, behind: seq<string>, indexDirs: seq<string>)
    requires Listed(before + [lone] + behind, store.data.Keys, DATA_FILE) && Listed(indexDirs, store.index.Keys, INDEX_FILE)
    requires store.index.Keys == store.data.Keys - {lone} && SortAlike(store.data.Keys)
    ensures indexDirs == before + behind
    ensures forall k :: 0 <= k < |behind| ==>
              indexDirs[|before| + k] == behind[k] && (before + [lone] + behind)[|before| + k] == ([lone] + behind)[k] != behind[k]
  {
    var dirs, rest := before + [lone] + behind, before + behind;
    forall i, j | 0 <= i < j < |dirs|
      ensures Before(dirs[i], dirs[j], INDEX_FILE)
    {
      assert dirs[i] in dirs && dirs[j] in dirs && Before(dirs[i], dirs[j], DATA_FILE);
    }
    RestSorted(before, lone, behind);
    WithoutLone(before, lone, behind);
    assert Listed(rest, store.index.Keys, INDEX_FILE);
    ListedUnique(indexDirs, rest, store.index.Keys, INDEX_FILE);
    Neighbours(before, lone, behind);
  }

  ghost predicate Increasing(dirs: seq<string>) {
    forall i, j :: 0 <= i < j < |dirs| ==> Before(dirs[i], dirs[j], INDEX_FILE)
  }

  lemma RestSorted(before: seq<string>, lone: string, behind: seq<string>)
    requires Increasing(before + [lone] + behind)
    ensures Increasing(before + behind)
  {
    var dirs, rest := before + [lone] + behind, before + behind;
    forall i, j | 0 <= i < j < |rest|
      ensures Before(rest[i], rest[j], INDEX_FILE)
    {
      assert rest[i] == dirs[if i < |before| then i else i + 1] && rest[j] == dirs[if j < |before| then j else j + 1];
    }
  }

  lemma Neighbours(before: seq<string>, lone: string, behind: seq<string>)
    requires Increasing(before + [lone] + behind)
    ensures forall k :: 0 <= k < |behind| ==>
              && (before + behind)[|before| + k] == behind[k]
              && (before + [lone] + behind)[|before| + k] == ([lone] + behind)[k] != behind[k]
  {
    var dirs := before + [lone] + behind;
    forall k | 0 <= k < |behind|
      ensures dirs[|before| + k] == ([lone] + behind)[k] != behind[k]
    {
      assert dirs[|before| + k] == ([lone] + behind)[k] && dirs[|before| + k + 1] == behind[k];
    }
  }

  lemma WithoutLone(before: seq<string>, lone: string, behind: seq<string>)
    requires Increasing(before + [lone] + behind)
    ensures forall d :: d in before + behind <==> d in before + [lone] + behind && d != lone
  {
    var dirs := before + [lone] + behind;
    assert dirs[|before|] == lone;
    assert forall i :: 0 <= i < |before| ==> dirs[i] == before[i];
    assert forall i :: 0 <= i < |behind| ==> dirs[|before| + 1 + i] == behind[i];
  }

  // ----- lists that do not pair up always give a wrong answer -----

  /** The store holds data files and index files in exactly these directories. */
  ghost predicate Over(store: Store, dataDirs: seq<string>, indexDirs: seq<string>) {
    Listed(dataDirs, store.data.Keys, DATA_FILE) && Listed(indexDirs, store.index.Keys, INDEX_FILE)
  }

  /** Every hit leads to a row with the key it announced, and all together to the scanned rows that match. */
  ghost predicate Answers(store: Store, dataDirs: seq<string>, indexDirs: seq<string>, filter: PkFilter)
    requires Over(store, dataDirs, indexDirs)
  {
    var files := DataOf(store, dataDirs);
    Leads(files, AllHits(IndexesOf(store, indexDirs), filter), ScanRows(files), filter)
  }

  /** Where a directory stands in a list, or behind its end. */
  function PlaceOf(dirs: seq<string>, d: string): (i: nat)
    ensures i <= |dirs| && (i < |dirs| ==> dirs[i] == d) && (i == |dirs| ==> d !in dirs)
  {
    if dirs == [] then 0
    else if dirs[0] == d then 0
    else 1 + PlaceOf(dirs[1..], d)
  }

  /** Each data file holds one row, keyed by its place in the data listing; an index without data names a key of its own. */
  function Marked(dataDirs: seq<string>, indexDirs: seq<string>): Store {
    Store(map d | d in dataDirs :: [Row(PlaceOf(dataDirs, d), "")],
          map d | d in indexDirs :: [Entry(PlaceOf(dataDirs, d), 0)])
  }

  lemma ListedPlace(dirs: seq<string>, all: set<string>, name: string, i: nat)
    requires Listed(dirs, all, name) && i < |dirs|
    ensures PlaceOf(dirs, dirs[i]) == i
  {
    var j := PlaceOf(dirs, dirs[i]);
    assert j < |dirs|;
    assert i < j ==> Before(dirs[i], dirs[j], name);
    assert j < i ==> Before(dirs[j], dirs[i], name);
  }

  lemma MarkedIsValid(dataDirs: seq<string>, indexDirs: seq<string>)
    ensures ValidStore(Marked(dataDirs, indexDirs))
  {
    var store := Marked(dataDirs, indexDirs);
    forall d | d in store.data && d in store.index
      ensures ValidBucket(Bucket(store.data[d], store.index[d]))
    {
      var p := PlaceOf(dataDirs, d);
      assert EntriesOf([Row(p, "")]) == [Entry(p, 0)];
    }
  }

  lemma HitsOfOne(e: Entry, bucket: nat, filter: PkFilter)
    ensures Hits([e], bucket, filter) == if Matches(Int64(e.pk), filter) then [(Int64(e.pk), Encoded(bucket, e.rowId))] else []
  {
    var es := [e];
    assert es[..0] == [];
  }

  /** A matching entry is among the hits. */
  lemma {:induction false} HitIsThere(indexes: seq<seq<Entry>>, b: nat, e: Entry, filter: PkFilter)
    requires b < |indexes| && indexes[b] == [e] && Matches(Int64(e.pk), filter)
    ensures (Int64(e.pk), Encoded(b, e.rowId)) in AllHits(indexes, filter)
  {
    var last := |indexes| - 1;
    if b == last {
      HitsOfOne(e, b, filter);
    } else {
      assert indexes[..last][b] == [e];
      HitIsThere(indexes[..last], b, e, filter);
    }
  }

  lemma {:induction false} NoHits(indexes: seq<seq<Entry>>, filter: PkFilter)
    requires forall b :: 0 <= b < |indexes| ==> |indexes[b]| == 1 && !Matches(Int64(indexes[b][0].pk), filter)
    ensures AllHits(indexes, filter) == []
  {
    if indexes != [] {
      var last := |indexes| - 1;
      assert forall b :: 0 <= b < last ==> indexes[..last][b] == indexes[b];
      NoHits(indexes[..last], filter);
      assert indexes[last] == [indexes[last][0]];
      HitsOfOne(indexes[last][0], last, filter);
    }
  }

  lemma {:induction false} MatchIsScanned(files: seq<seq<Row>>, n: nat, r: Row, filter: PkFilter)
    requires n < |files| && files[n] == [r] && Matches(Int64(r.pk), filter)
    ensures r in Filtered(ScanRows(files), filter)
  {
    var last := |files| - 1;
    FilteredConcat(ScanRows(files[..last]), files[last], filter);
    if n == last {
      assert [r][..0] == [];
      assert Filtered([r], filter) == [r];
    } else {
      assert files[..last][n] == [r];
      MatchIsScanned(files[..last], n, r, filter);
    }
  }

  /** An index whose key is not that of the data file at its place leads to a wrong row, or to none. */
  lemma MisplacedIndex(files: seq<seq<Row>>, indexes: seq<seq<Entry>>, b: nat, q: nat)
    requires b < |indexes| && b <= U32_MAX && indexes[b] == [Entry(q, 0)]
    requires b < |files| ==> |files[b]| == 1 && files[b][0].pk != q
    ensures !GoodHits(files, AllHits(indexes, Eq(Int64(q))))
  {
    HitIsThere(indexes, b, Entry(q, 0), Eq(Int64(q)));
    var hits := AllHits(indexes, Eq(Int64(q)));
    var i :| 0 <= i < |hits| && hits[i] == (Int64(q), Encoded(b, 0));
    RowIdsInvert(b, 0);
    assert InFiles(files, hits[i].1) ==> RowAt(files, hits[i].1) == files[b][0];
  }

  /** A data file whose key no index has is not found, although the scan finds it. */
  lemma MissedRow(files: seq<seq<Row>>, indexes: seq<seq<Entry>>, n: nat)
    requires n < |files| && files[n] == [Row(n, "")]
    requires forall b :: 0 <= b < |indexes| ==> |indexes[b]| == 1 && indexes[b][0].pk != n
    ensures var filter := Eq(Int64(n)); !Leads(files, AllHits(indexes, filter), ScanRows(files), filter)
  {
    var filter := Eq(Int64(n));
    NoHits(indexes, filter);
    MatchIsScanned(files, n, Row(n, ""), filter);
    assert Row(n, "") in multiset(Filtered(ScanRows(files), filter));
  }

  /** Listings that differ, over the marked store: the filter that is answered wrongly. */
  lemma UnpairedGoesWrong(store: Store, dataDirs: seq<string>, indexDirs: seq<string>) returns (filter: PkFilter)
    requires Over(store, dataDirs, indexDirs) && dataDirs != indexDirs && |indexDirs| <= U32_MAX + 1
    requires store == Marked(dataDirs, indexDirs)
    ensures !Answers(store, dataDirs, indexDirs, filter)
  {
    var files, indexes := DataOf(store, dataDirs), IndexesOf(store, indexDirs);
    forall i | 0 <= i < |files|
      ensures files[i] == [Row(i, "")]
    {
      ListedPlace(dataDirs, store.data.Keys, DATA_FILE, i);
    }
    if b: nat :| b < |indexDirs| && (b < |dataDirs| ==> dataDirs[b] != indexDirs[b]) {
      var q := PlaceOf(dataDirs, indexDirs[b]);
      filter := Eq(Int64(q));
      assert indexes[b] == [Entry(q, 0)];
      MisplacedIndex(files, indexes, b, q);
    } else {
      var n := |indexDirs|;
      filter := Eq(Int64(n));
      assert forall b: nat {:trigger indexDirs[b]} :: b < n ==> b < |dataDirs| && dataDirs[b] == indexDirs[b];
      assert n > 0 ==> indexDirs[n - 1] == dataDirs[n - 1];
      assert |dataDirs| == n ==> dataDirs == indexDirs;
      forall b | 0 <= b < |indexes|
        ensures |indexes[b]| == 1 && indexes[b][0].pk != n
      {
        assert dataDirs[b] == indexDirs[b];
        ListedPlace(dataDirs, store.data.Keys, DATA_FILE, b);
      }
      MissedRow(files, indexes, n);
    }
  }

  /** The marked store holds its files in exactly the directories of the listings. */
  lemma MarkedIsOver(dataDirs: seq<string>, indexDirs: seq<string>, store: Store)
    requires Over(store, dataDirs, indexDirs)
    ensures Over(Marked(dataDirs, indexDirs), dataDirs, indexDirs)
  {
  }

  /**
   The directories decide: over listings that pair up every valid store answers every filter as the
   scan does; over any other listings some valid store does not, for some filter.
   */
  lemma PairingDecides(some: Store, dataDirs: seq<string>, indexDirs: seq<string>)
    requires Over(some, dataDirs, indexDirs) && |dataDirs| <= U32_MAX + 1 && |indexDirs| <= U32_MAX + 1
    ensures dataDirs == indexDirs ==>
              forall store, filter :: Over(store, dataDirs, indexDirs) && ValidStore(store) && Encodable(IndexesOf(store, indexDirs), filter) ==>
                Answers(store, dataDirs, indexDirs, filter)
    ensures dataDirs != indexDirs ==>
              exists store, filter :: Over(store, dataDirs, indexDirs) && ValidStore(store) && Encodable(IndexesOf(store, indexDirs), filter)
                && !Answers(store, dataDirs, indexDirs, filter)
  {
    if dataDirs == indexDirs {
      forall store, filter | Over(store, dataDirs, indexDirs) && ValidStore(store) && Encodable(IndexesOf(store, indexDirs), filter)
        ensures Answers(store, dataDirs, indexDirs, filter)
      {
        PairedAnswers(store, dataDirs, filter);
      }
    } else {
      var store := Marked(dataDirs, indexDirs);
      MarkedIsOver(dataDirs, indexDirs, some);
      MarkedIsValid(dataDirs, indexDirs);
      var filter := UnpairedGoesWrong(store, dataDirs, indexDirs);
      MarkedEncodes(store, dataDirs, indexDirs, filter);
    }
  }

  lemma MarkedEncodes(store: Store, dataDirs: seq<string>, indexDirs: seq<string>, filter: PkFilter)
    requires Over(store, dataDirs, indexDirs) && store == Marked(dataDirs, indexDirs) && |indexDirs| <= U32_MAX + 1
    ensures Encodable(IndexesOf(store, indexDirs), filter)
  {
  }

  lemma PairedAnswers(store: Store, dirs: seq<string>, filter: PkFilter)
    requires Over(store, dirs, dirs) && ValidStore(store) && Encodable(IndexesOf(store, dirs), filter) && |dirs| <= U32_MAX + 1
    ensures Answers(store, dirs, dirs, filter)
  {
    PairedFiles(store, dirs);
    var files, indexes := DataOf(store, dirs), IndexesOf(store, dirs);
    AllHitsScan(files, indexes, |files|, filter);
    assert files[..|files|] == files && indexes[..|indexes|] == indexes;
  }

  const HALF := Store(map["a" := [Row(1, "one")], "b" := [Row(2, "two")]], map["b" := [Entry(2, 0)]])

  /** With "a" left without an index, asking for key 2 gives the row of key 1, and no error. */
  lemma DataOnlyAnswersWrongly()
    ensures Listed(["a", "b"], HALF.data.Keys, DATA_FILE) && Listed(["b"], HALF.index.Keys, INDEX_FILE) && ValidStore(HALF)
    ensures DataOf(HALF, ["a", "b"]) == TWO_FILES && IndexesOf(HALF, ["b"]) == [[Entry(2, 0)]]
    ensures var hits := AllHits([[Entry(2, 0)]], Eq(Int64(2)));
            && hits == [(Int64(2), 0)] && InFiles(TWO_FILES, 0) && RowsOf(TWO_FILES, hits) == [Row(1, "one")]
    ensures Filtered(ScanRows(TWO_FILES), Eq(Int64(2))) == [Row(2, "two")]
  {
    ABSorted();
    TwoListed("a", "b", HALF.data.Keys, DATA_FILE);
    OneListed("b", HALF.index.Keys, INDEX_FILE);
    HalfIsValid();
    assert DataOf(HALF, ["a", "b"]) == TWO_FILES;
    HitOfTwo();
    ScanOfTwo();
  }

  const TWO_FILES := [[Row(1, "one")], [Row(2, "two")]]

  lemma TwoListed(d: string, e: string, all: set<string>, name: string)
    requires Before(d, e, name) && all == {d, e}
    ensures Listed([d, e], all, name)
  {
  }

  lemma OneListed(d: string, all: set<string>, name: string)
    requires all == {d}
    ensures Listed([d], all, name)
  {
  }

  lemma HalfIsValid()
    ensures ValidStore(HALF)
  {
    assert EntriesOf([Row(2, "two")]) == [Entry(2, 0)];
  }

  lemma ABSorted()
    ensures Before("a", "b", DATA_FILE)
  {
    assert Path("a", DATA_FILE)[0] == 'a' && Path("b", DATA_FILE)[0] == 'b';
  }

  lemma HitOfTwo()
    ensures AllHits([[Entry(2, 0)]], Eq(Int64(2))) == [(Int64(2), 0)]
    ensures InFiles(TWO_FILES, 0) && RowsOf(TWO_FILES, [(Int64(2), 0)]) == [Row(1, "one")]
  {
    assert DecodeRowId(0) == (0, 0);
    var es := [Entry(2, 0)];
    var indexes := [es];
    assert es[..0] == [] && indexes[..0] == [];
    assert Hits(es, 0, Eq(Int64(2))) == [(Int64(2), 0)];
  }

  lemma ScanOfTwo()
    ensures Filtered(ScanRows(TWO_FILES), Eq(Int64(2))) == [Row(2, "two")]
  {
    var one, two := [Row(1, "one")], [Row(2, "two")];
    var files, first := [one, two], [one];
    assert files == TWO_FILES && files[..1] == first && first[..0] == [];
    assert ScanRows(first) == [] + one;
    assert ScanRows(files) == one + two;
    assert (one + two)[..1] == one && one[..0] == [];
  }

  /** A directory "f" below another one comes behind its data file but in front of its index file. */
  lemma NestedSwaps()
    ensures Below("a", "a/f") && !SubSortsAlike("f") && !SortAlike({"a", "a/f"})
  {
    assert "a/f"[..1] == "a" && "a/f"[2..] == "f";
    assert DATA_FILE[0] == 'd' && Path("f", DATA_FILE)[0] == 'f';
    assert INDEX_FILE[0] == 'p' && Path("f", INDEX_FILE)[0] == 'f';
    SortAlikeIff({"a", "a/f"});
  }
}
