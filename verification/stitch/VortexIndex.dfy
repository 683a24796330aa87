/**
 The Vortex bucket format (lattik-stitch/crates/lattik-format-vortex): a data file and a primary-key
 index per bucket, index probes, and row fetches by composite row id. Probing and fetching agrees
 with scanning.
 */
module VortexIndex {
  import opened Wrappers
  import opened Grouping
  import opened Strings

  const U32_MAX := 0xFFFF_FFFF

  // ----- values and filters -----

  datatype PkValue = Int64(i: int) | Utf8(s: string)

  /** The derived order: constructors first, then their contents; strings by code point, as their UTF-8 bytes compare. */
  predicate PkLe(a: PkValue, b: PkValue) {
    match a
    case Int64(i) => if b.Int64? then i <= b.i else true
    case Utf8(s) => b.Utf8? && StringLe(s, b.s)
  }

  datatype PkFilter = Eq(value: PkValue) | In(values: seq<PkValue>) | Range(min: PkValue, max: PkValue)

  predicate Matches(pk: PkValue, filter: PkFilter) {
    match filter
    case Eq(value) => pk == value
    case In(values) => pk in values
    case Range(min, max) => PkLe(min, pk) && PkLe(pk, max)
  }

  /** What a filter asks of an integer key, in integers: any integer stands before any string. */
  predicate KeyAsked(filter: PkFilter, k: int) {
    match filter
    case Eq(value) => value.Int64? && k == value.i
    case In(values) => exists i :: 0 <= i < |values| && values[i].Int64? && k == values[i].i
    case Range(min, max) => min.Int64? && min.i <= k && (max.Int64? ==> k <= max.i)
  }

  lemma MatchesIsAsked(filter: PkFilter, k: int)
    ensures Matches(Int64(k), filter) <==> KeyAsked(filter, k)
  {
    if filter.In? && Matches(Int64(k), filter) {
      var i :| 0 <= i < |filter.values| && filter.values[i] == Int64(k);
    }
  }

  datatype Row = Row(pk: int, columns: string)

  datatype Entry = Entry(pk: int, rowId: nat)

  /** A sealed bucket: the rows of its data file and the entries of its index file. */
  datatype Bucket = Bucket(data: seq<Row>, index: seq<Entry>)

  datatype Error = NoFiles | TooManyBuckets | RowIdTooLarge(rowId: nat) | BucketOutOfRange | RowOutOfRange | NoRowsFetched

  // ----- writing -----

  function Concat(batches: seq<seq<Row>>): seq<Row> {
    if batches == [] then [] else Concat(batches[..|batches| - 1]) + batches[|batches| - 1]
  }

  /** One entry per row, with its position in the data file. */
  function EntriesOf(rows: seq<Row>): (es: seq<Entry>)
    ensures |es| == |rows|
    ensures forall i :: 0 <= i < |rows| ==> es[i] == Entry(rows[i].pk, i)
  {
    seq(|rows|, i requires 0 <= i < |rows| => Entry(rows[i].pk, i))
  }

  ghost predicate SortedByPk(es: seq<Entry>) {
    forall i, j :: 0 <= i < j < |es| ==> es[i].pk <= es[j].pk
  }

  /** Puts an entry behind the ones with the same or a smaller key. */
  method InsertByPk(es: seq<Entry>, e: Entry) returns (r: seq<Entry>)
    requires SortedByPk(es)
    ensures multiset(r) == multiset(es) + multiset{e} && SortedByPk(r)
  {
    var i := |es|;
    while i > 0 && es[i - 1].pk > e.pk
      invariant 0 <= i <= |es|
      invariant i < |es| ==> es[i].pk > e.pk
    {
      i := i - 1;
    }
    InsertedAt(es, i, e);
    r := es[..i] + [e] + es[i..];
  }

  lemma InsertedAt(es: seq<Entry>, i: nat, e: Entry)
    requires SortedByPk(es) && i <= |es|
    requires i > 0 ==> es[i - 1].pk <= e.pk
    requires i < |es| ==> es[i].pk > e.pk
    ensures var r := es[..i] + [e] + es[i..];
            multiset(r) == multiset(es) + multiset{e} && SortedByPk(r)
  {
    var a, b := es[..i], es[i..];
    assert es == a + b;
    InsertedMultiset(a, e, b);
    InsertedSorted(a, e, b);
  }

  lemma InsertedMultiset(a: seq<Entry>, e: Entry, b: seq<Entry>)
    ensures multiset(a + [e] + b) == multiset(a + b) + multiset{e}
  {
  }

  lemma InsertedSorted(a: seq<Entry>, e: Entry, b: seq<Entry>)
    requires SortedByPk(a + b)
    requires a != [] ==> a[|a| - 1].pk <= e.pk
    requires b != [] ==> e.pk < b[0].pk
    ensures SortedByPk(a + [e] + b)
  {
    SortedParts(a, b);
    SortedJoin(a, [e]);
    var c := a + [e];
    assert c[|c| - 1] == e;
    SortedJoin(c, b);
  }

  lemma SortedParts(a: seq<Entry>, b: seq<Entry>)
    requires SortedByPk(a + b)
    ensures SortedByPk(a) && SortedByPk(b)
  {
    forall i, j | 0 <= i < j < |a|
      ensures a[i].pk <= a[j].pk
    {
      assert (a + b)[i] == a[i] && (a + b)[j] == a[j];
    }
    forall i, j | 0 <= i < j < |b|
      ensures b[i].pk <= b[j].pk
    {
      assert (a + b)[|a| + i] == b[i] && (a + b)[|a| + j] == b[j];
    }
  }

  lemma SortedJoin(a: seq<Entry>, b: seq<Entry>)
    requires SortedByPk(a) && SortedByPk(b) && (a != [] && b != [] ==> a[|a| - 1].pk <= b[0].pk)
    ensures SortedByPk(a + b)
  {
  }

  method SortByPk(entries: seq<Entry>) returns (es: seq<Entry>)
    ensures multiset(es) == multiset(entries) && SortedByPk(es)
  {
    es := [];
    for n := 0 to |entries|
      invariant multiset(es) == multiset(entries[..n]) && SortedByPk(es)
    {
      es := InsertByPk(es, entries[n]);
      assert entries[..n + 1] == entries[..n] + [entries[n]];
    }
    assert entries[..|entries|] == entries;
  }

  /** The index covers every row of the data file once and is sorted by key. */
  ghost predicate ValidBucket(b: Bucket) {
    multiset(b.index) == multiset(EntriesOf(b.data)) && SortedByPk(b.index)
  }

  /** Writes one bucket; row offsets run on across batches. Nothing is written without batches. */
  method WriteBucket(batches: seq<seq<Row>>) returns (bucket: Option<Bucket>)
    ensures bucket.None? <==> batches == []
    ensures bucket.Some? ==> bucket.value.data == Concat(batches) && ValidBucket(bucket.value)
  {
    if |batches| == 0 {
      return None;
    }
    var data: seq<Row> := [];
    var pairs: seq<Entry> := [];
    var offset := 0;
    for b := 0 to |batches|
      invariant data == Concat(batches[..b]) && offset == |data| && pairs == EntriesOf(data)
    {
      var batch := batches[b];
      ghost var before := data;
      for i := 0 to |batch|
        invariant pairs == EntriesOf(before + batch[..i])
      {
        pairs := pairs + [Entry(batch[i].pk, offset + i)];
        assert before + batch[..i + 1] == before + batch[..i] + [batch[i]];
      }
      assert batch[..|batch|] == batch;
      data := data + batch;
      offset := offset + |batch|;
      assert batches[..b + 1][..b] == batches[..b];
    }
    assert batches[..|batches|] == batches;
    var index := SortByPk(pairs);
    bucket := Some(Bucket(data, index));
  }

  // ----- row ids -----

  function EncodeRowId(bucket: nat, rowId: nat): Fallible<nat, Error> {
    if bucket > U32_MAX then Err(TooManyBuckets)
    else if rowId > U32_MAX then Err(RowIdTooLarge(rowId))
    else Ok(bucket * 0x1_0000_0000 + rowId)
  }

  function DecodeRowId(encoded: nat): (nat, nat) {
    ((encoded / 0x1_0000_0000) % 0x1_0000_0000, encoded % 0x1_0000_0000)
  }

  /** Encoding succeeds exactly for 32-bit halves, and decoding is its inverse both ways. */
  lemma RowIdsInvert(bucket: nat, rowId: nat)
    ensures EncodeRowId(bucket, rowId).Ok? <==> bucket <= U32_MAX && rowId <= U32_MAX
    ensures EncodeRowId(bucket, rowId).Ok? ==>
              EncodeRowId(bucket, rowId).value < 0x1_0000_0000_0000_0000 && DecodeRowId(EncodeRowId(bucket, rowId).value) == (bucket, rowId)
  {
    if bucket <= U32_MAX && rowId <= U32_MAX {
      HalvesBack(bucket, rowId);
    }
  }

  lemma HalvesBack(high: nat, low: nat)
    requires high <= U32_MAX && low <= U32_MAX
    ensures (high * 0x1_0000_0000 + low) / 0x1_0000_0000 == high && (high * 0x1_0000_0000 + low) % 0x1_0000_0000 == low
  {
  }

  lemma DecodedReencode(encoded: nat)
    requires encoded < 0x1_0000_0000_0000_0000
    ensures EncodeRowId(DecodeRowId(encoded).0, DecodeRowId(encoded).1) == Ok(encoded)
  {
  }

  // ----- scanning -----

  function ScanRows(files: seq<seq<Row>>): seq<Row> {
    if files == [] then [] else ScanRows(files[..|files| - 1]) + files[|files| - 1]
  }

  method ScanData(files: seq<seq<Row>>) returns (r: Fallible<seq<Row>, Error>)
    ensures r == if files == [] then Err(NoFiles) else Ok(ScanRows(files))
  {
    if |files| == 0 {
      return Err(NoFiles);
    }
    var rows: seq<Row> := [];
    for b := 0 to |files|
      invariant rows == ScanRows(files[..b])
    {
      rows := rows + files[b];
      assert files[..b + 1][..b] == files[..b];
    }
    assert files[..|files|] == files;
    r := Ok(rows);
  }

  function Filtered(rows: seq<Row>, filter: PkFilter): seq<Row> {
    if rows == [] then []
    else
      var rest := Filtered(rows[..|rows| - 1], filter);
      var r := rows[|rows| - 1];
      if Matches(Int64(r.pk), filter) then rest + [r] else rest
  }

  /** Every row as often as it was there, if its key is asked for, and never otherwise. */
  ghost predicate Chosen(chosen: seq<Row>, rows: seq<Row>, filter: PkFilter) {
    forall r: Row :: multiset(chosen)[r] == if KeyAsked(filter, r.pk) then multiset(rows)[r] else 0
  }

  predicate SomeAsked(rows: seq<Row>, filter: PkFilter) {
    exists i :: 0 <= i < |rows| && KeyAsked(filter, rows[i].pk)
  }

  lemma SomeAskedMore(rows: seq<Row>, r: Row, filter: PkFilter)
    ensures SomeAsked(rows + [r], filter) <==> SomeAsked(rows, filter) || KeyAsked(filter, r.pk)
  {
    if SomeAsked(rows, filter) {
      var i :| 0 <= i < |rows| && KeyAsked(filter, rows[i].pk);
      assert KeyAsked(filter, (rows + [r])[i].pk);
    }
    assert (rows + [r])[|rows|] == r;
  }

  lemma {:induction false} FilteredAreChosen(rows: seq<Row>, filter: PkFilter)
    ensures Chosen(Filtered(rows, filter), rows, filter)
    ensures Filtered(rows, filter) != [] <==> SomeAsked(rows, filter)
  {
    if rows != [] {
      var front, last := rows[..|rows| - 1], rows[|rows| - 1];
      FilteredAreChosen(front, filter);
      MatchesIsAsked(filter, last.pk);
      SomeAskedMore(front, last, filter);
      assert rows == front + [last];
    }
  }

  // ----- probing -----

  function Encoded(bucket: nat, rowId: nat): nat { bucket * 0x1_0000_0000 + rowId }

  /** The matching entries of one index file, in file order. */
  function Hits(es: seq<Entry>, bucket: nat, filter: PkFilter): seq<(PkValue, nat)> {
    if es == [] then []
    else
      var rest := Hits(es[..|es| - 1], bucket, filter);
      var e := es[|es| - 1];
      if Matches(Int64(e.pk), filter) then rest + [(Int64(e.pk), Encoded(bucket, e.rowId))] else rest
  }

  function AllHits(indexes: seq<seq<Entry>>, filter: PkFilter): seq<(PkValue, nat)> {
    if indexes == [] then []
    else
      var last := |indexes| - 1;
      AllHits(indexes[..last], filter) + Hits(indexes[last], last, filter)
  }

  /** Every entry asked for has 32-bit bucket and row numbers. */
  ghost predicate Encodable(indexes: seq<seq<Entry>>, filter: PkFilter) {
    forall b, i :: 0 <= b < |indexes| && 0 <= i < |indexes[b]| && KeyAsked(filter, indexes[b][i].pk) ==>
      EncodeRowId(b, indexes[b][i].rowId).Ok?
  }

  /** The hits are the entries asked for, and no others. */
  ghost predicate AskedHits(indexes: seq<seq<Entry>>, filter: PkFilter, hits: seq<(PkValue, nat)>) {
    && (forall h :: h in hits ==> h.0.Int64? && KeyAsked(filter, h.0.i))
    && (forall b, i :: 0 <= b < |indexes| && 0 <= i < |indexes[b]| && KeyAsked(filter, indexes[b][i].pk) ==>
          (Int64(indexes[b][i].pk), Encoded(b, indexes[b][i].rowId)) in hits)
  }

  lemma {:induction false} HitsAsked(es: seq<Entry>, bucket: nat, filter: PkFilter)
    ensures forall h :: h in Hits(es, bucket, filter) ==> h.0.Int64? && KeyAsked(filter, h.0.i)
    ensures forall i :: 0 <= i < |es| && KeyAsked(filter, es[i].pk) ==>
              (Int64(es[i].pk), Encoded(bucket, es[i].rowId)) in Hits(es, bucket, filter)
  {
    if es != [] {
      HitsAsked(es[..|es| - 1], bucket, filter);
      MatchesIsAsked(filter, es[|es| - 1].pk);
    }
  }

  lemma {:induction false} AllHitsAsked(indexes: seq<seq<Entry>>, filter: PkFilter)
    ensures AskedHits(indexes, filter, AllHits(indexes, filter))
  {
    if indexes != [] {
      var last := |indexes| - 1;
      AllHitsAsked(indexes[..last], filter);
      HitsAsked(indexes[last], last, filter);
      JoinAsked(indexes[..last], indexes[last], filter, AllHits(indexes[..last], filter), Hits(indexes[last], last, filter));
      assert indexes[..last] + [indexes[last]] == indexes;
    }
  }

  lemma JoinAsked(indexes: seq<seq<Entry>>, es: seq<Entry>, filter: PkFilter, hits: seq<(PkValue, nat)>, more: seq<(PkValue, nat)>)
    requires AskedHits(indexes, filter, hits)
    requires forall h :: h in more ==> h.0.Int64? && KeyAsked(filter, h.0.i)
    requires forall i :: 0 <= i < |es| && KeyAsked(filter, es[i].pk) ==> (Int64(es[i].pk), Encoded(|indexes|, es[i].rowId)) in more
    ensures AskedHits(indexes + [es], filter, hits + more)
  {
  }

  method ProbeFile(es: seq<Entry>, bucket: nat, filter: PkFilter) returns (r: Fallible<seq<(PkValue, nat)>, Error>)
    ensures r.Ok? <==> forall i :: 0 <= i < |es| && KeyAsked(filter, es[i].pk) ==> EncodeRowId(bucket, es[i].rowId).Ok?
    ensures r.Ok? ==> r.value == Hits(es, bucket, filter)
  {
    var results: seq<(PkValue, nat)> := [];
    for i := 0 to |es|
      invariant results == Hits(es[..i], bucket, filter)
      invariant forall j :: 0 <= j < i && KeyAsked(filter, es[j].pk) ==> EncodeRowId(bucket, es[j].rowId).Ok?
    {
      MatchesIsAsked(filter, es[i].pk);
      assert es[..i + 1][..i] == es[..i];
      var pk := Int64(es[i].pk);
      if Matches(pk, filter) {
        var encoded := EncodeRowId(bucket, es[i].rowId);
        if encoded.Err? {
          return Err(encoded.error);
        }
        results := results + [(pk, encoded.value)];
      }
    }
    assert es[..|es|] == es;
    r := Ok(results);
  }

  method ProbeIndex(indexes: seq<seq<Entry>>, filter: PkFilter) returns (r: Fallible<seq<(PkValue, nat)>, Error>)
    ensures r.Ok? <==> indexes != [] && Encodable(indexes, filter)
    ensures r.Ok? ==> r.value == AllHits(indexes, filter) && AskedHits(indexes, filter, r.value)
  {
    if |indexes| == 0 {
      return Err(NoFiles);
    }
    var results: seq<(PkValue, nat)> := [];
    for b := 0 to |indexes|
      invariant results == AllHits(indexes[..b], filter)
      invariant Encodable(indexes[..b], filter)
    {
      assert indexes[..b + 1][..b] == indexes[..b];
      var hits := ProbeFile(indexes[b], b, filter);
      if hits.Err? {
        return Err(hits.error);
      }
      results := results + hits.value;
    }
    assert indexes[..|indexes|] == indexes;
    AllHitsAsked(indexes, filter);
    r := Ok(results);
  }

  // ----- fetching -----

  /** One requested row: where it goes, and where it is. */
  datatype Pick = Pick(position: nat, bucket: nat, local: nat)

  function BucketOf(p: Pick): nat { p.bucket }

  function PickAt(ids: seq<nat>, i: nat): Pick
    requires i < |ids|
  {
    Pick(i, DecodeRowId(ids[i]).0, DecodeRowId(ids[i]).1)
  }

  predicate InFiles(files: seq<seq<Row>>, id: nat) {
    DecodeRowId(id).0 < |files| && DecodeRowId(id).1 < |files[DecodeRowId(id).0]|
  }

  function RowAt(files: seq<seq<Row>>, id: nat): Row
    requires InFiles(files, id)
  {
    files[DecodeRowId(id).0][DecodeRowId(id).1]
  }

  method Picks(ids: seq<nat>) returns (picks: seq<Pick>)
    ensures |picks| == |ids| && forall i :: 0 <= i < |ids| ==> picks[i] == PickAt(ids, i)
  {
    picks := [];
    for i := 0 to |ids|
      invariant |picks| == i && forall j :: 0 <= j < i ==> picks[j] == PickAt(ids, j)
    {
      var (bucket, local) := DecodeRowId(ids[i]);
      picks := picks + [Pick(i, bucket, local)];
    }
  }

  /** The rows of one file by local row ids, in the order asked. */
  method TakeFromFile(file: seq<Row>, picks: seq<Pick>) returns (r: Fallible<seq<Row>, Error>)
    ensures r.Ok? <==> forall j :: 0 <= j < |picks| ==> picks[j].local < |file|
    ensures r.Ok? ==> |r.value| == |picks| && forall j :: 0 <= j < |picks| ==> r.value[j] == file[picks[j].local]
  {
    var rows: seq<Row> := [];
    for j := 0 to |picks|
      invariant |rows| == j && forall k :: 0 <= k < j ==> picks[k].local < |file| && rows[k] == file[picks[k].local]
    {
      if picks[j].local >= |file| {
        return Err(RowOutOfRange);
      }
      rows := rows + [file[picks[j].local]];
    }
    r := Ok(rows);
  }

  /** `taken` are picks already read: their positions and rows, in the order the files were visited. */
  ghost predicate Gathered(files: seq<seq<Row>>, taken: seq<Pick>, positions: seq<nat>, rows: seq<Row>) {
    && |taken| == |positions| == |rows|
    && forall j :: 0 <= j < |taken| ==>
         && positions[j] == taken[j].position
         && taken[j].bucket < |files| && taken[j].local < |files[taken[j].bucket]|
         && rows[j] == files[taken[j].bucket][taken[j].local]
  }

  lemma GatheredMore(files: seq<seq<Row>>, taken: seq<Pick>, positions: seq<nat>, rows: seq<Row>,
                     more: seq<Pick>, local: seq<nat>, batch: seq<Row>, b: nat)
    requires Gathered(files, taken, positions, rows) && b < |files| && local == PositionsOf(more) && |batch| == |more|
    requires forall j :: 0 <= j < |more| ==> more[j].bucket == b && more[j].local < |files[b]| && batch[j] == files[b][more[j].local]
    ensures Gathered(files, taken + more, positions + local, rows + batch)
  {
  }

  lemma BucketMembers(picks: seq<Pick>, b: nat)
    ensures forall j :: 0 <= j < |Group(picks, BucketOf, b)| ==>
              Group(picks, BucketOf, b)[j] in picks && Group(picks, BucketOf, b)[j].bucket == b
  {
  }

  /** Reads the picks bucket by bucket: `positions` says where each row of the concatenation belongs. */
  method Gather(files: seq<seq<Row>>, picks: seq<Pick>)
    returns (r: Fallible<seq<Row>, Error>, positions: seq<nat>, ghost taken: seq<Pick>)
    ensures r.Ok? ==> multiset(taken) == multiset(picks) && Gathered(files, taken, positions, r.value)
    ensures r.Err? ==> exists p :: p in picks && (p.bucket >= |files| || p.local >= |files[p.bucket]|)
  {
    var groups := GroupBy(picks, BucketOf);
    var todo := groups.Keys;
    var rows: seq<Row> := [];
    positions, taken := [], [];
    NothingLeftOut(picks, BucketOf, todo);
    while todo != {}
      invariant todo <= groups.Keys
      invariant multiset(taken) == multiset(Outside(picks, BucketOf, todo))
      invariant Gathered(files, taken, positions, rows)
      decreases |todo|
    {
      var b: nat :| b in todo;
      var bucketRows := groups[b];
      BucketMembers(picks, b);
      if b >= |files| {
        assert bucketRows[0] in picks;
        return Err(BucketOutOfRange), positions, taken;
      }
      var batch := TakeFromFile(files[b], bucketRows);
      if batch.Err? {
        return Err(batch.error), positions, taken;
      }
      OutsideOneLess(picks, BucketOf, todo, b);
      var local := PositionsOf(bucketRows);
      GatheredMore(files, taken, positions, rows, bucketRows, local, batch.value, b);
      positions, rows, taken := positions + local, rows + batch.value, taken + bucketRows;
      todo := todo - {b};
    }
    OutsideNothing(picks, BucketOf);
    r := Ok(rows);
  }

  function PositionsOf(picks: seq<Pick>): (r: seq<nat>)
    ensures |r| == |picks| && forall j :: 0 <= j < |picks| ==> r[j] == picks[j].position
  {
    seq(|picks|, j requires 0 <= j < |picks| => picks[j].position)
  }

  /** Where each requested row stands in the concatenation. */
  method Reorder(positions: seq<nat>) returns (reorder: array<Option<nat>>)
    requires forall j :: 0 <= j < |positions| ==> positions[j] < |positions|
    ensures fresh(reorder) && reorder.Length == |positions|
    ensures forall p :: 0 <= p < reorder.Length && reorder[p].Some? ==> reorder[p].value < |positions| && positions[reorder[p].value] == p
    ensures forall j :: 0 <= j < |positions| ==> reorder[positions[j]].Some?
  {
    reorder := new Option<nat>[|positions|](_ => None);
    for j := 0 to |positions|
      invariant forall p :: 0 <= p < reorder.Length && reorder[p].Some? ==> reorder[p].value < j && positions[reorder[p].value] == p
      invariant forall i :: 0 <= i < j ==> reorder[positions[i]].Some?
    {
      reorder[positions[j]] := Some(j);
    }
  }

  /**
   Row `i` of the result is the row that id `i` names, for any order and any repetition of ids. The
   fetch fails exactly when there is no id, or one that names no row.
   */
  method FetchRows(files: seq<seq<Row>>, ids: seq<nat>) returns (r: Fallible<seq<Row>, Error>)
    ensures r.Ok? <==> ids != [] && forall i :: 0 <= i < |ids| ==> InFiles(files, ids[i])
    ensures r.Ok? ==> |r.value| == |ids| && forall i :: 0 <= i < |ids| ==> r.value[i] == RowAt(files, ids[i])
  {
    if |files| == 0 {
      assert |ids| > 0 ==> !InFiles(files, ids[0]);
      return Err(NoFiles);
    }
    var picks := Picks(ids);
    var rows, positions;
    ghost var taken;
    rows, positions, taken := Gather(files, picks);
    if rows.Err? {
      GatherFailed(files, ids, picks);
      return rows;
    }
    if |ids| == 0 {
      return Err(NoRowsFetched);
    }
    TakenPicks(files, ids, picks, taken, positions, rows.value);
    var reorder := Reorder(positions);
    var out: seq<Row> := [];
    for i := 0 to |ids|
      invariant |out| == i && forall k :: 0 <= k < i ==> out[k] == RowAt(files, ids[k])
    {
      assert InFiles(files, ids[i]);
      out := out + [rows.value[reorder[i].value]];
    }
    r := Ok(out);
  }

  lemma GatherFailed(files: seq<seq<Row>>, ids: seq<nat>, picks: seq<Pick>)
    requires |picks| == |ids| && forall i :: 0 <= i < |ids| ==> picks[i] == PickAt(ids, i)
    requires exists p :: p in picks && (p.bucket >= |files| || p.local >= |files[p.bucket]|)
    ensures exists i :: 0 <= i < |ids| && !InFiles(files, ids[i])
  {
  }

  /** A permutation of the picks still knows the place and the row of every id. */
  lemma TakenPicks(files: seq<seq<Row>>, ids: seq<nat>, picks: seq<Pick>, taken: seq<Pick>, positions: seq<nat>, rows: seq<Row>)
    requires |picks| == |ids| && forall i :: 0 <= i < |ids| ==> picks[i] == PickAt(ids, i)
    requires multiset(taken) == multiset(picks) && Gathered(files, taken, positions, rows)
    ensures |positions| == |ids|
    ensures forall j :: 0 <= j < |positions| ==>
              positions[j] < |ids| && InFiles(files, ids[positions[j]]) && rows[j] == RowAt(files, ids[positions[j]])
    ensures forall i :: 0 <= i < |ids| ==> InFiles(files, ids[i]) && exists j :: 0 <= j < |positions| && positions[j] == i
  {
    assert |taken| == |multiset(taken)| && |picks| == |multiset(picks)|;
    forall j | 0 <= j < |positions|
      ensures positions[j] < |ids| && InFiles(files, ids[positions[j]]) && rows[j] == RowAt(files, ids[positions[j]])
    {
      assert taken[j] in multiset(taken);
      var i :| 0 <= i < |picks| && picks[i] == taken[j];
    }
    forall i | 0 <= i < |ids|
      ensures InFiles(files, ids[i]) && exists j :: 0 <= j < |positions| && positions[j] == i
    {
      assert picks[i] in multiset(picks);
      var j :| 0 <= j < |taken| && taken[j] == picks[i];
      assert positions[j] == i;
    }
  }

  // ----- the index agrees with the scan -----

  /** The rows that hits lead to. */
  function RowsOf(files: seq<seq<Row>>, hits: seq<(PkValue, nat)>): (r: seq<Row>)
    requires forall i :: 0 <= i < |hits| ==> InFiles(files, hits[i].1)
    ensures |r| == |hits| && forall i :: 0 <= i < |hits| ==> r[i] == RowAt(files, hits[i].1)
  {
    seq(|hits|, i requires 0 <= i < |hits| => RowAt(files, hits[i].1))
  }

  /** The `b`-th index file is the index of the `b`-th data file. */
  ghost predicate ValidBuckets(files: seq<seq<Row>>, indexes: seq<seq<Entry>>) {
    |files| == |indexes| && forall b :: 0 <= b < |files| ==> ValidBucket(Bucket(files[b], indexes[b]))
  }

  /** The matching rows that the entries of an index name, as a multiset. */
  ghost function Named(data: seq<Row>, es: seq<Entry>, filter: PkFilter): multiset<Row> {
    if es == [] then multiset{}
    else
      var e := es[|es| - 1];
      Named(data, es[..|es| - 1], filter)
      + if Matches(Int64(e.pk), filter) && e.rowId < |data| then multiset{data[e.rowId]} else multiset{}
  }

  lemma Cancel<T>(front: seq<T>, e: T, l: seq<T>, r: seq<T>)
    requires multiset(front + [e]) == multiset(l + [e] + r)
    ensures multiset(front) == multiset(l + r)
  {
    assert multiset(front) + multiset{e} == multiset(l) + multiset(r) + multiset{e};
    assert forall x :: multiset(front)[x] == (multiset(front) + multiset{e})[x] - multiset{e}[x];
  }

  lemma NamedSnoc(data: seq<Row>, es: seq<Entry>, e: Entry, filter: PkFilter)
    ensures Named(data, es + [e], filter) == Named(data, es, filter) + Named(data, [e], filter)
  {
  }

  lemma {:induction false} NamedSplit(data: seq<Row>, a: seq<Entry>, e: Entry, b: seq<Entry>, filter: PkFilter)
    ensures Named(data, a + [e] + b, filter) == Named(data, a + b, filter) + Named(data, [e], filter)
    decreases |b|
  {
    if b == [] {
      assert a + [e] + b == a + [e] && a + b == a;
      NamedSnoc(data, a, e, filter);
    } else {
      var front, x := b[..|b| - 1], b[|b| - 1];
      NamedSplit(data, a, e, front, filter);
      NamedSnoc(data, a + [e] + front, x, filter);
      NamedSnoc(data, a + front, x, filter);
      LastOut(a + [e], front, x, b);
      LastOut(a, front, x, b);
    }
  }

  lemma LastOut<T>(a: seq<T>, front: seq<T>, x: T, b: seq<T>)
    requires b == front + [x]
    ensures a + b == a + front + [x]
  {
  }

  /** What an index names does not depend on the order of its entries. */
  lemma {:induction false} NamedPermutes(data: seq<Row>, a: seq<Entry>, b: seq<Entry>, filter: PkFilter)
    requires multiset(a) == multiset(b)
    ensures Named(data, a, filter) == Named(data, b, filter)
    decreases |a|
  {
    if a == [] {
      assert |multiset(b)| == 0;
    } else {
      var front, e := a[..|a| - 1], a[|a| - 1];
      assert e in multiset(b);
      var i :| 0 <= i < |b| && b[i] == e;
      var l, r := b[..i], b[i + 1..];
      assert a == front + [e] && b == l + [e] + r;
      Cancel(front, e, l, r);
      NamedPermutes(data, front, l + r, filter);
      NamedSnoc(data, front, e, filter);
      NamedSplit(data, l, e, r, filter);
    }
  }

  lemma {:induction false} NamedScan(data: seq<Row>, n: nat, filter: PkFilter)
    requires n <= |data|
    ensures Named(data, EntriesOf(data[..n]), filter) == multiset(Filtered(data[..n], filter))
  {
    if n > 0 {
      NamedScan(data, n - 1, filter);
      PrefixEntries(data, n);
      NamedSnoc(data, EntriesOf(data[..n - 1]), Entry(data[n - 1].pk, n - 1), filter);
      NamedOne(data, n - 1, filter);
      FilteredSnoc(data, n, filter);
    }
  }

  lemma PrefixEntries(data: seq<Row>, n: nat)
    requires 0 < n <= |data|
    ensures EntriesOf(data[..n]) == EntriesOf(data[..n - 1]) + [Entry(data[n - 1].pk, n - 1)]
  {
  }

  lemma NamedOne(data: seq<Row>, i: nat, filter: PkFilter)
    requires i < |data|
    ensures Named(data, [Entry(data[i].pk, i)], filter) == if Matches(Int64(data[i].pk), filter) then multiset{data[i]} else multiset{}
  {
  }

  lemma FilteredSnoc(data: seq<Row>, n: nat, filter: PkFilter)
    requires 0 < n <= |data|
    ensures multiset(Filtered(data[..n], filter))
            == multiset(Filtered(data[..n - 1], filter)) + if Matches(Int64(data[n - 1].pk), filter) then multiset{data[n - 1]} else multiset{}
  {
    assert data[..n][..n - 1] == data[..n - 1];
  }

  /** The entries of a valid index name existing rows with the entry's key. */
  lemma ValidEntries(b: Bucket)
    requires ValidBucket(b)
    ensures forall i :: 0 <= i < |b.index| ==> b.index[i].rowId < |b.data| && b.data[b.index[i].rowId].pk == b.index[i].pk
  {
    forall i | 0 <= i < |b.index|
      ensures b.index[i].rowId < |b.data| && b.data[b.index[i].rowId].pk == b.index[i].pk
    {
      assert b.index[i] in multiset(b.index);
      assert b.index[i] in EntriesOf(b.data);
    }
  }

  ghost predicate GoodHits(files: seq<seq<Row>>, hits: seq<(PkValue, nat)>) {
    forall i :: 0 <= i < |hits| ==> InFiles(files, hits[i].1) && hits[i].0 == Int64(RowAt(files, hits[i].1).pk)
  }

  lemma {:induction false} HitsNamed(files: seq<seq<Row>>, es: seq<Entry>, bucket: nat, filter: PkFilter)
    requires bucket < |files| && bucket <= U32_MAX
    requires forall i :: 0 <= i < |es| ==> es[i].rowId < |files[bucket]| && files[bucket][es[i].rowId].pk == es[i].pk
    requires forall i :: 0 <= i < |es| && Matches(Int64(es[i].pk), filter) ==> es[i].rowId <= U32_MAX
    ensures GoodHits(files, Hits(es, bucket, filter))
    ensures multiset(RowsOf(files, Hits(es, bucket, filter))) == Named(files[bucket], es, filter)
  {
    if es != [] {
      var last := |es| - 1;
      HitsNamed(files, es[..last], bucket, filter);
      if Matches(Int64(es[last].pk), filter) {
        RowIdsInvert(bucket, es[last].rowId);
        var before := Hits(es[..last], bucket, filter);
        assert RowsOf(files, Hits(es, bucket, filter)) == RowsOf(files, before) + [files[bucket][es[last].rowId]];
      }
    }
  }

  /** Per bucket: what its hits lead to are its matching rows. */
  lemma BucketHits(files: seq<seq<Row>>, indexes: seq<seq<Entry>>, b: nat, filter: PkFilter)
    requires ValidBuckets(files, indexes) && Encodable(indexes, filter) && b < |files| && |files| <= U32_MAX + 1
    ensures Leads(files, Hits(indexes[b], b, filter), files[b], filter)
  {
    var bucket := Bucket(files[b], indexes[b]);
    assert ValidBucket(bucket);
    ValidEntries(bucket);
    HitsNamed(files, bucket.index, b, filter);
    NamedPermutes(bucket.data, bucket.index, EntriesOf(bucket.data), filter);
    NamedScan(bucket.data, |bucket.data|, filter);
    assert bucket.data[..|bucket.data|] == bucket.data;
  }

  lemma {:induction false} FilteredConcat(a: seq<Row>, b: seq<Row>, filter: PkFilter)
    ensures Filtered(a + b, filter) == Filtered(a, filter) + Filtered(b, filter)
  {
    if b == [] {
      assert a + b == a;
    } else {
      var last := |b| - 1;
      FilteredConcat(a, b[..last], filter);
      assert (a + b)[..|a + b| - 1] == a + b[..last];
    }
  }

  lemma JoinHits(files: seq<seq<Row>>, a: seq<(PkValue, nat)>, b: seq<(PkValue, nat)>)
    requires GoodHits(files, a) && GoodHits(files, b)
    ensures GoodHits(files, a + b)
    ensures multiset(RowsOf(files, a + b)) == multiset(RowsOf(files, a)) + multiset(RowsOf(files, b))
  {
    assert RowsOf(files, a + b) == RowsOf(files, a) + RowsOf(files, b);
  }

  /** `hits` lead to the rows of `scanned` that match. */
  ghost predicate Leads(files: seq<seq<Row>>, hits: seq<(PkValue, nat)>, scanned: seq<Row>, filter: PkFilter) {
    GoodHits(files, hits) && multiset(RowsOf(files, hits)) == multiset(Filtered(scanned, filter))
  }

  lemma LeadsJoin(files: seq<seq<Row>>, a: seq<(PkValue, nat)>, b: seq<(PkValue, nat)>, rows: seq<Row>, more: seq<Row>, filter: PkFilter)
    requires Leads(files, a, rows, filter) && Leads(files, b, more, filter)
    ensures Leads(files, a + b, rows + more, filter)
  {
    JoinHits(files, a, b);
    FilteredConcat(rows, more, filter);
  }

  lemma HitsSnoc(files: seq<seq<Row>>, indexes: seq<seq<Entry>>, n: nat, filter: PkFilter)
    requires 0 < n <= |files| && |files| == |indexes|
    ensures AllHits(indexes[..n], filter) == AllHits(indexes[..n - 1], filter) + Hits(indexes[n - 1], n - 1, filter)
    ensures ScanRows(files[..n]) == ScanRows(files[..n - 1]) + files[n - 1]
  {
    assert indexes[..n][..n - 1] == indexes[..n - 1];
    assert files[..n][..n - 1] == files[..n - 1];
  }

  lemma {:induction false} AllHitsScan(files: seq<seq<Row>>, indexes: seq<seq<Entry>>, n: nat, filter: PkFilter)
    requires ValidBuckets(files, indexes) && Encodable(indexes, filter) && n <= |files| <= U32_MAX + 1
    ensures Leads(files, AllHits(indexes[..n], filter), ScanRows(files[..n]), filter)
  {
    if n > 0 {
      AllHitsScan(files, indexes, n - 1, filter);
      BucketHits(files, indexes, n - 1, filter);
      HitsSnoc(files, indexes, n, filter);
      LeadsJoin(files, AllHits(indexes[..n - 1], filter), Hits(indexes[n - 1], n - 1, filter),
                ScanRows(files[..n - 1]), files[n - 1], filter);
    }
  }

  function IdsOf(hits: seq<(PkValue, nat)>): (ids: seq<nat>)
    ensures |ids| == |hits| && forall i :: 0 <= i < |hits| ==> ids[i] == hits[i].1
  {
    seq(|hits|, i requires 0 <= i < |hits| => hits[i].1)
  }

  /**
   A point lookup through the index files, then the data files. When they belong together one by one,
   the rows fetched are exactly the scanned rows that satisfy the filter, each with the key its hit
   announced, and without a matching row the fetch reports an error.
   */
  method LookupFiles(files: seq<seq<Row>>, indexes: seq<seq<Entry>>, filter: PkFilter)
    returns (hits: Fallible<seq<(PkValue, nat)>, Error>, rows: Fallible<seq<Row>, Error>)
    requires |indexes| <= U32_MAX + 1
    ensures hits.Ok? <==> indexes != [] && Encodable(indexes, filter)
    ensures hits.Ok? ==> hits.value == AllHits(indexes, filter)
    ensures hits.Ok? ==> (rows.Ok? <==> hits.value != [] && forall i :: 0 <= i < |hits.value| ==> InFiles(files, hits.value[i].1))
    ensures hits.Ok? && rows.Ok? ==> rows.value == RowsOf(files, hits.value)
    ensures hits.Ok? && ValidBuckets(files, indexes) ==> (rows.Ok? <==> SomeAsked(ScanRows(files), filter))
    ensures hits.Ok? && rows.Ok? && ValidBuckets(files, indexes) ==> RightAnswer(hits.value, rows.value, ScanRows(files), filter)
  {
    hits := ProbeIndex(indexes, filter);
    if hits.Err? {
      return hits, Err(hits.error);
    }
    var ids := IdsOf(hits.value);
    rows := FetchRows(files, ids);
    FetchedAre(files, hits.value, ids);
    if rows.Ok? {
      assert rows.value == RowsOf(files, hits.value);
    }
    if ValidBuckets(files, indexes) {
      PairedHits(files, indexes, filter, hits.value);
    }
  }

  lemma PairedHits(files: seq<seq<Row>>, indexes: seq<seq<Entry>>, filter: PkFilter, hits: seq<(PkValue, nat)>)
    requires ValidBuckets(files, indexes) && Encodable(indexes, filter) && |indexes| <= U32_MAX + 1 && hits == AllHits(indexes, filter)
    ensures forall i :: 0 <= i < |hits| ==> InFiles(files, hits[i].1)
    ensures hits != [] <==> SomeAsked(ScanRows(files), filter)
    ensures RightAnswer(hits, RowsOf(files, hits), ScanRows(files), filter)
  {
    AllHitsScan(files, indexes, |files|, filter);
    assert indexes[..|indexes|] == indexes && files[..|files|] == files;
    SameLength(RowsOf(files, hits), Filtered(ScanRows(files), filter));
    FilteredAreChosen(ScanRows(files), filter);
  }

  lemma FetchedAre(files: seq<seq<Row>>, hits: seq<(PkValue, nat)>, ids: seq<nat>)
    requires ids == IdsOf(hits)
    ensures ids != [] <==> hits != []
    ensures (forall i :: 0 <= i < |ids| ==> InFiles(files, ids[i])) <==> (forall i :: 0 <= i < |hits| ==> InFiles(files, hits[i].1))
  {
    if forall i :: 0 <= i < |ids| ==> InFiles(files, ids[i]) {
      forall i | 0 <= i < |hits|
        ensures InFiles(files, hits[i].1)
      {
        assert InFiles(files, ids[i]);
      }
    }
  }

  /** The rows that match, each with the key its hit announced. */
  ghost predicate RightAnswer(hits: seq<(PkValue, nat)>, rows: seq<Row>, scanned: seq<Row>, filter: PkFilter) {
    && multiset(rows) == multiset(Filtered(scanned, filter)) && |hits| == |rows| && Chosen(rows, scanned, filter)
    && forall i :: 0 <= i < |rows| ==> hits[i].0 == Int64(rows[i].pk)
  }

  lemma SameLength<T>(a: seq<T>, b: seq<T>)
    requires multiset(a) == multiset(b)
    ensures |a| == |b|
  {
    assert |multiset(a)| == |a| && |multiset(b)| == |b|;
  }
}
