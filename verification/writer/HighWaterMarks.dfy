/**
 High-water marks on snapshot summaries (apps/logger-writer/src/hwm.rs): written as flat
 `kafka_offset_p<n>` text properties and recovered as the largest offset per partition.
 */
module HighWaterMarks {
  import opened Decimals
  import opened Wrappers

  const KEY_PREFIX := "kafka_offset_p"
  const I32_MIN := -0x8000_0000
  const I32_MAX := 0x7fff_ffff
  const I64_MIN := -0x8000_0000_0000_0000
  const I64_MAX := 0x7fff_ffff_ffff_ffff

  // ----- properties -----

  type Partition = p: int | I32_MIN <= p <= I32_MAX
  type Offset = o: int | I64_MIN <= o <= I64_MAX
  type Marks = map<Partition, Offset>
  type Summary = map<string, string>

  function KeyOf(partition: Partition): string {
    KEY_PREFIX + Decimal(partition)
  }

  function ParsePartition(s: string): Option<Partition> {
    match ParseInt(s, I32_MIN, I32_MAX)
    case None => None
    case Some(p) => Some(p)
  }

  function ParseOffset(s: string): Option<Offset> {
    match ParseInt(s, I64_MIN, I64_MAX)
    case None => None
    case Some(o) => Some(o)
  }

  /** The partition a property key names, if it names one. */
  function PartitionOf(key: string): Option<Partition> {
    if KEY_PREFIX <= key then ParsePartition(key[|KEY_PREFIX|..]) else None
  }

  lemma KeyInverts(p: Partition)
    ensures PartitionOf(KeyOf(p)) == Some(p)
  {
    assert KeyOf(p)[|KEY_PREFIX|..] == Decimal(p);
    ParseInverts(p, I32_MIN, I32_MAX);
  }

  /** The property `key` of a summary as a mark, if both sides parse. */
  function MarkAt(summary: Summary, key: string): Option<(Partition, Offset)>
    requires key in summary
  {
    var p := PartitionOf(key);
    var o := ParseOffset(summary[key]);
    if p.Some? && o.Some? then Some((p.value, o.value)) else None
  }

  ghost predicate Extends<K, V>(a: map<K, V>, b: map<K, V>) {
    forall k :: k in b ==> k in a && a[k] == b[k]
  }

  lemma SameMap<K, V>(a: map<K, V>, b: map<K, V>)
    requires Extends(a, b) && Extends(b, a)
    ensures a == b
  {
  }

  /** `summary` carries exactly the marks of the partitions in `keys`, one property each. */
  predicate CarriesOn(summary: Summary, marks: Marks, keys: set<Partition>)
    requires keys <= marks.Keys
  {
    && (forall p :: p in keys ==> KeyOf(p) in summary && summary[KeyOf(p)] == Decimal(marks[p]))
    && (forall key :: key in summary ==> exists p :: p in keys && key == KeyOf(p))
  }

  /** `summary` carries exactly the marks of a writer's pending map. */
  predicate Carries(summary: Summary, marks: Marks) {
    CarriesOn(summary, marks, marks.Keys)
  }

  lemma KeyInjective(p: Partition, q: Partition)
    requires KeyOf(p) == KeyOf(q)
    ensures p == q
  {
    KeyInverts(p);
    KeyInverts(q);
  }

  lemma CarriesOneMore(summary: Summary, marks: Marks, keys: set<Partition>, p: Partition)
    requires keys <= marks.Keys && p in marks && p !in keys && CarriesOn(summary, marks, keys)
    ensures CarriesOn(summary[KeyOf(p) := Decimal(marks[p])], marks, keys + {p})
  {
    forall q | q in keys
      ensures KeyOf(q) != KeyOf(p)
    {
      if KeyOf(q) == KeyOf(p) {
        KeyInjective(q, p);
      }
    }
    var more := summary[KeyOf(p) := Decimal(marks[p])];
    forall key | key in more
      ensures exists q :: q in keys + {p} && key == KeyOf(q)
    {
      if key == KeyOf(p) {
        assert p in keys + {p};
      } else {
        var q :| q in keys && key == KeyOf(q);
        assert q in keys + {p};
      }
    }
  }

  method ToSnapshotProperties(marks: Marks) returns (summary: Summary)
    ensures Carries(summary, marks)
  {
    summary := map[];
    var todo: set<Partition> := marks.Keys;
    while todo != {}
      invariant todo <= marks.Keys
      invariant CarriesOn(summary, marks, marks.Keys - todo)
      decreases |todo|
    {
      var p :| p in todo;
      CarriesOneMore(summary, marks, marks.Keys - todo, p);
      assert marks.Keys - todo + {p} == marks.Keys - (todo - {p});
      summary := summary[KeyOf(p) := Decimal(marks[p])];
      todo := todo - {p};
    }
    assert marks.Keys - todo == marks.Keys;
  }

  /** A summary written from `marks` reads back as exactly those marks. */
  lemma CarriedMarks(summary: Summary, marks: Marks)
    requires Carries(summary, marks)
    ensures forall key :: key in summary ==>
              MarkAt(summary, key).Some? && MarkAt(summary, key).value.0 in marks
              && MarkAt(summary, key).value.1 == marks[MarkAt(summary, key).value.0]
    ensures forall p: Partition :: p in marks ==> KeyOf(p) in summary && MarkAt(summary, KeyOf(p)) == Some((p, marks[p]))
  {
    forall p | p in marks
      ensures KeyOf(p) in summary && MarkAt(summary, KeyOf(p)) == Some((p, marks[p]))
    {
      KeyInverts(p);
      ParseInverts(marks[p], I64_MIN, I64_MAX);
    }
  }

  // ----- resolution over snapshots -----

  /** A mark found on some snapshot. */
  predicate Found(summaries: seq<Summary>, p: Partition, o: Offset) {
    exists i, key :: 0 <= i < |summaries| && key in summaries[i] && MarkAt(summaries[i], key) == Some((p, o))
  }

  /** Every mark of `summary` among `keys` is at most the one in `out`. */
  predicate Covers(out: Marks, summary: Summary, keys: set<string>) {
    forall key :: key in keys && key in summary && MarkAt(summary, key).Some? ==>
      var m := MarkAt(summary, key).value; m.0 in out && m.1 <= out[m.0]
  }

  /** `out` holds the largest mark found for every partition that has one. */
  predicate Resolves(out: Marks, summaries: seq<Summary>) {
    && (forall p: Partition :: p in out ==> Found(summaries, p, out[p]))
    && (forall i :: 0 <= i < |summaries| ==> Covers(out, summaries[i], summaries[i].Keys))
  }

  predicate Dominates(a: Marks, b: Marks) {
    forall p: Partition :: p in b ==> p in a && b[p] <= a[p]
  }

  lemma CoversMore(a: Marks, b: Marks, summary: Summary, keys: set<string>)
    requires Dominates(a, b) && Covers(b, summary, keys)
    ensures Covers(a, summary, keys)
  {
  }

  lemma FoundMore(summaries: seq<Summary>, summary: Summary, p: Partition, o: Offset)
    requires Found(summaries, p, o)
    ensures Found(summaries + [summary], p, o)
  {
    var i, key :| 0 <= i < |summaries| && key in summaries[i] && MarkAt(summaries[i], key) == Some((p, o));
    assert (summaries + [summary])[i] == summaries[i];
  }

  /** Folds the marks of one snapshot summary into `before`. */
  method ResolveOne(before: Marks, summary: Summary) returns (out: Marks)
    ensures Dominates(out, before) && Covers(out, summary, summary.Keys)
    ensures forall p: Partition :: p in out ==> (p in before && before[p] == out[p]) || Found([summary], p, out[p])
  {
    out := before;
    var todo: set<string> := summary.Keys;
    while todo != {}
      invariant todo <= summary.Keys
      invariant Dominates(out, before)
      invariant Covers(out, summary, summary.Keys - todo)
      invariant forall p: Partition :: p in out ==> (p in before && before[p] == out[p]) || Found([summary], p, out[p])
      decreases |todo|
    {
      var key :| key in todo;
      todo := todo - {key};
      var mark := MarkAt(summary, key);
      if mark.Some? {
        var (p, o) := mark.value;
        assert key in [summary][0] && MarkAt([summary][0], key) == Some((p, o));
        if p !in out || o > out[p] {
          out := out[p := o];
        }
      }
    }
  }

  method ResolveFromSnapshots(summaries: seq<Summary>) returns (out: Marks)
    ensures Resolves(out, summaries)
  {
    out := map[];
    for i := 0 to |summaries|
      invariant Resolves(out, summaries[..i])
    {
      var before := out;
      out := ResolveOne(before, summaries[i]);
      ResolvesOneMore(before, out, summaries[..i], summaries[i]);
      assert summaries[..i + 1] == summaries[..i] + [summaries[i]];
    }
    assert summaries[..|summaries|] == summaries;
  }

  lemma ResolvesOneMore(before: Marks, out: Marks, summaries: seq<Summary>, summary: Summary)
    requires Resolves(before, summaries)
    requires Dominates(out, before) && Covers(out, summary, summary.Keys)
    requires forall p: Partition :: p in out ==> (p in before && before[p] == out[p]) || Found([summary], p, out[p])
    ensures Resolves(out, summaries + [summary])
  {
    var more := summaries + [summary];
    forall p | p in out
      ensures Found(more, p, out[p])
    {
      if Found([summary], p, out[p]) {
        assert more[|summaries|] == summary;
      } else {
        FoundMore(summaries, summary, p, out[p]);
      }
    }
    forall i | 0 <= i < |more|
      ensures Covers(out, more[i], more[i].Keys)
    {
      if i < |summaries| {
        CoversMore(out, before, summaries[i], summaries[i].Keys);
      }
    }
  }

  // ----- the marks of a table -----

  /** Some pending map was written into this summary. */
  ghost predicate Written(summary: Summary) {
    exists marks :: Carries(summary, marks)
  }

  /** The pending map that was written into a summary. */
  ghost function MarksOf(summary: Summary): (marks: Marks)
    requires Written(summary)
    ensures Carries(summary, marks)
  {
    var marks :| Carries(summary, marks);
    marks
  }

  /** Text properties determine the marks they were written from. */
  lemma MarksUnique(summary: Summary, marks: Marks)
    requires Carries(summary, marks)
    ensures Written(summary) && MarksOf(summary) == marks
  {
    var other := MarksOf(summary);
    SubMarks(summary, marks, other);
    SubMarks(summary, other, marks);
    SameMap(marks, other);
  }

  lemma SubMarks(summary: Summary, a: Marks, b: Marks)
    requires Carries(summary, a) && Carries(summary, b)
    ensures Extends(b, a)
  {
    CarriedMarks(summary, a);
    CarriedMarks(summary, b);
    forall p | p in a
      ensures p in b && b[p] == a[p]
    {
      assert MarkAt(summary, KeyOf(p)) == Some((p, a[p]));
    }
  }

  /** The larger mark per partition. */
  function Merge(a: Marks, b: Marks): Marks {
    map p | p in a.Keys + b.Keys ::
      if p !in a then b[p] else if p !in b then a[p] else if a[p] >= b[p] then a[p] else b[p]
  }

  ghost predicate AllWritten(summaries: seq<Summary>) {
    forall i :: 0 <= i < |summaries| ==> Written(summaries[i])
  }

  /** The high-water marks of a table: per partition, the largest mark of any commit. */
  ghost function High(summaries: seq<Summary>): Marks
    requires AllWritten(summaries)
  {
    if summaries == [] then map[]
    else Merge(High(summaries[..|summaries| - 1]), MarksOf(summaries[|summaries| - 1]))
  }

  lemma {:induction false} HighBounds(summaries: seq<Summary>, i: nat)
    requires AllWritten(summaries) && i < |summaries|
    ensures Dominates(High(summaries), MarksOf(summaries[i]))
  {
    if i < |summaries| - 1 {
      HighBounds(summaries[..|summaries| - 1], i);
    }
  }

  lemma {:induction false} HighAttained(summaries: seq<Summary>, p: Partition) returns (i: nat)
    requires AllWritten(summaries) && p in High(summaries)
    ensures i < |summaries| && p in MarksOf(summaries[i]) && MarksOf(summaries[i])[p] == High(summaries)[p]
  {
    var last := |summaries| - 1;
    i := last;
    var before := High(summaries[..last]);
    if p in before && before[p] == High(summaries)[p] {
      i := HighAttained(summaries[..last], p);
    }
  }

  /** Resolving the text properties recovers the marks of all commits, however they are spread. */
  lemma ResolveRecovers(summaries: seq<Summary>, out: Marks)
    requires AllWritten(summaries) && Resolves(out, summaries)
    ensures out == High(summaries)
  {
    ResolvedBelow(summaries, out);
    ResolvedAbove(summaries, out);
    SameMap(out, High(summaries));
  }

  lemma ResolvedBelow(summaries: seq<Summary>, out: Marks)
    requires AllWritten(summaries) && Resolves(out, summaries)
    ensures Dominates(High(summaries), out)
  {
    var high := High(summaries);
    forall p | p in out
      ensures p in high && out[p] <= high[p]
    {
      var i, key :| 0 <= i < |summaries| && key in summaries[i] && MarkAt(summaries[i], key) == Some((p, out[p]));
      CarriedMarks(summaries[i], MarksOf(summaries[i]));
      HighBounds(summaries, i);
    }
  }

  lemma ResolvedAbove(summaries: seq<Summary>, out: Marks)
    requires AllWritten(summaries) && Resolves(out, summaries)
    ensures Dominates(out, High(summaries))
  {
    var high := High(summaries);
    forall p | p in high
      ensures p in out && high[p] <= out[p]
    {
      var i := HighAttained(summaries, p);
      CarriedMarks(summaries[i], MarksOf(summaries[i]));
      assert MarkAt(summaries[i], KeyOf(p)) == Some((p, high[p]));
    }
  }
}
