/**
 Cumulative merging of daily deltas (merge_cumulative in k8s/spark/drivers/lattik_driver_utils.py and
 the fold of backfill_family in lattik_table_backfill.py): merging day by day is the batch result.
 */
module Cumulative {
  import opened Strings
  import opened Wrappers

  /** A nullable cell: a number or, for prepend_list columns, a list. */
  datatype Cell = Null | Num(n: int) | List(xs: seq<int>)

  datatype Strategy = LifetimeWindow(agg: string) | PrependList(maxLength: nat) | BitmapActivity

  datatype Aggregation = Sum | Max | Min | Replace

  type Key = string

  /** Rows by primary key, one cell per column. */
  type Frame = map<Key, seq<Cell>>

  // ----- which aggregate -----

  predicate WordAt(s: string, word: string, i: nat) {
    i + |word| <= |s| && s[i..i + |word|] == word
  }

  predicate Contains(s: string, word: string) {
    exists i: nat :: i <= |s| && WordAt(s, word, i)
  }

  function Classify(agg: string): Aggregation {
    var a := Lower(agg);
    if Contains(a, "count") || Contains(a, "sum") then Sum
    else if Contains(a, "max") then Max
    else if Contains(a, "min") then Min
    else Replace
  }

  // ----- merging one cell -----

  function NumOrZero(c: Cell): int { if c.Num? then c.n else 0 }

  function ListOrEmpty(c: Cell): seq<int> { if c.List? then c.xs else [] }

  function Take(xs: seq<int>, n: nat): seq<int> { if |xs| <= n then xs else xs[..n] }

  /** `greatest` and `least` skip nulls. */
  function Greatest(c: Cell, d: Cell): Cell {
    if !c.Num? then d else if !d.Num? then c else if c.n >= d.n then c else d
  }

  function Least(c: Cell, d: Cell): Cell {
    if !c.Num? then d else if !d.Num? then c else if c.n <= d.n then c else d
  }

  function Combine(s: Strategy, c: Cell, d: Cell): Cell {
    match s
    case LifetimeWindow(agg) =>
      (match Classify(agg)
       case Sum => Num(NumOrZero(c) + NumOrZero(d))
       case Max => Greatest(c, d)
       case Min => Least(c, d)
       case Replace => if d != Null then d else c)
    case PrependList(maxLength) => List(Take(ListOrEmpty(d) + ListOrEmpty(c), maxLength))
    case BitmapActivity => if d != Null || c != Null then Num(1) else Num(0)
  }

  // ----- merging frames -----

  predicate Shaped(columns: seq<Strategy>, f: Frame) {
    forall k :: k in f ==> |f[k]| == |columns|
  }

  /** The cell of an outer join: null when the key is missing on that side. */
  function CellAt(f: Frame, k: Key, i: nat): Cell {
    if k in f && i < |f[k]| then f[k][i] else Null
  }

  function MergedRow(columns: seq<Strategy>, c: Frame, d: Frame, k: Key): (row: seq<Cell>)
    ensures |row| == |columns|
    ensures forall i :: 0 <= i < |columns| ==> row[i] == Combine(columns[i], CellAt(c, k, i), CellAt(d, k, i))
  {
    seq(|columns|, i requires 0 <= i < |columns| => Combine(columns[i], CellAt(c, k, i), CellAt(d, k, i)))
  }

  /** The full outer join of two frames, column by column. */
  function Merged(columns: seq<Strategy>, c: Frame, d: Frame): Frame {
    map k | k in c.Keys + d.Keys :: MergedRow(columns, c, d, k)
  }

  lemma LongerRow(columns: seq<Strategy>, c: Frame, d: Frame, k: Key, i: nat)
    requires i < |columns|
    ensures MergedRow(columns[..i + 1], c, d, k)
            == MergedRow(columns[..i], c, d, k) + [Combine(columns[i], CellAt(c, k, i), CellAt(d, k, i))]
  {
  }

  method MergeCumulative(cumulative: Option<Frame>, delta: Frame, columns: seq<Strategy>) returns (result: Frame)
    ensures result == if cumulative.None? then delta else Merged(columns, cumulative.value, delta)
  {
    if cumulative.None? {
      return delta;
    }
    var c := cumulative.value;
    var keys := c.Keys + delta.Keys;
    result := map k | k in keys :: [];
    for i := 0 to |columns|
      invariant result.Keys == keys
      invariant forall k :: k in keys ==> result[k] == MergedRow(columns[..i], c, delta, k)
    {
      forall k
        ensures MergedRow(columns[..i + 1], c, delta, k)
                == MergedRow(columns[..i], c, delta, k) + [Combine(columns[i], CellAt(c, k, i), CellAt(delta, k, i))]
      {
        LongerRow(columns, c, delta, k, i);
      }
      result := map k | k in keys :: result[k] + [Combine(columns[i], CellAt(c, k, i), CellAt(delta, k, i))];
    }
    assert columns[..|columns|] == columns;
  }

  // ----- folding days -----

  /** The cumulative after all of `days`, oldest first. */
  function Fold(columns: seq<Strategy>, days: seq<Frame>): Frame
    requires |days| > 0
  {
    if |days| == 1 then days[0] else Merged(columns, Fold(columns, days[..|days| - 1]), days[|days| - 1])
  }

  predicate AllShaped(columns: seq<Strategy>, days: seq<Frame>) {
    forall j :: 0 <= j < |days| ==> Shaped(columns, days[j])
  }

  predicate Seen(days: seq<Frame>, k: Key) {
    exists j :: 0 <= j < |days| && k in days[j]
  }

  /** The fold has the union of all keys. */
  lemma {:induction false} FoldKeys(columns: seq<Strategy>, days: seq<Frame>)
    requires |days| > 0 && AllShaped(columns, days)
    ensures Shaped(columns, Fold(columns, days))
    ensures forall k :: k in Fold(columns, days) <==> Seen(days, k)
  {
    if |days| > 1 {
      var last := |days| - 1;
      var front := days[..last];
      FoldKeys(columns, front);
      assert forall j :: 0 <= j < last ==> front[j] == days[j];
      forall k
        ensures Seen(days, k) <==> Seen(front, k) || k in days[last]
      {
        if Seen(front, k) {
          var j :| 0 <= j < last && k in front[j];
          assert k in days[j];
        }
      }
    }
  }

  // ----- the batch results -----

  function SumOf(days: seq<Frame>, k: Key, i: nat): int {
    if days == [] then 0 else SumOf(days[..|days| - 1], k, i) + NumOrZero(CellAt(days[|days| - 1], k, i))
  }

  /** The lists of a key, newest day first. */
  function NewestFirst(days: seq<Frame>, k: Key, i: nat): seq<int> {
    if days == [] then [] else ListOrEmpty(CellAt(days[|days| - 1], k, i)) + NewestFirst(days[..|days| - 1], k, i)
  }

  predicate NoNumber(days: seq<Frame>, k: Key, i: nat) {
    forall j :: 0 <= j < |days| ==> !CellAt(days[j], k, i).Num?
  }

  /** `v` is a day's number for the key, and no day has a larger one (or, with `!largest`, a smaller one). */
  predicate IsExtreme(days: seq<Frame>, k: Key, i: nat, v: int, largest: bool) {
    && (exists j :: 0 <= j < |days| && CellAt(days[j], k, i) == Num(v))
    && (forall j :: 0 <= j < |days| && CellAt(days[j], k, i).Num? ==>
          if largest then CellAt(days[j], k, i).n <= v else v <= CellAt(days[j], k, i).n)
  }

  lemma FoldStep(columns: seq<Strategy>, days: seq<Frame>, k: Key, i: nat)
    requires |days| > 1 && AllShaped(columns, days) && i < |columns|
    ensures var last := |days| - 1;
            AllShaped(columns, days[..last])
            && (k in Fold(columns, days) ==>
                  CellAt(Fold(columns, days), k, i)
                  == Combine(columns[i], CellAt(Fold(columns, days[..last]), k, i), CellAt(days[last], k, i)))
            && (k !in Fold(columns, days) ==>
                  CellAt(Fold(columns, days), k, i) == CellAt(Fold(columns, days[..last]), k, i) == CellAt(days[last], k, i) == Null)
  {
  }

  /** Sums and counts: the total over all days, a null counting as 0. */
  lemma {:induction false} SumIsBatch(columns: seq<Strategy>, days: seq<Frame>, k: Key, i: nat)
    requires |days| > 0 && AllShaped(columns, days) && i < |columns|
    requires columns[i].LifetimeWindow? && Classify(columns[i].agg) == Sum
    ensures NumOrZero(CellAt(Fold(columns, days), k, i)) == SumOf(days, k, i)
    ensures |days| >= 2 && k in Fold(columns, days) ==> Fold(columns, days)[k][i] == Num(SumOf(days, k, i))
  {
    FoldKeys(columns, days);
    if |days| == 1 {
      assert days[..0] == [];
    } else {
      FoldStep(columns, days, k, i);
      SumIsBatch(columns, days[..|days| - 1], k, i);
    }
  }

  lemma ExtremeStep(days: seq<Frame>, k: Key, i: nat, c: Cell, largest: bool)
    requires |days| > 1
    requires var front := days[..|days| - 1];
             if c.Num? then IsExtreme(front, k, i, c.n, largest) else NoNumber(front, k, i)
    ensures var d := CellAt(days[|days| - 1], k, i);
            var r := if largest then Greatest(c, d) else Least(c, d);
            if r.Num? then IsExtreme(days, k, i, r.n, largest) else NoNumber(days, k, i)
  {
  }

  /** Maxima and minima: the extreme over all days that have a number, null if none has. */
  lemma {:induction false} ExtremeIsBatch(columns: seq<Strategy>, days: seq<Frame>, k: Key, i: nat)
    requires |days| > 0 && AllShaped(columns, days) && i < |columns|
    requires columns[i].LifetimeWindow? && (Classify(columns[i].agg) == Max || Classify(columns[i].agg) == Min)
    ensures var c := CellAt(Fold(columns, days), k, i);
            if c.Num? then IsExtreme(days, k, i, c.n, Classify(columns[i].agg) == Max) else NoNumber(days, k, i)
  {
    if |days| > 1 {
      var front := days[..|days| - 1];
      FoldStep(columns, days, k, i);
      ExtremeIsBatch(columns, front, k, i);
      ExtremeStep(days, k, i, CellAt(Fold(columns, front), k, i), Classify(columns[i].agg) == Max);
    }
  }

  lemma TakeAlike(a: seq<int>, b: seq<int>, c: seq<int>, n: nat)
    requires Take(b, n) == Take(c, n)
    ensures Take(a + b, n) == Take(a + c, n)
  {
  }

  /** Lists: over two or more days, the first `maxLength` elements, newest day first. */
  lemma {:induction false} ListIsBatch(columns: seq<Strategy>, days: seq<Frame>, k: Key, i: nat)
    requires |days| > 0 && AllShaped(columns, days) && i < |columns| && columns[i].PrependList?
    ensures Take(ListOrEmpty(CellAt(Fold(columns, days), k, i)), columns[i].maxLength) == Take(NewestFirst(days, k, i), columns[i].maxLength)
    ensures |days| >= 2 && k in Fold(columns, days) ==>
              Fold(columns, days)[k][i] == List(Take(NewestFirst(days, k, i), columns[i].maxLength))
  {
    FoldKeys(columns, days);
    if |days| == 1 {
      assert days[..0] == [];
      assert NewestFirst(days, k, i) == ListOrEmpty(CellAt(days[0], k, i));
    } else {
      var front := days[..|days| - 1];
      var d := ListOrEmpty(CellAt(days[|days| - 1], k, i));
      FoldStep(columns, days, k, i);
      ListIsBatch(columns, front, k, i);
      TakeAlike(d, ListOrEmpty(CellAt(Fold(columns, front), k, i)), NewestFirst(front, k, i), columns[i].maxLength);
    }
  }

  /** The first load of a list column is not cut to `maxLength`; the second one is. */
  lemma SingleDayIsNotCut(k: Key, xs: seq<int>, maxLength: nat)
    requires |xs| > maxLength
    ensures var day := map[k := [List(xs)]];
            CellAt(Fold([PrependList(maxLength)], [day]), k, 0) == List(xs)
            && CellAt(Fold([PrependList(maxLength)], [day, map[]]), k, 0) == List(xs[..maxLength])
  {
  }

  /** Activity bits: a key seen on any day has its bit set. */
  lemma {:induction false} ActivityIsSeen(columns: seq<Strategy>, days: seq<Frame>, k: Key, i: nat)
    requires |days| > 0 && AllShaped(columns, days) && i < |columns| && columns[i].BitmapActivity?
    requires forall j :: 0 <= j < |days| && k in days[j] ==> days[j][k][i] == Num(1)
    ensures CellAt(Fold(columns, days), k, i) == if Seen(days, k) then Num(1) else Null
  {
    FoldKeys(columns, days);
    if |days| > 1 {
      var last := |days| - 1;
      assert forall j :: 0 <= j < last ==> days[..last][j] == days[j];
      FoldStep(columns, days, k, i);
      ActivityIsSeen(columns, days[..last], k, i);
      FoldKeys(columns, days[..last]);
    }
  }

  // ----- aggregates taken for sums -----

  /** Any text with "sum" or "count" in it is merged as a sum, whatever else it says. */
  lemma ClassifiedAsSum(agg: string)
    ensures Classify(agg) == Sum <==> Contains(Lower(agg), "count") || Contains(Lower(agg), "sum")
  {
  }

  predicate NoneNegative(days: seq<Frame>, k: Key, i: nat) {
    forall j :: 0 <= j < |days| ==> NumOrZero(CellAt(days[j], k, i)) >= 0
  }

  predicate Positive(days: seq<Frame>, k: Key, i: nat, j: nat)
    requires j < |days|
  {
    NumOrZero(CellAt(days[j], k, i)) > 0
  }

  predicate AtMostOnePositive(days: seq<Frame>, k: Key, i: nat) {
    forall j, l :: 0 <= j < l < |days| ==> !Positive(days, k, i, j) || !Positive(days, k, i, l)
  }

  /** Of numbers that are not negative, any one and any two stay within the total. */
  lemma {:induction false} WithinTotal(days: seq<Frame>, k: Key, i: nat)
    requires NoneNegative(days, k, i)
    ensures SumOf(days, k, i) >= 0
    ensures forall j :: 0 <= j < |days| ==> NumOrZero(CellAt(days[j], k, i)) <= SumOf(days, k, i)
    ensures forall j, l :: 0 <= j < l < |days| ==>
              NumOrZero(CellAt(days[j], k, i)) + NumOrZero(CellAt(days[l], k, i)) <= SumOf(days, k, i)
  {
    if days != [] {
      var front := days[..|days| - 1];
      assert forall j :: 0 <= j < |front| ==> front[j] == days[j];
      WithinTotal(front, k, i);
    }
  }

  /** The total of days of which only the `j`-th may be positive. */
  lemma {:induction false} OneMakesTotal(days: seq<Frame>, k: Key, i: nat, j: nat)
    requires NoneNegative(days, k, i) && forall l :: 0 <= l < |days| && l != j ==> !Positive(days, k, i, l)
    ensures SumOf(days, k, i) == if j < |days| then NumOrZero(CellAt(days[j], k, i)) else 0
  {
    if days != [] {
      var front := days[..|days| - 1];
      assert forall l :: 0 <= l < |front| ==> front[l] == days[l] && Positive(front, k, i, l) == Positive(days, k, i, l);
      assert |days| - 1 != j ==> !Positive(days, k, i, |days| - 1);
      OneMakesTotal(front, k, i, j);
    }
  }

  /**
   A maximum over a text with "count" in it is merged as a sum. For numbers that are not negative, the
   merged column is the maximum if and only if some day has a number and at most one day a positive one.
   */
  lemma MaxOfCountIsSummed(columns: seq<Strategy>, days: seq<Frame>, k: Key, i: nat)
    requires |days| >= 2 && AllShaped(columns, days) && i < |columns| && columns[i].LifetimeWindow?
    requires Contains(Lower(columns[i].agg), "count") || Contains(Lower(columns[i].agg), "sum")
    requires k in Fold(columns, days) && NoneNegative(days, k, i)
    ensures Fold(columns, days)[k][i] == Num(SumOf(days, k, i))
    ensures IsExtreme(days, k, i, SumOf(days, k, i), true) <==> !NoNumber(days, k, i) && AtMostOnePositive(days, k, i)
  {
    ClassifiedAsSum(columns[i].agg);
    SumIsBatch(columns, days, k, i);
    WithinTotal(days, k, i);
    if IsExtreme(days, k, i, SumOf(days, k, i), true) {
      OnlyOnePositive(days, k, i);
    }
    if !NoNumber(days, k, i) && AtMostOnePositive(days, k, i) {
      TotalIsLargest(days, k, i);
    }
  }

  lemma OnlyOnePositive(days: seq<Frame>, k: Key, i: nat)
    requires NoneNegative(days, k, i) && IsExtreme(days, k, i, SumOf(days, k, i), true)
    ensures !NoNumber(days, k, i) && AtMostOnePositive(days, k, i)
  {
    WithinTotal(days, k, i);
    var top :| 0 <= top < |days| && CellAt(days[top], k, i) == Num(SumOf(days, k, i));
    forall l | 0 <= l < |days| && l != top
      ensures !Positive(days, k, i, l)
    {
      var a, b := if l < top then l else top, if l < top then top else l;
      assert NumOrZero(CellAt(days[a], k, i)) + NumOrZero(CellAt(days[b], k, i)) <= SumOf(days, k, i);
    }
  }

  lemma TotalIsLargest(days: seq<Frame>, k: Key, i: nat)
    requires NoneNegative(days, k, i) && !NoNumber(days, k, i) && AtMostOnePositive(days, k, i)
    ensures IsExtreme(days, k, i, SumOf(days, k, i), true)
  {
    var top :| 0 <= top < |days| && CellAt(days[top], k, i).Num?;
    if exists j :: 0 <= j < |days| && Positive(days, k, i, j) {
      top :| 0 <= top < |days| && Positive(days, k, i, top);
    }
    OneMakesTotal(days, k, i, top);
    WithinTotal(days, k, i);
    assert CellAt(days[top], k, i) == Num(SumOf(days, k, i));
  }

  /** Two days with numbers already show it: their sum, not the larger of them. */
  lemma TwoCounts(agg: string, k: Key, a: int, b: int)
    requires Contains(Lower(agg), "count") && a > 0 && b > 0
    ensures var days := [map[k := [Num(a)]], map[k := [Num(b)]]];
            CellAt(Fold([LifetimeWindow(agg)], days), k, 0) == Num(a + b) && !IsExtreme(days, k, 0, a + b, true)
  {
    var columns: seq<Strategy>, days: seq<Frame> := [LifetimeWindow(agg)], [map[k := [Num(a)]], map[k := [Num(b)]]];
    SumOfTwo(days, k, 0);
    assert Positive(days, k, 0, 0) && Positive(days, k, 0, 1);
    FoldKeys(columns, days);
    assert k in days[0];
    MaxOfCountIsSummed(columns, days, k, 0);
  }

  lemma SumOfTwo(days: seq<Frame>, k: Key, i: nat)
    requires |days| == 2
    ensures SumOf(days, k, i) == NumOrZero(CellAt(days[0], k, i)) + NumOrZero(CellAt(days[1], k, i))
  {
    var front := days[..|days| - 1];
    assert front == [days[0]] && front[..|front| - 1] == [];
    assert SumOf(front, k, i) == NumOrZero(CellAt(days[0], k, i));
  }

  // ----- which aggregate is meant -----

  /** A word without a bracket does not reach across one. */
  lemma WordOneSide(f: string, arg: string, word: string, i: nat)
    requires '(' !in word && WordAt(f + ("(" + arg), word, i)
    ensures i + |word| <= |f| || i > |f|
  {
    var s := f + ("(" + arg);
    assert forall p :: i <= p < i + |word| ==> s[p] == s[i..i + |word|][p - i];
    assert s[|f|] == '(';
  }

  lemma WordInFront(f: string, rest: string, word: string, i: nat)
    requires i + |word| <= |f|
    ensures WordAt(f + rest, word, i) <==> WordAt(f, word, i)
  {
    assert (f + rest)[i..i + |word|] == f[i..i + |word|];
  }

  lemma WordBehind(f: string, rest: string, word: string, j: nat)
    ensures WordAt(f + rest, word, |f| + j) <==> WordAt(rest, word, j)
  {
    if j + |word| <= |rest| {
      assert (f + rest)[|f| + j..|f| + j + |word|] == rest[j..j + |word|];
    }
  }

  lemma ContainsAround(f: string, arg: string, word: string)
    requires '(' !in word && word != ""
    ensures Contains(f + ("(" + arg), word) <==> Contains(f, word) || Contains(arg, word)
  {
    var rest := "(" + arg;
    if Contains(f + rest, word) {
      var i: nat :| i <= |f + rest| && WordAt(f + rest, word, i);
      WordOneSide(f, arg, word, i);
      if i + |word| <= |f| {
        WordInFront(f, rest, word, i);
      } else {
        WordBehind(f, rest, word, i - |f|);
        WordBehind("(", arg, word, i - |f| - 1);
      }
    }
    if Contains(f, word) {
      var i: nat :| i <= |f| && WordAt(f, word, i);
      WordInFront(f, rest, word, i);
    }
    if Contains(arg, word) {
      var j: nat :| j <= |arg| && WordAt(arg, word, j);
      WordBehind("(", arg, word, j);
      WordBehind(f, rest, word, 1 + j);
    }
  }

  /** Of names no longer than the word, only the word itself contains it. */
  lemma ContainsShort(f: string, word: string)
    requires |f| <= |word|
    ensures Contains(f, word) <==> f == word
  {
    if Contains(f, word) {
      var i: nat :| i <= |f| && WordAt(f, word, i);
      assert f[i..i + |word|] == f;
    }
    if f == word {
      assert f[0..0 + |word|] == f;
      assert WordAt(f, word, 0);
    }
  }

  /**
   A call of sum or count is merged as a sum whatever its argument; one of max as a maximum exactly when
   its argument has neither "count" nor "sum" in it; one of min as a minimum exactly when it has no "max" either.
   */
  lemma MeantAggregate(agg: string, f: string, arg: string)
    requires Lower(agg) == f + ("(" + arg)
    ensures f == "sum" || f == "count" ==> Classify(agg) == Sum
    ensures f == "max" ==> (Classify(agg) == Max <==> !Contains(arg, "count") && !Contains(arg, "sum"))
    ensures f == "min" ==> (Classify(agg) == Min <==> !Contains(arg, "count") && !Contains(arg, "sum") && !Contains(arg, "max"))
  {
    ContainsAround(f, arg, "count");
    ContainsAround(f, arg, "sum");
    ContainsAround(f, arg, "max");
    ContainsAround(f, arg, "min");
    if |f| <= 5 {
      ContainsShort(f, "count");
    }
    if |f| <= 3 {
      ContainsShort(f, "sum");
      ContainsShort(f, "max");
      ContainsShort(f, "min");
    }
  }

  predicate NumbersEqual(days: seq<Frame>, k: Key, i: nat) {
    forall j, l :: 0 <= j < |days| && 0 <= l < |days| && CellAt(days[j], k, i).Num? && CellAt(days[l], k, i).Num? ==>
      CellAt(days[j], k, i) == CellAt(days[l], k, i)
  }

  /** A minimum merged as a maximum is the minimum if and only if all days with a number have the same one. */
  lemma MinMergedAsMax(columns: seq<Strategy>, days: seq<Frame>, k: Key, i: nat)
    requires |days| > 0 && AllShaped(columns, days) && i < |columns|
    requires columns[i].LifetimeWindow? && Classify(columns[i].agg) == Max
    ensures var c := CellAt(Fold(columns, days), k, i);
            c.Num? ==> (IsExtreme(days, k, i, c.n, false) <==> NumbersEqual(days, k, i))
  {
    ExtremeIsBatch(columns, days, k, i);
    var c := CellAt(Fold(columns, days), k, i);
    if c.Num? {
      ExtremesMeet(days, k, i, c.n);
    }
  }

  lemma ExtremesMeet(days: seq<Frame>, k: Key, i: nat, v: int)
    requires IsExtreme(days, k, i, v, true)
    ensures IsExtreme(days, k, i, v, false) <==> NumbersEqual(days, k, i)
  {
    var top :| 0 <= top < |days| && CellAt(days[top], k, i) == Num(v);
    if NumbersEqual(days, k, i) {
      assert forall j :: 0 <= j < |days| && CellAt(days[j], k, i).Num? ==> CellAt(days[j], k, i) == CellAt(days[top], k, i);
    }
  }

  // ----- the backfill -----

  predicate NeedsCascade(columns: seq<Strategy>) {
    exists i :: 0 <= i < |columns| && columns[i].LifetimeWindow?
  }

  /** The days with source data, in order. */
  function NonEmpty(deltas: seq<Frame>): seq<Frame> {
    if deltas == [] then []
    else
      var rest := NonEmpty(deltas[..|deltas| - 1]);
      if deltas[|deltas| - 1] == map[] then rest else rest + [deltas[|deltas| - 1]]
  }

  /** What the `j`-th committed load holds. */
  ghost predicate LoadIs(columns: seq<Strategy>, days: seq<Frame>, j: nat, load: Frame)
    requires j < |days|
  {
    load == if NeedsCascade(columns) then Fold(columns, days[..j + 1]) else days[j]
  }

  ghost predicate LoadsAre(columns: seq<Strategy>, days: seq<Frame>, loads: seq<Frame>) {
    |loads| == |days| && forall j :: 0 <= j < |days| ==> LoadIs(columns, days, j, loads[j])
  }

  /** The running cumulative: carried only for families that need it, absent before the first load. */
  ghost predicate Carries(columns: seq<Strategy>, days: seq<Frame>, prev: Option<Frame>) {
    prev == if NeedsCascade(columns) && |days| > 0 then Some(Fold(columns, days)) else None
  }

  method LoadDays(columns: seq<Strategy>, deltas: seq<Frame>, prev: Option<Frame>, loads: seq<Frame>, ghost before: seq<Frame>)
    returns (prev': Option<Frame>, loads': seq<Frame>)
    requires LoadsAre(columns, before, loads) && Carries(columns, before, prev)
    ensures LoadsAre(columns, before + NonEmpty(deltas), loads') && Carries(columns, before + NonEmpty(deltas), prev')
  {
    prev', loads' := prev, loads;
    assert before + NonEmpty(deltas[..0]) == before;
    for n := 0 to |deltas|
      invariant LoadsAre(columns, before + NonEmpty(deltas[..n]), loads') && Carries(columns, before + NonEmpty(deltas[..n]), prev')
    {
      assert deltas[..n + 1][..n] == deltas[..n];
      var delta := deltas[n];
      if delta != map[] {
        var merged := MergeCumulative(prev', delta, columns);
        OneMoreDay(columns, before + NonEmpty(deltas[..n]), prev', delta, loads', merged);
        assert before + NonEmpty(deltas[..n]) + [delta] == before + NonEmpty(deltas[..n + 1]);
        loads' := loads' + [merged];
        if NeedsCascade(columns) {
          prev' := Some(merged);
        }
      }
    }
    assert deltas[..|deltas|] == deltas;
  }

  lemma OneMoreDay(columns: seq<Strategy>, days: seq<Frame>, prev: Option<Frame>, delta: Frame, loads: seq<Frame>, merged: Frame)
    requires LoadsAre(columns, days, loads) && Carries(columns, days, prev)
    requires merged == if prev.None? then delta else Merged(columns, prev.value, delta)
    ensures LoadsAre(columns, days + [delta], loads + [merged])
    ensures Carries(columns, days + [delta], if NeedsCascade(columns) then Some(merged) else prev)
  {
    var more := days + [delta];
    assert more[..|days|] == days && more[..|more|] == more;
    if NeedsCascade(columns) {
      assert Fold(columns, more) == merged;
    }
    forall j | 0 <= j < |more|
      ensures LoadIs(columns, more, j, (loads + [merged])[j])
    {
      if j < |days| {
        assert LoadIs(columns, days, j, loads[j]);
        assert more[..j + 1] == days[..j + 1];
      }
    }
  }

  /**
   One family over a range of days, and for families with a lifetime window on to today: every
   committed load is the batch over the days with data up to it, in order, or for other families
   just that day's delta.
   */
  method BackfillFamily(columns: seq<Strategy>, range: seq<Frame>, cascade: seq<Frame>, cascadeToToday: bool)
    returns (loads: seq<Frame>)
    ensures LoadsAre(columns, NonEmpty(range) + (if NeedsCascade(columns) && cascadeToToday then NonEmpty(cascade) else []), loads)
  {
    var prev: Option<Frame>;
    prev, loads := LoadDays(columns, range, None, [], []);
    assert [] + NonEmpty(range) == NonEmpty(range);
    if NeedsCascade(columns) && cascadeToToday {
      prev, loads := LoadDays(columns, cascade, prev, loads, NonEmpty(range));
    } else {
      assert NonEmpty(range) + [] == NonEmpty(range);
    }
  }
}
