/**
 Hierarchical bucketing (lattik-stitch/crates/lattik-stitch-core/src/bucket.rs and
 k8s/spark/drivers/lattik_driver_utils.py): mixed-radix bucket ids, level planning and alignment.
 */
module Bucketing {
  const MAX_BUCKETS := 4096
  const U32 := 0x1_0000_0000
  const U64 := 0x1_0000_0000_0000_0000

  // ----- mixed-radix numbers -----

  /** Each level has at least one bucket. */
  ghost predicate Levels(ls: seq<nat>) {
    forall i :: 0 <= i < |ls| ==> ls[i] > 0
  }

  function Product(ls: seq<nat>): nat {
    if ls == [] then 1 else ls[0] * Product(ls[1..])
  }

  lemma {:induction false} ProductPositive(ls: seq<nat>)
    requires Levels(ls)
    ensures Product(ls) > 0
  {
    if ls != [] {
      ProductPositive(ls[1..]);
    }
  }

  ghost predicate Residues(rs: seq<nat>, ls: seq<nat>) {
    |rs| == |ls| && forall i :: 0 <= i < |ls| ==> rs[i] < ls[i]
  }

  /** The number with digits `rs` in the radices `ls`, most significant first. */
  function Value(rs: seq<nat>, ls: seq<nat>): nat
    requires |rs| == |ls|
  {
    if ls == [] then 0 else rs[0] * Product(ls[1..]) + Value(rs[1..], ls[1..])
  }

  function Quotient(n: nat, p: nat): nat
    requires p > 0
  {
    n / p
  }

  function Remainder(n: nat, p: nat): (r: nat)
    requires p > 0
    ensures r < p
  {
    n % p
  }

  /** What the most significant digit counts. */
  function Weight(ls: seq<nat>): (p: nat)
    requires ls != [] && Levels(ls)
    ensures p > 0
  {
    ProductPositive(ls[1..]);
    Product(ls[1..])
  }

  /** The digits of `n`. */
  function Digits(n: nat, ls: seq<nat>): (rs: seq<nat>)
    requires Levels(ls)
    ensures |rs| == |ls|
  {
    if ls == [] then []
    else
      [Quotient(n, Weight(ls))] + Digits(Remainder(n, Weight(ls)), ls[1..])
  }

  lemma DigitBound(r: nat, l: nat, p: nat, rest: nat)
    requires r < l && rest < p
    ensures r * p + rest < l * p
  {
    assert (r + 1) * p <= l * p;
  }

  lemma QuotientBelow(n: nat, l: nat, p: nat)
    requires p > 0 && n < l * p
    ensures Quotient(n, p) < l && n == Quotient(n, p) * p + Remainder(n, p)
  {
  }

  lemma QuotientOf(r: nat, p: nat, rest: nat)
    requires rest < p
    ensures (r * p + rest) / p == r && (r * p + rest) % p == rest
    ensures Quotient(r * p + rest, p) == r && Remainder(r * p + rest, p) == rest
  {
    var n := r * p + rest;
    assert n == n / p * p + n % p;
    OneDivision(r, rest, n / p, n % p, p);
  }

  /** Quotient and remainder are unique. */
  lemma OneDivision(q: nat, a: nat, r: nat, b: nat, p: nat)
    requires a < p && b < p && q * p + a == r * p + b
    ensures q == r && a == b
  {
    if q < r {
      WholeMore(q, r, p);
    } else if r < q {
      WholeMore(r, q, p);
    }
  }

  lemma WholeMore(q: nat, r: nat, p: nat)
    requires q < r
    ensures q * p + p <= r * p
  {
    var k := r - q - 1;
    assert r * p == q * p + p + k * p;
  }

  /** Residue vectors are numbers below the product of the levels. */
  lemma {:induction false} ValueBelow(rs: seq<nat>, ls: seq<nat>)
    requires Residues(rs, ls)
    ensures Value(rs, ls) < Product(ls)
  {
    if ls != [] {
      ValueBelow(rs[1..], ls[1..]);
      DigitBound(rs[0], ls[0], Product(ls[1..]), Value(rs[1..], ls[1..]));
    }
  }

  /** Every bucket number is one residue vector ... */
  lemma {:induction false} DigitsValue(n: nat, ls: seq<nat>)
    requires Levels(ls) && n < Product(ls)
    ensures Residues(Digits(n, ls), ls) && Value(Digits(n, ls), ls) == n
  {
    if ls != [] {
      ProductPositive(ls[1..]);
      var p := Product(ls[1..]);
      QuotientBelow(n, ls[0], p);
      DigitsValue(Remainder(n, p), ls[1..]);
      DigitsCons(Quotient(n, p), Digits(Remainder(n, p), ls[1..]), ls);
    }
  }

  lemma DigitsCons(q: nat, rest: seq<nat>, ls: seq<nat>)
    requires ls != [] && q < ls[0] && Residues(rest, ls[1..])
    ensures Residues([q] + rest, ls)
    ensures Value([q] + rest, ls) == q * Product(ls[1..]) + Value(rest, ls[1..])
  {
  }

  /** ... and no other. */
  lemma {:induction false} ValueDigits(rs: seq<nat>, ls: seq<nat>)
    requires Levels(ls) && Residues(rs, ls)
    ensures Digits(Value(rs, ls), ls) == rs
  {
    if ls != [] {
      ValueBelow(rs[1..], ls[1..]);
      QuotientOf(rs[0], Product(ls[1..]), Value(rs[1..], ls[1..]));
      ValueDigits(rs[1..], ls[1..]);
    }
  }

  // ----- bucket ids -----

  /** The residue of every hash at its level. */
  function LevelBuckets(hashes: seq<nat>, ls: seq<nat>): (rs: seq<nat>)
    requires |hashes| == |ls| && forall i :: 0 <= i < |ls| ==> ls[i] > 0
    ensures |rs| == |ls| && forall i :: 0 <= i < |ls| ==> rs[i] == hashes[i] % ls[i]
  {
    seq(|ls|, i requires 0 <= i < |ls| => hashes[i] % ls[i])
  }

  lemma LevelBucketsTail(hashes: seq<nat>, ls: seq<nat>, i: nat)
    requires |hashes| == |ls| && i < |ls| && forall k :: 0 <= k < |ls| ==> ls[k] > 0
    ensures LevelBuckets(hashes, ls)[i..][0] == hashes[i] % ls[i]
    ensures ls[i..][1..] == ls[i + 1..] && LevelBuckets(hashes, ls)[i..][1..] == LevelBuckets(hashes, ls)[i + 1..]
  {
  }

  function Wrap(n: nat): nat { n % U32 }

  lemma WrapAdd(a: nat, b: nat)
    ensures Wrap(Wrap(a) + Wrap(b)) == Wrap(a + b)
  {
  }

  lemma WrapMul(a: nat, b: nat)
    ensures Wrap(a * Wrap(b)) == Wrap(a * b)
  {
    var q := b / U32;
    assert b == q * U32 + Wrap(b);
    assert a * b == (a * q) * U32 + a * Wrap(b);
    WrapMultiple(a * q, a * Wrap(b));
  }

  lemma WrapMultiple(q: nat, n: nat)
    ensures Wrap(q * U32 + n) == Wrap(n)
  {
  }

  lemma LevelStep(level: nat, l: nat, p: nat, value: nat)
    ensures Wrap(Wrap(value) + Wrap(level * Wrap(p))) == Wrap(level * p + value)
    ensures Wrap(l * Wrap(p)) == Wrap(l * p)
  {
    WrapMul(level, p);
    WrapMul(l, p);
    WrapAdd(value, level * p);
  }

  /**
   The bucket number as the u32 loop computes it, last level first. It is the mixed-radix value of
   the residues, modulo 2^32 in general and exactly when the number of buckets fits 32 bits.
   */
  method HierarchicalBucketId(hashes: seq<nat>, ls: seq<nat>) returns (bucket: nat)
    requires |hashes| == |ls| && forall i :: 0 <= i < |ls| ==> ls[i] > 0
    ensures bucket == Wrap(Value(LevelBuckets(hashes, ls), ls))
    ensures Product(ls) <= U32 ==> bucket == Value(LevelBuckets(hashes, ls), ls) < Product(ls)
  {
    ghost var rs := LevelBuckets(hashes, ls);
    bucket := 0;
    var multiplier := 1;
    var i := |ls|;
    while i > 0
      invariant 0 <= i <= |ls|
      invariant bucket == Wrap(Value(rs[i..], ls[i..])) && multiplier == Wrap(Product(ls[i..]))
    {
      i := i - 1;
      LevelBucketsTail(hashes, ls, i);
      var level := hashes[i] % ls[i];
      LevelStep(level, ls[i], Product(ls[i + 1..]), Value(rs[i + 1..], ls[i + 1..]));
      bucket := Wrap(bucket + Wrap(level * multiplier));
      multiplier := Wrap(ls[i] * multiplier);
    }
    ValueBelow(rs, ls);
    assert rs[0..] == rs && ls[0..] == ls;
  }

  // ----- planning the levels -----

  predicate PowerOfTwo(n: nat) {
    n == 1 || (n > 1 && n % 2 == 0 && PowerOfTwo(n / 2))
  }

  lemma {:induction false} PowersDivide(a: nat, b: nat)
    requires PowerOfTwo(a) && PowerOfTwo(b) && a <= b
    ensures b % a == 0 && PowerOfTwo(b / a) && a * (b / a) == b
    decreases b
  {
    if a > 1 {
      PowersDivide(a / 2, b / 2);
      DoubledDivision(a / 2, b / 2);
    }
  }

  lemma DoubledDivision(a: nat, b: nat)
    requires a > 0 && a * (b / a) == b
    ensures (2 * b) % (2 * a) == 0 && (2 * b) / (2 * a) == b / a && (2 * a) * (b / a) == 2 * b
  {
    var q := b / a;
    Regrouped(a, q);
    QuotientOf(q, 2 * a, 0);
  }

  lemma Regrouped(a: nat, q: nat)
    ensures (2 * a) * q == 2 * (a * q) && q * (2 * a) == 2 * (a * q)
  {
  }

  /** The smallest power of two that is at least `n`, between 1 and 4096. */
  method NextPowerOf2(n: int) returns (p: nat)
    ensures PowerOfTwo(p) && 1 <= p <= MAX_BUCKETS
    ensures n > MAX_BUCKETS ==> p == MAX_BUCKETS
    ensures n <= MAX_BUCKETS ==> n <= p && (p > 1 ==> p / 2 < n)
  {
    if n <= 1 {
      return 1;
    }
    p := 1;
    assert PowerOfTwo(4096) by {
      assert PowerOfTwo(2) && PowerOfTwo(4) && PowerOfTwo(8) && PowerOfTwo(16);
      assert PowerOfTwo(32) && PowerOfTwo(64) && PowerOfTwo(128) && PowerOfTwo(256);
      assert PowerOfTwo(512) && PowerOfTwo(1024) && PowerOfTwo(2048);
    }
    while p < n
      invariant PowerOfTwo(p) && (p > 1 ==> p / 2 < n)
    {
      p := p * 2;
    }
    if p > MAX_BUCKETS {
      if n <= MAX_BUCKETS {
        PowersDivide(MAX_BUCKETS, p);
        HalfAtLeast(p);
      }
      p := MAX_BUCKETS;
    } else if n > MAX_BUCKETS {
      assert false;
    }
  }

  /** The next power of two after 4096 is 8192. */
  lemma HalfAtLeast(p: nat)
    requires p > MAX_BUCKETS && p % MAX_BUCKETS == 0
    ensures p / 2 >= MAX_BUCKETS
  {
  }

  /** The integer part of the square root, exact for the bucket counts it is asked for. */
  method SquareRoot(n: nat) returns (s: nat)
    ensures Root(s, n) && (n > 0 ==> 1 <= s <= n)
  {
    s := 0;
    while (s + 1) * (s + 1) <= n
      invariant s * s <= n
      decreases n - s
    {
      s := s + 1;
      assert s * s >= s;
    }
    assert s > 0 ==> s * s >= s;
  }

  /**
   How many buckets each key level gets: one to three powers of two that multiply out to the total,
   itself a power of two between 1 and 4096.
   */
  method DetermineBucketLevels(totalSize: nat, targetBucketSize: nat, pkColumns: nat) returns (ls: seq<nat>, ghost total: nat)
    requires targetBucketSize > 0
    ensures |ls| == (if pkColumns <= 1 then 1 else if pkColumns == 2 then 2 else 3)
    ensures forall i :: 0 <= i < |ls| ==> PowerOfTwo(ls[i])
    ensures Product(ls) == total && PowerOfTwo(total) && 1 <= total <= MAX_BUCKETS
    ensures totalSize / targetBucketSize <= MAX_BUCKETS ==> total >= totalSize / targetBucketSize
    ensures totalSize / targetBucketSize > MAX_BUCKETS ==> total == MAX_BUCKETS
    ensures total > 1 ==> total / 2 < totalSize / targetBucketSize
    ensures |ls| > 1 ==> Balanced(ls[0], Product(ls[1..]))
    ensures |ls| > 2 ==> Balanced(ls[1], ls[2])
  {
    var wanted := totalSize / targetBucketSize;
    var count := NextPowerOf2(if wanted > 1 then wanted else 1);
    total := count;
    if pkColumns <= 1 {
      ProductOne(count);
      return [count], total;
    }
    var root := SquareRoot(count);
    var level1 := NextPowerOf2(root);
    SmallestBelow(level1, root, count);
    PowersDivide(level1, count);
    var level2 := count / level1;
    RootBalances(count, root, level1, level2);
    if pkColumns == 2 {
      ProductTwo(level1, level2);
      ProductOne(level2);
      assert [level1, level2][1..] == [level2];
      return [level1, level2], total;
    }
    var root2 := SquareRoot(level2);
    var level2Sub := NextPowerOf2(root2);
    SmallestBelow(level2Sub, root2, level2);
    PowersDivide(level2Sub, level2);
    var level3 := level2 / level2Sub;
    RootBalances(level2, root2, level2Sub, level3);
    ProductThree(level1, level2Sub, level3);
    ProductTwo(level2Sub, level3);
    assert [level1, level2Sub, level3][1..] == [level2Sub, level3];
    ls := [level1, level2Sub, level3];
  }

  /** Neither part is more than twice the other. */
  predicate Balanced(a: nat, b: nat) { a <= 2 * b && b <= 2 * a }

  predicate Root(s: nat, n: nat) { s * s <= n < (s + 1) * (s + 1) }

  /** The power of two at or above the root splits a power of two into balanced parts. */
  lemma RootBalances(t: nat, s: nat, l: nat, m: nat)
    requires PowerOfTwo(l) && PowerOfTwo(m) && t == l * m && Root(s, t)
    requires s <= l && (l > 1 ==> l / 2 < s)
    ensures Balanced(l, m)
  {
    if m > 2 * l {
      PowersApart(l, m);
      NotBeyond(l, s, m);
    }
    if l > 2 * m {
      PowersApart(m, l);
      NotBelow(l, s, m);
    }
  }

  /** Powers of two more than a factor of two apart are at least a factor of four apart. */
  lemma PowersApart(a: nat, b: nat)
    requires PowerOfTwo(a) && PowerOfTwo(b) && b > 2 * a
    ensures 4 * a <= b && b % 2 == 0
  {
    assert PowerOfTwo(2 * a);
    PowersDivide(2 * a, b);
    DoubleAtLeast(2 * a, b);
  }

  lemma NotBeyond(l: nat, s: nat, m: nat)
    requires 0 < l && s <= l && 4 * l <= m
    ensures !Root(s, l * m)
  {
    ProductsGrow(s + 1, 2 * l, s + 1, 2 * l);
    FourSquares(l);
    ProductsGrow(l, l, 4 * l, m);
  }

  lemma FourSquares(l: nat)
    ensures (2 * l) * (2 * l) == l * (4 * l) == 4 * (l * l)
  {
  }

  lemma ProductsGrow(a: nat, b: nat, c: nat, d: nat)
    requires a <= b && c <= d
    ensures a * c <= b * d
  {
    var x, y := b - a, d - c;
    assert b * d == a * c + a * y + x * c + x * y;
  }

  lemma NotBelow(l: nat, s: nat, m: nat)
    requires 0 < m && 4 * m <= l && l / 2 < s && l % 2 == 0
    ensures !Root(s, l * m)
  {
    var h := l / 2;
    ProductsGrow(4 * m, l, l, l);
    ProductsGrow(h + 1, s, h + 1, s);
    FourSquares(h);
    assert (4 * m) * l == 4 * (l * m);
    assert (h + 1) * (h + 1) == h * h + 2 * h + 1;
  }

  /** The smallest power of two above `n` is below every power of two above `n`. */
  lemma {:induction false} SmallestBelow(p: nat, n: nat, q: nat)
    requires PowerOfTwo(p) && PowerOfTwo(q) && n <= q && (p > 1 ==> p / 2 < n)
    ensures p <= q
  {
    if p > q {
      PowersDivide(q, p);
      DoubleAtLeast(q, p);
      assert false;
    }
  }

  lemma DoubleAtLeast(q: nat, p: nat)
    requires 0 < q < p && p % q == 0
    ensures q * 2 <= p
  {
  }

  lemma ProductOne(a: nat)
    ensures Product([a]) == a
  {
  }

  lemma ProductTwo(a: nat, b: nat)
    ensures Product([a, b]) == a * b
  {
    assert [a, b][1..] == [b];
    ProductOne(b);
  }

  lemma ProductThree(a: nat, b: nat, c: nat)
    ensures Product([a, b, c]) == a * (b * c)
  {
    assert [a, b, c][1..] == [b, c];
    ProductTwo(b, c);
  }

  // ----- the Spark formula -----

  /** Reads 64 bits as a signed number, as Spark's xxhash64 returns them. */
  function Signed(h: nat): int
    requires h < U64
  {
    if h < U64 / 2 then h else h - U64
  }

  /** `abs` on a long, which leaves the most negative one negative; `%` truncates toward zero. */
  function AbsLong(x: int): int {
    if x < 0 && x != -(U64 / 2) then -x else x
  }

  function TruncatedMod(a: int, b: nat): int
    requires b > 0
  {
    if a >= 0 then a % b else -((-a) % b)
  }

  function SparkResidue(h: nat, l: nat): int
    requires h < U64 && l > 0
  {
    TruncatedMod(AbsLong(Signed(h)), l)
  }

  /** The `_bucket` column of apply_bucketing, built from the last key column to the first. */
  method SparkBucket(residues: seq<nat>, ls: seq<nat>) returns (bucket: nat)
    requires |residues| == |ls| > 0
    ensures bucket == Value(residues, ls)
  {
    bucket := 0;
    var subCount := 1;
    var i := |ls|;
    while i > 0
      invariant 0 <= i <= |ls|
      invariant bucket == Value(residues[i..], ls[i..]) && subCount == Product(ls[i..])
    {
      i := i - 1;
      assert ls[i..][1..] == ls[i + 1..] && residues[i..][1..] == residues[i + 1..];
      if i == |ls| - 1 {
        bucket := residues[i];
        ProductOne(ls[i]);
        assert ls[i..] == [ls[i]];
        assert residues[i] * 1 == residues[i];
      } else {
        bucket := residues[i] * subCount + bucket;
      }
      MulCommutes(subCount, ls[i]);
      subCount := subCount * ls[i];
    }
    assert ls[0..] == ls && residues[0..] == residues;
  }

  lemma MulCommutes(a: nat, b: nat)
    ensures a * b == b * a
  {
  }

  /**
   The two formulas take the same hash to the same residue of a power-of-two level exactly when the
   hash is not negative as a long, or twice it is a multiple of the level.
   */
  lemma ResiduesAgree(h: nat, l: nat)
    requires h < U64 && PowerOfTwo(l) && l <= U64 / 2
    ensures SparkResidue(h, l) == h % l <==> h < U64 / 2 || (2 * h) % l == 0
  {
    LevelDivides(l);
    if h >= U64 / 2 {
      NegatedResidue(h, l);
    }
  }

  lemma {:induction false} PowersMultiply(a: nat, b: nat)
    requires PowerOfTwo(a) && PowerOfTwo(b)
    ensures PowerOfTwo(a * b)
    decreases a
  {
    if a > 1 {
      PowersMultiply(a / 2, b);
      assert a == 2 * (a / 2);
      assert a * b == 2 * ((a / 2) * b);
      assert (a / 2) * b > 0;
    }
  }

  lemma HalfRangeIsPower()
    ensures PowerOfTwo(U64 / 2)
  {
    assert PowerOfTwo(2) && PowerOfTwo(4) && PowerOfTwo(8) && PowerOfTwo(16) && PowerOfTwo(32) && PowerOfTwo(64) && PowerOfTwo(128);
    PowersMultiply(128, 128);
    PowersMultiply(128, 128 * 128);
    PowersMultiply(0x20_0000, 0x20_0000);
    PowersMultiply(0x20_0000, 0x20_0000 * 0x20_0000);
  }

  lemma LevelDivides(l: nat)
    requires PowerOfTwo(l) && l <= U64 / 2
    ensures l > 0 && U64 % l == 0 && (U64 / 2) % l == 0
  {
    HalfRangeIsPower();
    PowersDivide(l, U64 / 2);
    MultipleOf(l, U64 / 2 / l, 2);
  }

  lemma MultipleOf(l: nat, k: nat, m: nat)
    requires l > 0
    ensures (m * (l * k)) % l == 0
  {
    assert m * (l * k) == (m * k) * l;
    QuotientOf(m * k, l, 0);
  }

  lemma NegatedRemainder(q: nat, k: nat, l: nat, r: nat)
    requires r < l && k * l > q * l + r
    ensures (k * l - (q * l + r)) % l == if r == 0 then 0 else l - r
  {
    var d := k - q;
    assert d * l == k * l - q * l;
    assert d <= 0 ==> d * l <= 0;
    if r == 0 {
      QuotientOf(d, l, 0);
    } else {
      assert (d - 1) * l == d * l - l;
      QuotientOf(d - 1, l, l - r);
    }
  }

  lemma DoubledRemainder(q: nat, l: nat, r: nat)
    requires r < l
    ensures (2 * (q * l + r)) % l == if 2 * r < l then 2 * r else 2 * r - l
  {
    assert 2 * (q * l) == (2 * q) * l;
    if 2 * r < l {
      QuotientOf(2 * q, l, 2 * r);
    } else {
      assert (2 * q + 1) * l == (2 * q) * l + l;
      QuotientOf(2 * q + 1, l, 2 * r - l);
    }
  }

  lemma NegatedResidue(h: nat, l: nat)
    requires U64 / 2 <= h < U64 && l > 0 && U64 % l == 0 && (U64 / 2) % l == 0
    ensures SparkResidue(h, l) == h % l <==> (2 * h) % l == 0
  {
    NegatedAgrees(h, U64, l);
  }

  /** A residue is that of the distance to a multiple of the level exactly when twice it vanishes. */
  lemma NegatedAgrees(h: nat, u: nat, l: nat)
    requires h < u && l > 0 && u % l == 0
    ensures (u - h) % l == h % l <==> (2 * h) % l == 0
  {
    var q, r, k := h / l, h % l, u / l;
    assert h == q * l + r && u == k * l;
    NegatedParts(q, k, l, r);
  }

  lemma NegatedParts(q: nat, k: nat, l: nat, r: nat)
    requires r < l && q * l + r < k * l
    ensures (k * l - (q * l + r)) % l == r <==> (2 * (q * l + r)) % l == 0
  {
    DoubledRemainder(q, l, r);
    NegatedRemainder(q, k, l, r);
  }

  // ----- alignment -----

  function AlignBucket(fine: nat, fineCount: nat, coarseCount: nat): nat
    requires coarseCount > 0
  {
    if fineCount == coarseCount then fine else fine % coarseCount
  }

  lemma ValueHead(hashes: seq<nat>, ls: seq<nat>)
    requires |hashes| == |ls| > 0 && forall i :: 0 <= i < |ls| ==> ls[i] > 0
    ensures Value(LevelBuckets(hashes, ls), ls)
            == (hashes[0] % ls[0]) * Product(ls[1..]) + Value(LevelBuckets(hashes[1..], ls[1..]), ls[1..])
  {
    assert LevelBuckets(hashes, ls)[1..] == LevelBuckets(hashes[1..], ls[1..]);
  }

  /** A fine bucket aligned to fewer leading buckets is the bucket the coarser levels give directly. */
  lemma AlignIsDirect(hashes: seq<nat>, fine: seq<nat>, coarse: seq<nat>)
    requires |hashes| == |fine| == |coarse| > 0 && Levels(fine) && Levels(coarse)
    requires fine[0] % coarse[0] == 0 && fine[1..] == coarse[1..]
    ensures Product(coarse) > 0
    ensures AlignBucket(Value(LevelBuckets(hashes, fine), fine), Product(fine), Product(coarse))
            == Value(LevelBuckets(hashes, coarse), coarse)
  {
    var tail := fine[1..];
    var p, rest := Product(tail), Value(LevelBuckets(hashes[1..], tail), tail);
    ProductPositive(coarse);
    ProductPositive(tail);
    ValueBelow(LevelBuckets(hashes[1..], tail), tail);
    ValueHead(hashes, fine);
    ValueHead(hashes, coarse);
    AlignLeading(hashes[0], fine[0], coarse[0], p, rest);
  }

  lemma AlignLeading(h: nat, f: nat, c: nat, p: nat, rest: nat)
    requires f > 0 && c > 0 && f % c == 0 && rest < p
    ensures c * p > 0 && AlignBucket((h % f) * p + rest, f * p, c * p) == (h % c) * p + rest
  {
    ModMod(h, f, c);
    AlignArithmetic(h % f, c, p, rest);
    if f * p == c * p {
      DigitBound(h % f, f, p, rest);
      SmallMod((h % f) * p + rest, c * p);
    }
  }

  lemma SmallMod(n: nat, m: nat)
    requires n < m
    ensures n % m == n
  {
  }

  lemma QuotientIs(n: nat, m: nat)
    requires m > 0
    ensures n == (n / m) * m + n % m
  {
  }

  lemma Factor(q: nat, k: nat, c: nat, t: nat)
    ensures q * (k * c) + t * c == (q * k + t) * c
  {
  }

  lemma ModMod(h: nat, f: nat, c: nat)
    requires f > 0 && c > 0 && f % c == 0
    ensures (h % f) % c == h % c
  {
    var q, k := h / f, f / c;
    var r := h % f;
    QuotientIs(h, f);
    QuotientIs(f, c);
    QuotientIs(r, c);
    Factor(q, k, c, r / c);
    QuotientOf(q * k + r / c, c, r % c);
  }

  lemma AlignArithmetic(f: nat, c: nat, p: nat, rest: nat)
    requires c > 0 && p > 0 && rest < p
    ensures c * p > 0 && (f * p + rest) % (c * p) == (f % c) * p + rest
  {
    var q, r := f / c, f % c;
    assert f == q * c + r;
    assert f * p + rest == q * (c * p) + (r * p + rest);
    DigitBound(r, c, p, rest);
    QuotientOf(q, c * p, r * p + rest);
  }
}
