/**
 A least-recently-used cache as the parser keeps it (packages/lattik-expression/src/parser/parse.ts:44-68):
 at most 256 results, in recency order, long inputs passed by.
 */
module LruCache {
  import opened Wrappers

  const CAPACITY := 256
  const MAX_CACHED_LENGTH := 8192

  // ----- recency -----

  ghost predicate Distinct(s: seq<string>) {
    forall i, j :: 0 <= i < j < |s| ==> s[i] != s[j]
  }

  function Without(s: seq<string>, x: string): seq<string> {
    if s == [] then []
    else if s[|s| - 1] == x then Without(s[..|s| - 1], x)
    else Without(s[..|s| - 1], x) + [s[|s| - 1]]
  }

  /** The cachable inputs of a history of calls, each once, the most recently used one last. */
  function Recency(history: seq<string>): seq<string> {
    if history == [] then []
    else
      var before, x := Recency(history[..|history| - 1]), history[|history| - 1];
      if |x| > MAX_CACHED_LENGTH then before else Without(before, x) + [x]
  }

  /** The last `n` of a list. */
  function Newest(s: seq<string>, n: nat): seq<string> {
    if |s| <= n then s else s[|s| - n..]
  }

  lemma {:induction false} WithoutMembers(s: seq<string>, x: string)
    ensures forall y :: y in Without(s, x) <==> y in s && y != x
    ensures Distinct(s) ==> Distinct(Without(s, x))
    ensures |Without(s, x)| <= |s|
  {
    if s != [] {
      var front := s[..|s| - 1];
      WithoutMembers(front, x);
      assert forall y :: y in s <==> y in front || y == s[|s| - 1];
      assert Distinct(s) ==> s[|s| - 1] !in front;
    }
  }

  lemma {:induction false} WithoutAbsent(s: seq<string>, x: string)
    requires x !in s
    ensures Without(s, x) == s
  {
    if s != [] {
      var front := s[..|s| - 1];
      assert forall y :: y in front ==> y in s;
      WithoutAbsent(front, x);
    }
  }

  lemma {:induction false} WithoutConcat(a: seq<string>, b: seq<string>, x: string)
    ensures Without(a + b, x) == Without(a, x) + Without(b, x)
  {
    if b == [] {
      assert a + b == a;
    } else {
      assert (a + b)[..|a + b| - 1] == a + b[..|b| - 1];
      WithoutConcat(a, b[..|b| - 1], x);
    }
  }

  /** Removing the one occurrence of `x`. */
  lemma WithoutOne(a: seq<string>, x: string, b: seq<string>)
    requires x !in a && x !in b
    ensures Without(a + [x] + b, x) == a + b
  {
    WithoutConcat(a + [x], b, x);
    WithoutConcat(a, [x], x);
    WithoutAbsent(a, x);
    WithoutAbsent(b, x);
    assert [x][..0] == [];
  }

  lemma {:induction false} RecencyDistinct(history: seq<string>)
    ensures Distinct(Recency(history)) && forall x :: x in Recency(history) ==> |x| <= MAX_CACHED_LENGTH
  {
    if history != [] {
      var before, x := Recency(history[..|history| - 1]), history[|history| - 1];
      RecencyDistinct(history[..|history| - 1]);
      WithoutMembers(before, x);
      assert x !in Without(before, x);
    }
  }

  // ----- what one call does to the keys -----

  /** A hit moves to the end; a miss is appended, the oldest key making room; long inputs pass by. */
  function Touched(keys: seq<string>, x: string): seq<string> {
    if x in keys then Without(keys, x) + [x]
    else if |x| > MAX_CACHED_LENGTH then keys
    else (if |keys| >= CAPACITY then keys[1..] else keys) + [x]
  }

  lemma HitIsNewest(older: seq<string>, a: seq<string>, x: string, b: seq<string>)
    requires Distinct(older + (a + [x] + b)) && |a + [x] + b| <= CAPACITY && (older != [] ==> |a + [x] + b| == CAPACITY)
    ensures Without(a + [x] + b, x) + [x] == Newest(Without(older + (a + [x] + b), x) + [x], CAPACITY)
  {
    var whole := older + (a + [x] + b);
    assert whole == (older + a) + [x] + b;
    OnceInDistinct(older + a, x, b, whole);
    WithoutOne(older + a, x, b);
    assert forall y :: y in a ==> y in older + a;
    WithoutOne(a, x, b);
    HitMoved(older, a, x, b);
  }

  lemma HitMoved(older: seq<string>, a: seq<string>, x: string, b: seq<string>)
    requires |a + [x] + b| <= CAPACITY && (older != [] ==> |a + [x] + b| == CAPACITY)
    ensures a + b + [x] == Newest((older + a) + b + [x], CAPACITY)
  {
    NewestOf(older, a + b + [x]);
    assert (older + a) + b + [x] == older + (a + b + [x]);
  }

  lemma NewestOf(older: seq<string>, kept: seq<string>)
    requires |kept| == CAPACITY || (older == [] && |kept| <= CAPACITY)
    ensures Newest(older + kept, CAPACITY) == kept
  {
  }

  /** A key that has dropped out comes back like a new one. */
  lemma ReturnIsNewest(a: seq<string>, x: string, b: seq<string>, keys: seq<string>)
    requires Distinct(a + [x] + (b + keys)) && |keys| == CAPACITY
    ensures keys[1..] + [x] == Newest(Without(a + [x] + (b + keys), x) + [x], CAPACITY)
  {
    var whole := a + [x] + (b + keys);
    OnceInDistinct(a, x, b + keys, whole);
    WithoutOne(a, x, b + keys);
    NewestOf(a + b + keys[..1], keys[1..] + [x]);
    assert a + (b + keys) + [x] == (a + b + keys[..1]) + (keys[1..] + [x]);
  }

  lemma MissIsNewest(older: seq<string>, keys: seq<string>, x: string)
    requires |keys| <= CAPACITY && (older != [] ==> |keys| == CAPACITY) && x !in older + keys
    ensures (if |keys| >= CAPACITY then keys[1..] else keys) + [x] == Newest(Without(older + keys, x) + [x], CAPACITY)
  {
    WithoutAbsent(older + keys, x);
    if |keys| >= CAPACITY {
      NewestOf(older + keys[..1], keys[1..] + [x]);
      assert older + keys + [x] == (older + keys[..1]) + (keys[1..] + [x]);
    }
  }

  lemma SplitAround(s: seq<string>, x: string) returns (a: seq<string>, b: seq<string>)
    requires x in s
    ensures s == a + [x] + b
  {
    var i :| 0 <= i < |s| && s[i] == x;
    a, b := s[..i], s[i + 1..];
  }

  lemma TouchedOf(older: seq<string>, keys: seq<string>, x: string)
    requires Distinct(older + keys) && |x| <= MAX_CACHED_LENGTH
    requires |keys| <= CAPACITY && (older != [] ==> |keys| == CAPACITY)
    ensures Touched(keys, x) == Newest(Without(older + keys, x) + [x], CAPACITY)
  {
    if x in keys {
      var a, b := SplitAround(keys, x);
      HitIsNewest(older, a, x, b);
    } else if x in older {
      var a, b := SplitAround(older, x);
      assert older + keys == a + [x] + (b + keys);
      ReturnIsNewest(a, x, b, keys);
    } else {
      MissIsNewest(older, keys, x);
    }
  }

  /** The cache holds the newest 256 of the unbounded recency list, call after call. */
  lemma TouchedIsNewest(recency: seq<string>, x: string)
    requires Distinct(recency) && |x| <= MAX_CACHED_LENGTH
    ensures Touched(Newest(recency, CAPACITY), x) == Newest(Without(recency, x) + [x], CAPACITY)
  {
    var keys := Newest(recency, CAPACITY);
    var older := recency[..|recency| - |keys|];
    assert recency == older + keys;
    TouchedOf(older, keys, x);
  }

  lemma OnceInDistinct(a: seq<string>, x: string, b: seq<string>, whole: seq<string>)
    requires Distinct(whole) && whole == a + [x] + b
    ensures x !in a && x !in b
  {
    assert whole[|a|] == x;
    assert forall i :: 0 <= i < |a| ==> whole[i] == a[i];
    assert forall i :: 0 <= i < |b| ==> whole[|a| + 1 + i] == b[i];
  }

  lemma NewestDistinct(recency: seq<string>)
    requires Distinct(recency)
    ensures Distinct(Newest(recency, CAPACITY)) && |Newest(recency, CAPACITY)| <= CAPACITY
    ensures forall x :: x in Newest(recency, CAPACITY) ==> x in recency
  {
  }

  // ----- the cache -----

  /** The keys are those of the entries, each a right result for its key, made of owned objects. */
  ghost predicate Held<E>(keys: seq<string>, entries: map<string, E>, right: (string, E) -> bool,
                          footprint: E -> set<object>, owned: set<object>) {
    && (forall x :: x in entries <==> x in keys)
    && (forall x :: x in entries ==> right(x, entries[x]) && footprint(entries[x]) <= owned)
  }

  class Cache<E> {
    /** A JavaScript Map: entries with their keys in insertion order. */
    var keys: seq<string>
    var entries: map<string, E>
    /** All inputs asked for so far, and all objects that results stored so far consist of. */
    ghost var history: seq<string>
    ghost var owned: set<object>

    ghost predicate Valid(right: (string, E) -> bool, footprint: E -> set<object>)
      reads this
    {
      && keys == Newest(Recency(history), CAPACITY)
      && Held(keys, entries, right, footprint, owned)
    }

    constructor (ghost right: (string, E) -> bool, ghost footprint: E -> set<object>)
      ensures Valid(right, footprint) && history == [] && owned == {}
    {
      keys, entries, history, owned := [], map[], [], {};
    }

    /** A hit is deleted and set again, which makes it the newest entry. */
    method Lookup(input: string, ghost right: (string, E) -> bool, ghost footprint: E -> set<object>) returns (hit: Option<E>)
      requires Valid(right, footprint)
      modifies this
      ensures Valid(right, footprint) && owned == old(owned) && entries == old(entries)
      ensures hit == if input in entries then Some(entries[input]) else None
      ensures history == if hit.Some? then old(history) + [input] else old(history)
    {
      if input !in entries {
        return None;
      }
      RecencyMore(history, input);
      RecencyDistinct(history);
      NewestDistinct(Recency(history));
      TouchedIsNewest(Recency(history), input);
      WithoutMembers(keys, input);
      history := history + [input];
      keys := Without(keys, input) + [input];
      hit := Some(entries[input]);
    }

    /** Stores a result that was not there, dropping the oldest one from a full cache. */
    method Store(input: string, e: E, ghost right: (string, E) -> bool, ghost footprint: E -> set<object>)
      requires Valid(right, footprint) && input !in entries && right(input, e)
      modifies this
      ensures Valid(right, footprint) && history == old(history) + [input] && owned == old(owned) + footprint(e)
      ensures |input| <= MAX_CACHED_LENGTH ==> input in entries && entries[input] == e
    {
      RecencyMore(history, input);
      RecencyDistinct(history);
      NewestDistinct(Recency(history));
      HeldMore(keys, entries, right, footprint, owned, footprint(e));
      owned := owned + footprint(e);
      history := history + [input];
      if |input| > MAX_CACHED_LENGTH {
        return;
      }
      TouchedIsNewest(Recency(old(history)), input);
      StoredHeld(keys, entries, input, e, right, footprint, old(owned));
      if |keys| >= CAPACITY {
        entries := entries - {keys[0]};
        keys := keys[1..];
      }
      entries := entries[input := e];
      keys := keys + [input];
    }
  }

  lemma RecencyMore(history: seq<string>, x: string)
    ensures Recency(history + [x]) == if |x| > MAX_CACHED_LENGTH then Recency(history) else Without(Recency(history), x) + [x]
  {
  }

  lemma FirstDropped(keys: seq<string>)
    requires Distinct(keys) && keys != []
    ensures forall x :: x in keys[1..] <==> x in keys && x != keys[0]
  {
  }

  lemma HeldMore<E>(keys: seq<string>, entries: map<string, E>, right: (string, E) -> bool,
                    footprint: E -> set<object>, owned: set<object>, more: set<object>)
    requires Held(keys, entries, right, footprint, owned)
    ensures Held(keys, entries, right, footprint, owned + more)
  {
  }

  /** A stored entry joins the others, or all of them but the oldest. */
  lemma StoredHeld<E>(keys: seq<string>, entries: map<string, E>, x: string, e: E, right: (string, E) -> bool,
                      footprint: E -> set<object>, owned: set<object>)
    requires Distinct(keys) && Held(keys, entries, right, footprint, owned) && right(x, e)
    ensures var full := |keys| >= CAPACITY;
            Held((if full then keys[1..] else keys) + [x], (if full then entries - {keys[0]} else entries)[x := e],
                 right, footprint, owned + footprint(e))
  {
    if |keys| >= CAPACITY {
      FirstDropped(keys);
    }
  }
}
