/**
 Splitting a list into groups by a key, as the hash-map loops of the writer and of the Vortex reader
 do: taking the groups one after the other meets every item exactly once.
 */
module Grouping {
  /** The items with key `k`, in order. */
  function Group<T, K(==)>(items: seq<T>, key: T -> K, k: K): seq<T> {
    if items == [] then []
    else
      var rest := Group(items[..|items| - 1], key, k);
      var x := items[|items| - 1];
      if key(x) == k then rest + [x] else rest
  }

  method GroupBy<T, K(==)>(items: seq<T>, key: T -> K) returns (groups: map<K, seq<T>>)
    ensures forall k :: k in groups <==> |Group(items, key, k)| > 0
    ensures forall k :: k in groups ==> groups[k] == Group(items, key, k)
  {
    groups := map[];
    for i := 0 to |items|
      invariant forall k :: k in groups <==> |Group(items[..i], key, k)| > 0
      invariant forall k :: k in groups ==> groups[k] == Group(items[..i], key, k)
    {
      var k := key(items[i]);
      ghost var before, now := items[..i], items[..i + 1];
      assert now[..i] == before;
      assert forall l :: Group(now, key, l) == Group(before, key, l) + if l == k then [items[i]] else [];
      assert k !in groups ==> Group(before, key, k) == [];
      groups := groups[k := (if k in groups then groups[k] else []) + [items[i]]];
    }
    assert items[..|items|] == items;
  }

  lemma {:induction false} GroupMembers<T, K>(items: seq<T>, key: T -> K, k: K)
    ensures forall i :: 0 <= i < |Group(items, key, k)| ==> Group(items, key, k)[i] in items && key(Group(items, key, k)[i]) == k
  {
    if items != [] {
      GroupMembers(items[..|items| - 1], key, k);
    }
  }

  /** The items whose key is not among `keys`. */
  ghost function Outside<T, K>(items: seq<T>, key: T -> K, keys: set<K>): seq<T> {
    if items == [] then []
    else
      var rest := Outside(items[..|items| - 1], key, keys);
      var x := items[|items| - 1];
      if key(x) !in keys then rest + [x] else rest
  }

  lemma {:induction false} OutsideNothing<T, K>(items: seq<T>, key: T -> K)
    ensures Outside(items, key, {}) == items
  {
    if items != [] {
      OutsideNothing(items[..|items| - 1], key);
    }
  }

  lemma {:induction false} NothingLeftOut<T, K>(items: seq<T>, key: T -> K, keys: set<K>)
    requires forall k :: |Group(items, key, k)| > 0 ==> k in keys
    ensures Outside(items, key, keys) == []
  {
    if items != [] {
      var front := items[..|items| - 1];
      assert |Group(items, key, key(items[|items| - 1]))| > 0;
      forall k | |Group(front, key, k)| > 0
        ensures k in keys
      {
        assert |Group(items, key, k)| > 0;
      }
      NothingLeftOut(front, key, keys);
    }
  }

  /** Taking one more group out of `keys` adds exactly that group. */
  lemma {:induction false} OutsideOneLess<T, K>(items: seq<T>, key: T -> K, keys: set<K>, k: K)
    requires k in keys
    ensures multiset(Outside(items, key, keys - {k})) == multiset(Outside(items, key, keys)) + multiset(Group(items, key, k))
  {
    if items != [] {
      OutsideOneLess(items[..|items| - 1], key, keys, k);
    }
  }
}
