/** Insertion-ordered dictionaries (a Python `dict`, a JavaScript `Map`) as
    association lists: assigning to an existing key keeps its position and
    replaces its value, a new key goes last. */
module Assoc {
  import opened Wrappers

  /** Each key occurs once. */
  predicate UniqueKeys<K(==), V>(t: seq<(K, V)>) {
    t == [] || (Lookup(t[1..], t[0].0) == None && UniqueKeys(t[1..]))
  }

  /** `d.get(k)`. */
  function Lookup<K(==), V>(t: seq<(K, V)>, k: K): (r: Option<V>)
    ensures r.Some? <==> exists i :: 0 <= i < |t| && t[i].0 == k
  {
    if t == [] then None
    else if t[0].0 == k then Some(t[0].1)
    else Lookup(t[1..], k)
  }

  predicate HasKey<K(==), V>(t: seq<(K, V)>, k: K) {
    Lookup(t, k).Some?
  }

  /** `d[k] = v`. */
  function Put<K(==), V>(t: seq<(K, V)>, k: K, v: V): (r: seq<(K, V)>)
    ensures |r| == |t| || |r| == |t| + 1
  {
    if t == [] then [(k, v)]
    else if t[0].0 == k then [(k, v)] + t[1..]
    else [t[0]] + Put(t[1..], k, v)
  }

  /** `del d[k]` / `map.delete(k)` (nothing happens for a missing key). */
  function Delete<K(==), V>(t: seq<(K, V)>, k: K): (r: seq<(K, V)>)
    ensures |r| <= |t|
  {
    if t == [] then []
    else if t[0].0 == k then Delete(t[1..], k)
    else [t[0]] + Delete(t[1..], k)
  }

  function Keys<K, V>(t: seq<(K, V)>): (r: seq<K>)
    ensures |r| == |t| && forall i :: 0 <= i < |t| ==> r[i] == t[i].0
  {
    if t == [] then [] else [t[0].0] + Keys(t[1..])
  }

  function Values<K, V>(t: seq<(K, V)>): (r: seq<V>)
    ensures |r| == |t| && forall i :: 0 <= i < |t| ==> r[i] == t[i].1
  {
    if t == [] then [] else [t[0].1] + Values(t[1..])
  }

  /** The key-value map of an association list. */
  function ToMap<K(==,!new), V>(t: seq<(K, V)>): (r: map<K, V>)
    ensures forall k :: k in r <==> HasKey(t, k)
    ensures forall k :: k in r ==> Lookup(t, k) == Some(r[k])
  {
    if t == [] then map[] else ToMap(t[1..])[t[0].0 := t[0].1]
  }

  /** `d.update(pairs)`: the pairs assigned in order. */
  function PutAll<K(==), V>(t: seq<(K, V)>, pairs: seq<(K, V)>): seq<(K, V)>
    decreases |pairs|
  {
    if pairs == [] then t else PutAll(Put(t, pairs[0].0, pairs[0].1), pairs[1..])
  }

  /** A dict built from pairs in order (a dict comprehension). */
  function FromPairs<K(==), V>(pairs: seq<(K, V)>): seq<(K, V)> {
    PutAll([], pairs)
  }

  /** After `d[k] = v`, `k` maps to `v` and no other key changes; keys stay
      unique. */
  lemma {:induction false} PutLookup<K, V>(t: seq<(K, V)>, k: K, v: V, other: K)
    requires UniqueKeys(t)
    ensures UniqueKeys(Put(t, k, v))
    ensures Lookup(Put(t, k, v), other) == if other == k then Some(v) else Lookup(t, other)
  {
    if t != [] && t[0].0 != k {
      var r := Put(t, k, v);
      assert r[0] == t[0] && r[1..] == Put(t[1..], k, v);
      PutLookup(t[1..], k, v, other);
      PutLookup(t[1..], k, v, t[0].0);
    } else if t != [] {
      assert Put(t, k, v)[1..] == t[1..];
    }
  }

  /** Even with repeated keys, a lookup after `d[k] = v` finds `v` for `k`
      and what it found before for any other key. */
  lemma {:induction false} PutGets<K, V>(t: seq<(K, V)>, k: K, v: V, other: K)
    ensures Lookup(Put(t, k, v), other) == if other == k then Some(v) else Lookup(t, other)
  {
    if t != [] && t[0].0 != k {
      var r := Put(t, k, v);
      assert r[0] == t[0] && r[1..] == Put(t[1..], k, v);
      PutGets(t[1..], k, v, other);
    } else if t != [] {
      assert Put(t, k, v)[1..] == t[1..];
    }
  }

  /** After a delete, the key is gone and no other key changes. */
  lemma {:induction false} DeleteLookup<K, V>(t: seq<(K, V)>, k: K, other: K)
    requires UniqueKeys(t)
    ensures UniqueKeys(Delete(t, k))
    ensures Lookup(Delete(t, k), other) == if other == k then None else Lookup(t, other)
  {
    if t != [] {
      DeleteLookup(t[1..], k, other);
      DeleteLookup(t[1..], k, t[0].0);
      if t[0].0 != k {
        var r := Delete(t, k);
        assert r[0] == t[0] && r[1..] == Delete(t[1..], k);
      }
    }
  }

  lemma FromPairsSingle<K, V>(k: K, v: V)
    ensures FromPairs([(k, v)]) == [(k, v)]
  {
    var one := [(k, v)];
    assert one[1..] == [] && one[0] == (k, v);
    assert Put([], k, v) == one;
    assert PutAll(Put([], k, v), one[1..]) == one;
  }

  /** After an update a key maps to the value of its last pair, or keeps
      its old value when no pair names it; keys stay unique. */
  lemma {:induction false} PutAllLookup<K, V>(t: seq<(K, V)>, pairs: seq<(K, V)>, k: K)
    requires UniqueKeys(t)
    ensures UniqueKeys(PutAll(t, pairs))
    ensures Lookup(PutAll(t, pairs), k) == if LastValue(pairs, k).Some? then LastValue(pairs, k) else Lookup(t, k)
    decreases |pairs|
  {
    if pairs != [] {
      var t1 := Put(t, pairs[0].0, pairs[0].1);
      PutLookup(t, pairs[0].0, pairs[0].1, k);
      PutAllLookup(t1, pairs[1..], k);
      LastValueCons(pairs[0], pairs[1..], k);
      assert pairs == [pairs[0]] + pairs[1..];
    }
  }

  /** A comprehension has unique keys, and each key maps to the value of
      its last pair. */
  lemma FromPairsLookup<K, V>(pairs: seq<(K, V)>, k: K)
    ensures UniqueKeys(FromPairs(pairs))
    ensures Lookup(FromPairs(pairs), k) == LastValue(pairs, k)
  {
    PutAllLookup([], pairs, k);
  }

  /** The value of the last pair with key `k`. */
  function LastValue<K(==), V>(pairs: seq<(K, V)>, k: K): (r: Option<V>)
    ensures r.Some? <==> exists i :: 0 <= i < |pairs| && pairs[i].0 == k
  {
    if pairs == [] then None
    else if pairs[|pairs| - 1].0 == k then Some(pairs[|pairs| - 1].1)
    else LastValue(pairs[..|pairs| - 1], k)
  }

  /** A pair that no later pair overrides gives the last value of its key. */
  lemma {:induction false} LastValueAt<K, V>(pairs: seq<(K, V)>, k: K, i: nat)
    requires i < |pairs| && pairs[i].0 == k
    requires forall j :: i < j < |pairs| ==> pairs[j].0 != k
    ensures LastValue(pairs, k) == Some(pairs[i].1)
    decreases |pairs|
  {
    var n := |pairs| - 1;
    if i < n {
      var pre := pairs[..n];
      assert forall j :: i < j < n ==> pre[j] == pairs[j];
      LastValueAt(pre, k, i);
    }
  }

  /** In a list with unique keys the last pair of a key is its only one. */
  lemma {:induction false} LastValueUnique<K, V>(t: seq<(K, V)>, k: K)
    requires UniqueKeys(t)
    ensures LastValue(t, k) == Lookup(t, k)
  {
    if t != [] {
      LastValueUnique(t[1..], k);
      LastValueCons(t[0], t[1..], k);
      assert t == [t[0]] + t[1..];
    }
  }

  lemma {:induction false} LastValueCons<K, V>(e: (K, V), t: seq<(K, V)>, k: K)
    ensures LastValue([e] + t, k) == if LastValue(t, k).Some? then LastValue(t, k) else if e.0 == k then Some(e.1) else None
  {
    var s := [e] + t;
    if t != [] {
      assert s[..|s| - 1] == [e] + t[..|t| - 1];
      assert s[|s| - 1] == t[|t| - 1];
      LastValueCons(e, t[..|t| - 1], k);
    } else {
      assert s[..|s| - 1] == [];
    }
  }
}
