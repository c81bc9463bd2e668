/** Changesets of the front-end library (class `Changes`): references with
    new values, kept in insertion order, that a page queries with `affects`
    and `pick` and applies to a game state with `patch`. */
module Changes {
  import opened Wrappers
  import opened Json
  import opened Ref

  /** The entries of the underlying `Map`, in insertion order. */
  datatype Changes = Changes(entries: seq<(string, Value)>)

  predicate DistinctKeys(entries: seq<(string, Value)>) {
    forall i, j :: 0 <= i < j < |entries| ==> entries[i].0 != entries[j].0
  }

  /** The key stored for `key` under `prefix`; the empty prefix, like a
      missing one, is falsy and adds nothing. */
  function Prefixed(prefix: string, key: string): string {
    if prefix == "" then key else prefix + "." + key
  }

  function PrefixAll(obj: seq<(string, Value)>, prefix: string): (r: seq<(string, Value)>)
    ensures |r| == |obj|
    ensures forall i :: 0 <= i < |obj| ==> r[i] == (Prefixed(prefix, obj[i].0), obj[i].1)
  {
    if obj == [] then [] else [(Prefixed(prefix, obj[0].0), obj[0].1)] + PrefixAll(obj[1..], prefix)
  }

  /** `this.forEach((v, k) => validate(k))`: the first invalid key throws. */
  function ValidateAll(entries: seq<(string, Value)>): (r: Outcome)
    ensures r == Pass <==> forall i :: 0 <= i < |entries| ==> Validate(entries[i].0) == Pass
    ensures r.Fail? ==> r.error == JsError
  {
    if entries == [] then Pass
    else if Validate(entries[0].0).Fail? then Fail(JsError)
    else ValidateAll(entries[1..])
  }

  /** `new Changes(obj, prefix)`, with `obj` given by its `Object.entries`
      (an object's keys are distinct). */
  function NewChanges(obj: seq<(string, Value)>, prefix: string): Result<Changes>
    requires DistinctKeys(obj)
  {
    var entries := PrefixAll(obj, prefix);
    match ValidateAll(entries)
    case Fail(e) => Err(e)
    case Pass => Ok(Changes(entries))
  }

  /** A built changeset holds every entry under its prefixed key, and every
      one of those keys is a well-formed reference; otherwise construction
      throws. */
  lemma NewChangesKeys(obj: seq<(string, Value)>, prefix: string)
    requires DistinctKeys(obj)
    ensures NewChanges(obj, prefix).Ok? <==> forall i :: 0 <= i < |obj| ==> WellFormed(Prefixed(prefix, obj[i].0))
    ensures NewChanges(obj, prefix).Err? ==> NewChanges(obj, prefix).error == JsError
    ensures NewChanges(obj, prefix).Ok? ==>
      var es := NewChanges(obj, prefix).value.entries;
      |es| == |obj| && DistinctKeys(es) &&
      forall i :: 0 <= i < |obj| ==> es[i] == (Prefixed(prefix, obj[i].0), obj[i].1)
  {
    var entries := PrefixAll(obj, prefix);
    forall i | 0 <= i < |obj|
      ensures Validate(entries[i].0) == Pass <==> WellFormed(Prefixed(prefix, obj[i].0))
    {
      ValidateMeansWellFormed(entries[i].0);
    }
    forall i, j | 0 <= i < j < |obj| ensures entries[i].0 != entries[j].0 {
      if prefix != "" {
        assert obj[i].0 == entries[i].0[|prefix| + 1..];
        assert obj[j].0 == entries[j].0[|prefix| + 1..];
      }
    }
  }

  /** The keys that affect `ref`, in insertion order. */
  function Affecting(entries: seq<(string, Value)>, ref: string): (r: seq<nat>)
    ensures forall k :: 0 <= k < |r| ==> r[k] < |entries| && Includes(entries[r[k]].0, ref)
    ensures forall i :: 0 <= i < |entries| && Includes(entries[i].0, ref) ==> i in r
    ensures forall k, l :: 0 <= k < l < |r| ==> r[k] < r[l]
  {
    if entries == [] then []
    else
      var n := |entries| - 1;
      Affecting(entries[..n], ref) + (if Includes(entries[n].0, ref) then [n] else [])
  }

  /** `changes.affects(ref)`. */
  predicate Affects(ch: Changes, ref: string) {
    |Affecting(ch.entries, ref)| > 0
  }

  /** `affects` holds exactly when some key is `ref` or one of its parents. */
  lemma AffectsMeaning(ch: Changes, ref: string)
    ensures Affects(ch, ref) <==> exists i :: 0 <= i < |ch.entries| && Includes(ch.entries[i].0, ref)
  {
    var a := Affecting(ch.entries, ref);
    if Affects(ch, ref) {
      assert Includes(ch.entries[a[0]].0, ref);
    }
  }

  /** A changed nested field does not affect its parent reference. */
  lemma NestedKeyDoesNotAffectParent(ref: string, s: string, v: Value)
    ensures !Affects(Changes([(ref + "." + s, v)]), ref)
  {
    var ch := Changes([(ref + "." + s, v)]);
    assert |ref + "." + s| > |ref|;
    assert !Includes(ref + "." + s, ref);
    assert Affecting(ch.entries, ref) == Affecting([], ref) + [];
  }

  /** `changes.pick(ref)`; `Ok(None)` is `undefined`. */
  function Pick(ch: Changes, ref: string): (r: Result<Option<Value>>)
    ensures |Affecting(ch.entries, ref)| == 0 ==> r == Ok(None)
    ensures |Affecting(ch.entries, ref)| > 1 ==> r == Err(JsError)
    ensures |Affecting(ch.entries, ref)| == 1 && ch.entries[Affecting(ch.entries, ref)[0]].0 == ref ==>
      r == Ok(Some(ch.entries[Affecting(ch.entries, ref)[0]].1))
  {
    var found := Affecting(ch.entries, ref);
    if |found| == 0 then Ok(None)
    else if |found| != 1 then Err(JsError)
    else
      var (key, value) := ch.entries[found[0]];
      if key == ref then Ok(Some(value))
      else Walk(Some(value), Split(Strip(key, ref).value, '.'))
  }

  // ---- patch -----------------------------------------------------------------

  /** `patch(obj)` on a data value: every entry's `update` in turn, stopping
      at the first that throws (the earlier ones stay applied). */
  function PatchSpec(d: Value, entries: seq<(string, Value)>): (Value, Outcome)
    decreases |entries|
  {
    if entries == [] then (d, Pass)
    else match UpdateSpec(d, entries[0].0, Some(entries[0].1))
      case Err(e) => (d, Fail(e))
      case Ok(d1) => PatchSpec(d1, entries[1..])
  }

  method Patch(ch: Changes, target: JsObject) returns (r: Outcome)
    modifies target
    ensures (target.data, r) == PatchSpec(old(target.data), ch.entries)
  {
    var i := 0;
    while i < |ch.entries|
      invariant 0 <= i <= |ch.entries|
      invariant PatchSpec(target.data, ch.entries[i..]) == PatchSpec(old(target.data), ch.entries)
    {
      assert ch.entries[i..][0] == ch.entries[i] && ch.entries[i..][1..] == ch.entries[i + 1..];
      var (k, v) := ch.entries[i];
      var res := target.Update(k, Some(v));
      if res.Fail? {
        return res;
      }
      i := i + 1;
    }
    return Pass;
  }

  /** Two references of which neither includes the other. */
  predicate Disjoint(a: string, b: string) {
    !Includes(a, b) && !Includes(b, a)
  }

  /** No key of the changeset includes another. */
  predicate NonOverlapping(entries: seq<(string, Value)>) {
    forall i, j :: 0 <= i < |entries| && 0 <= j < |entries| && i != j ==> Disjoint(entries[i].0, entries[j].0)
  }

  /** An update leaves a disjoint reference's value as it was. */
  lemma UpdateKeepsDisjoint(d: Value, ref: string, v: Option<Value>, other: string)
    requires UpdateSpec(d, ref, v).Ok? && Disjoint(ref, other)
    ensures Extract(UpdateSpec(d, ref, v).value, other) == Extract(d, other)
  {
    var path := Split(ref, '.');
    assert path == path[..|path| - 1] + [path[|path| - 1]];
    if KeyPrefix(Split(other, '.'), path) { PrefixKeysIncluded(other, ref); }
    if KeyPrefix(path, Split(other, '.')) { PrefixKeysIncluded(ref, other); }
    SetKeepsSiblings(d, path[..|path| - 1], path[|path| - 1], v, Split(other, '.'));
  }

  lemma {:induction false} PatchKeepsDisjoint(d: Value, entries: seq<(string, Value)>, other: string)
    requires PatchSpec(d, entries).1 == Pass
    requires forall i :: 0 <= i < |entries| ==> Disjoint(entries[i].0, other)
    ensures Extract(PatchSpec(d, entries).0, other) == Extract(d, other)
    decreases |entries|
  {
    if entries != [] {
      var d1 := UpdateSpec(d, entries[0].0, Some(entries[0].1)).value;
      UpdateKeepsDisjoint(d, entries[0].0, Some(entries[0].1), other);
      PatchKeepsDisjoint(d1, entries[1..], other);
    }
  }

  /** After a successful patch with non-overlapping keys, every key extracts
      to its new value. */
  lemma {:induction false} PatchSetsEveryKey(d: Value, entries: seq<(string, Value)>, i: nat)
    requires NonOverlapping(entries) && PatchSpec(d, entries).1 == Pass && i < |entries|
    ensures Extract(PatchSpec(d, entries).0, entries[i].0) == Ok(Some(entries[i].1))
    decreases |entries|
  {
    var d1 := UpdateSpec(d, entries[0].0, Some(entries[0].1)).value;
    var rest := entries[1..];
    assert NonOverlapping(rest) by {
      forall a, b | 0 <= a < |rest| && 0 <= b < |rest| && a != b ensures Disjoint(rest[a].0, rest[b].0) {
        assert rest[a] == entries[a + 1] && rest[b] == entries[b + 1];
      }
    }
    if i == 0 {
      UpdateThenExtract(d, entries[0].0, entries[0].1);
      forall j | 0 <= j < |rest| ensures Disjoint(rest[j].0, entries[0].0) {
        assert rest[j] == entries[j + 1];
      }
      PatchKeepsDisjoint(d1, rest, entries[0].0);
    } else {
      PatchSetsEveryKey(d1, rest, i - 1);
    }
  }

  /** What `pick` reports for a reference is what the patched state holds
      there, when the keys do not overlap and exactly one of them affects
      the reference. */
  lemma PickAgreesWithPatch(d: Value, ch: Changes, ref: string)
    requires NonOverlapping(ch.entries) && PatchSpec(d, ch.entries).1 == Pass
    requires |Affecting(ch.entries, ref)| == 1
    ensures Pick(ch, ref) == Extract(PatchSpec(d, ch.entries).0, ref)
  {
    var i := Affecting(ch.entries, ref)[0];
    var (key, value) := ch.entries[i];
    var patched := PatchSpec(d, ch.entries).0;
    PatchSetsEveryKey(d, ch.entries, i);
    if key != ref {
      var s := Strip(key, ref).value;
      SplitConcat(key, s);
      WalkConcat(Some(patched), Split(key, '.'), Split(s, '.'));
    }
  }
}
