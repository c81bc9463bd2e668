/** The ORM record store: a model class owns its records as a sequence and
    queries it with `filter`, which yields indices into that sequence. */
module Records {
  import opened Wrappers

  /** The indices, in ascending order, of the records satisfying `p`. */
  function Where<T>(s: seq<T>, p: T -> bool): (r: seq<nat>)
    ensures forall k :: 0 <= k < |r| ==> r[k] < |s| && p(s[r[k]])
    ensures forall i :: 0 <= i < |s| && p(s[i]) ==> i in r
    ensures forall k, l :: 0 <= k < l < |r| ==> r[k] < r[l]
  {
    if s == [] then []
    else Where(s[..|s| - 1], p) + (if p(s[|s| - 1]) then [|s| - 1] else [])
  }

  /** The number of records satisfying `p`. */
  function CountWhere<T>(s: seq<T>, p: T -> bool): nat {
    |Where(s, p)|
  }

  lemma {:induction false} CountWhereSplit<T>(s: seq<T>, p: T -> bool, q: T -> bool)
    requires forall i :: 0 <= i < |s| ==> (p(s[i]) ==> q(s[i]))
    ensures CountWhere(s, p) <= CountWhere(s, q)
  {
    if s != [] {
      CountWhereSplit(s[..|s| - 1], p, q);
    }
  }

  /** `if found: [x] = found`: no record, exactly one, or Python's ValueError
      for unpacking more than one. */
  function AtMostOne(found: seq<nat>): Result<Option<nat>> {
    if |found| == 0 then Ok(None)
    else if |found| == 1 then Ok(Some(found[0]))
    else Err(ValueError)
  }

  /** `found[-1]`: the last record, or Python's IndexError. */
  function LastOf(found: seq<nat>): Result<nat> {
    if found == [] then Err(IndexError) else Ok(found[|found| - 1])
  }

  // ---- a loop of `create`s that stops at the first failure -------------

  /** The records the loop creates from a sequence of attempts, up to the
      first failing one, and how the loop ends. */
  function Created<T>(results: seq<Result<T>>): (seq<T>, Outcome) {
    if results == [] then ([], Pass)
    else match results[0]
      case Err(e) => ([], Fail(e))
      case Ok(t) =>
        var rest := Created(results[1..]);
        ([t] + rest.0, rest.1)
  }

  /** One round of the loop: a failed attempt ends it, a successful one
      adds its record in front of the rest. */
  lemma CreatedStep<T>(results: seq<Result<T>>, i: nat)
    requires i < |results|
    ensures results[i].Err? ==> Created(results[i..]) == ([], Fail(results[i].error))
    ensures results[i].Ok? ==>
      Created(results[i..]) == ([results[i].value] + Created(results[i + 1..]).0, Created(results[i + 1..]).1)
  {
    assert results[i..][0] == results[i] && results[i..][1..] == results[i + 1..];
  }

  /** The loop creates at most one record per attempt, and one for every
      attempt exactly when it ends normally. */
  lemma {:induction false} CreatedLength<T>(results: seq<Result<T>>)
    ensures |Created(results).0| <= |results|
    ensures Created(results).1 == Pass <==> |Created(results).0| == |results|
  {
    if results != [] && results[0].Ok? {
      CreatedLength(results[1..]);
    }
  }

  /** Record `j` the loop creates is what attempt `j` made. */
  lemma {:induction false} CreatedTrials<T>(results: seq<Result<T>>, j: nat)
    requires j < |Created(results).0|
    ensures j < |results| && results[j] == Ok(Created(results).0[j])
  {
    var rest := Created(results[1..]);
    assert results[0].Ok? && Created(results) == ([results[0].value] + rest.0, rest.1);
    if j > 0 {
      CreatedTrials(results[1..], j - 1);
    }
  }

  /** The records at the given indices, in that order. */
  function Pick<T>(s: seq<T>, idx: seq<nat>): (r: seq<T>)
    requires forall k :: 0 <= k < |idx| ==> idx[k] < |s|
    ensures |r| == |idx| && forall k :: 0 <= k < |idx| ==> r[k] == s[idx[k]]
  {
    seq(|idx|, k requires 0 <= k < |idx| => s[idx[k]])
  }

  /** Picking one more index appends its record. */
  lemma PickAppend<T>(s: seq<T>, idx: seq<nat>, i: nat)
    requires forall k :: 0 <= k < |idx| ==> idx[k] < |s|
    requires i < |s|
    ensures Pick(s, idx + [i]) == Pick(s, idx) + [s[i]]
  {
    assert forall k :: 0 <= k < |idx| ==> (idx + [i])[k] == idx[k];
  }

  /** Indices below `n` pick the same records from the first `n`. */
  lemma PickPrefix<T>(s: seq<T>, n: nat, idx: seq<nat>)
    requires n <= |s| && forall k :: 0 <= k < |idx| ==> idx[k] < n
    ensures Pick(s, idx) == Pick(s[..n], idx)
  {
  }
}
