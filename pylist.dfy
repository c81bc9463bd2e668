/** Python list indexing, where a negative index counts from the end. */
module PyList {
  import opened Wrappers

  /** The position `s[i]` denotes in a list of length `n`, if any. */
  function PyIndex(n: nat, i: int): (r: Option<nat>)
    ensures r.Some? <==> -(n as int) <= i < n
    ensures r.Some? ==> r.value < n && (r.value == i || r.value == n + i)
    ensures 0 <= i < n ==> r == Some(i)
  {
    if 0 <= i < n then Some(i)
    else if -(n as int) <= i < 0 then Some(n + i)
    else None
  }

  /** Python's `s[i]`: an IndexError outside the list. */
  function PyAt<T>(s: seq<T>, i: int): (r: Result<T>)
    ensures r.Ok? <==> -|s| <= i < |s|
    ensures r.Err? ==> r.error == IndexError
    ensures 0 <= i < |s| ==> r == Ok(s[i])
    ensures r.Ok? ==> r.value == s[PyIndex(|s|, i).value]
  {
    match PyIndex(|s|, i)
    case None => Err(IndexError)
    case Some(k) => Ok(s[k])
  }
}
