/** References to game-state variables in the front-end library: strings
    `obj.field.subfield` naming a path through nested objects, and the
    operations `validate`, `includes`, `strip`, `extract` and `update` on
    them.  The library is an ES module, so it runs in strict mode: writing a
    property of a primitive throws a TypeError. */
module Ref {
  import opened Wrappers
  import opened Json
  import Text

  // ---- splitting a reference into its keys -------------------------------

  /** `s.split(c)`: JavaScript never returns an empty list. */
  function Split(s: string, c: char): (r: seq<string>)
    ensures |r| >= 1
    ensures forall i :: 0 <= i < |r| ==> c !in r[i]
  {
    if s == [] then [""]
    else
      var rest := Split(s[1..], c);
      if s[0] == c then [""] + rest else [[s[0]] + rest[0]] + rest[1..]
  }

  /** `parts.join(".")`. */
  function JoinPath(parts: seq<string>): string
    requires |parts| >= 1
  {
    if |parts| == 1 then parts[0] else parts[0] + "." + JoinPath(parts[1..])
  }

  lemma {:induction false} JoinSplit(s: string)
    ensures JoinPath(Split(s, '.')) == s
  {
    if s != [] {
      JoinSplit(s[1..]);
      var rest := Split(s[1..], '.');
      if s[0] != '.' && |rest| > 1 {
        assert ([[s[0]] + rest[0]] + rest[1..])[1..] == rest[1..];
      }
    }
  }

  lemma {:induction false} JoinConcat(a: seq<string>, b: seq<string>)
    requires |a| >= 1 && |b| >= 1
    ensures JoinPath(a + b) == JoinPath(a) + "." + JoinPath(b)
  {
    if |a| > 1 {
      assert (a + b)[1..] == a[1..] + b;
      JoinConcat(a[1..], b);
    }
  }

  /** The keys of `p.s` are the keys of `p` followed by those of `s`. */
  lemma {:induction false} SplitConcat(p: string, s: string)
    ensures Split(p + "." + s, '.') == Split(p, '.') + Split(s, '.')
  {
    if p == [] {
      assert (p + "." + s)[1..] == s;
    } else {
      assert (p + "." + s)[1..] == p[1..] + "." + s;
      SplitConcat(p[1..], s);
    }
  }

  // ---- validate ------------------------------------------------------------

  predicate IsAlpha(c: char) { 'a' <= c <= 'z' || 'A' <= c <= 'Z' }

  /** A character of the regular-expression class `\w`. */
  predicate IsWordChar(c: char) { IsAlpha(c) || Text.IsDigit(c) || c == '_' }

  predicate IsWord(w: string) { forall i :: 0 <= i < |w| ==> IsWordChar(w[i]) }

  /** The reference syntax in terms of its keys: every key is a non-empty
      word, and the first has at least two characters and starts with a
      letter. */
  predicate WellFormed(ref: string) {
    var keys := Split(ref, '.');
    |keys[0]| >= 2 && IsAlpha(keys[0][0]) &&
    forall i :: 0 <= i < |keys| ==> keys[i] != "" && IsWord(keys[i])
  }

  /** The states of an automaton for `^[a-zA-Z]\w+(\.\w+)*$`. */
  datatype RState = Start | NeedWord | InWord | Dead

  function Delta(q: RState, c: char): RState {
    match q
    case Start => if IsAlpha(c) then NeedWord else Dead
    case NeedWord => if IsWordChar(c) then InWord else Dead
    case InWord => if IsWordChar(c) then InWord else if c == '.' then NeedWord else Dead
    case Dead => Dead
  }

  function Run(q: RState, s: string): RState
    decreases |s|
  {
    if s == [] then q else Run(Delta(q, s[0]), s[1..])
  }

  /** `validate(ref)`: throws for an empty ref or one the pattern rejects. */
  function Validate(ref: string): Outcome {
    if ref == "" || Run(Start, ref) != InWord then Fail(JsError) else Pass
  }

  predicate LaterKeysWords(keys: seq<string>) {
    forall i :: 1 <= i < |keys| ==> keys[i] != "" && IsWord(keys[i])
  }

  /** The keys after an empty first key are the keys of the rest. */
  lemma LaterAfterEmpty(rest: seq<string>)
    ensures LaterKeysWords([""] + rest) <==> forall i :: 0 <= i < |rest| ==> rest[i] != "" && IsWord(rest[i])
  {
    assert forall i :: 0 <= i < |rest| ==> ([""] + rest)[i + 1] == rest[i];
  }

  /** Extending the first key keeps the later keys. */
  lemma LaterAfterCons(x: char, rest: seq<string>)
    requires |rest| >= 1
    ensures LaterKeysWords([[x] + rest[0]] + rest[1..]) <==> LaterKeysWords(rest)
    ensures IsWord(([[x] + rest[0]] + rest[1..])[0]) <==> IsWordChar(x) && IsWord(rest[0])
  {
    var keys := [[x] + rest[0]] + rest[1..];
    assert forall i :: 1 <= i < |rest| ==> keys[i] == rest[i];
    assert keys[0][0] == x && keys[0][1..] == rest[0];
  }

  lemma {:induction false} RunInWord(s: string)
    ensures Run(InWord, s) == InWord <==> IsWord(Split(s, '.')[0]) && LaterKeysWords(Split(s, '.'))
    ensures Run(NeedWord, s) == InWord <==>
      Split(s, '.')[0] != "" && IsWord(Split(s, '.')[0]) && LaterKeysWords(Split(s, '.'))
  {
    if s != [] {
      var x, t := s[0], s[1..];
      var rest := Split(t, '.');
      RunInWord(t);
      RunDead(t);
      if x == '.' {
        assert Split(s, '.') == [""] + rest;
        LaterAfterEmpty(rest);
      } else {
        assert Split(s, '.') == [[x] + rest[0]] + rest[1..];
        LaterAfterCons(x, rest);
      }
    }
  }

  lemma {:induction false} RunDead(s: string)
    ensures Run(Dead, s) == Dead
  {
    if s != [] { RunDead(s[1..]); }
  }

  /** All keys are words exactly when the first one and the later ones are. */
  lemma AllKeysWords(keys: seq<string>)
    requires |keys| >= 1
    ensures (forall i :: 0 <= i < |keys| ==> keys[i] != "" && IsWord(keys[i])) <==>
      keys[0] != "" && IsWord(keys[0]) && LaterKeysWords(keys)
  {
  }

  /** The automaton accepts exactly the well-formed references, so a first
      key of a single character is refused. */
  lemma ValidateMeansWellFormed(ref: string)
    ensures Validate(ref) == Pass <==> WellFormed(ref)
  {
    if ref != [] {
      var x, t := ref[0], ref[1..];
      var rest := Split(t, '.');
      var keys := Split(ref, '.');
      RunInWord(t);
      RunDead(t);
      AllKeysWords(keys);
      if x != '.' {
        assert keys == [[x] + rest[0]] + rest[1..];
        LaterAfterCons(x, rest);
        assert keys[0][0] == x && keys[0][1..] == rest[0];
      }
    }
  }

  // ---- includes and strip --------------------------------------------------

  /** `includes(parentref, nestedref)`. */
  predicate Includes(parent: string, nested: string) {
    parent == nested || parent + "." <= nested
  }

  /** A reference never includes a longer sibling that merely shares its
      spelling, e.g. "foo" and "foobar". */
  lemma IncludesNeedsDot(parent: string, s: string)
    requires s != "" && s[0] != '.'
    ensures !Includes(parent, parent + s)
  {
    assert (parent + s)[|parent|] == s[0];
  }

  /** `strip(parentref, nestedref)`. */
  function Strip(parent: string, nested: string): (r: Result<string>)
    ensures r.Ok? <==> Includes(parent, nested)
    ensures r.Err? ==> r.error == JsError
    ensures r.Ok? && parent == nested ==> r.value == ""
    ensures r.Ok? && parent != nested ==> nested == parent + "." + r.value
  {
    if parent == nested then Ok("")
    else if parent + "." <= nested then Ok(nested[|parent| + 1..])
    else Err(JsError)
  }

  /** Stripping a suffix that was appended returns it. */
  lemma StripAppended(parent: string, s: string)
    ensures Strip(parent, parent + "." + s) == Ok(s)
  {
    assert parent + "." <= parent + "." + s;
  }

  /** Prefix order on key lists. */
  predicate KeyPrefix(a: seq<string>, b: seq<string>) {
    |a| <= |b| && b[..|a|] == a
  }

  lemma KeyPrefixCons(x: string, a: seq<string>, b: seq<string>)
    ensures KeyPrefix([x] + a, [x] + b) <==> KeyPrefix(a, b)
  {
    if KeyPrefix([x] + a, [x] + b) {
      assert b[..|a|] == ([x] + b)[1..|a| + 1];
    }
    if KeyPrefix(a, b) {
      assert ([x] + b)[..|a| + 1] == [x] + b[..|a|];
    }
  }

  /** References related by key-list prefix are related by `includes`. */
  lemma PrefixKeysIncluded(parent: string, nested: string)
    requires KeyPrefix(Split(parent, '.'), Split(nested, '.'))
    ensures Includes(parent, nested)
  {
    var a, b := Split(parent, '.'), Split(nested, '.');
    JoinSplit(parent);
    JoinSplit(nested);
    if |a| < |b| {
      var t := b[|a|..];
      assert b == a + t;
      JoinConcat(a, t);
    } else {
      assert b == a;
    }
  }

  // ---- extract ---------------------------------------------------------------

  /** The array index a key names: `String(i) == key` for some `i < n`. */
  function ArrayIndex(key: string, n: nat): (r: Option<nat>)
    ensures r.Some? ==> r.value < n && Text.NatToString(r.value) == key
    ensures r.None? ==> forall i :: 0 <= i < n ==> Text.NatToString(i) != key
  {
    if n == 0 then None
    else if Text.NatToString(n - 1) == key then Some(n - 1)
    else ArrayIndex(key, n - 1)
  }

  lemma ArrayIndexDistinct(k1: string, k2: string, n: nat)
    requires k1 != k2 && ArrayIndex(k1, n).Some? && ArrayIndex(k2, n).Some?
    ensures ArrayIndex(k1, n).value != ArrayIndex(k2, n).value
  {
  }

  /** One step of the `reduce` in `extract`: `o && k in o ? o[k] : undefined`.
      `None` is `undefined`; `in` on a truthy primitive throws a TypeError. */
  function Step(o: Option<Value>, k: string): Result<Option<Value>> {
    match o
    case None => Ok(None)
    case Some(v) =>
      if !JsTruthy(v) then Ok(None)
      else match v
        case Obj(m) => Ok(if k in m then Some(m[k]) else None)
        case Arr(items) =>
          var idx := ArrayIndex(k, |items|);
          if idx.Some? then Ok(Some(items[idx.value]))
          else if k == "length" then Ok(Some(Num(|items|)))
          else Ok(None)
        case _ => Err(TypeError)
  }

  function Walk(o: Option<Value>, keys: seq<string>): Result<Option<Value>>
    decreases |keys|
  {
    if keys == [] then Ok(o)
    else match Step(o, keys[0])
      case Err(e) => Err(e)
      case Ok(next) => Walk(next, keys[1..])
  }

  /** `extract(data, ref)`. */
  function Extract(data: Value, ref: string): Result<Option<Value>> {
    Walk(Some(data), Split(ref, '.'))
  }

  lemma {:induction false} WalkUndefined(keys: seq<string>)
    ensures Walk(None, keys) == Ok(None)
  {
    if keys != [] { WalkUndefined(keys[1..]); }
  }

  /** Walking `a + b` walks `a`, then `b` from where `a` ended. */
  lemma {:induction false} WalkConcat(o: Option<Value>, a: seq<string>, b: seq<string>)
    ensures Walk(o, a + b) == match Walk(o, a) case Err(e) => Err(e) case Ok(x) => Walk(x, b)
    decreases |a|
  {
    if a == [] {
      assert a + b == b;
    } else {
      assert (a + b)[0] == a[0] && (a + b)[1..] == a[1..] + b;
      match Step(o, a[0])
      case Err(e) =>
      case Ok(next) => WalkConcat(next, a[1..], b);
    }
  }

  // ---- update (as a function of the old data) -------------------------------

  /** The last statement of `update`: `delete obj[fld]` or `obj[fld] = value`
      on the object the path led to. */
  function Assign(o: Value, fld: string, value: Option<Value>): Result<Value> {
    match o
    case Null => Err(TypeError)
    case Obj(m) => Ok(if value.None? then Obj(m - {fld}) else Obj(m[fld := value.value]))
    case Arr(items) =>
      var idx := ArrayIndex(fld, |items|);
      if value.Some? then
        if idx.Some? then Ok(Arr(items[idx.value := value.value])) else Err(Unsupported)
      else if idx.Some? then Err(Unsupported)       // leaves a hole
      else if fld == "length" then Err(TypeError)  // not deletable
      else Ok(o)
    case Str(s) =>
      if value.Some? then Err(TypeError)
      else if ArrayIndex(fld, |s|).Some? || fld == "length" then Err(TypeError)
      else Ok(o)
    case _ => if value.Some? then Err(TypeError) else Ok(o)
  }

  /** Walking `keys` down from `o`, creating a missing key as `{}`, then
      assigning; the result is the new `o`. */
  function SetAt(o: Value, keys: seq<string>, fld: string, value: Option<Value>): Result<Value>
    decreases |keys|
  {
    if keys == [] then Assign(o, fld, value)
    else
      var k := keys[0];
      match o
      case Obj(m) =>
        var child := if k in m then m[k] else Obj(map[]);
        (match SetAt(child, keys[1..], fld, value)
         case Err(e) => Err(e)
         case Ok(c) => Ok(Obj(m[k := c])))
      case Arr(items) =>
        var idx := ArrayIndex(k, |items|);
        if idx.Some? then
          match SetAt(items[idx.value], keys[1..], fld, value)
          case Err(e) => Err(e)
          case Ok(c) => Ok(Arr(items[idx.value := c]))
        else if k == "length" then
          match SetAt(Num(|items|), keys[1..], fld, value)
          case Err(e) => Err(e)
          case Ok(_) => Ok(o)
        else Err(Unsupported)
      case _ => Err(TypeError)
  }

  /** `update(data, ref, value)` on a data value: the new data, or the
      exception, in which case the data is unchanged. */
  function UpdateSpec(data: Value, ref: string, value: Option<Value>): Result<Value> {
    var path := Split(ref, '.');
    SetAt(data, path[..|path| - 1], path[|path| - 1], value)
  }

  /** After a successful update with a value, extracting the ref gives that
      value. */
  lemma {:induction false} SetThenWalk(o: Value, keys: seq<string>, fld: string, v: Value)
    requires SetAt(o, keys, fld, Some(v)).Ok?
    ensures Walk(Some(SetAt(o, keys, fld, Some(v)).value), keys + [fld]) == Ok(Some(v))
    decreases |keys|
  {
    var o' := SetAt(o, keys, fld, Some(v)).value;
    if keys == [] {
      assert Walk(Some(o'), [fld]) == Step(Some(o'), fld);
    } else {
      var k := keys[0];
      assert (keys + [fld])[0] == k && (keys + [fld])[1..] == keys[1..] + [fld];
      match o
      case Obj(m) =>
        var child := if k in m then m[k] else Obj(map[]);
        SetThenWalk(child, keys[1..], fld, v);
      case Arr(items) =>
        var idx := ArrayIndex(k, |items|);
        if idx.Some? {
          SetThenWalk(items[idx.value], keys[1..], fld, v);
        } else {
          SetLengthFails(|items|, keys[1..], fld, v);
        }
    }
  }

  /** Writing through an array's `length` always throws. */
  lemma {:induction false} SetLengthFails(n: int, keys: seq<string>, fld: string, v: Value)
    ensures SetAt(Num(n), keys, fld, Some(v)).Err?
  {
  }

  lemma UpdateThenExtract(data: Value, ref: string, v: Value)
    requires UpdateSpec(data, ref, Some(v)).Ok?
    ensures Extract(UpdateSpec(data, ref, Some(v)).value, ref) == Ok(Some(v))
  {
    var path := Split(ref, '.');
    assert path == path[..|path| - 1] + [path[|path| - 1]];
    SetThenWalk(data, path[..|path| - 1], path[|path| - 1], v);
  }

  /** After a successful deletion the ref no longer extracts to a value. */
  lemma {:induction false} SetDeleteWalk(o: Value, keys: seq<string>, fld: string)
    requires SetAt(o, keys, fld, None).Ok?
    ensures !Walk(Some(SetAt(o, keys, fld, None).value), keys + [fld]).Ok? ||
            Walk(Some(SetAt(o, keys, fld, None).value), keys + [fld]).value.None?
    decreases |keys|
  {
    var o' := SetAt(o, keys, fld, None).value;
    if keys == [] {
      assert Walk(Some(o'), [fld]) == Step(Some(o'), fld);
    } else {
      var k := keys[0];
      assert (keys + [fld])[0] == k && (keys + [fld])[1..] == keys[1..] + [fld];
      match o
      case Obj(m) =>
        var child := if k in m then m[k] else Obj(map[]);
        SetDeleteWalk(child, keys[1..], fld);
      case Arr(items) =>
        var idx := ArrayIndex(k, |items|);
        if idx.Some? {
          SetDeleteWalk(items[idx.value], keys[1..], fld);
        } else {
          var c := SetAt(Num(|items|), keys[1..], fld, None).value;
          NumberHasNoFields(|items|, keys[1..] + [fld]);
          NumberHasNoFields(c.n, keys[1..] + [fld]);
          SetNumberUnchanged(|items|, keys[1..], fld);
        }
    }
  }

  /** Any key walked from a number yields nothing or throws. */
  lemma NumberHasNoFields(n: int, keys: seq<string>)
    requires keys != []
    ensures !Walk(Some(Num(n)), keys).Ok? || Walk(Some(Num(n)), keys).value.None?
  {
    if n == 0 { WalkUndefined(keys[1..]); }
  }

  lemma SetNumberUnchanged(n: int, keys: seq<string>, fld: string)
    requires SetAt(Num(n), keys, fld, None).Ok?
    ensures SetAt(Num(n), keys, fld, None).value == Num(n)
  {
  }

  lemma UpdateThenDeleted(data: Value, ref: string)
    requires UpdateSpec(data, ref, None).Ok?
    ensures var r := Extract(UpdateSpec(data, ref, None).value, ref); r.Err? || r.value.None?
  {
    var path := Split(ref, '.');
    assert path == path[..|path| - 1] + [path[|path| - 1]];
    SetDeleteWalk(data, path[..|path| - 1], path[|path| - 1]);
  }

  /** Assigning `fld` leaves every other key of the object or array as it
      was. */
  lemma AssignKeepsOther(o: Value, fld: string, value: Option<Value>, q: string)
    requires Assign(o, fld, value).Ok? && q != fld
    ensures Step(Some(Assign(o, fld, value).value), q) == Step(Some(o), q)
  {
    match o
    case Arr(items) =>
      if ArrayIndex(fld, |items|).Some? && ArrayIndex(q, |items|).Some? {
        ArrayIndexDistinct(fld, q, |items|);
      }
    case _ =>
  }

  /** Updating below the key `keys[0]` leaves every other key as it was. */
  lemma SetKeepsOtherKey(o: Value, keys: seq<string>, fld: string, value: Option<Value>, q: string)
    requires keys != [] && SetAt(o, keys, fld, value).Ok? && q != keys[0]
    ensures Step(Some(SetAt(o, keys, fld, value).value), q) == Step(Some(o), q)
  {
    match o
    case Arr(items) =>
      if ArrayIndex(keys[0], |items|).Some? && ArrayIndex(q, |items|).Some? {
        ArrayIndexDistinct(keys[0], q, |items|);
      }
    case _ =>
  }

  /** Walks whose first steps agree, or lead to values whose remaining
      walks agree, agree. */
  lemma WalkAgrees(o1: Option<Value>, o2: Option<Value>, path: seq<string>)
    requires path != []
    requires Step(o1, path[0]) == Step(o2, path[0]) ||
      (Step(o1, path[0]).Ok? && Step(o2, path[0]).Ok? &&
       Walk(Step(o1, path[0]).value, path[1..]) == Walk(Step(o2, path[0]).value, path[1..]))
    ensures Walk(o1, path) == Walk(o2, path)
  {
  }

  /** An update leaves every path that neither contains nor lies inside the
      updated one as it was. */
  lemma {:induction false} SetKeepsSiblings(o: Value, keys: seq<string>, fld: string, value: Option<Value>, other: seq<string>)
    requires SetAt(o, keys, fld, value).Ok?
    requires !KeyPrefix(other, keys + [fld]) && !KeyPrefix(keys + [fld], other)
    ensures Walk(Some(SetAt(o, keys, fld, value).value), other) == Walk(Some(o), other)
    decreases |keys|
  {
    var o' := SetAt(o, keys, fld, value).value;
    var path := keys + [fld];
    assert other != [] by { assert KeyPrefix([], path); }
    var q := other[0];
    assert path[0] == if keys == [] then fld else keys[0];
    assert KeyPrefix([q], other);
    if keys == [] {
      assert path == [fld];
      AssignKeepsOther(o, fld, value, q);
    } else if q != keys[0] {
      SetKeepsOtherKey(o, keys, fld, value, q);
    } else {
      var k := keys[0];
      var rest := other[1..];
      assert path[1..] == keys[1..] + [fld];
      assert KeyPrefix([k], path);
      assert rest != [];
      assert path == [k] + (keys[1..] + [fld]) && other == [k] + rest;
      KeyPrefixCons(k, rest, keys[1..] + [fld]);
      KeyPrefixCons(k, keys[1..] + [fld], rest);
      match o
      case Obj(m) =>
        var child := if k in m then m[k] else Obj(map[]);
        var c := SetAt(child, keys[1..], fld, value).value;
        assert o' == Obj(m[k := c]);
        SetKeepsSiblings(child, keys[1..], fld, value, rest);
        if k !in m {
          WalkUndefined(rest[1..]);
          WalkAgrees(Some(child), None, rest);
        }
      case Arr(items) =>
        var idx := ArrayIndex(k, |items|);
        if idx.Some? {
          var c := SetAt(items[idx.value], keys[1..], fld, value).value;
          assert o' == Arr(items[idx.value := c]);
          SetKeepsSiblings(items[idx.value], keys[1..], fld, value, rest);
        } else {
          assert o' == o;
        }
    }
    WalkAgrees(Some(o'), Some(o), other);
  }

  // ---- update (in place) -------------------------------------------------------

  /** Where the walk of `update` went down: through a key of an object, an
      index of an array, or an array's `length`. */
  datatype Frame = InObj(m: map<string, Value>, k: string) | InArr(items: seq<Value>, i: nat) | InLength(items: seq<Value>)

  /** Put a modified child back into its parent. */
  function Fill(f: Frame, c: Value): Value {
    match f
    case InObj(m, k) => Obj(m[k := c])
    case InArr(items, i) => if i < |items| then Arr(items[i := c]) else Arr(items)
    case InLength(items) => Arr(items)
  }

  /** Rebuild the data from the innermost changed value outwards. */
  function Plug(trail: seq<Frame>, r: Result<Value>): Result<Value> {
    if r.Err? || trail == [] then r
    else Plug(trail[..|trail| - 1], Ok(Fill(trail[|trail| - 1], r.value)))
  }

  lemma PlugErr(trail: seq<Frame>, e: Error)
    ensures Plug(trail, Err(e)) == Err(e)
  {
  }

  lemma PlugSnoc(trail: seq<Frame>, f: Frame, r: Result<Value>)
    ensures Plug(trail + [f], r) == if r.Err? then r else Plug(trail, Ok(Fill(f, r.value)))
  {
    assert (trail + [f])[..|trail|] == trail;
  }

  /** Going one frame down keeps the rebuilt result. */
  lemma PlugStep(trail: seq<Frame>, f: Frame, r: Result<Value>, whole: Result<Value>)
    requires whole == if r.Err? then r else Ok(Fill(f, r.value))
    ensures Plug(trail + [f], r) == Plug(trail, whole)
  {
    PlugSnoc(trail, f, r);
  }

  /** The descent of `update` along `objpath` from `data`, creating missing
      keys as `{}`: the value reached and the trail of frames above it, or
      the exception. */
  method Descend(data: Value, objpath: seq<string>, fld: string, value: Option<Value>)
      returns (o: Value, trail: seq<Frame>, r: Outcome)
    ensures r.Pass? ==> Plug(trail, Assign(o, fld, value)) == SetAt(data, objpath, fld, value)
    ensures r.Fail? ==> SetAt(data, objpath, fld, value) == Err(r.error)
  {
    ghost var goal := SetAt(data, objpath, fld, value);
    o := data;
    trail := [];
    var i := 0;
    while i < |objpath|
      invariant 0 <= i <= |objpath|
      invariant Plug(trail, SetAt(o, objpath[i..], fld, value)) == goal
    {
      var k := objpath[i];
      assert objpath[i..][0] == k && objpath[i..][1..] == objpath[i + 1..];
      ghost var here := SetAt(o, objpath[i..], fld, value);
      match o {
        case Obj(m) =>
          var child := if k in m then m[k] else Obj(map[]);  // `ins(o, k)` creates `{}`
          PlugStep(trail, InObj(m, k), SetAt(child, objpath[i + 1..], fld, value), here);
          trail := trail + [InObj(m, k)];
          o := child;
        case Arr(items) =>
          var idx := ArrayIndex(k, |items|);
          if idx.Some? {
            PlugStep(trail, InArr(items, idx.value), SetAt(items[idx.value], objpath[i + 1..], fld, value), here);
            trail := trail + [InArr(items, idx.value)];
            o := items[idx.value];
          } else if k == "length" {
            PlugStep(trail, InLength(items), SetAt(Num(|items|), objpath[i + 1..], fld, value), here);
            trail := trail + [InLength(items)];
            o := Num(|items|);
          } else {
            PlugErr(trail, Unsupported);
            return o, trail, Fail(Unsupported);
          }
        case _ =>
          assert SetAt(o, objpath[i..], fld, value) == Err(TypeError);
          PlugErr(trail, TypeError);
          return o, trail, Fail(TypeError);  // `k in o` on a primitive or null
      }
      i := i + 1;
    }
    assert objpath[i..] == [];
    r := Pass;
  }

  /** Putting the changed value back into the frames above it, innermost
      first. */
  method Rebuild(trail: seq<Frame>, c: Value) returns (cur: Value)
    ensures Plug(trail, Ok(c)) == Ok(cur)
  {
    cur := c;
    var j := |trail|;
    assert trail[..j] == trail;
    while j > 0
      invariant 0 <= j <= |trail|
      invariant Plug(trail[..j], Ok(cur)) == Plug(trail, Ok(c))
    {
      assert trail[..j][..j - 1] == trail[..j - 1];
      cur := Fill(trail[j - 1], cur);
      j := j - 1;
    }
  }

  /** A JavaScript object that `update` modifies in place. */
  class JsObject {
    var data: Value

    constructor(d: Value)
      ensures data == d
    {
      data := d;
    }

    /** `update(this, ref, value)`; `value == None` is `undefined`. */
    method Update(ref: string, value: Option<Value>) returns (r: Outcome)
      modifies this
      ensures UpdateSpec(old(data), ref, value).Ok? ==> r == Pass && data == UpdateSpec(old(data), ref, value).value
      ensures UpdateSpec(old(data), ref, value).Err? ==> r == Fail(UpdateSpec(old(data), ref, value).error) && data == old(data)
    {
      var path := Split(ref, '.');
      var objpath, fld := path[..|path| - 1], path[|path| - 1];
      var o, trail, found := Descend(data, objpath, fld, value);
      if found.Fail? {
        return found;
      }
      var res := Assign(o, fld, value);
      if res.Err? {
        PlugErr(trail, res.error);
        return Fail(res.error);
      }
      data := Rebuild(trail, res.value);
      return Pass;
    }
  }
}
