/** The generic live-page protocol of `common/live_utils.py`: the
    `defaultmethod` decorator, the dispatch of a message to a
    `handle_<type>` method, the conversion of a handler's reply into the
    per-recipient message lists, and the expansion of recipients. */
module LiveUtils {
  import opened Wrappers
  import opened Json
  import opened Assoc
  import Text
  import Records

  // ---- defaultmethod and the decorators -------------------------------------

  /** `@defaultmethod(cls)`: installs `fn` under `name` only when the class
      has no such attribute. */
  function DefaultMethod<M>(cls: map<string, M>, name: string, fn: M): (r: map<string, M>)
    ensures name in r && r[name] == (if name in cls then cls[name] else fn)
    ensures forall n :: n != name ==> (n in r <==> n in cls)
    ensures forall n :: n != name && n in cls ==> r[n] == cls[n]
  {
    if name in cls then cls else cls[name := fn]
  }

  /** Which decorator supplied a handler. */
  datatype Variant = Trials | Preloaded | Puzzles

  /** A `handle_<type>` attribute: one installed by a decorator, or one the
      page class defines itself. */
  datatype Handler = Load(variant: Variant) | Respond(variant: Variant) | Expire(variant: Variant) | Own

  /** The `handle_<type>` attributes of a page class. */
  type PageClass = map<string, Handler>

  /** `@live_trials`. */
  function LiveTrialsClass(cls: PageClass): PageClass {
    var c := DefaultMethod(cls, "handle_load", Load(Trials));
    var c := DefaultMethod(c, "handle_response", Respond(Trials));
    DefaultMethod(c, "handle_timeout", Expire(Trials))
  }

  /** `@live_trials_preloaded`: its own handlers first, then `@live_trials`. */
  function LivePreloadedClass(cls: PageClass): PageClass {
    var c := DefaultMethod(cls, "handle_response", Respond(Preloaded));
    var c := DefaultMethod(c, "handle_timeout", Expire(Preloaded));
    LiveTrialsClass(DefaultMethod(c, "handle_load", Load(Preloaded)))
  }

  /** `@live_puzzles`: its own response and timeout handlers, then
      `@live_trials`. */
  function LivePuzzlesClass(cls: PageClass): PageClass {
    var c := DefaultMethod(cls, "handle_response", Respond(Puzzles));
    LiveTrialsClass(DefaultMethod(c, "handle_timeout", Expire(Puzzles)))
  }

  /** A handler the page class defines itself always wins; otherwise each
      decorator's own handlers take precedence over those of `@live_trials`,
      which supplies the rest.  Other attributes are untouched. */
  lemma DecoratedHandlers(cls: PageClass, name: string)
    ensures name in cls ==> LiveTrialsClass(cls)[name] == cls[name] && LivePreloadedClass(cls)[name] == cls[name] && LivePuzzlesClass(cls)[name] == cls[name]
    ensures name !in cls && name == "handle_load" ==>
      LiveTrialsClass(cls)[name] == Load(Trials) && LivePreloadedClass(cls)[name] == Load(Preloaded) && LivePuzzlesClass(cls)[name] == Load(Trials)
    ensures name !in cls && name == "handle_response" ==>
      LiveTrialsClass(cls)[name] == Respond(Trials) && LivePreloadedClass(cls)[name] == Respond(Preloaded) && LivePuzzlesClass(cls)[name] == Respond(Puzzles)
    ensures name !in cls && name == "handle_timeout" ==>
      LiveTrialsClass(cls)[name] == Expire(Trials) && LivePreloadedClass(cls)[name] == Expire(Preloaded) && LivePuzzlesClass(cls)[name] == Expire(Puzzles)
    ensures name !in cls && name != "handle_load" && name != "handle_response" && name != "handle_timeout" ==>
      name !in LiveTrialsClass(cls) && name !in LivePreloadedClass(cls) && name !in LivePuzzlesClass(cls)
  {
  }

  // ---- dispatch -------------------------------------------------------------

  /** `f"{v}"` for a message type; a list or dict prints with brackets and
      never names a method. */
  function TypeText(v: Value): Option<string> {
    match v
    case Str(s) => Some(s)
    case Num(n) => Some(Text.IntToString(n))
    case Bool(b) => Some(if b then "True" else "False")
    case Null => Some("None")
    case _ => None
  }

  /** The handler `generic_live_method` calls for a message. */
  function HandlerFor(cls: PageClass, message: Value): (r: Result<Handler>)
    ensures r == Err(AssertionError) <==> !(message.Obj? && "type" in message.fields)
    ensures r == Err(NotImplementedError) <==>
      message.Obj? && "type" in message.fields &&
      (TypeText(message.fields["type"]).None? || "handle_" + TypeText(message.fields["type"]).value !in cls)
    ensures r.Ok? ==>
      message.Obj? && "type" in message.fields && TypeText(message.fields["type"]).Some? &&
      "handle_" + TypeText(message.fields["type"]).value in cls &&
      r.value == cls["handle_" + TypeText(message.fields["type"]).value]
    ensures r.Err? ==> r.error == AssertionError || r.error == NotImplementedError
  {
    if !(message.Obj? && "type" in message.fields) then Err(AssertionError)
    else match TypeText(message.fields["type"])
      case None => Err(NotImplementedError)
      case Some(t) => if "handle_" + t in cls then Ok(cls["handle_" + t]) else Err(NotImplementedError)
  }

  // ---- outgoing messages ----------------------------------------------------

  /** A recipient a handler names: a player (by `id_in_group`), a role, or
      an integer (`0` for everybody not addressed). */
  datatype Rcpt = Player(id: int) | Role(name: string) | Id(n: int)

  /** A handler's `{type: data}` for one recipient, in insertion order. */
  type MsgDict = seq<(string, Value)>

  /** A handler's reply: recipients with their `{type: data}`. */
  type Response = seq<(Rcpt, MsgDict)>

  /** `msg = {"type": t}; msg.update(data)`; `None` data is skipped.
      `update` with a number or boolean is a TypeError and with a non-empty
      string a ValueError; a non-empty list of pairs is not modelled. */
  function Message(t: string, data: Value): Result<Option<Dict>> {
    match data
    case Null => Ok(None)
    case Obj(f) => Ok(Some(map["type" := Str(t)] + f))
    case Str(s) => if s == "" then Ok(Some(map["type" := Str(t)])) else Err(ValueError)
    case Arr(a) => if a == [] then Ok(Some(map["type" := Str(t)])) else Err(Unsupported)
    case _ => Err(TypeError)
  }

  /** The message list built for one recipient. */
  function Messages(items: MsgDict): Result<seq<Dict>>
    decreases |items|
  {
    if items == [] then Ok([])
    else match Messages(items[..|items| - 1])
      case Err(e) => Err(e)
      case Ok(ms) =>
        match Message(items[|items| - 1].0, items[|items| - 1].1)
        case Err(e) => Err(e)
        case Ok(None) => Ok(ms)
        case Ok(Some(m)) => Ok(ms + [m])
  }

  /** The `sending` dict built from a reply. */
  function SendingSpec(resp: Response): Result<seq<(Rcpt, seq<Dict>)>>
    decreases |resp|
  {
    if resp == [] then Ok([])
    else match SendingSpec(resp[..|resp| - 1])
      case Err(e) => Err(e)
      case Ok(s) =>
        match Messages(resp[|resp| - 1].1)
        case Err(e) => Err(e)
        case Ok(ms) => Ok(Put(s, resp[|resp| - 1].0, ms))
  }

  /** The loop that fills `sending`. */
  method BuildSending(resp: Response) returns (r: Result<seq<(Rcpt, seq<Dict>)>>)
    ensures r == SendingSpec(resp)
  {
    var sending: seq<(Rcpt, seq<Dict>)> := [];
    var i := 0;
    while i < |resp|
      invariant 0 <= i <= |resp|
      invariant SendingSpec(resp[..i]) == Ok(sending)
    {
      var (rcpt, msgdict) := resp[i];
      var msgs: seq<Dict> := [];
      var j := 0;
      while j < |msgdict|
        invariant 0 <= j <= |msgdict|
        invariant Messages(msgdict[..j]) == Ok(msgs)
      {
        var (t, data) := msgdict[j];
        assert msgdict[..j + 1][..j] == msgdict[..j];
        var m := Message(t, data);
        if m.Err? {
          assert Messages(msgdict[..j + 1]).Err?;
          MessagesErrPrefix(msgdict, j + 1);
          SendingErrPrefix(resp, i, m.error);
          return Err(m.error);
        }
        if m.value.Some? {
          msgs := msgs + [m.value.value];
        }
        j := j + 1;
      }
      assert msgdict[..|msgdict|] == msgdict;
      assert resp[..i + 1][..i] == resp[..i];
      sending := Put(sending, rcpt, msgs);
      i := i + 1;
    }
    assert resp[..|resp|] == resp;
    return Ok(sending);
  }

  /** A failure in some message list fails the whole reply. */
  lemma {:induction false} MessagesErrPrefix(items: MsgDict, n: nat)
    requires n <= |items| && Messages(items[..n]).Err?
    ensures Messages(items).Err? && Messages(items).error == Messages(items[..n]).error
    decreases |items| - n
  {
    if n < |items| {
      assert items[..n + 1][..n] == items[..n];
      MessagesErrPrefix(items, n + 1);
    } else {
      assert items[..n] == items;
    }
  }

  lemma {:induction false} SendingErrPrefix(resp: Response, i: nat, e: Error)
    requires i < |resp| && SendingSpec(resp[..i]).Ok? && Messages(resp[i].1) == Err(e)
    ensures SendingSpec(resp) == Err(e)
  {
    assert resp[..i + 1][..i] == resp[..i];
    SendingErrFrom(resp, i + 1, e);
  }

  lemma {:induction false} SendingErrFrom(resp: Response, n: nat, e: Error)
    requires n <= |resp| && SendingSpec(resp[..n]) == Err(e)
    ensures SendingSpec(resp) == Err(e)
    decreases |resp| - n
  {
    if n < |resp| {
      assert resp[..n + 1][..n] == resp[..n];
      SendingErrFrom(resp, n + 1, e);
    } else {
      assert resp[..n] == resp;
    }
  }

  /** An entry is sent unless its data is `None`. */
  predicate Kept(e: (string, Value)) { e.1 != Null }

  predicate Sendable(v: Value) { v.Null? || v.Obj? }

  /** With dict or `None` data, a recipient gets one message per entry whose
      data is not `None`, in order, each `{"type": t}` updated with the data. */
  lemma {:induction false} MessagesKeepNonNull(items: MsgDict)
    requires forall i :: 0 <= i < |items| ==> Sendable(items[i].1)
    ensures Messages(items).Ok?
    ensures var kept := Records.Where(items, Kept);
      |Messages(items).value| == |kept| &&
      forall k :: 0 <= k < |kept| ==> items[kept[k]].1.Obj? && Messages(items).value[k] == map["type" := Str(items[kept[k]].0)] + items[kept[k]].1.fields
    decreases |items|
  {
    if items != [] {
      var n := |items| - 1;
      var pre := items[..n];
      assert forall i :: 0 <= i < |pre| ==> pre[i] == items[i];
      MessagesKeepNonNull(pre);
      var ms := Messages(pre).value;
      var kept0 := Records.Where(pre, Kept);
      var last := items[n];
      assert Records.Where(items, Kept) == kept0 + (if Kept(last) then [n] else []);
      if Kept(last) {
        assert Messages(items).value == ms + [map["type" := Str(last.0)] + last.1.fields];
      } else {
        assert Messages(items).value == ms;
      }
    }
  }

  // ---- recipient expansion --------------------------------------------------

  /** A role resolved to its player; other recipients unchanged. */
  function Resolve(r: Rcpt, byRole: string -> Result<int>): Result<Rcpt> {
    match r
    case Role(name) => (match byRole(name) case Ok(id) => Ok(Player(id)) case Err(e) => Err(e))
    case _ => Ok(r)
  }

  function ResolveAll<M>(s: seq<(Rcpt, M)>, byRole: string -> Result<int>): (r: Result<seq<(Rcpt, M)>>)
    ensures r.Ok? ==> |r.value| == |s| && forall i :: 0 <= i < |s| ==> Resolve(s[i].0, byRole) == Ok(r.value[i].0) && r.value[i].1 == s[i].1
    ensures r.Err? <==> exists i :: 0 <= i < |s| && Resolve(s[i].0, byRole).Err?
  {
    if s == [] then Ok([])
    else match Resolve(s[0].0, byRole)
      case Err(e) => Err(e)
      case Ok(k) =>
        match ResolveAll(s[1..], byRole)
        case Err(e) => Err(e)
        case Ok(rest) =>
          assert forall i :: 1 <= i < |s| ==> s[i] == s[1..][i - 1];
          Ok([(k, s[0].1)] + rest)
  }

  /** `expand_roles`: role names replaced by the players holding them
      (`group.get_player_by_role`, which is `byRole` here). */
  function ExpandRoles<M>(s: seq<(Rcpt, M)>, byRole: string -> Result<int>): (r: Result<seq<(Rcpt, M)>>)
    ensures r.Ok? ==> UniqueKeys(r.value) && forall k :: HasKey(r.value, k) ==> !k.Role?
    ensures r.Ok? ==> ResolveAll(s, byRole).Ok? && forall k :: Lookup(r.value, k) == LastValue(ResolveAll(s, byRole).value, k)
    ensures r.Err? <==> exists i :: 0 <= i < |s| && Resolve(s[i].0, byRole).Err?
  {
    match ResolveAll(s, byRole)
    case Err(e) => Err(e)
    case Ok(pairs) =>
      var d := FromPairs(pairs);
      assert forall k :: Lookup(d, k) == LastValue(pairs, k) by {
        forall k ensures Lookup(d, k) == LastValue(pairs, k) {
          FromPairsLookup(pairs, k);
        }
      }
      assert UniqueKeys(d) && forall k :: HasKey(d, k) ==> !k.Role? by {
        FromPairsLookup(pairs, Role(""));
        forall k | HasKey(d, k) ensures !k.Role? {
          FromPairsLookup(pairs, k);
          var i :| 0 <= i < |pairs| && pairs[i].0 == k;
        }
      }
      Ok(d)
  }

  /** The group members `expand_others` adds: every player not addressed,
      each given the messages for `0`. */
  function OthersOf<M>(group: seq<int>, s: seq<(Rcpt, M)>, zero: M): (r: seq<(Rcpt, M)>)
    ensures forall k :: LastValue(r, k).Some? <==> k.Player? && k.id in group && !HasKey(s, k)
    ensures forall k :: LastValue(r, k).Some? ==> LastValue(r, k) == Some(zero)
  {
    if group == [] then []
    else
      var rest := OthersOf(group[..|group| - 1], s, zero);
      if HasKey(s, Player(group[|group| - 1])) then rest else rest + [(Player(group[|group| - 1]), zero)]
  }

  /** `expand_others`: a reply to more than one recipient that addresses
      `0` sends the `0` messages to every group member it does not address
      by name; the others keep their own. */
  function ExpandOthers<M>(s: seq<(Rcpt, M)>, group: seq<int>): (r: seq<(Rcpt, M)>)
    ensures |s| == 1 || !HasKey(s, Id(0)) ==> r == s
  {
    if |s| == 1 || !HasKey(s, Id(0)) then s
    else PutAll(Delete(s, Id(0)), OthersOf(group, s, Lookup(s, Id(0)).value))
  }

  lemma ExpandOthersMeaning<M>(s: seq<(Rcpt, M)>, group: seq<int>, k: Rcpt)
    requires UniqueKeys(s) && HasKey(s, Id(0)) && |s| != 1
    ensures UniqueKeys(ExpandOthers(s, group))
    ensures k == Id(0) ==> Lookup(ExpandOthers(s, group), k) == None
    ensures k != Id(0) && HasKey(s, k) ==> Lookup(ExpandOthers(s, group), k) == Lookup(s, k)
    ensures k.Player? && k.id in group && !HasKey(s, k) ==> Lookup(ExpandOthers(s, group), k) == Lookup(s, Id(0))
    ensures !HasKey(s, k) && !(k.Player? && k.id in group) ==> Lookup(ExpandOthers(s, group), k) == None
  {
    var zero := Lookup(s, Id(0)).value;
    DeleteLookup(s, Id(0), k);
    PutAllLookup(Delete(s, Id(0)), OthersOf(group, s, zero), k);
  }

  function IdOf(r: Rcpt): Rcpt {
    match r
    case Player(id) => Id(id)
    case _ => r
  }

  function IdsAll<M>(s: seq<(Rcpt, M)>): (r: seq<(Rcpt, M)>)
    ensures |r| == |s| && forall i :: 0 <= i < |s| ==> r[i] == (IdOf(s[i].0), s[i].1)
  {
    if s == [] then [] else [(IdOf(s[0].0), s[0].1)] + IdsAll(s[1..])
  }

  /** `expand_ids`: players replaced by their `id_in_group`. */
  function ExpandIds<M>(s: seq<(Rcpt, M)>): (r: seq<(Rcpt, M)>)
    ensures UniqueKeys(r) && forall k :: HasKey(r, k) ==> !k.Player?
    ensures forall k :: Lookup(r, k) == LastValue(IdsAll(s), k)
  {
    var pairs := IdsAll(s);
    var d := FromPairs(pairs);
    FromPairsLookup(pairs, Player(0));
    forall k ensures Lookup(d, k) == LastValue(pairs, k) {
      FromPairsLookup(pairs, k);
    }
    forall k | HasKey(d, k) ensures !k.Player? {
      FromPairsLookup(pairs, k);
      var i :| 0 <= i < |pairs| && pairs[i].0 == k;
    }
    d
  }

  /** After `expand_roles` a recipient gets the messages of the last pair
      that resolves to it, and none when no pair does: two roles held by
      one player leave that player the later role's messages. */
  lemma ExpandRolesLastWins<M>(s: seq<(Rcpt, M)>, byRole: string -> Result<int>, k: Rcpt)
    requires ExpandRoles(s, byRole).Ok?
    ensures (forall i :: 0 <= i < |s| ==> Resolve(s[i].0, byRole) != Ok(k)) ==> Lookup(ExpandRoles(s, byRole).value, k) == None
    ensures forall i :: 0 <= i < |s| && Resolve(s[i].0, byRole) == Ok(k) &&
                        (forall j :: i < j < |s| ==> Resolve(s[j].0, byRole) != Ok(k)) ==>
                        Lookup(ExpandRoles(s, byRole).value, k) == Some(s[i].1)
  {
    var pairs := ResolveAll(s, byRole).value;
    forall i | 0 <= i < |s| && Resolve(s[i].0, byRole) == Ok(k) && (forall j :: i < j < |s| ==> Resolve(s[j].0, byRole) != Ok(k))
      ensures Lookup(ExpandRoles(s, byRole).value, k) == Some(s[i].1)
    {
      LastValueAt(pairs, k, i);
    }
  }

  /** After `expand_ids` an id gets the messages of the last pair whose
      recipient has that id, and none when no pair has it. */
  lemma ExpandIdsLastWins<M>(s: seq<(Rcpt, M)>, k: Rcpt)
    ensures (forall i :: 0 <= i < |s| ==> IdOf(s[i].0) != k) ==> Lookup(ExpandIds(s), k) == None
    ensures forall i :: 0 <= i < |s| && IdOf(s[i].0) == k && (forall j :: i < j < |s| ==> IdOf(s[j].0) != k) ==>
                        Lookup(ExpandIds(s), k) == Some(s[i].1)
  {
    var pairs := IdsAll(s);
    forall i | 0 <= i < |s| && IdOf(s[i].0) == k && (forall j :: i < j < |s| ==> IdOf(s[j].0) != k)
      ensures Lookup(ExpandIds(s), k) == Some(s[i].1)
    {
      LastValueAt(pairs, k, i);
    }
  }

  /** Everything `generic_live_method` does after the handler returns. */
  function Deliver(resp: Response, group: seq<int>, byRole: string -> Result<int>): Result<seq<(Rcpt, seq<Dict>)>> {
    match SendingSpec(resp)
    case Err(e) => Err(e)
    case Ok(sending) =>
      match ExpandRoles(sending, byRole)
      case Err(e) => Err(e)
      case Ok(s) => Ok(ExpandIds(ExpandOthers(s, group)))
  }

  /** A reply to a single recipient reaches exactly that recipient (by id). */
  lemma DeliverToOne(rcpt: Rcpt, items: MsgDict, group: seq<int>, byRole: string -> Result<int>)
    requires !rcpt.Role? && forall i :: 0 <= i < |items| ==> Sendable(items[i].1)
    ensures Messages(items).Ok? && Deliver([(rcpt, items)], group, byRole) == Ok([(IdOf(rcpt), Messages(items).value)])
  {
    MessagesKeepNonNull(items);
    var ms := Messages(items).value;
    assert [(rcpt, items)][..0] == [];
    assert SendingSpec([(rcpt, items)]) == Ok([(rcpt, ms)]);
    assert [(rcpt, ms)][1..] == [] && Resolve(rcpt, byRole) == Ok(rcpt);
    assert ResolveAll<seq<Dict>>([], byRole) == Ok([]);
    assert [(rcpt, ms)] + [] == [(rcpt, ms)];
    assert ResolveAll([(rcpt, ms)], byRole) == Ok([(rcpt, ms)]);
    FromPairsSingle(rcpt, ms);
    assert ExpandRoles([(rcpt, ms)], byRole) == Ok([(rcpt, ms)]);
    assert ExpandOthers([(rcpt, ms)], group) == [(rcpt, ms)];
    assert IdsAll([(rcpt, ms)]) == [(IdOf(rcpt), ms)];
    FromPairsSingle(IdOf(rcpt), ms);
  }
}
