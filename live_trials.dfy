/** The trial protocol the `live_trials`, `live_trials_preloaded` and
    `live_puzzles` decorators of `common/live_utils.py` install: `load`,
    `response` and `timeout` handlers over `participant.iteration` and the
    player's trial records.  The app-specific static methods are hooks,
    given as functions; a page class that omits one gets the decorator's
    default. */
module LiveTrials {
  import opened Wrappers
  import opened Json
  import opened Assoc
  import opened LiveUtils
  import Records

  /** The fields of a trial record the protocol reads. */
  datatype TrialInfo = TrialInfo(iteration: int, completed: bool, successful: Value, skipped: bool, timeouted: bool)

  /** What a `validate_response` returns: a dict, with its items in
      insertion order, or any other value (never a dict). */
  datatype Returned = RDict(items: MsgDict) | RValue(v: Value)

  function AsValue(r: Returned): Value {
    match r
    case RDict(items) => Obj(ToMap(items))
    case RValue(v) => v
  }

  /** The hooks of a decorated page class, defaults filled in.  `P` is the
      player's own fields (its counters), `T` a trial record; the store is
      the player's trial records in creation order, and a trial is named by
      its index. */
  datatype Hooks<!P, !T> = Hooks(
    info: T -> TrialInfo,
    /** `get_trial(player, iteration)` */
    getTrial: (P, seq<T>, int) -> Result<Option<nat>>,
    /** `new_trial(player, iteration)`: the store afterwards (records it
        created stay, even when it raises) and the trial */
    newTrial: (P, seq<T>, int) -> (seq<T>, Result<Option<nat>>),
    /** `encode_trial(trial)` */
    encode: T -> Result<Value>,
    /** `get_progress(player, iteration)` */
    progress: (P, seq<T>, int) -> Value,
    /** `validate_response(trial, response, timeout_happened)`: the player
        and trial afterwards (changes made before it raises stay) and what
        it returns */
    validate: (P, T, Option<Dict>, bool) -> (P, T, Result<Returned>),
    /** `get_all_trials(player)` */
    allTrials: (P, seq<T>) -> seq<nat>)

  /** The trials the hooks name exist. */
  ghost predicate HooksValid<P(!new), T(!new)>(h: Hooks<P, T>) {
    (forall p, s, i :: h.getTrial(p, s, i).Ok? && h.getTrial(p, s, i).value.Some? ==> h.getTrial(p, s, i).value.value < |s|) &&
    (forall p, s, i :: h.newTrial(p, s, i).1.Ok? && h.newTrial(p, s, i).1.value.Some? ==> h.newTrial(p, s, i).1.value.value < |h.newTrial(p, s, i).0|) &&
    (forall p, s, k :: 0 <= k < |h.allTrials(p, s)| ==> h.allTrials(p, s)[k] < |s|)
  }

  // ---- the decorators' default hooks ----------------------------------------

  /** What a page class defines itself; `None` for a missing static method
      or attribute. */
  datatype PageHooks<!P, !T> = PageHooks(
    info: T -> TrialInfo,
    /** `trial_fields` and `getattr(trial, f)` for the default encoder */
    trialFields: Option<seq<string>>,
    fieldOf: (T, string) -> Option<Value>,
    getTrial: Option<(P, seq<T>, int) -> Result<Option<nat>>>,
    newTrial: Option<(P, seq<T>, int) -> (seq<T>, Result<Option<nat>>)>,
    encode: Option<T -> Result<Value>>,
    progress: Option<(P, seq<T>, int) -> Value>,
    validate: Option<(P, T, Option<Dict>, bool) -> (P, T, Result<Returned>)>,
    allTrials: Option<(P, seq<T>) -> seq<nat>>)

  /** The player's trials of that iteration. */
  function TrialsAt<T>(info: T -> TrialInfo, s: seq<T>, it: int): (r: seq<nat>)
    ensures forall k :: 0 <= k < |r| ==> r[k] < |s| && info(s[r[k]]).iteration == it
    ensures forall i :: 0 <= i < |s| && info(s[i]).iteration == it ==> i in r
  {
    if s == [] then []
    else TrialsAt(info, s[..|s| - 1], it) + (if info(s[|s| - 1]).iteration == it then [|s| - 1] else [])
  }

  /** The default `get_trial`: the player's trial with that iteration; none,
      or a ValueError when there are several. */
  function DefaultGetTrial<T>(info: T -> TrialInfo, s: seq<T>, it: int): (r: Result<Option<nat>>)
    ensures r.Ok? && r.value.Some? ==> r.value.value < |s| && info(s[r.value.value]).iteration == it
    ensures r == Ok(None) <==> forall i :: 0 <= i < |s| ==> info(s[i]).iteration != it
    ensures r.Err? ==> r.error == ValueError
  {
    var found := TrialsAt(info, s, it);
    assert found != [] ==> found[0] < |s| && info(s[found[0]]).iteration == it;
    Records.AtMostOne(found)
  }

  /** The default `encode_trial`: `{f: getattr(trial, f) for f in trial_fields}`. */
  function EncodeFields<T>(t: T, fields: seq<string>, fieldOf: (T, string) -> Option<Value>): (r: Result<Dict>)
    ensures r.Ok? ==> forall f :: f in r.value <==> f in fields
    ensures r.Err? ==> r.error == AttributeError
  {
    if fields == [] then Ok(map[])
    else match EncodeFields(t, fields[..|fields| - 1], fieldOf)
      case Err(e) => Err(e)
      case Ok(d) =>
        match fieldOf(t, fields[|fields| - 1])
        case None => Err(AttributeError)
        case Some(v) => Ok(d[fields[|fields| - 1] := v])
  }

  function DefaultEncode<T>(t: T, fields: Option<seq<string>>, fieldOf: (T, string) -> Option<Value>): Result<Value> {
    match fields
    case None => Err(AttributeError)
    case Some(fs) => (match EncodeFields(t, fs, fieldOf) case Ok(d) => Ok(Obj(d)) case Err(e) => Err(e))
  }

  /** `defaultmethod` applied to every hook. */
  function ResolveHooks<P(!new), T(!new)>(ph: PageHooks<P, T>): Hooks<P, T> {
    var info := ph.info;
    var getTrial := match ph.getTrial
      case Some(f) => f
      case None => (p: P, s: seq<T>, it: int) => DefaultGetTrial(info, s, it);
    Hooks(
      info,
      getTrial,
      match ph.newTrial case Some(f) => f case None => (p: P, s: seq<T>, it: int) => (s, getTrial(p, s, it)),
      match ph.encode case Some(f) => f case None => (t: T) => DefaultEncode(t, ph.trialFields, ph.fieldOf),
      match ph.progress case Some(f) => f case None => (p: P, s: seq<T>, it: int) => Obj(map["current" := Num(it)]),
      match ph.validate case Some(f) => f case None => (p: P, t: T, r: Option<Dict>, b: bool) => (p, t, Err(TypeError)),
      match ph.allTrials case Some(f) => f case None => (p: P, s: seq<T>) => Records.Where(s, (t: T) => !info(t).completed))
  }

  /** The default lookups only ever name existing trials. */
  lemma DefaultHooksValid<P(!new), T(!new)>(ph: PageHooks<P, T>)
    requires ph.getTrial.None? && ph.newTrial.None? && ph.allTrials.None?
    ensures HooksValid(ResolveHooks(ph))
  {
  }

  /** The default `get_progress` reports the iteration it is given, and the
      default `new_trial` creates nothing: it finds a pregenerated trial. */
  lemma DefaultProgressAndNewTrial<P(!new), T(!new)>(ph: PageHooks<P, T>, p: P, s: seq<T>, it: int)
    requires ph.progress.None? && ph.newTrial.None?
    ensures ResolveHooks(ph).progress(p, s, it) == Obj(map["current" := Num(it)])
    ensures ResolveHooks(ph).newTrial(p, s, it) == (s, ResolveHooks(ph).getTrial(p, s, it))
  {
  }

  // ---- the handlers as functions of the state --------------------------------

  /** `participant.iteration`, the player's fields and trial records. */
  datatype State<P, T> = State(player: P, iteration: int, store: seq<T>)

  /** `message["iteration"] != iteration` is false: Python compares a
      boolean as 0 or 1, and a string or `None` never equals a number. */
  predicate SameIteration(v: Value, it: int) {
    match v
    case Num(n) => n == it
    case Bool(b) => (if b then 1 else 0) == it
    case _ => false
  }

  /** `x + 1` in Python. */
  function PlusOne(v: Value): (r: Result<Value>)
    ensures r.Ok? <==> v.Num? || v.Bool?
    ensures v.Num? ==> r == Ok(Num(v.n + 1))
  {
    match v
    case Num(n) => Ok(Num(n + 1))
    case Bool(b) => Ok(Num(if b then 2 else 1))
    case _ => Err(TypeError)
  }

  /** `progress["current"] += 1`. */
  function BumpCurrent(progress: Value): (r: Result<Value>)
    ensures progress.Obj? && "current" in progress.fields && progress.fields["current"].Num? ==>
      r == Ok(Obj(progress.fields["current" := Num(progress.fields["current"].n + 1)]))
    ensures progress.Obj? && "current" !in progress.fields ==> r == Err(KeyError)
    ensures !progress.Obj? ==> r == Err(TypeError)
  {
    match progress
    case Obj(f) =>
      if "current" !in f then Err(KeyError)
      else (match PlusOne(f["current"]) case Ok(v) => Ok(Obj(f["current" := v])) case Err(e) => Err(e))
    case _ => Err(TypeError)
  }

  /** The `status` dict of a completed trial. */
  function StatusOf(i: TrialInfo): Value {
    Obj(map["trialCompleted" := Bool(true), "trialSuccessful" := i.successful,
            "trialSkipped" := Bool(i.skipped), "trialTimeouted" := Bool(i.timeouted)])
  }

  /** The guards shared by the response and timeout handlers: the trial of
      that iteration exists and is not completed. */
  function OpenTrial<P(!new), T(!new)>(h: Hooks<P, T>, st: State<P, T>, it: int): (r: Result<nat>)
    requires HooksValid(h)
    ensures r.Ok? ==> r.value < |st.store| && !h.info(st.store[r.value]).completed
    ensures r.Ok? <==> h.getTrial(st.player, st.store, it).Ok? && h.getTrial(st.player, st.store, it).value.Some? &&
                       !h.info(st.store[h.getTrial(st.player, st.store, it).value.value]).completed
    ensures h.getTrial(st.player, st.store, it).Ok? && r.Err? ==> r.error == RuntimeError
  {
    match h.getTrial(st.player, st.store, it)
    case Err(e) => Err(e)
    case Ok(None) => Err(RuntimeError)
    case Ok(Some(k)) => if h.info(st.store[k]).completed then Err(RuntimeError) else Ok(k)
  }

  /** `handle_load` of `@live_trials`. */
  function LoadSpec<P(!new), T(!new)>(h: Hooks<P, T>, me: int, st: State<P, T>): (State<P, T>, Result<Response>)
    requires HooksValid(h)
  {
    var it := st.iteration;
    var progress := h.progress(st.player, st.store, it);
    match h.getTrial(st.player, st.store, it)
    case Err(e) => (st, Err(e))
    case Ok(cur) =>
      if cur.Some? && !h.info(st.store[cur.value]).completed then
        match h.encode(st.store[cur.value])
        case Err(e) => (st, Err(e))
        case Ok(enc) => (st, Ok([(Player(me), [("trial", enc), ("progress", progress)])]))
      else
        var (store1, created) := h.newTrial(st.player, st.store, it + 1);
        match created
        case Err(e) => (st.(store := store1), Err(e))
        case Ok(None) =>
          (st.(store := store1), Ok([(Player(me), [("status", Obj(map["gameOver" := Bool(true)])), ("progress", progress)])]))
        case Ok(Some(k)) =>
          var st2 := State(st.player, it + 1, store1);
          match BumpCurrent(progress)
          case Err(e) => (st2, Err(e))
          case Ok(progress2) =>
            match h.encode(store1[k])
            case Err(e) => (st2, Err(e))
            case Ok(enc) => (st2, Ok([(Player(me), [("trial", enc), ("progress", progress2)])]))
  }

  /** The reply of `live_trials`' response and timeout handlers. */
  function TrialsReply(me: int, feedback: Value, progress: Value, info: TrialInfo, withStatus: bool): Response {
    [(Player(me), [("feedback", feedback), ("progress", progress)] + (if withStatus then [("status", StatusOf(info))] else []))]
  }

  /** `handle_response` (`timeout == false`) and `handle_timeout`
      (`timeout == true`) of `@live_trials`. */
  function AnswerSpec<P(!new), T(!new)>(h: Hooks<P, T>, me: int, st: State<P, T>, msg: Dict, timeout: bool): (State<P, T>, Result<Response>)
    requires HooksValid(h)
  {
    var it := st.iteration;
    if "iteration" !in msg then (st, Err(KeyError))
    else if !SameIteration(msg["iteration"], it) then (st, Err(RuntimeError))
    else match OpenTrial(h, st, it)
      case Err(e) => (st, Err(e))
      case Ok(k) =>
        var (p1, t1, ret) := h.validate(st.player, st.store[k], if timeout then None else Some(msg), timeout);
        var st1 := State(p1, it, st.store[k := t1]);
        match ret
        case Err(e) => (st1, Err(e))
        case Ok(fb) =>
          var progress := h.progress(p1, st1.store, it);
          var info := h.info(t1);
          if timeout && !info.completed then (st1, Err(AssertionError))
          else (st1, Ok(TrialsReply(me, AsValue(fb), progress, info, info.completed)))
  }

  /** The ORM lookup `filter(iteration=v)` for a message's iteration field;
      Django's coercion of strings is not modelled. */
  function IterationOf(v: Value): Result<int> {
    match v
    case Num(n) => Ok(n)
    case Bool(b) => Ok(if b then 1 else 0)
    case _ => Err(Unsupported)
  }

  /** `handle_response`/`handle_timeout` of `@live_trials_preloaded`: the
      trial is the one of the message's iteration, and the reply is empty. */
  function PreloadedAnswerSpec<P(!new), T(!new)>(h: Hooks<P, T>, st: State<P, T>, msg: Dict, timeout: bool): (State<P, T>, Result<Response>)
    requires HooksValid(h)
  {
    if "iteration" !in msg then (st, Err(KeyError))
    else match IterationOf(msg["iteration"])
      case Err(e) => (st, Err(e))
      case Ok(it) =>
        match OpenTrial(h, st, it)
        case Err(e) => (st, Err(e))
        case Ok(k) =>
          var (p1, t1, ret) := h.validate(st.player, st.store[k], if timeout then None else Some(msg), timeout);
          var st1 := st.(player := p1, store := st.store[k := t1]);
          if ret.Err? then (st1, Err(ret.error))
          else if timeout && !h.info(t1).completed then (st1, Err(AssertionError))
          else (st1, Ok([]))
  }

  function EncodeAll<P(!new), T(!new)>(h: Hooks<P, T>, s: seq<T>, idx: seq<nat>): (r: Result<seq<Value>>)
    requires forall k :: 0 <= k < |idx| ==> idx[k] < |s|
    ensures r.Ok? ==> |r.value| == |idx| && forall k :: 0 <= k < |idx| ==> h.encode(s[idx[k]]) == Ok(r.value[k])
    ensures r.Err? <==> exists k :: 0 <= k < |idx| && h.encode(s[idx[k]]).Err?
  {
    if idx == [] then Ok([])
    else match EncodeAll(h, s, idx[..|idx| - 1])
      case Err(e) => Err(e)
      case Ok(vs) => (match h.encode(s[idx[|idx| - 1]]) case Err(e) => Err(e) case Ok(v) => Ok(vs + [v]))
  }

  /** `handle_load` of `@live_trials_preloaded`: every trial `get_all_trials`
      yields, encoded; nothing changes. */
  function PreloadedLoadSpec<P(!new), T(!new)>(h: Hooks<P, T>, me: int, st: State<P, T>): (State<P, T>, Result<Response>)
    requires HooksValid(h)
  {
    match EncodeAll(h, st.store, h.allTrials(st.player, st.store))
    case Err(e) => (st, Err(e))
    case Ok(vs) => (st, Ok([(Player(me), [("trials", Obj(map["data" := Arr(vs)]))])]))
  }

  /** `handle_response`/`handle_timeout` of `@live_puzzles`: the dict that
      `validate_response` returns, with `progress` and, for a completed
      trial, `status` added. */
  function PuzzleAnswerSpec<P(!new), T(!new)>(h: Hooks<P, T>, me: int, st: State<P, T>, msg: Dict, timeout: bool): (State<P, T>, Result<Response>)
    requires HooksValid(h)
  {
    var it := st.iteration;
    if "iteration" !in msg then (st, Err(KeyError))
    else if !SameIteration(msg["iteration"], it) then (st, Err(RuntimeError))
    else match OpenTrial(h, st, it)
      case Err(e) => (st, Err(e))
      case Ok(k) =>
        var (p1, t1, ret) := h.validate(st.player, st.store[k], if timeout then None else Some(msg), timeout);
        var st1 := State(p1, it, st.store[k := t1]);
        match ret
        case Err(e) => (st1, Err(e))
        case Ok(RValue(_)) => (st1, Err(TypeError))
        case Ok(RDict(items)) =>
          var withProgress := Put(items, "progress", h.progress(p1, st1.store, it));
          var info := h.info(t1);
          if timeout && !info.completed then (st1, Err(AssertionError))
          else (st1, Ok([(Player(me), if info.completed then Put(withProgress, "status", StatusOf(info)) else withProgress)]))
  }

  /** The handler a page class's attribute runs. */
  function HandleSpec<P(!new), T(!new)>(hd: Handler, h: Hooks<P, T>, me: int, st: State<P, T>, msg: Dict): (State<P, T>, Result<Response>)
    requires HooksValid(h)
  {
    match hd
    case Load(Preloaded) => PreloadedLoadSpec(h, me, st)
    case Load(_) => LoadSpec(h, me, st)
    case Respond(Trials) => AnswerSpec(h, me, st, msg, false)
    case Respond(Preloaded) => PreloadedAnswerSpec(h, st, msg, false)
    case Respond(Puzzles) => PuzzleAnswerSpec(h, me, st, msg, false)
    case Expire(Trials) => AnswerSpec(h, me, st, msg, true)
    case Expire(Preloaded) => PreloadedAnswerSpec(h, st, msg, true)
    case Expire(Puzzles) => PuzzleAnswerSpec(h, me, st, msg, true)
    case Own => (st, Err(Unsupported))
  }

  /** `live_method`: dispatch, the handler, then delivery. */
  function LiveSpec<P(!new), T(!new)>(cls: PageClass, h: Hooks<P, T>, me: int, st: State<P, T>, message: Value,
                          group: seq<int>, byRole: string -> Result<int>): (State<P, T>, Result<seq<(Rcpt, seq<Dict>)>>)
    requires HooksValid(h)
  {
    match HandlerFor(cls, message)
    case Err(e) => (st, Err(e))
    case Ok(hd) =>
      var (st1, resp) := HandleSpec(hd, h, me, st, message.fields);
      match resp
      case Err(e) => (st1, Err(e))
      case Ok(rs) => (st1, Deliver(rs, group, byRole))
  }

  // ---- properties of the protocol --------------------------------------------

  /** `handle_load` resends an open trial and changes nothing; otherwise it
      asks for the next iteration's trial, and moves `participant.iteration`
      on by exactly one when it gets one; with none the game is over and the
      iteration stays. */
  lemma LoadIteration<P(!new), T(!new)>(h: Hooks<P, T>, me: int, st: State<P, T>)
    requires HooksValid(h)
    ensures var (st1, r) := LoadSpec(h, me, st);
      st1.player == st.player &&
      (st1.iteration == st.iteration + 1 <==>
         h.getTrial(st.player, st.store, st.iteration).Ok? &&
         !(h.getTrial(st.player, st.store, st.iteration).value.Some? && !h.info(st.store[h.getTrial(st.player, st.store, st.iteration).value.value]).completed) &&
         h.newTrial(st.player, st.store, st.iteration + 1).1.Ok? && h.newTrial(st.player, st.store, st.iteration + 1).1.value.Some?) &&
      (st1.iteration != st.iteration + 1 ==> st1.iteration == st.iteration)
    ensures h.getTrial(st.player, st.store, st.iteration).Ok? && h.getTrial(st.player, st.store, st.iteration).value.Some? &&
            !h.info(st.store[h.getTrial(st.player, st.store, st.iteration).value.value]).completed ==>
      LoadSpec(h, me, st).0 == st
    ensures h.getTrial(st.player, st.store, st.iteration).Ok? &&
            !(h.getTrial(st.player, st.store, st.iteration).value.Some? && !h.info(st.store[h.getTrial(st.player, st.store, st.iteration).value.value]).completed) &&
            h.newTrial(st.player, st.store, st.iteration + 1).1 == Ok(None) ==>
      LoadSpec(h, me, st) == (st.(store := h.newTrial(st.player, st.store, st.iteration + 1).0),
                              Ok([(Player(me), [("status", Obj(map["gameOver" := Bool(true)])), ("progress", h.progress(st.player, st.store, st.iteration))])]))
  {
  }

  /** The response and timeout handlers refuse a message for another
      iteration, a missing trial and a completed one, changing nothing;
      they never move the iteration. */
  lemma AnswerGuards<P(!new), T(!new)>(h: Hooks<P, T>, me: int, st: State<P, T>, msg: Dict, timeout: bool)
    requires HooksValid(h)
    ensures AnswerSpec(h, me, st, msg, timeout).0.iteration == st.iteration
    ensures "iteration" in msg && !SameIteration(msg["iteration"], st.iteration) ==> AnswerSpec(h, me, st, msg, timeout) == (st, Err(RuntimeError))
    ensures "iteration" in msg && SameIteration(msg["iteration"], st.iteration) && h.getTrial(st.player, st.store, st.iteration) == Ok(None) ==>
      AnswerSpec(h, me, st, msg, timeout) == (st, Err(RuntimeError))
    ensures "iteration" in msg && SameIteration(msg["iteration"], st.iteration) && h.getTrial(st.player, st.store, st.iteration).Ok? &&
            h.getTrial(st.player, st.store, st.iteration).value.Some? && h.info(st.store[h.getTrial(st.player, st.store, st.iteration).value.value]).completed ==>
      AnswerSpec(h, me, st, msg, timeout) == (st, Err(RuntimeError))
  {
  }

  /** A response reply carries `status` exactly when `validate_response`
      completed the trial; a timeout reply always does, since a timeout
      that leaves the trial open fails its assertion. */
  lemma AnswerStatus<P(!new), T(!new)>(h: Hooks<P, T>, me: int, st: State<P, T>, msg: Dict, timeout: bool)
    requires HooksValid(h)
    requires AnswerSpec(h, me, st, msg, timeout).1.Ok?
    ensures OpenTrial(h, st, st.iteration).Ok?
    ensures var k := OpenTrial(h, st, st.iteration).value;
      var t1 := AnswerSpec(h, me, st, msg, timeout).0.store[k];
      var reply := AnswerSpec(h, me, st, msg, timeout).1.value;
      |reply| == 1 && reply[0].0 == Player(me) &&
      (HasKey(reply[0].1, "status") <==> h.info(t1).completed) &&
      (timeout ==> h.info(t1).completed && Lookup(reply[0].1, "status") == Some(StatusOf(h.info(t1))))
  {
    var k := OpenTrial(h, st, st.iteration).value;
    var (p1, t1, ret) := h.validate(st.player, st.store[k], if timeout then None else Some(msg), timeout);
    var (st1, r) := AnswerSpec(h, me, st, msg, timeout);
    assert st1.store[k] == t1;
    var info := h.info(t1);
    var progress := h.progress(p1, st1.store, st.iteration);
    assert r.value == TrialsReply(me, AsValue(ret.value), progress, info, info.completed);
    var items := r.value[0].1;
    assert items[0].0 == "feedback" && items[1].0 == "progress" && items[1..][1..] == items[2..];
    if info.completed {
      assert items[2..] == [("status", StatusOf(info))];
      assert Lookup(items[2..], "status") == Some(StatusOf(info));
      assert Lookup(items[1..], "status") == Some(StatusOf(info));
    } else {
      assert items[2..] == [];
      assert Lookup(items[1..], "status") == None;
    }
  }

  /** The preloaded handlers look the trial up by the message's iteration,
      whatever the participant's is, never move it, and reply with nothing. */
  lemma PreloadedUsesMessageIteration<P(!new), T(!new)>(h: Hooks<P, T>, st: State<P, T>, msg: Dict, timeout: bool, j: int)
    requires HooksValid(h)
    ensures var (a, ra) := PreloadedAnswerSpec(h, st, msg, timeout);
      var (b, rb) := PreloadedAnswerSpec(h, st.(iteration := j), msg, timeout);
      ra == rb && a.iteration == st.iteration && b == a.(iteration := j)
    ensures PreloadedAnswerSpec(h, st, msg, timeout).1.Ok? ==> PreloadedAnswerSpec(h, st, msg, timeout).1.value == []
  {
  }

  /** The puzzle handlers keep the guards of the trial handlers, and a
      successful reply is the dict `validate_response` returned with
      `progress` set and, for a completed trial, `status` set; every other
      key keeps its value, and a timeout always completes the trial. */
  lemma PuzzleAnswerMeans<P(!new), T(!new)>(h: Hooks<P, T>, me: int, st: State<P, T>, msg: Dict, timeout: bool, key: string)
    requires HooksValid(h)
    ensures PuzzleAnswerSpec(h, me, st, msg, timeout).0.iteration == st.iteration
    ensures "iteration" in msg && !SameIteration(msg["iteration"], st.iteration) ==> PuzzleAnswerSpec(h, me, st, msg, timeout) == (st, Err(RuntimeError))
    ensures "iteration" in msg && SameIteration(msg["iteration"], st.iteration) && OpenTrial(h, st, st.iteration).Err? ==>
      PuzzleAnswerSpec(h, me, st, msg, timeout) == (st, Err(OpenTrial(h, st, st.iteration).error))
    ensures var (st1, r) := PuzzleAnswerSpec(h, me, st, msg, timeout);
      r.Ok? ==>
        OpenTrial(h, st, st.iteration).Ok? &&
        var k := OpenTrial(h, st, st.iteration).value;
        var (p1, t1, ret) := h.validate(st.player, st.store[k], if timeout then None else Some(msg), timeout);
        st1 == State(p1, st.iteration, st.store[k := t1]) && ret.Ok? && ret.value.RDict? &&
        (timeout ==> h.info(t1).completed) &&
        |r.value| == 1 && r.value[0].0 == Player(me) &&
        Lookup(r.value[0].1, "progress") == Some(h.progress(p1, st1.store, st.iteration)) &&
        (h.info(t1).completed ==> Lookup(r.value[0].1, "status") == Some(StatusOf(h.info(t1)))) &&
        (!h.info(t1).completed ==> Lookup(r.value[0].1, "status") == Lookup(ret.value.items, "status")) &&
        (key != "progress" && key != "status" ==> Lookup(r.value[0].1, key) == Lookup(ret.value.items, key))
  {
    var (st1, r) := PuzzleAnswerSpec(h, me, st, msg, timeout);
    if r.Ok? {
      var k := OpenTrial(h, st, st.iteration).value;
      var (p1, t1, ret) := h.validate(st.player, st.store[k], if timeout then None else Some(msg), timeout);
      var progress := h.progress(p1, st1.store, st.iteration);
      var withProgress := Put(ret.value.items, "progress", progress);
      PutGets(ret.value.items, "progress", progress, key);
      PutGets(ret.value.items, "progress", progress, "status");
      PutGets(ret.value.items, "progress", progress, "progress");
      if h.info(t1).completed {
        PutGets(withProgress, "status", StatusOf(h.info(t1)), key);
        PutGets(withProgress, "status", StatusOf(h.info(t1)), "progress");
        PutGets(withProgress, "status", StatusOf(h.info(t1)), "status");
      }
    }
  }

  // ---- the page as an object -------------------------------------------------

  /** One player on a decorated page: the fields the handlers update. */
  class TrialPage<P(!new), T(!new)> {
    var player: P
    /** `participant.iteration` */
    var iteration: int
    var store: seq<T>
    /** the player's `id_in_group` */
    const me: int
    const hooks: Hooks<P, T>

    function Snapshot(): State<P, T> reads this {
      State(player, iteration, store)
    }

    /** `js_vars` starts the participant at iteration 0. */
    constructor(me: int, player: P, store: seq<T>, hooks: Hooks<P, T>)
      ensures Snapshot() == State(player, 0, store) && this.me == me && this.hooks == hooks
    {
      this.me := me;
      this.hooks := hooks;
      this.player := player;
      this.iteration := 0;
      this.store := store;
    }

    method HandleLoad() returns (r: Result<Response>)
      requires HooksValid(hooks)
      modifies this
      ensures (Snapshot(), r) == LoadSpec(hooks, me, old(Snapshot()))
    {
      var it := iteration;
      var progress := hooks.progress(player, store, it);
      var cur := hooks.getTrial(player, store, it);
      if cur.Err? {
        return Err(cur.error);
      }
      if cur.value.Some? && !hooks.info(store[cur.value.value]).completed {
        var enc := hooks.encode(store[cur.value.value]);
        if enc.Err? {
          return Err(enc.error);
        }
        return Ok([(Player(me), [("trial", enc.value), ("progress", progress)])]);
      }
      var created;
      store, created := hooks.newTrial(player, store, it + 1).0, hooks.newTrial(player, store, it + 1).1;
      if created.Err? {
        return Err(created.error);
      }
      if created.value.None? {
        return Ok([(Player(me), [("status", Obj(map["gameOver" := Bool(true)])), ("progress", progress)])]);
      }
      iteration := iteration + 1;
      var progress2 := BumpCurrent(progress);
      if progress2.Err? {
        return Err(progress2.error);
      }
      var enc := hooks.encode(store[created.value.value]);
      if enc.Err? {
        return Err(enc.error);
      }
      return Ok([(Player(me), [("trial", enc.value), ("progress", progress2.value)])]);
    }

    /** The response (`timeout == false`) and timeout handlers of
        `@live_trials`. */
    method HandleAnswer(msg: Dict, timeout: bool) returns (r: Result<Response>)
      requires HooksValid(hooks)
      modifies this
      ensures (Snapshot(), r) == AnswerSpec(hooks, me, old(Snapshot()), msg, timeout)
    {
      var it := iteration;
      if "iteration" !in msg {
        return Err(KeyError);
      }
      if !SameIteration(msg["iteration"], it) {
        return Err(RuntimeError);
      }
      var k := OpenTrial(hooks, Snapshot(), it);
      if k.Err? {
        return Err(k.error);
      }
      var (p1, t1, ret) := hooks.validate(player, store[k.value], if timeout then None else Some(msg), timeout);
      player := p1;
      store := store[k.value := t1];
      if ret.Err? {
        return Err(ret.error);
      }
      var progress := hooks.progress(player, store, it);
      var info := hooks.info(t1);
      if timeout && !info.completed {
        return Err(AssertionError);
      }
      return Ok(TrialsReply(me, AsValue(ret.value), progress, info, info.completed));
    }

    /** The response and timeout handlers of `@live_trials_preloaded`. */
    method HandlePreloadedAnswer(msg: Dict, timeout: bool) returns (r: Result<Response>)
      requires HooksValid(hooks)
      modifies this
      ensures (Snapshot(), r) == PreloadedAnswerSpec(hooks, old(Snapshot()), msg, timeout)
    {
      if "iteration" !in msg {
        return Err(KeyError);
      }
      var it := IterationOf(msg["iteration"]);
      if it.Err? {
        return Err(it.error);
      }
      var k := OpenTrial(hooks, Snapshot(), it.value);
      if k.Err? {
        return Err(k.error);
      }
      var (p1, t1, ret) := hooks.validate(player, store[k.value], if timeout then None else Some(msg), timeout);
      player := p1;
      store := store[k.value := t1];
      if ret.Err? {
        return Err(ret.error);
      }
      if timeout && !hooks.info(t1).completed {
        return Err(AssertionError);
      }
      return Ok([]);
    }

    /** `handle_load` of `@live_trials_preloaded`. */
    method HandlePreloadedLoad() returns (r: Result<Response>)
      requires HooksValid(hooks)
      ensures (Snapshot(), r) == PreloadedLoadSpec(hooks, me, Snapshot())
    {
      var idx := hooks.allTrials(player, store);
      var data: seq<Value> := [];
      var i := 0;
      while i < |idx|
        invariant 0 <= i <= |idx|
        invariant EncodeAll(hooks, store, idx[..i]) == Ok(data)
      {
        assert idx[..i + 1][..i] == idx[..i];
        var enc := hooks.encode(store[idx[i]]);
        if enc.Err? {
          EncodeAllFails(hooks, store, idx, i);
          return Err(enc.error);
        }
        data := data + [enc.value];
        i := i + 1;
      }
      assert idx[..|idx|] == idx;
      return Ok([(Player(me), [("trials", Obj(map["data" := Arr(data)]))])]);
    }

    /** The response and timeout handlers of `@live_puzzles`. */
    method HandlePuzzleAnswer(msg: Dict, timeout: bool) returns (r: Result<Response>)
      requires HooksValid(hooks)
      modifies this
      ensures (Snapshot(), r) == PuzzleAnswerSpec(hooks, me, old(Snapshot()), msg, timeout)
    {
      var it := iteration;
      if "iteration" !in msg {
        return Err(KeyError);
      }
      if !SameIteration(msg["iteration"], it) {
        return Err(RuntimeError);
      }
      var k := OpenTrial(hooks, Snapshot(), it);
      if k.Err? {
        return Err(k.error);
      }
      var (p1, t1, ret) := hooks.validate(player, store[k.value], if timeout then None else Some(msg), timeout);
      player := p1;
      store := store[k.value := t1];
      if ret.Err? {
        return Err(ret.error);
      }
      if ret.value.RValue? {
        return Err(TypeError);
      }
      var responses := Put(ret.value.items, "progress", hooks.progress(player, store, it));
      var info := hooks.info(t1);
      if timeout && !info.completed {
        return Err(AssertionError);
      }
      if info.completed {
        responses := Put(responses, "status", StatusOf(info));
      }
      return Ok([(Player(me), responses)]);
    }

    /** `live_method` of the decorated page. */
    method Live(cls: PageClass, message: Value, group: seq<int>, byRole: string -> Result<int>)
      returns (r: Result<seq<(Rcpt, seq<Dict>)>>)
      requires HooksValid(hooks)
      modifies this
      ensures (Snapshot(), r) == LiveSpec(cls, hooks, me, old(Snapshot()), message, group, byRole)
    {
      var hd := HandlerFor(cls, message);
      if hd.Err? {
        return Err(hd.error);
      }
      var resp: Result<Response>;
      match hd.value {
        case Load(v) =>
          if v == Preloaded { resp := HandlePreloadedLoad(); } else { resp := HandleLoad(); }
        case Respond(v) =>
          if v == Trials { resp := HandleAnswer(message.fields, false); }
          else if v == Preloaded { resp := HandlePreloadedAnswer(message.fields, false); }
          else { resp := HandlePuzzleAnswer(message.fields, false); }
        case Expire(v) =>
          if v == Trials { resp := HandleAnswer(message.fields, true); }
          else if v == Preloaded { resp := HandlePreloadedAnswer(message.fields, true); }
          else { resp := HandlePuzzleAnswer(message.fields, true); }
        case Own =>
          resp := Err(Unsupported);
      }
      if resp.Err? {
        return Err(resp.error);
      }
      var sending := BuildSending(resp.value);
      if sending.Err? {
        return Err(sending.error);
      }
      var s := ExpandRoles(sending.value, byRole);
      if s.Err? {
        return Err(s.error);
      }
      return Ok(ExpandIds(ExpandOthers(s.value, group)));
    }
  }

  lemma {:induction false} EncodeAllFails<P(!new), T(!new)>(h: Hooks<P, T>, s: seq<T>, idx: seq<nat>, i: nat)
    requires i < |idx| && forall k :: 0 <= k < |idx| ==> idx[k] < |s|
    requires EncodeAll(h, s, idx[..i]).Ok? && h.encode(s[idx[i]]).Err?
    ensures EncodeAll(h, s, idx) == Err(h.encode(s[idx[i]]).error)
    decreases |idx| - i
  {
    assert idx[..i + 1][..i] == idx[..i];
    EncodeAllFailsFrom(h, s, idx, i + 1, h.encode(s[idx[i]]).error);
  }

  lemma {:induction false} EncodeAllFailsFrom<P(!new), T(!new)>(h: Hooks<P, T>, s: seq<T>, idx: seq<nat>, n: nat, e: Error)
    requires n <= |idx| && forall k :: 0 <= k < |idx| ==> idx[k] < |s|
    requires EncodeAll(h, s, idx[..n]) == Err(e)
    ensures EncodeAll(h, s, idx) == Err(e)
    decreases |idx| - n
  {
    if n < |idx| {
      assert idx[..n + 1][..n] == idx[..n];
      EncodeAllFailsFrom(h, s, idx, n + 1, e);
    } else {
      assert idx[..n] == idx;
    }
  }
}
