/** The shared core of the `generic` stimulus-response apps
    (`generic/core/__init__.py`): trials are drawn from the stimulus pool
    when the session is created, one per iteration, and the live method
    `play_game` sends them one at a time, records the responses and keeps
    the player's counters. */
module GenericCore {
  import opened Wrappers
  import opened Json
  import Text
  import Records
  import StimuliUtils
  import GenericStimuli

  type Row = StimuliUtils.Row

  /** The session parameters the handlers read; `categories` is the
      configured dict from a response side to a category, in its order. */
  datatype Params = Params(numIterations: int, trialPause: real, categories: seq<(string, string)>)

  /** A `Trial` record; timestamps are seconds.  The stimulus and category
      are copied from a pool row, whose cells may be missing; the response
      and the reaction time are stored as the message carries them. */
  datatype Trial = Trial(iteration: int, loaded: Option<real>, stimulus: Option<string>, category: Option<string>,
                         solution: string, responded: Option<real>, response: Option<Value>,
                         reactionTime: Option<Value>, isCorrect: Option<bool>)

  datatype Player = Player(iteration: int, numTrials: int, numSolved: int, numFailed: int)

  /** The player and the player's trial records in creation order. */
  datatype State = State(player: Player, trials: seq<Trial>)

  /** `get_progress` */
  datatype Progress = Progress(iteration: int, total: int)

  /** `encode_trial`: an image named by URL, an image rendered from text
      (identified here by the text it renders), or plain text. */
  datatype Encoded =
    | ImageUrl(stimulus: string, url: string)
    | ImageData(stimulus: string, rendered: string)
    | Plain(stimulus: string)

  /** The replies of `respond`; `GameOver` is a status with `game_over`. */
  datatype Reply =
    | Status(progress: Progress, current: Option<Encoded>)
    | GameOver(progress: Progress)
    | NewTrial(progress: Progress, trial: Encoded)
    | Feedback(progress: Progress, isCorrect: bool)

  /** The `type` field of a reply. */
  function ReplyType(r: Reply): string {
    match r
    case Status(_, _) => "status"
    case GameOver(_) => "status"
    case NewTrial(_, _) => "trial"
    case Feedback(_, _) => "feedback"
  }

  function GetProgress(params: Params, p: Player): Progress {
    Progress(p.iteration, params.numIterations)
  }

  /** `update_stats(player, is_correct, inc)` */
  function UpdateStats(p: Player, isCorrect: bool, inc: int): (r: Player)
    ensures r.iteration == p.iteration && r.numTrials == p.numTrials + inc
    ensures r.numSolved == p.numSolved + (if isCorrect then inc else 0)
    ensures r.numFailed == p.numFailed + (if isCorrect then 0 else inc)
  {
    var p1 := p.(numTrials := p.numTrials + inc);
    if isCorrect then p1.(numSolved := p1.numSolved + inc) else p1.(numFailed := p1.numFailed + inc)
  }

  /** An update with `inc = -1` takes back exactly an update with `inc = 1`. */
  lemma UndoReverses(p: Player, isCorrect: bool)
    ensures UpdateStats(UpdateStats(p, isCorrect, 1), isCorrect, -1) == p
    ensures UpdateStats(UpdateStats(p, isCorrect, -1), isCorrect, 1) == p
  {
  }

  /** `static_url_for` */
  function StaticUrlFor(path: string): string {
    "/static/" + path
  }

  /** `encode_trial`: the stimulus prefix picks the kind; a stimulus the
      pool row did not have has no `startswith`. */
  function Encode(t: Trial): (r: Result<Encoded>)
    ensures t.stimulus.None? <==> r == Err(AttributeError)
    ensures r.Ok? ==> r.value.stimulus == t.stimulus.value
    ensures r.Ok? ==> (r.value.ImageUrl? <==> Text.StartsWith(t.stimulus.value, "image:"))
    ensures r.Ok? && r.value.ImageUrl? ==> r.value.url == "/static/images/" + t.stimulus.value[6..]
    ensures r.Ok? ==> (r.value.ImageData? <==> !Text.StartsWith(t.stimulus.value, "image:") && Text.StartsWith(t.stimulus.value, "font:"))
    ensures r.Ok? && r.value.ImageData? ==> r.value.rendered == t.stimulus.value[5..]
  {
    match t.stimulus
    case None => Err(AttributeError)
    case Some(s) =>
      if Text.StartsWith(s, "image:") then Ok(ImageUrl(s, StaticUrlFor("images/" + s[6..])))
      else if Text.StartsWith(s, "font:") then Ok(ImageData(s, s[5..]))
      else Ok(Plain(s))
  }

  /** `check_response`: the solution is a side name, compared with whatever
      the message carried. */
  function CheckResponse(t: Trial, response: Value): bool {
    response == Str(t.solution)
  }

  /** `strip_categories`: each category without its prefix. */
  function StripCategories(data: seq<(string, string)>): (r: seq<(string, string)>)
    ensures |r| == |data|
    ensures forall i :: 0 <= i < |r| ==> r[i].0 == data[i].0
    ensures forall i :: 0 <= i < |r| ==>
      var v := data[i].1;
      var w := r[i].1;
      ':' !in w && |w| <= |v| && w == v[|v| - |w|..] && (|w| < |v| ==> v[|v| - |w| - 1] == ':') && (':' !in v ==> w == v)
  {
    seq(|data|, i requires 0 <= i < |data| => (data[i].0, Text.AfterLast(data[i].1, ':')))
  }

  // ---- the current trial -------------------------------------------------

  /** The indices of the trials of an iteration, in order. */
  function TrialsAt(s: seq<Trial>, it: int): (r: seq<nat>)
    ensures forall k :: 0 <= k < |r| ==> r[k] < |s|
  {
    if s == [] then []
    else TrialsAt(s[..|s| - 1], it) + (if s[|s| - 1].iteration == it then [|s| - 1] else [])
  }

  /** `Trial.filter(iteration=it)` finds exactly the trials of that
      iteration. */
  lemma {:induction false} TrialsAtFilters(s: seq<Trial>, it: int)
    ensures forall k :: 0 <= k < |TrialsAt(s, it)| ==> s[TrialsAt(s, it)[k]].iteration == it
    ensures forall i :: 0 <= i < |s| && s[i].iteration == it ==> i in TrialsAt(s, it)
  {
    if s != [] {
      var n := |s| - 1;
      TrialsAtFilters(s[..n], it);
      assert forall i :: 0 <= i < n ==> s[..n][i] == s[i];
    }
  }

  /** `get_current_trial` */
  function GetCurrentTrial(st: State): (r: Result<Option<nat>>)
    ensures r.Ok? && r.value.Some? ==> r.value.value < |st.trials|
  {
    Records.AtMostOne(TrialsAt(st.trials, st.player.iteration))
  }

  /** The trial found is one of the player's iteration, none is found
      exactly when there is none, and two make a ValueError. */
  lemma CurrentTrialFound(st: State)
    ensures var r := GetCurrentTrial(st);
      (r.Ok? && r.value.Some? ==> st.trials[r.value.value].iteration == st.player.iteration) &&
      (r == Ok(None) <==> forall i :: 0 <= i < |st.trials| ==> st.trials[i].iteration != st.player.iteration) &&
      (r.Err? ==> r.error == ValueError)
  {
    var found := TrialsAt(st.trials, st.player.iteration);
    TrialsAtFilters(st.trials, st.player.iteration);
    if |found| > 0 {
      assert st.trials[found[0]].iteration == st.player.iteration;
    }
  }

  // ---- the handlers ------------------------------------------------------

  /** The `load` message: the status, with the current trial when there is
      one; nothing changes. */
  function LoadSpec(params: Params, st: State, cur: Option<nat>): Result<Reply>
    requires cur.Some? ==> cur.value < |st.trials|
  {
    var progress := GetProgress(params, st.player);
    match cur
    case None => Ok(Status(progress, None))
    case Some(k) =>
      match Encode(st.trials[k])
      case Err(e) => Err(e)
      case Ok(enc) => Ok(Status(progress, Some(enc)))
  }

  /** The `new` message: the iteration moves on before the game-over check
      and before the next trial is looked up, so both keep the new
      iteration, and so does a trial that fails to encode once stamped. */
  function NewSpec(params: Params, st: State, cur: Option<nat>, now: real): (State, Result<Reply>)
    requires cur.Some? ==> cur.value < |st.trials|
  {
    if cur.Some? && st.trials[cur.value].response.None? then (st, Err(RuntimeError))
    else if cur.Some? && st.trials[cur.value].loaded.None? then (st, Err(TypeError))
    else if cur.Some? && now < st.trials[cur.value].loaded.value + params.trialPause then (st, Err(RuntimeError))
    else
      var st1 := st.(player := st.player.(iteration := st.player.iteration + 1));
      if st1.player.iteration > params.numIterations then (st1, Ok(GameOver(GetProgress(params, st1.player))))
      else
        match GetCurrentTrial(st1)
        case Err(e) => (st1, Err(e))
        case Ok(None) => (st1, Err(RuntimeError))
        case Ok(Some(j)) =>
          var t := st1.trials[j].(loaded := Some(now));
          var st2 := st1.(trials := st1.trials[j := t]);
          match Encode(t)
          case Err(e) => (st2, Err(e))
          case Ok(enc) => (st2, Ok(NewTrial(GetProgress(params, st2.player), enc)))
  }

  /** The `response` message on the current trial `k`: no retries; the
      response is stored before the reaction time is read, so a message
      without `reaction` keeps the response and counts nothing. */
  function ResponseSpec(params: Params, st: State, k: nat, msg: Dict, now: real): (State, Result<Reply>)
    requires k < |st.trials|
  {
    var t := st.trials[k];
    if t.response.Some? then (st, Err(RuntimeError))
    else if "response" !in msg then (st, Err(KeyError))
    else if msg["response"] == Str("") || msg["response"] == Null then (st, Err(ValueError))
    else
      var resp := msg["response"];
      var t1 := t.(response := Some(resp));
      if "reaction" !in msg then (st.(trials := st.trials[k := t1]), Err(KeyError))
      else
        var correct := CheckResponse(t1, resp);
        var t2 := t1.(reactionTime := Some(msg["reaction"]), isCorrect := Some(correct), responded := Some(now));
        var p := UpdateStats(st.player, correct, 1);
        (State(p, st.trials[k := t2]), Ok(Feedback(GetProgress(params, p), correct)))
  }

  /** `play_game(player, message)` at time `now`: the current trial is
      looked up before the message is; a `cheat` message does nothing and
      falls through to the final RuntimeError. */
  function PlaySpec(params: Params, st: State, message: Value, now: real): (State, Result<Reply>) {
    match GetCurrentTrial(st)
    case Err(e) => (st, Err(e))
    case Ok(cur) =>
      if !message.Obj? then (st, Err(TypeError))
      else if "type" !in message.fields then (st, Err(KeyError))
      else Handle(params, st, cur, message.fields, now)
  }

  /** The dispatch on the message's `type`. */
  function Handle(params: Params, st: State, cur: Option<nat>, msg: Dict, now: real): (State, Result<Reply>)
    requires cur.Some? ==> cur.value < |st.trials|
    requires "type" in msg
  {
    var kind := msg["type"];
    if kind == Str("load") then (st, LoadSpec(params, st, cur))
    else if kind == Str("new") then NewSpec(params, st, cur, now)
    else if kind == Str("response") then
      if cur.None? then (st, Err(RuntimeError)) else ResponseSpec(params, st, cur.value, msg, now)
    else (st, Err(RuntimeError))
  }

  // ---- generating the trials ---------------------------------------------

  /** `list(categories.values())` */
  function Values(cats: seq<(string, string)>): (r: seq<string>)
    ensures |r| == |cats| && forall i :: 0 <= i < |r| ==> r[i] == cats[i].1
  {
    seq(|cats|, i requires 0 <= i < |cats| => cats[i].1)
  }

  /** `{v: k for k, v in categories.items()}`: a later side wins a shared
      category. */
  function Inverse(cats: seq<(string, string)>): map<string, string> {
    if cats == [] then map[]
    else Inverse(cats[..|cats| - 1])[cats[|cats| - 1].1 := cats[|cats| - 1].0]
  }

  /** `side` is the last side configured with category `cat`. */
  predicate LastSideOf(cats: seq<(string, string)>, side: string, cat: string) {
    exists i :: 0 <= i < |cats| && cats[i] == (side, cat) && forall j :: i < j < |cats| ==> cats[j].1 != cat
  }

  /** The inverse holds exactly the configured categories. */
  lemma {:induction false} InverseKeys(cats: seq<(string, string)>, v: string)
    ensures v in Inverse(cats) <==> exists i :: 0 <= i < |cats| && cats[i].1 == v
  {
    if cats != [] {
      var n := |cats| - 1;
      var front := cats[..n];
      InverseKeys(front, v);
      assert forall i :: 0 <= i < n ==> front[i] == cats[i];
      if cats[n].1 != v && exists i :: 0 <= i < |cats| && cats[i].1 == v {
        var i :| 0 <= i < |cats| && cats[i].1 == v;
        assert front[i].1 == v;
      }
    }
  }

  /** The inverse maps a category to the last side that has it. */
  lemma {:induction false} InverseLastWins(cats: seq<(string, string)>, v: string)
    requires v in Inverse(cats)
    ensures LastSideOf(cats, Inverse(cats)[v], v)
  {
    var n := |cats| - 1;
    var front := cats[..n];
    if cats[n].1 == v {
      assert cats[n] == (Inverse(cats)[v], v);
    } else {
      assert v in Inverse(front);
      InverseLastWins(front, v);
      var i :| 0 <= i < n && front[i] == (Inverse(front)[v], v) && forall j :: i < j < n ==> front[j].1 != v;
      assert cats[i] == (Inverse(cats)[v], v);
      assert forall j :: i < j < |cats| ==> cats[j].1 != v by {
        assert forall j :: i < j < n ==> cats[j] == front[j];
      }
    }
  }

  /** The trial of iteration `iteration` from a pool row; a row without a
      stimulus, or whose category no side has, raises KeyError. */
  function MakeTrial(row: Row, inverse: map<string, string>, iteration: int): (r: Result<Trial>)
    ensures r.Err? <==> "category" !in row || row["category"].None? || row["category"].value !in inverse || "stimulus" !in row
    ensures r.Err? ==> r.error == KeyError
    ensures r.Ok? ==> r.value.iteration == iteration && r.value.stimulus == row["stimulus"] && r.value.category == row["category"]
    ensures r.Ok? ==> r.value.solution == inverse[row["category"].value]
    ensures r.Ok? ==> r.value.loaded.None? && r.value.response.None? && r.value.isCorrect.None?
  {
    if "category" !in row || row["category"].None? || row["category"].value !in inverse then Err(KeyError)
    else if "stimulus" !in row then Err(KeyError)
    else Ok(Trial(iteration, None, row["stimulus"], row["category"], inverse[row["category"].value], None, None, None, None))
  }

  /** What making the trial of each of the first `count` rows gives. */
  function Made(rows: seq<Row>, inverse: map<string, string>, count: nat): (r: seq<Result<Trial>>)
    requires count <= |rows|
    ensures |r| == count
    ensures forall j :: 0 <= j < count ==> r[j] == MakeTrial(rows[j], inverse, j + 1)
  {
    seq(count, j requires 0 <= j < count => MakeTrial(rows[j], inverse, j + 1))
  }

  /** `random.shuffle`, as any reordering. */
  ghost predicate Shuffles(shuffle: seq<Row> -> seq<Row>) {
    forall s :: multiset(shuffle(s)) == multiset(s)
  }

  /** `generate_all_trials` over the stimulus pool, with `shuffle` the
      reordering `random.shuffle` makes of the selected rows. */
  function GenerateSpec(params: Params, st: State, pool: seq<Row>, shuffle: seq<Row> -> seq<Row>): (State, Outcome)
    requires Shuffles(shuffle)
  {
    var count := params.numIterations;
    if count == 0 then (st, Fail(RuntimeError))
    else
      match StimuliUtils.FilterByCategory(pool, Values(params.categories))
      case Err(e) => (st, Fail(e))
      case Ok(selected) =>
        if |selected| < count then (st, Fail(RuntimeError))
        else
          var rows := shuffle(selected);
          assert |rows| == |multiset(rows)| == |multiset(selected)| == |selected|;
          // `range(count)` is empty for a negative count
          var n: nat := if count < 0 then 0 else count;
          var (ts, o) := Records.Created(Made(rows, Inverse(params.categories), n));
          (st.(trials := st.trials + ts), o)
  }

  class Game {
    var player: Player
    var trials: seq<Trial>
    const params: Params

    function Snapshot(): State reads this {
      State(player, trials)
    }

    constructor(params: Params)
      ensures Snapshot() == State(Player(0, 0, 0, 0), []) && this.params == params
    {
      this.params := params;
      player := Player(0, 0, 0, 0);
      trials := [];
    }

    /** `generate_all_trials`: trials created before a failing row stay
        created. */
    method GenerateAllTrials(pool: seq<Row>, shuffle: seq<Row> -> seq<Row>) returns (o: Outcome)
      requires Shuffles(shuffle)
      modifies this
      ensures (Snapshot(), o) == GenerateSpec(params, old(Snapshot()), pool, shuffle)
    {
      var count := params.numIterations;
      if count == 0 {
        return Fail(RuntimeError);
      }
      var selected := StimuliUtils.FilterByCategory(pool, Values(params.categories));
      if selected.Err? {
        return Fail(selected.error);
      }
      if |selected.value| < count {
        return Fail(RuntimeError);
      }
      var rows := shuffle(selected.value);
      assert |rows| == |multiset(rows)| == |multiset(selected.value)| == |selected.value|;
      var inverse := Inverse(params.categories);
      var n: nat := if count < 0 then 0 else count;
      var results := Made(rows, inverse, n);
      o := CreateAll(results);
    }

    /** The loop of `generate_all_trials`: each made trial is stored in
        turn, and the first failing row ends the loop with the trials
        before it kept. */
    method CreateAll(results: seq<Result<Trial>>) returns (o: Outcome)
      modifies this
      ensures trials == old(trials) + Records.Created(results).0 && player == old(player)
      ensures o == Records.Created(results).1
    {
      ghost var all := Records.Created(results);
      ghost var made: seq<Trial> := [];
      var i: nat := 0;
      assert made + all.0 == all.0 && results[i..] == results;
      while i < |results|
        invariant i <= |results|
        invariant trials == old(trials) + made && player == old(player)
        invariant all.0 == made + Records.Created(results[i..]).0
        invariant all.1 == Records.Created(results[i..]).1
      {
        var m := results[i];
        Records.CreatedStep(results, i);
        if m.Err? {
          assert made + [] == made;
          return Fail(m.error);
        }
        var t := m.value;
        trials := trials + [t];
        made := made + [t];
        i := i + 1;
      }
      assert results[i..] == [];
      assert made + [] == made;
      return Pass;
    }

    /** `play_game` at time `now`. */
    method PlayGame(message: Value, now: real) returns (r: Result<Reply>)
      modifies this
      ensures (Snapshot(), r) == PlaySpec(params, old(Snapshot()), message, now)
    {
      var found := GetCurrentTrial(Snapshot());
      if found.Err? {
        return Err(found.error);
      }
      var cur := found.value;
      if !message.Obj? {
        return Err(TypeError);
      }
      var msg := message.fields;
      if "type" !in msg {
        return Err(KeyError);
      }
      var kind := msg["type"];
      if kind == Str("load") {
        var progress := GetProgress(params, player);
        if cur.Some? {
          var enc := Encode(trials[cur.value]);
          if enc.Err? {
            return Err(enc.error);
          }
          return Ok(Status(progress, Some(enc.value)));
        }
        return Ok(Status(progress, None));
      }
      if kind == Str("new") {
        r := New(cur, now);
        return;
      }
      if kind == Str("response") {
        if cur.None? {
          return Err(RuntimeError);
        }
        r := Respond(cur.value, msg, now);
        return;
      }
      return Err(RuntimeError);
    }

    /** The `new` branch. */
    method New(cur: Option<nat>, now: real) returns (r: Result<Reply>)
      requires cur.Some? ==> cur.value < |trials|
      modifies this
      ensures (Snapshot(), r) == NewSpec(params, old(Snapshot()), cur, now)
    {
      if cur.Some? {
        var t := trials[cur.value];
        if t.response.None? {
          return Err(RuntimeError);
        }
        if t.loaded.None? {
          return Err(TypeError);
        }
        if now < t.loaded.value + params.trialPause {
          return Err(RuntimeError);
        }
      }
      player := player.(iteration := player.iteration + 1);
      if player.iteration > params.numIterations {
        return Ok(GameOver(GetProgress(params, player)));
      }
      var next := GetCurrentTrial(Snapshot());
      if next.Err? {
        return Err(next.error);
      }
      if next.value.None? {
        return Err(RuntimeError);
      }
      var j := next.value.value;
      var t := trials[j].(loaded := Some(now));
      trials := trials[j := t];
      var enc := Encode(t);
      if enc.Err? {
        return Err(enc.error);
      }
      return Ok(NewTrial(GetProgress(params, player), enc.value));
    }

    /** The `response` branch on the current trial `k`. */
    method Respond(k: nat, msg: Dict, now: real) returns (r: Result<Reply>)
      requires k < |trials|
      modifies this
      ensures (Snapshot(), r) == ResponseSpec(params, old(Snapshot()), k, msg, now)
    {
      var t := trials[k];
      if t.response.Some? {
        return Err(RuntimeError);
      }
      if "response" !in msg {
        return Err(KeyError);
      }
      var response := msg["response"];
      if response == Str("") || response == Null {
        return Err(ValueError);
      }
      t := t.(response := Some(response));
      trials := trials[k := t];
      if "reaction" !in msg {
        return Err(KeyError);
      }
      t := t.(reactionTime := Some(msg["reaction"]));
      t := t.(isCorrect := Some(CheckResponse(t, response)));
      t := t.(responded := Some(now));
      trials := trials[k := t];
      assert trials == old(trials)[k := t];
      player := UpdateStats(player, t.isCorrect.value, 1);
      return Ok(Feedback(GetProgress(params, player), t.isCorrect.value));
    }
  }

  // ---- properties --------------------------------------------------------

  /** Trial `i` is the trial of iteration `i + 1`. */
  predicate Numbered(s: seq<Trial>) {
    forall i :: 0 <= i < |s| ==> s[i].iteration == i + 1
  }

  lemma {:induction false} TrialsAtNumbered(s: seq<Trial>, it: int)
    requires Numbered(s)
    ensures TrialsAt(s, it) == if 1 <= it <= |s| then [it - 1] else []
  {
    if s != [] {
      var n := |s| - 1;
      assert forall i :: 0 <= i < n ==> s[..n][i] == s[i];
      TrialsAtNumbered(s[..n], it);
    }
  }

  /** The states the app goes through once the trials are generated: one
      trial per iteration and every trial up to the current one sent; the
      iteration itself keeps growing with each `new` after the last. */
  predicate Wf(params: Params, st: State) {
    Numbered(st.trials) && |st.trials| == params.numIterations && 0 <= st.player.iteration &&
    forall i :: 0 <= i < |st.trials| && i < st.player.iteration ==> st.trials[i].loaded.Some?
  }

  /** The index of the current trial in a well-formed state. */
  function CurrentIndex(st: State): Option<nat> {
    if 1 <= st.player.iteration <= |st.trials| then Some(st.player.iteration - 1) else None
  }

  lemma CurrentTrialWf(params: Params, st: State)
    requires Wf(params, st)
    ensures GetCurrentTrial(st) == Ok(CurrentIndex(st))
  {
    TrialsAtNumbered(st.trials, st.player.iteration);
  }

  /** A message that is not a dict is a TypeError and one without `type` a
      KeyError; any type but `load`, `new` and `response`, `cheat`
      included, is a RuntimeError; in each case nothing changes.  The
      other types reach their handler with the current trial. */
  lemma MessageGuards(params: Params, st: State, message: Value, now: real)
    requires Wf(params, st)
    ensures !message.Obj? ==> PlaySpec(params, st, message, now) == (st, Err(TypeError))
    ensures message.Obj? && "type" !in message.fields ==> PlaySpec(params, st, message, now) == (st, Err(KeyError))
    ensures message.Obj? && "type" in message.fields ==>
      var kind := message.fields["type"];
      var r := PlaySpec(params, st, message, now);
      var cur := CurrentIndex(st);
      (kind !in [Str("load"), Str("new"), Str("response")] ==> r == (st, Err(RuntimeError))) &&
      (kind == Str("load") ==> r == (st, LoadSpec(params, st, cur))) &&
      (kind == Str("new") ==> r == NewSpec(params, st, cur, now)) &&
      (kind == Str("response") && cur.None? ==> r == (st, Err(RuntimeError))) &&
      (kind == Str("response") && cur.Some? ==> r == ResponseSpec(params, st, cur.value, message.fields, now))
  {
    CurrentTrialWf(params, st);
  }

  /** The current trial of a well-formed state is unanswered. */
  predicate Unanswered(params: Params, st: State)
    requires Wf(params, st)
  {
    CurrentIndex(st).Some? && st.trials[CurrentIndex(st).value].response.None?
  }

  /** The pause after the current trial of a well-formed state is not
      over. */
  predicate TooEarly(params: Params, st: State, now: real)
    requires Wf(params, st)
  {
    CurrentIndex(st).Some? && now < st.trials[CurrentIndex(st).value].loaded.value + params.trialPause
  }

  /** `new` is refused over an unanswered trial and before the pause after
      it is over, changing nothing; otherwise the iteration moves on by
      one, and past the last trial the game is over. */
  lemma NewGuards(params: Params, st: State, now: real)
    requires Wf(params, st)
    ensures var (st1, r) := NewSpec(params, st, CurrentIndex(st), now);
      var it := st.player.iteration;
      (Unanswered(params, st) || TooEarly(params, st, now) ==> (st1, r) == (st, Err(RuntimeError))) &&
      (!Unanswered(params, st) && !TooEarly(params, st, now) ==> st1.player == st.player.(iteration := it + 1)) &&
      (!Unanswered(params, st) && !TooEarly(params, st, now) && it + 1 > params.numIterations ==>
        st1.trials == st.trials && r == Ok(GameOver(Progress(it + 1, params.numIterations))))
  {
  }

  /** Otherwise, before the last trial, exactly the next trial is stamped
      with the time and sent, unless its stimulus is missing. */
  lemma NewSends(params: Params, st: State, now: real)
    requires Wf(params, st) && !Unanswered(params, st) && !TooEarly(params, st, now)
    requires st.player.iteration + 1 <= params.numIterations
    ensures var (st1, r) := NewSpec(params, st, CurrentIndex(st), now);
      var it := st.player.iteration;
      st1.trials == st.trials[it := st.trials[it].(loaded := Some(now))] &&
      (r.Ok? <==> st.trials[it].stimulus.Some?) &&
      (r.Ok? ==> r == Ok(NewTrial(Progress(it + 1, params.numIterations), Encode(st1.trials[it]).value)))
  {
    TrialsAtNumbered(st.trials, st.player.iteration + 1);
  }

  /** Every outcome of `new` in a well-formed state. */
  lemma New(params: Params, st: State, now: real)
    requires Wf(params, st)
    ensures var (st1, r) := NewSpec(params, st, CurrentIndex(st), now);
      var it := st.player.iteration;
      st1 == st ||
      (st1.player == st.player.(iteration := it + 1) &&
       if it < |st.trials| then st1.trials == st.trials[it := st.trials[it].(loaded := Some(now))]
       else st1.trials == st.trials)
  {
    NewGuards(params, st, now);
    if !Unanswered(params, st) && !TooEarly(params, st, now) && st.player.iteration + 1 <= params.numIterations {
      NewSends(params, st, now);
    }
  }

  /** Answering every trial and asking for the next one ends the game with
      the iteration one past the last. */
  lemma GameOverPastLast(params: Params, st: State, now: real)
    requires Wf(params, st) && st.player.iteration == params.numIterations
    requires CurrentIndex(st).Some? ==>
      (st.trials[st.player.iteration - 1].response.Some? &&
       now >= st.trials[st.player.iteration - 1].loaded.value + params.trialPause)
    ensures var (st1, r) := NewSpec(params, st, CurrentIndex(st), now);
      st1.player.iteration == params.numIterations + 1 && r.Ok? && r.value.GameOver?
  {
    NewGuards(params, st, now);
  }

  /** A second response, a missing one, and an empty or `None` one are
      refused, changing nothing.  An accepted response is stored on the
      trial with its correctness, the solution compared with the response,
      and the counters are updated exactly once. */
  lemma Response(params: Params, st: State, k: nat, msg: Dict, now: real)
    requires k < |st.trials|
    ensures var (st1, r) := ResponseSpec(params, st, k, msg, now);
      var t := st.trials[k];
      (t.response.Some? ==> (st1, r) == (st, Err(RuntimeError))) &&
      (t.response.None? && "response" !in msg ==> (st1, r) == (st, Err(KeyError))) &&
      (t.response.None? && "response" in msg && (msg["response"] == Str("") || msg["response"] == Null) ==>
        (st1, r) == (st, Err(ValueError))) &&
      (r.Ok? ==>
        var correct := msg["response"] == Str(t.solution);
        t.response.None? && "reaction" in msg &&
        st1.player == UpdateStats(st.player, correct, 1) &&
        st1.trials == st.trials[k := t.(response := Some(msg["response"]), reactionTime := Some(msg["reaction"]),
                                        isCorrect := Some(correct), responded := Some(now))] &&
        r.value == Feedback(GetProgress(params, st1.player), correct))
  {
  }

  /** A response without a reaction time is a KeyError that keeps the
      response on the trial and counts nothing, so the trial can no longer
      be answered. */
  lemma MissingReaction(params: Params, st: State, k: nat, msg: Dict, now: real)
    requires k < |st.trials| && st.trials[k].response.None?
    requires "response" in msg && msg["response"] != Str("") && msg["response"] != Null && "reaction" !in msg
    ensures var (st1, r) := ResponseSpec(params, st, k, msg, now);
      r == Err(KeyError) && st1.player == st.player && st1.trials[k].response == Some(msg["response"]) &&
      ResponseSpec(params, st1, k, msg, now).1 == Err(RuntimeError)
  {
  }

  /** Every reply carries its type and the progress of the player as the
      message leaves it. */
  lemma RepliesCarryProgress(params: Params, st: State, message: Value, now: real)
    ensures var (st1, r) := PlaySpec(params, st, message, now);
      r.Ok? ==>
        (r.value.progress == Progress(st1.player.iteration, params.numIterations) &&
         ReplyType(r.value) in ["status", "trial", "feedback"])
  {
  }

  /** A response changes the current trial alone, and not its iteration or
      its sending time. */
  lemma ResponseFrame(params: Params, st: State, k: nat, msg: Dict, now: real)
    requires k < |st.trials|
    ensures var st1 := ResponseSpec(params, st, k, msg, now).0;
      |st1.trials| == |st.trials| && st1.trials == st.trials[k := st1.trials[k]] && st1.player.iteration == st.player.iteration &&
      st1.trials[k].iteration == st.trials[k].iteration && st1.trials[k].loaded == st.trials[k].loaded
  {
  }

  /** `new` keeps the state well formed. */
  lemma NewKeepsWf(params: Params, st: State, now: real)
    requires Wf(params, st)
    ensures Wf(params, NewSpec(params, st, CurrentIndex(st), now).0)
  {
    New(params, st, now);
  }

  /** A response keeps the state well formed. */
  lemma ResponseKeepsWf(params: Params, st: State, k: nat, msg: Dict, now: real)
    requires Wf(params, st) && k < |st.trials|
    ensures Wf(params, ResponseSpec(params, st, k, msg, now).0)
  {
    var st1 := ResponseSpec(params, st, k, msg, now).0;
    ResponseFrame(params, st, k, msg, now);
    assert forall i :: 0 <= i < |st1.trials| ==> st1.trials[i].iteration == st.trials[i].iteration;
    assert forall i :: 0 <= i < |st1.trials| ==> st1.trials[i].loaded == st.trials[i].loaded;
  }

  /** Every message, accepted or not, keeps the state well formed. */
  lemma PlayKeepsWf(params: Params, st: State, message: Value, now: real)
    requires Wf(params, st)
    ensures Wf(params, PlaySpec(params, st, message, now).0)
  {
    MessageGuards(params, st, message, now);
    if message.Obj? && "type" in message.fields {
      var kind := message.fields["type"];
      var cur := CurrentIndex(st);
      if kind == Str("new") {
        NewKeepsWf(params, st, now);
      } else if kind == Str("response") && cur.Some? {
        ResponseKeepsWf(params, st, cur.value, message.fields, now);
      }
    }
  }

  // ---- the counters agree with the records -------------------------------

  predicate Answered(t: Trial) { t.response.Some? }

  function CountAnswered(s: seq<Trial>): int {
    if s == [] then 0 else CountAnswered(s[..|s| - 1]) + (if Answered(s[|s| - 1]) then 1 else 0)
  }

  function CountSolved(s: seq<Trial>): int {
    if s == [] then 0 else CountSolved(s[..|s| - 1]) + (if Answered(s[|s| - 1]) && s[|s| - 1].isCorrect == Some(true) then 1 else 0)
  }

  function CountFailed(s: seq<Trial>): int {
    if s == [] then 0 else CountFailed(s[..|s| - 1]) + (if Answered(s[|s| - 1]) && s[|s| - 1].isCorrect != Some(true) then 1 else 0)
  }

  /** Every answered trial is counted once, as solved or failed. */
  predicate Tallied(st: State) {
    st.player.numTrials == CountAnswered(st.trials) &&
    st.player.numSolved == CountSolved(st.trials) && st.player.numFailed == CountFailed(st.trials)
  }

  lemma {:induction false} CountsUpdate(s: seq<Trial>, k: nat, t: Trial)
    requires k < |s|
    ensures CountAnswered(s[k := t]) == CountAnswered(s) - (if Answered(s[k]) then 1 else 0) + (if Answered(t) then 1 else 0)
    ensures CountSolved(s[k := t]) == CountSolved(s) - (if Answered(s[k]) && s[k].isCorrect == Some(true) then 1 else 0)
                                                     + (if Answered(t) && t.isCorrect == Some(true) then 1 else 0)
    ensures CountFailed(s[k := t]) == CountFailed(s) - (if Answered(s[k]) && s[k].isCorrect != Some(true) then 1 else 0)
                                                     + (if Answered(t) && t.isCorrect != Some(true) then 1 else 0)
  {
    var n := |s| - 1;
    if k < n {
      assert s[k := t][..n] == s[..n][k := t];
      CountsUpdate(s[..n], k, t);
    } else {
      assert s[k := t][..n] == s[..n];
    }
  }

  /** Because a trial is answered once, every accepted message keeps the
      counters in agreement with the records. */
  lemma PlayKeepsTally(params: Params, st: State, message: Value, now: real)
    requires Wf(params, st) && Tallied(st)
    requires PlaySpec(params, st, message, now).1.Ok?
    ensures Tallied(PlaySpec(params, st, message, now).0)
  {
    MessageGuards(params, st, message, now);
    var kind := message.fields["type"];
    var cur := CurrentIndex(st);
    var st1 := PlaySpec(params, st, message, now).0;
    if kind == Str("new") {
      New(params, st, now);
      if st1.trials != st.trials {
        CountsUpdate(st.trials, st.player.iteration, st1.trials[st.player.iteration]);
      }
    } else if kind == Str("response") {
      ResponseFrame(params, st, cur.value, message.fields, now);
      CountsUpdate(st.trials, cur.value, st1.trials[cur.value]);
    }
  }

  // ---- generating --------------------------------------------------------

  /** `generate_all_trials`: no trials without `num_iterations` or with too
      few stimuli of the configured categories. */
  lemma GenerateRefused(params: Params, st: State, pool: seq<Row>, shuffle: seq<Row> -> seq<Row>)
    requires Shuffles(shuffle)
    ensures params.numIterations == 0 ==> GenerateSpec(params, st, pool, shuffle) == (st, Fail(RuntimeError))
    ensures var sel := StimuliUtils.FilterByCategory(pool, Values(params.categories));
      sel.Ok? && |sel.value| < params.numIterations ==> GenerateSpec(params, st, pool, shuffle) == (st, Fail(RuntimeError))
  {
  }

  /** The trials created from the made results: at most `count`, all of
      them exactly when nothing failed, trial `j` made from row `j` for
      iteration `j + 1`, and each of a configured category whose solution
      is the last side configured with it. */
  lemma {:induction false} MadeCreated(cats: seq<(string, string)>, rows: seq<Row>, count: nat)
    requires count <= |rows|
    ensures var c := Records.Created(Made(rows, Inverse(cats), count));
      |c.0| <= count && (c.1 == Pass <==> |c.0| == count) &&
      forall j :: 0 <= j < |c.0| ==>
        MakeTrial(rows[j], Inverse(cats), j + 1) == Ok(c.0[j]) && c.0[j].category.Some? &&
        LastSideOf(cats, c.0[j].solution, c.0[j].category.value)
  {
    var inverse := Inverse(cats);
    var results := Made(rows, inverse, count);
    Records.CreatedLength(results);
    var ts := Records.Created(results).0;
    forall j | 0 <= j < |ts|
      ensures MakeTrial(rows[j], inverse, j + 1) == Ok(ts[j]) && ts[j].category.Some? &&
        LastSideOf(cats, ts[j].solution, ts[j].category.value)
    {
      Records.CreatedTrials(results, j);
      InverseLastWins(cats, ts[j].category.value);
    }
  }

  /** With enough stimuli the trials are those created from the shuffled
      selection, appended to the player's. */
  lemma GenerateMade(params: Params, st: State, pool: seq<Row>, shuffle: seq<Row> -> seq<Row>)
    requires Shuffles(shuffle)
    requires var sel := StimuliUtils.FilterByCategory(pool, Values(params.categories));
      params.numIterations != 0 && sel.Ok? && |sel.value| >= params.numIterations
    ensures var rows := shuffle(StimuliUtils.FilterByCategory(pool, Values(params.categories)).value);
      var n: nat := if params.numIterations < 0 then 0 else params.numIterations;
      n <= |rows| &&
      var c := Records.Created(Made(rows, Inverse(params.categories), n));
      GenerateSpec(params, st, pool, shuffle) == (st.(trials := st.trials + c.0), c.1)
  {
    var sel := StimuliUtils.FilterByCategory(pool, Values(params.categories));
    var rows := shuffle(sel.value);
    assert |rows| == |multiset(rows)| == |multiset(sel.value)| == |sel.value|;
  }

  /** Otherwise trial `j` is made from the `j`-th shuffled row for
      iteration `j + 1`, a stimulus of a configured category whose solution
      is the last side configured with that category, until a row fails. */
  lemma GenerateAllTrials(params: Params, st: State, pool: seq<Row>, shuffle: seq<Row> -> seq<Row>)
    requires Shuffles(shuffle)
    ensures var r := GenerateSpec(params, st, pool, shuffle); var st1 := r.0;
      var n := |st.trials|;
      st1.player == st.player && n <= |st1.trials| && st1.trials[..n] == st.trials &&
      (r.1 == Pass ==> |st1.trials| == n + (if params.numIterations < 0 then 0 else params.numIterations)) &&
      (forall j :: n <= j < |st1.trials| ==>
        var t := st1.trials[j];
        t.iteration == j - n + 1 && t.response.None? && t.loaded.None? && t.category.Some? &&
        LastSideOf(params.categories, t.solution, t.category.value))
  {
    var count := params.numIterations;
    var sel := StimuliUtils.FilterByCategory(pool, Values(params.categories));
    if count != 0 && sel.Ok? && |sel.value| >= count {
      GenerateMade(params, st, pool, shuffle);
      var rows := shuffle(sel.value);
      var n: nat := if count < 0 then 0 else count;
      MadeCreated(params.categories, rows, n);
      var c := Records.Created(Made(rows, Inverse(params.categories), n));
      var st1 := st.(trials := st.trials + c.0);
      assert st1.trials[..|st.trials|] == st.trials;
      assert forall j :: 0 <= j < |c.0| ==> st1.trials[|st.trials| + j] == c.0[j];
    } else {
      assert GenerateSpec(params, st, pool, shuffle).0 == st;
      assert st.trials[..|st.trials|] == st.trials;
    }
  }

  /** Generated for a new player, a complete set of trials gives a
      well-formed state. */
  lemma GeneratedWf(params: Params, st: State, pool: seq<Row>, shuffle: seq<Row> -> seq<Row>)
    requires Shuffles(shuffle)
    requires st.trials == [] && st.player.iteration == 0 && params.numIterations >= 0
    ensures var r := GenerateSpec(params, st, pool, shuffle);
      r.1 == Pass ==> Wf(params, r.0)
  {
    GenerateAllTrials(params, st, pool, shuffle);
  }
}
