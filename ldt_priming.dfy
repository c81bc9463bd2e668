/** The lexical-decision app with primes: all trials are generated when the
    session is created, a prime and a target (a word, or a non-word made by
    mutating it) are shown, and the participant answers `word` or `nonword`
    before a timeout.  The live method `play_game` handles the messages. */
module LdtPriming {
  import opened Wrappers
  import opened Json
  import opened Text
  import NonwordUtils
  import Records

  /** `Constants.choices` and `Constants.timeout_response`. */
  const CHOICES: seq<string> := ["word", "nonword", "skipped"]
  const TIMEOUT_RESPONSE: string := "skipped"

  /** The session parameters the handlers read, and `settings.DEBUG`;
      `autoResponseTime` is `None` or a number of milliseconds. */
  datatype Params = Params(numIterations: int, attemptsPerTrial: int, autoResponseTime: Option<int>, debug: bool)

  /** A row of the stimulus pool: `CUE`, `TARGET` and `FSG` as read. */
  datatype Stimulus = Stimulus(cue: string, target: string, strength: string)

  /** A `Trial` record; timestamps are seconds. */
  datatype Trial = Trial(iteration: int, loaded: Option<real>, responded: Option<real>,
                         prime: string, target: string, strength: string, stimulus: string, solution: string,
                         attempts: int, response: Option<string>, reactionTime: Option<int>,
                         isCorrect: Option<bool>, isTimeout: Option<bool>, networkLatency: Option<int>)

  datatype Player = Player(iteration: int, numTrials: int, numSolved: int, numFailed: int)

  /** The player and the player's trial records in creation order. */
  datatype State = State(player: Player, trials: seq<Trial>)

  datatype Progress = Progress(total: int, completed: int)

  /** `encode_trial`: the stimulus, and the prime in capitals. */
  datatype Encoded = Encoded(target: string, prime: string)

  /** The message sent back; `timedOut` is the value of the Python `and`
      expression: `None` or `0` when auto-responding is off, else a bool. */
  datatype Reply =
    | GameOver(overProgress: Option<Progress>)
    | Status(progress: Progress, current: Option<Encoded>, timedOut: Option<Value>)
    | NewTrial(trial: Encoded)
    | Feedback(correct: bool, isFinal: bool, response: string, progress: Progress)

  /** How `update_stats` decides that a trial is counted: as written (the
      trial's first attempt, plus the extra count of a timeout with no
      attempts), or once, when the trial receives its first response. */
  datatype Counting = AsWritten | Once

  function GetProgress(params: Params, p: Player): Progress {
    Progress(params.numIterations, p.numTrials)
  }

  /** `encode_trial`: the target as stored and the prime in capitals, the
      same word up to case, with no lower-case letter left. */
  function Encode(t: Trial): (r: Encoded)
    ensures r.target == t.stimulus && r.prime == Upper(t.prime)
    ensures |r.prime| == |t.prime| && Lower(r.prime) == Lower(t.prime)
    ensures forall i :: 0 <= i < |r.prime| ==> !('a' <= r.prime[i] <= 'z')
  {
    var up := Upper(t.prime);
    assert forall i :: 0 <= i < |up| ==> LowerChar(up[i]) == LowerChar(t.prime[i]);
    Encoded(t.stimulus, up)
  }

  /** Python's `int(x)` on a float: truncation toward zero. */
  function Trunc(x: real): (r: int)
    ensures x >= 0.0 ==> r as real <= x < r as real + 1.0
    ensures x < 0.0 ==> x <= r as real < x + 1.0
  {
    if x >= 0.0 then x.Floor else -((-x).Floor)
  }

  // ---- the counters ------------------------------------------------------

  /** `update_stats` on the trial as it is after the response; `first` tells
      the `Once` rule whether the trial had no response before. */
  function UpdateStats(p: Player, t: Trial, counting: Counting, first: bool): (r: Player)
    ensures r.iteration == p.iteration
    ensures r.numSolved + r.numFailed == p.numSolved + p.numFailed + 1
    ensures r.numSolved == p.numSolved + (if t.isCorrect == Some(true) then 1 else 0)
    ensures r.numTrials == p.numTrials + (if (if counting == AsWritten then t.attempts == 1 else first) then 1 else 0)
  {
    var counted := if counting == AsWritten then t.attempts == 1 else first;
    var p1 := if counted then p.(numTrials := p.numTrials + 1) else p;
    if t.isCorrect == Some(true) then p1.(numSolved := p1.numSolved + 1) else p1.(numFailed := p1.numFailed + 1)
  }

  /** `undo_stats`: only the solved or failed counter is taken back. */
  function UndoStats(p: Player, t: Trial): (r: Player)
    ensures r.iteration == p.iteration && r.numTrials == p.numTrials
    ensures r.numSolved + r.numFailed == p.numSolved + p.numFailed - 1
  {
    if t.isCorrect == Some(true) then p.(numSolved := p.numSolved - 1) else p.(numFailed := p.numFailed - 1)
  }

  /** Undoing an update restores the solved and failed counters but keeps the
      trial count `update_stats` added on a first attempt. */
  lemma UndoAfterUpdate(p: Player, t: Trial)
    ensures UndoStats(UpdateStats(p, t, AsWritten, false), t) ==
      p.(numTrials := p.numTrials + (if t.attempts == 1 then 1 else 0))
  {
  }

  // ---- the current trial -------------------------------------------------

  /** The indices of the trials of an iteration, in order. */
  function TrialsAt(s: seq<Trial>, it: int): (r: seq<nat>)
    ensures forall k :: 0 <= k < |r| ==> r[k] < |s|
  {
    if s == [] then []
    else TrialsAt(s[..|s| - 1], it) + (if s[|s| - 1].iteration == it then [|s| - 1] else [])
  }

  /** `Trial.filter(iteration=it)` finds exactly the trials of that
      iteration. */
  lemma {:induction false} TrialsAtFilters(s: seq<Trial>, it: int)
    ensures forall k :: 0 <= k < |TrialsAt(s, it)| ==> s[TrialsAt(s, it)[k]].iteration == it
    ensures forall i :: 0 <= i < |s| && s[i].iteration == it ==> i in TrialsAt(s, it)
  {
    if s != [] {
      var n := |s| - 1;
      TrialsAtFilters(s[..n], it);
      assert forall i :: 0 <= i < n ==> s[..n][i] == s[i];
    }
  }

  /** `get_current_trial`: the trial of the player's iteration, if any; two
      of them fail to unpack. */
  function GetCurrentTrial(st: State): (r: Result<Option<nat>>)
    ensures r.Ok? && r.value.Some? ==> r.value.value < |st.trials|
  {
    var found := TrialsAt(st.trials, st.player.iteration);
    if |found| == 0 then Ok(None) else if |found| == 1 then Ok(Some(found[0])) else Err(ValueError)
  }

  /** The trial found is one of the player's iteration, none is found
      exactly when there is none, and two make an error. */
  lemma CurrentTrialFound(st: State)
    ensures var r := GetCurrentTrial(st);
      (r.Ok? && r.value.Some? ==> st.trials[r.value.value].iteration == st.player.iteration) &&
      (r == Ok(None) <==> forall i :: 0 <= i < |st.trials| ==> st.trials[i].iteration != st.player.iteration)
  {
    var found := TrialsAt(st.trials, st.player.iteration);
    TrialsAtFilters(st.trials, st.player.iteration);
    if |found| > 0 {
      assert st.trials[found[0]].iteration == st.player.iteration;
    }
  }

  /** `time_passed`: milliseconds since the current trial was sent, computed
      before the message is looked at; a trial never sent has no timestamp
      and the subtraction is a TypeError. */
  function TimePassed(st: State, cur: Option<nat>, now: real): Result<Option<int>>
    requires cur.Some? ==> cur.value < |st.trials|
  {
    match cur
    case None => Ok(None)
    case Some(k) =>
      match st.trials[k].loaded
      case None => Err(TypeError)
      case Some(t) => Ok(Some(Trunc((now - t) * 1000.0)))
  }

  /** `params['auto_response_time'] and time_passed > ...`. */
  function TimedOut(art: Option<int>, passed: int): (r: Value)
    ensures art.None? ==> r == Null
    ensures art.Some? && art.value == 0 ==> r == Num(0)
    ensures art.Some? && art.value != 0 ==> (r == Bool(true) <==> passed > art.value) && r.Bool?
  {
    match art
    case None => Null
    case Some(a) => if a == 0 then Num(0) else Bool(passed > a)
  }

  // ---- the handlers ------------------------------------------------------

  /** The `load` message: nothing changes. */
  function LoadSpec(params: Params, st: State, cur: Option<nat>, passed: Option<int>): Reply
    requires cur.Some? ==> cur.value < |st.trials| && passed.Some?
  {
    var progress := GetProgress(params, st.player);
    if st.player.iteration == params.numIterations then GameOver(Some(progress))
    else if cur.Some? then
      Status(progress, Some(Encode(st.trials[cur.value])), Some(TimedOut(params.autoResponseTime, passed.value)))
    else Status(progress, None, None)
  }

  /** The `new` message: the iteration moves on before the next trial is
      looked up, so a failed lookup keeps the new iteration. */
  function NewSpec(params: Params, st: State, cur: Option<nat>, now: real): (State, Result<Reply>)
    requires cur.Some? ==> cur.value < |st.trials|
  {
    if cur.Some? && st.trials[cur.value].response.None? then (st, Err(RuntimeError))
    else if st.player.iteration == params.numIterations then (st, Ok(GameOver(None)))
    else
      var st1 := st.(player := st.player.(iteration := st.player.iteration + 1));
      match GetCurrentTrial(st1)
      case Err(e) => (st1, Err(e))
      case Ok(None) => (st1, Err(RuntimeError))
      case Ok(Some(j)) =>
        var t := st1.trials[j].(loaded := Some(now));
        (st1.(trials := st1.trials[j := t]), Ok(NewTrial(Encode(t))))
  }

  /** `int(message.get('total_time', 0))`. */
  function TotalTime(msg: Dict): Result<int> {
    if "total_time" in msg then PyInt(msg["total_time"]) else Ok(0)
  }

  /** The `response` message on the current trial `k`.  The fields are
      written one after the other, so a failing conversion keeps what was
      written before it; a retry's undo happens before the message is
      validated. */
  function ResponseSpec(params: Params, st: State, k: nat, msg: Dict, passed: int, now: real, counting: Counting): (State, Result<Reply>)
    requires k < |st.trials|
  {
    var t := st.trials[k];
    var max := params.attemptsPerTrial;
    if t.response.Some? && max <= 1 then (st, Err(RuntimeError))
    else if t.response.Some? && t.attempts >= max then (st, Err(RuntimeError))
    else
      var p1 := if t.response.Some? then UndoStats(st.player, t) else st.player;
      if EmptyOrNone(Get(msg, "response")) || EmptyOrNone(Get(msg, "reaction_time")) then (st.(player := p1), Err(ValueError))
      else if !(msg["response"].Str? && msg["response"].s in CHOICES) then (st.(player := p1), Err(ValueError))
      else
        var resp := msg["response"].s;
        var t1 := t.(response := Some(resp), isCorrect := Some(t.solution == resp), attempts := t.attempts + 1);
        Recorded(params, st.(player := p1), k, t1, resp, msg, passed, now, counting, t.response.None?)
  }

  /** The accepted response `resp`, already stored as `t1` with one more
      attempt, is completed with the reaction time, the network latency and
      the time of the response, and then counted. */
  function Recorded(params: Params, st: State, k: nat, t1: Trial, resp: string, msg: Dict, passed: int, now: real,
                    counting: Counting, first: bool): (State, Result<Reply>)
    requires k < |st.trials| && "reaction_time" in msg
  {
    match PyInt(msg["reaction_time"])
    case Err(e) => (st.(trials := st.trials[k := t1]), Err(e))
    case Ok(rt) =>
      var t2 := t1.(reactionTime := Some(rt));
      match TotalTime(msg)
      case Err(e) => (st.(trials := st.trials[k := t2]), Err(e))
      case Ok(total) =>
        var t3 := t2.(networkLatency := Some(passed - total), responded := Some(now));
        var p2 := UpdateStats(st.player, t3, counting, first);
        var correct := t1.solution == resp;
        (State(p2, st.trials[k := t3]),
         Ok(Feedback(correct, params.attemptsPerTrial == 1 || correct || t3.attempts == params.attemptsPerTrial, resp, GetProgress(params, p2))))
  }

  /** The `timeout` message on the current trial `k`: the trial is recorded
      as skipped, replacing a previous response. */
  function TimeoutSpec(params: Params, st: State, k: nat, now: real, counting: Counting): (State, Result<Reply>)
    requires k < |st.trials|
  {
    var t := st.trials[k];
    var p1 := if t.response.Some? then UndoStats(st.player, t) else st.player;
    var t1 := t.(response := Some(TIMEOUT_RESPONSE), reactionTime := None, isCorrect := Some(t.solution == TIMEOUT_RESPONSE),
                 responded := Some(now), isTimeout := Some(true));
    var p2 := UpdateStats(p1, t1, counting, t.response.None?);
    var p3 := if counting == AsWritten && t1.attempts == 0 then p2.(numTrials := p2.numTrials + 1) else p2;
    (State(p3, st.trials[k := t1]), Ok(Feedback(t.solution == TIMEOUT_RESPONSE, true, TIMEOUT_RESPONSE, GetProgress(params, p3))))
  }

  /** `play_game(player, message)` at time `now`, under a counting rule; the
      app itself counts `AsWritten`. */
  function PlaySpec(params: Params, st: State, message: Value, now: real, counting: Counting): (State, Result<Reply>) {
    if !message.Obj? then (st, Err(ValueError))
    else match GetCurrentTrial(st)
      case Err(e) => (st, Err(e))
      case Ok(cur) =>
        match TimePassed(st, cur, now)
        case Err(e) => (st, Err(e))
        case Ok(passed) => Handle(params, st, cur, passed, message.fields, now, counting)
  }

  /** The dispatch on the message's `type`, with the current trial `cur`
      and the time `passed` since it was sent. */
  function Handle(params: Params, st: State, cur: Option<nat>, passed: Option<int>, msg: Dict, now: real, counting: Counting): (State, Result<Reply>)
    requires cur.Some? ==> cur.value < |st.trials| && passed.Some?
  {
    if EmptyOrNone(Get(msg, "type")) then (st, Err(ValueError))
    else if msg["type"] == Str("load") then (st, Ok(LoadSpec(params, st, cur, passed)))
    else if msg["type"] == Str("new") then NewSpec(params, st, cur, now)
    else if msg["type"] == Str("response") then
      if cur.None? then (st, Err(RuntimeError)) else ResponseSpec(params, st, cur.value, msg, passed.value, now, counting)
    else if msg["type"] == Str("timeout") then
      if cur.None? then (st, Err(RuntimeError)) else TimeoutSpec(params, st, cur.value, now, counting)
    else if msg["type"] == Str("cheat") && params.debug then (st, Err(Unsupported))
    else (st, Err(RuntimeError))
  }

  // ---- generating the trials ---------------------------------------------

  /** A fresh trial record for a pool row. */
  function Fresh(row: Stimulus, stimulus: string, solution: string, iteration: int): Trial {
    Trial(iteration, None, None, row.cue, row.target, row.strength, stimulus, solution, 0, None, None, None, None, None)
  }

  /** The trial of iteration `iteration` from a row; a non-word is the row's
      target mutated with the draws `draw`. */
  function MakeTrial(row: Stimulus, isNonword: bool, draw: (nat, nat), iteration: int): (r: Result<Trial>)
    ensures r.Ok? ==> r.value.iteration == iteration && r.value.prime == row.cue && r.value.target == row.target
    ensures r.Ok? ==> r.value.response.None? && r.value.loaded.None? && r.value.attempts == 0
    ensures r.Ok? ==> (r.value.solution == "nonword" <==> isNonword) && (r.value.solution == "word" <==> !isNonword)
    ensures r.Ok? && !isNonword ==> r.value.stimulus == row.target
    ensures r.Ok? && isNonword ==> NonwordUtils.MutatedWord(row.target, draw.0, draw.1) == Ok(r.value.stimulus)
    ensures r.Err? <==> isNonword && NonwordUtils.MutatedWord(row.target, draw.0, draw.1).Err?
  {
    if isNonword then
      match NonwordUtils.MutatedWord(row.target, draw.0, draw.1)
      case Err(e) => Err(e)
      case Ok(w) => Ok(Fresh(row, w, "nonword", iteration))
    else Ok(Fresh(row, row.target, "word", iteration))
  }

  /** What making the trial of each of the first `count` rows gives;
      `nonword(i)` is the draw `random.uniform(0, 1) < nonwords_proportion`
      for row `i` and `draws(i)` the draws of its mutation. */
  function Made(rows: seq<Stimulus>, nonword: nat -> bool, draws: nat -> (nat, nat), count: nat): (r: seq<Result<Trial>>)
    requires count <= |rows|
    ensures |r| == count
    ensures forall j :: 0 <= j < count ==> r[j] == MakeTrial(rows[j], nonword(j), draws(j), j + 1)
  {
    seq(count, j requires 0 <= j < count => MakeTrial(rows[j], nonword(j), draws(j), j + 1))
  }

  /** `generate_all_trials` with `rows` the shuffled copy of the pool. */
  function GenerateSpec(params: Params, st: State, pool: seq<Stimulus>, rows: seq<Stimulus>,
                        nonword: nat -> bool, draws: nat -> (nat, nat)): (State, Outcome)
    requires multiset(rows) == multiset(pool)
  {
    var count := params.numIterations;
    if count == 0 then (st, Fail(RuntimeError))
    else if |pool| < count then (st, Fail(RuntimeError))
    else
      assert |rows| == |multiset(rows)| == |pool|;
      // `range(count)` is empty for a negative count
      var n: nat := if count < 0 then 0 else count;
      var (ts, o) := Records.Created(Made(rows, nonword, draws, n));
      (st.(trials := st.trials + ts), o)
  }

  class Game {
    var player: Player
    var trials: seq<Trial>
    const params: Params

    function Snapshot(): State reads this {
      State(player, trials)
    }

    constructor(params: Params)
      ensures Snapshot() == State(Player(0, 0, 0, 0), []) && this.params == params
    {
      this.params := params;
      player := Player(0, 0, 0, 0);
      trials := [];
    }

    /** `generate_all_trials`: trials created before a failing mutation stay
        created. */
    method GenerateAllTrials(pool: seq<Stimulus>, rows: seq<Stimulus>, nonword: nat -> bool, draws: nat -> (nat, nat))
      returns (o: Outcome)
      requires multiset(rows) == multiset(pool)
      modifies this
      ensures (Snapshot(), o) == GenerateSpec(params, old(Snapshot()), pool, rows, nonword, draws)
    {
      var count := params.numIterations;
      if count == 0 || |pool| < count {
        return Fail(RuntimeError);
      }
      assert |rows| == |multiset(rows)| == |pool|;
      var n: nat := if count < 0 then 0 else count;
      var results := Made(rows, nonword, draws, n);
      o := CreateAll(results);
    }

    /** The loop of `generate_all_trials`: each made trial is stored in
        turn, and the first failed mutation ends the loop with the trials
        before it kept. */
    method CreateAll(results: seq<Result<Trial>>) returns (o: Outcome)
      modifies this
      ensures trials == old(trials) + Records.Created(results).0 && player == old(player)
      ensures o == Records.Created(results).1
    {
      ghost var all := Records.Created(results);
      ghost var made: seq<Trial> := [];
      var i: nat := 0;
      assert made + all.0 == all.0 && results[i..] == results;
      while i < |results|
        invariant i <= |results|
        invariant trials == old(trials) + made && player == old(player)
        invariant all.0 == made + Records.Created(results[i..]).0
        invariant all.1 == Records.Created(results[i..]).1
      {
        var m := results[i];
        Records.CreatedStep(results, i);
        if m.Err? {
          assert made + [] == made;
          return Fail(m.error);
        }
        var t := m.value;
        trials := trials + [t];
        made := made + [t];
        i := i + 1;
      }
      assert results[i..] == [];
      assert made + [] == made;
      return Pass;
    }

    /** `play_game` at time `now`. */
    method PlayGame(message: Value, now: real) returns (r: Result<Reply>)
      modifies this
      ensures (Snapshot(), r) == PlaySpec(params, old(Snapshot()), message, now, AsWritten)
    {
      if !message.Obj? {
        return Err(ValueError);
      }
      var found := GetCurrentTrial(Snapshot());
      if found.Err? {
        return Err(found.error);
      }
      var cur := found.value;
      var passed: Option<int> := None;
      if cur.Some? {
        var loaded := trials[cur.value].loaded;
        if loaded.None? {
          return Err(TypeError);
        }
        passed := Some(Trunc((now - loaded.value) * 1000.0));
      }
      var msg := message.fields;
      if EmptyOrNone(Get(msg, "type")) {
        return Err(ValueError);
      }
      var kind := msg["type"];
      if kind == Str("load") {
        return Ok(LoadSpec(params, Snapshot(), cur, passed));
      }
      if kind == Str("new") {
        r := New(cur, now);
        return;
      }
      if kind == Str("response") {
        if cur.None? {
          return Err(RuntimeError);
        }
        r := Respond(cur.value, msg, passed.value, now);
        return;
      }
      if kind == Str("timeout") {
        if cur.None? {
          return Err(RuntimeError);
        }
        r := Timeout(cur.value, now);
        return;
      }
      if kind == Str("cheat") && params.debug {
        return Err(Unsupported);
      }
      return Err(RuntimeError);
    }

    /** The `new` branch. */
    method New(cur: Option<nat>, now: real) returns (r: Result<Reply>)
      requires cur.Some? ==> cur.value < |trials|
      modifies this
      ensures (Snapshot(), r) == NewSpec(params, old(Snapshot()), cur, now)
    {
      if cur.Some? && trials[cur.value].response.None? {
        return Err(RuntimeError);
      }
      if player.iteration == params.numIterations {
        return Ok(GameOver(None));
      }
      player := player.(iteration := player.iteration + 1);
      var next := GetCurrentTrial(Snapshot());
      if next.Err? {
        return Err(next.error);
      }
      if next.value.None? {
        return Err(RuntimeError);
      }
      var j := next.value.value;
      var t := trials[j].(loaded := Some(now));
      trials := trials[j := t];
      return Ok(NewTrial(Encode(t)));
    }

    /** The `response` branch on the current trial `k`. */
    method Respond(k: nat, msg: Dict, passed: int, now: real) returns (r: Result<Reply>)
      requires k < |trials|
      modifies this
      ensures (Snapshot(), r) == ResponseSpec(params, old(Snapshot()), k, msg, passed, now, AsWritten)
    {
      var max := params.attemptsPerTrial;
      var t := trials[k];
      var first := t.response.None?;
      if t.response.Some? {
        if max <= 1 {
          return Err(RuntimeError);
        }
        if t.attempts >= max {
          return Err(RuntimeError);
        }
        player := UndoStats(player, t);
      }
      if EmptyOrNone(Get(msg, "response")) || EmptyOrNone(Get(msg, "reaction_time")) {
        return Err(ValueError);
      }
      if !(msg["response"].Str? && msg["response"].s in CHOICES) {
        return Err(ValueError);
      }
      var resp := msg["response"].s;
      t := t.(response := Some(resp));
      t := t.(isCorrect := Some(t.solution == resp));
      t := t.(attempts := t.attempts + 1);
      r := Record(k, t, resp, msg, passed, now, first);
    }

    /** The `response` branch once the response is accepted. */
    method Record(k: nat, t1: Trial, resp: string, msg: Dict, passed: int, now: real, first: bool) returns (r: Result<Reply>)
      requires k < |trials| && "reaction_time" in msg
      modifies this
      ensures (Snapshot(), r) == Recorded(params, old(Snapshot()), k, t1, resp, msg, passed, now, AsWritten, first)
    {
      var t := t1;
      trials := trials[k := t];
      var rt := PyInt(msg["reaction_time"]);
      if rt.Err? {
        return Err(rt.error);
      }
      t := t.(reactionTime := Some(rt.value));
      trials := trials[k := t];
      assert trials == old(trials)[k := t];
      var total := TotalTime(msg);
      if total.Err? {
        return Err(total.error);
      }
      t := t.(networkLatency := Some(passed - total.value));
      t := t.(responded := Some(now));
      trials := trials[k := t];
      assert trials == old(trials)[k := t];
      player := UpdateStats(player, t, AsWritten, first);
      var correct := t.solution == resp;
      var isFinal := params.attemptsPerTrial == 1 || correct || t.attempts == params.attemptsPerTrial;
      return Ok(Feedback(correct, isFinal, resp, GetProgress(params, player)));
    }

    /** The `timeout` branch on the current trial `k`. */
    method Timeout(k: nat, now: real) returns (r: Result<Reply>)
      requires k < |trials|
      modifies this
      ensures (Snapshot(), r) == TimeoutSpec(params, old(Snapshot()), k, now, AsWritten)
    {
      var t := trials[k];
      var first := t.response.None?;
      if t.response.Some? {
        player := UndoStats(player, t);
      }
      t := t.(response := Some(TIMEOUT_RESPONSE), reactionTime := None);
      t := t.(isCorrect := Some(t.solution == TIMEOUT_RESPONSE), responded := Some(now), isTimeout := Some(true));
      trials := trials[k := t];
      player := UpdateStats(player, t, AsWritten, first);
      if t.attempts == 0 {
        player := player.(numTrials := player.numTrials + 1);
      }
      return Ok(Feedback(t.isCorrect == Some(true), true, TIMEOUT_RESPONSE, GetProgress(params, player)));
    }
  }

  // ---- properties --------------------------------------------------------

  /** Trial `i` is the trial of iteration `i + 1`. */
  predicate Numbered(s: seq<Trial>) {
    forall i :: 0 <= i < |s| ==> s[i].iteration == i + 1
  }

  lemma {:induction false} TrialsAtNumbered(s: seq<Trial>, it: int)
    requires Numbered(s)
    ensures TrialsAt(s, it) == if 1 <= it <= |s| then [it - 1] else []
  {
    if s != [] {
      var n := |s| - 1;
      assert forall i :: 0 <= i < n ==> s[..n][i] == s[i];
      TrialsAtNumbered(s[..n], it);
    }
  }

  /** The states the app goes through once the trials are generated: one
      trial per iteration, the iteration between 0 and `num_iterations`, and
      every trial up to the current one sent. */
  predicate Wf(params: Params, st: State) {
    Numbered(st.trials) && |st.trials| == params.numIterations &&
    0 <= st.player.iteration <= params.numIterations &&
    forall i :: 0 <= i < st.player.iteration ==> st.trials[i].loaded.Some?
  }

  /** The index of the current trial in a well-formed state. */
  function CurrentIndex(st: State): Option<nat> {
    if st.player.iteration <= 0 then None else Some(st.player.iteration - 1)
  }

  /** The elapsed time in a well-formed state. */
  function Elapsed(params: Params, st: State, now: real): Option<int>
    requires Wf(params, st)
  {
    if st.player.iteration == 0 then None
    else Some(Trunc((now - st.trials[st.player.iteration - 1].loaded.value) * 1000.0))
  }

  /** In a well-formed state the current trial is the one of the player's
      iteration, and the elapsed time can be computed. */
  lemma CurrentTrialWf(params: Params, st: State, now: real)
    requires Wf(params, st)
    ensures GetCurrentTrial(st) == Ok(CurrentIndex(st))
    ensures TimePassed(st, CurrentIndex(st), now) == Ok(Elapsed(params, st, now))
  {
    TrialsAtNumbered(st.trials, st.player.iteration);
  }

  /** In a well-formed state every message reaches its handler. */
  lemma Dispatch(params: Params, st: State, message: Value, now: real, counting: Counting)
    requires Wf(params, st) && message.Obj? && !EmptyOrNone(Get(message.fields, "type"))
    ensures var kind := message.fields["type"];
      var r := PlaySpec(params, st, message, now, counting);
      var cur := CurrentIndex(st);
      (kind == Str("load") ==> r == (st, Ok(LoadSpec(params, st, cur, Elapsed(params, st, now))))) &&
      (kind == Str("new") ==> r == NewSpec(params, st, cur, now)) &&
      ((kind == Str("response") || kind == Str("timeout")) && cur.None? ==> r == (st, Err(RuntimeError))) &&
      (kind == Str("response") && cur.Some? ==>
        r == ResponseSpec(params, st, cur.value, message.fields, Elapsed(params, st, now).value, now, counting)) &&
      (kind == Str("timeout") && cur.Some? ==> r == TimeoutSpec(params, st, cur.value, now, counting))
  {
    CurrentTrialWf(params, st, now);
  }

  /** A message that is not a dict, or has no `type`, is a ValueError; a type
      with no handler is a RuntimeError; nothing changes. */
  lemma MessageGuards(params: Params, st: State, message: Value, now: real, counting: Counting)
    ensures !message.Obj? ==> PlaySpec(params, st, message, now, counting) == (st, Err(ValueError))
    ensures Wf(params, st) && message.Obj? && EmptyOrNone(Get(message.fields, "type")) ==>
      PlaySpec(params, st, message, now, counting) == (st, Err(ValueError))
    ensures (Wf(params, st) && message.Obj? && !EmptyOrNone(Get(message.fields, "type")) &&
             message.fields["type"] !in [Str("load"), Str("new"), Str("response"), Str("timeout")] &&
             !(message.fields["type"] == Str("cheat") && params.debug)) ==>
      PlaySpec(params, st, message, now, counting) == (st, Err(RuntimeError))
  {
    if Wf(params, st) {
      CurrentTrialWf(params, st, now);
    }
  }

  /** `load` reports the end of the game at the last iteration, and
      otherwise the current trial with whether the automatic response time
      has passed. */
  lemma Load(params: Params, st: State, now: real)
    requires Wf(params, st)
    ensures var r := LoadSpec(params, st, CurrentIndex(st), Elapsed(params, st, now));
      var it := st.player.iteration;
      (r.GameOver? <==> it == params.numIterations) &&
      (it != params.numIterations && it > 0 ==>
        r == Status(GetProgress(params, st.player), Some(Encode(st.trials[it - 1])),
                    Some(TimedOut(params.autoResponseTime, Trunc((now - st.trials[it - 1].loaded.value) * 1000.0))))) &&
      (it == 0 && params.numIterations != 0 ==> r == Status(GetProgress(params, st.player), None, None))
  {
  }

  /** `new` is refused over an unanswered trial and reports the end of the
      game at the last iteration, changing nothing; otherwise the iteration
      moves on by one and exactly the next trial is stamped and sent. */
  lemma New(params: Params, st: State, now: real)
    requires Wf(params, st)
    ensures var (st1, r) := NewSpec(params, st, CurrentIndex(st), now);
      var it := st.player.iteration;
      var unanswered := it > 0 && st.trials[it - 1].response.None?;
      (unanswered ==> (st1, r) == (st, Err(RuntimeError))) &&
      (!unanswered && it == params.numIterations ==> (st1, r) == (st, Ok(GameOver(None)))) &&
      (!unanswered && it < params.numIterations ==>
        st1.player == st.player.(iteration := it + 1) &&
        st1.trials == st.trials[it := st.trials[it].(loaded := Some(now))] &&
        r == Ok(NewTrial(Encode(st1.trials[it]))))
  {
    TrialsAtNumbered(st.trials, st.player.iteration + 1);
  }

  /** A retry is refused when retrying is off or the attempts are used up; a
      first response that is empty or not one of the choices is a
      ValueError; in each case nothing changes.  An accepted response is
      stored on the current trial alone, with one more attempt, its
      correctness, and whether it is the final one. */
  lemma Response(params: Params, st: State, k: nat, msg: Dict, passed: int, now: real, counting: Counting)
    requires k < |st.trials|
    ensures var (st1, r) := ResponseSpec(params, st, k, msg, passed, now, counting);
      var t := st.trials[k];
      var max := params.attemptsPerTrial;
      var invalid := EmptyOrNone(Get(msg, "response")) || EmptyOrNone(Get(msg, "reaction_time"));
      (t.response.Some? && (max <= 1 || t.attempts >= max) ==> (st1, r) == (st, Err(RuntimeError))) &&
      (t.response.None? && invalid ==> (st1, r) == (st, Err(ValueError))) &&
      (t.response.None? && !invalid && !(msg["response"].Str? && msg["response"].s in CHOICES) ==> (st1, r) == (st, Err(ValueError))) &&
      (r.Ok? ==>
        !invalid && msg["response"].Str? && msg["response"].s in CHOICES &&
        st1.player.iteration == st.player.iteration && st1.trials == st.trials[k := st1.trials[k]] &&
        st1.trials[k].response == Some(msg["response"].s) && st1.trials[k].attempts == t.attempts + 1 &&
        st1.trials[k].isCorrect == Some(t.solution == msg["response"].s) && st1.trials[k].responded == Some(now) &&
        r.value.Feedback? && r.value.correct == (t.solution == msg["response"].s) &&
        (r.value.isFinal <==> max == 1 || r.value.correct || st1.trials[k].attempts == max))
  {
  }

  /** The current trial is recorded as a skipped, final, timed-out answer
      with no reaction time and its attempts unchanged; as written the
      trial is counted when it had no attempt, and counted again when it
      had one. */
  lemma Timeout(params: Params, st: State, k: nat, now: real)
    requires k < |st.trials|
    ensures var (st1, r) := TimeoutSpec(params, st, k, now, AsWritten);
      var t := st.trials[k];
      st1.trials == st.trials[k := st1.trials[k]] &&
      st1.trials[k] == t.(response := Some(TIMEOUT_RESPONSE), reactionTime := None, isCorrect := Some(t.solution == TIMEOUT_RESPONSE),
                          responded := Some(now), isTimeout := Some(true)) &&
      st1.player.numTrials == st.player.numTrials + (if t.attempts == 0 || t.attempts == 1 then 1 else 0) &&
      r == Ok(Feedback(t.solution == TIMEOUT_RESPONSE, true, TIMEOUT_RESPONSE, GetProgress(params, st1.player)))
  {
  }

  /** Changing one trial, keeping its iteration and its sending time, and
      not the player's iteration, keeps the state well formed. */
  lemma OneTrialKeepsWf(params: Params, st: State, st1: State, k: nat)
    requires Wf(params, st) && k < |st.trials| == |st1.trials| && st1.trials == st.trials[k := st1.trials[k]]
    requires st1.trials[k].iteration == st.trials[k].iteration && st1.trials[k].loaded == st.trials[k].loaded
    requires st1.player.iteration == st.player.iteration
    ensures Wf(params, st1)
  {
    assert forall i :: 0 <= i < |st1.trials| ==> st1.trials[i].iteration == st.trials[i].iteration;
    assert forall i :: 0 <= i < |st1.trials| ==> st1.trials[i].loaded == st.trials[i].loaded;
  }

  /** A response changes the current trial alone, and not its iteration or
      its sending time. */
  lemma ResponseFrame(params: Params, st: State, k: nat, msg: Dict, passed: int, now: real, counting: Counting)
    requires k < |st.trials|
    ensures var st1 := ResponseSpec(params, st, k, msg, passed, now, counting).0;
      |st1.trials| == |st.trials| && st1.trials == st.trials[k := st1.trials[k]] && st1.player.iteration == st.player.iteration &&
      st1.trials[k].iteration == st.trials[k].iteration && st1.trials[k].loaded == st.trials[k].loaded
  {
  }

  /** `new` keeps the state well formed. */
  lemma NewKeepsWf(params: Params, st: State, now: real)
    requires Wf(params, st)
    ensures Wf(params, NewSpec(params, st, CurrentIndex(st), now).0)
  {
    New(params, st, now);
  }

  /** A response keeps the state well formed. */
  lemma ResponseKeepsWf(params: Params, st: State, msg: Dict, passed: int, now: real, counting: Counting)
    requires Wf(params, st) && st.player.iteration > 0
    ensures Wf(params, ResponseSpec(params, st, st.player.iteration - 1, msg, passed, now, counting).0)
  {
    var k := st.player.iteration - 1;
    ResponseFrame(params, st, k, msg, passed, now, counting);
    OneTrialKeepsWf(params, st, ResponseSpec(params, st, k, msg, passed, now, counting).0, k);
  }

  /** A timeout keeps the state well formed. */
  lemma TimeoutKeepsWf(params: Params, st: State, now: real, counting: Counting)
    requires Wf(params, st) && st.player.iteration > 0
    ensures Wf(params, TimeoutSpec(params, st, st.player.iteration - 1, now, counting).0)
  {
    var k := st.player.iteration - 1;
    OneTrialKeepsWf(params, st, TimeoutSpec(params, st, k, now, counting).0, k);
  }

  /** Every message type keeps a well-formed state well formed. */
  lemma HandleCases(params: Params, st: State, cur: Option<nat>, passed: Option<int>, msg: Dict, now: real, counting: Counting)
    requires cur.Some? ==> cur.value < |st.trials| && passed.Some?
    ensures var h := Handle(params, st, cur, passed, msg, now, counting);
      h.0 == st || h == NewSpec(params, st, cur, now) ||
      (cur.Some? && h == ResponseSpec(params, st, cur.value, msg, passed.value, now, counting)) ||
      (cur.Some? && h == TimeoutSpec(params, st, cur.value, now, counting))
  {
  }

  /** Every message type keeps a well-formed state well formed. */
  lemma HandleKeepsWf(params: Params, st: State, msg: Dict, now: real, counting: Counting)
    requires Wf(params, st)
    ensures Wf(params, Handle(params, st, CurrentIndex(st), Elapsed(params, st, now), msg, now, counting).0)
  {
    var cur, passed := CurrentIndex(st), Elapsed(params, st, now);
    var h := Handle(params, st, cur, passed, msg, now, counting);
    HandleCases(params, st, cur, passed, msg, now, counting);
    if h.0 == st {
    } else if h == NewSpec(params, st, cur, now) {
      NewKeepsWf(params, st, now);
    } else if cur.Some? && h == ResponseSpec(params, st, cur.value, msg, passed.value, now, counting) {
      ResponseKeepsWf(params, st, msg, passed.value, now, counting);
    } else {
      TimeoutKeepsWf(params, st, now, counting);
    }
  }

  /** Every message, accepted or not, keeps the state well formed. */
  lemma PlayKeepsWf(params: Params, st: State, message: Value, now: real, counting: Counting)
    requires Wf(params, st)
    ensures Wf(params, PlaySpec(params, st, message, now, counting).0)
  {
    if message.Obj? {
      CurrentTrialWf(params, st, now);
      HandleKeepsWf(params, st, message.fields, now, counting);
    }
  }

  // ---- generating --------------------------------------------------------

  /** `generate_all_trials`: no trials without `num_iterations` or with too
      small a pool. */
  lemma GenerateRefused(params: Params, st: State, pool: seq<Stimulus>, rows: seq<Stimulus>,
                        nonword: nat -> bool, draws: nat -> (nat, nat))
    requires multiset(rows) == multiset(pool)
    requires params.numIterations == 0 || |pool| < params.numIterations
    ensures GenerateSpec(params, st, pool, rows, nonword, draws) == (st, Fail(RuntimeError))
  {
  }

  /** The trials stored from the first `count` made trials: at most
      `count`, all of them exactly when no mutation failed, each the one
      made for its row. */
  lemma {:induction false} MadeCreated(rows: seq<Stimulus>, nonword: nat -> bool, draws: nat -> (nat, nat), count: nat)
    requires count <= |rows|
    ensures var c := Records.Created(Made(rows, nonword, draws, count));
      |c.0| <= count && (c.1 == Pass <==> |c.0| == count) &&
      forall j :: 0 <= j < |c.0| ==> MakeTrial(rows[j], nonword(j), draws(j), j + 1) == Ok(c.0[j])
  {
    var results := Made(rows, nonword, draws, count);
    Records.CreatedLength(results);
    forall j | 0 <= j < |Records.Created(results).0|
      ensures MakeTrial(rows[j], nonword(j), draws(j), j + 1) == Ok(Records.Created(results).0[j])
    {
      Records.CreatedTrials(results, j);
    }
  }

  /** `generate_all_trials` otherwise: trial `j` is made from the `j`-th
      shuffled row for iteration `j + 1`, with the solution `nonword`
      exactly when the target was mutated, until a mutation fails. */
  lemma GenerateAllTrials(params: Params, st: State, pool: seq<Stimulus>, rows: seq<Stimulus>,
                          nonword: nat -> bool, draws: nat -> (nat, nat))
    requires multiset(rows) == multiset(pool)
    requires params.numIterations > 0 && |pool| >= params.numIterations
    ensures var r := GenerateSpec(params, st, pool, rows, nonword, draws); var st1, o := r.0, r.1;
      var count := params.numIterations;
      var n := |st.trials|;
      |rows| >= count && st1.player == st.player && n <= |st1.trials| <= n + count && st1.trials[..n] == st.trials &&
      (o == Pass <==> |st1.trials| == n + count) &&
      (forall j :: 0 <= j < |st1.trials| - n ==>
        var t := st1.trials[n + j];
        t.iteration == j + 1 && t.prime == rows[j].cue && t.target == rows[j].target && t.response.None? &&
        (t.solution == "nonword" <==> nonword(j)) && (!nonword(j) ==> t.stimulus == rows[j].target))
  {
    var count := params.numIterations;
    assert |rows| == |multiset(rows)| == |pool|;
    MadeCreated(rows, nonword, draws, count);
    var c := Records.Created(Made(rows, nonword, draws, count));
    var st1 := st.(trials := st.trials + c.0);
    assert GenerateSpec(params, st, pool, rows, nonword, draws) == (st1, c.1);
    assert st1.trials[..|st.trials|] == st.trials;
    assert forall j :: 0 <= j < |c.0| ==> st1.trials[|st.trials| + j] == c.0[j];
  }

  /** Generated for a new player, a complete set of trials gives a
      well-formed state. */
  lemma GeneratedWf(params: Params, st: State, pool: seq<Stimulus>, rows: seq<Stimulus>,
                    nonword: nat -> bool, draws: nat -> (nat, nat))
    requires multiset(rows) == multiset(pool)
    requires st.trials == [] && st.player.iteration == 0 && params.numIterations >= 0
    ensures var r := GenerateSpec(params, st, pool, rows, nonword, draws);
      r.1 == Pass ==> Wf(params, r.0)
  {
    var count := params.numIterations;
    if count > 0 && |pool| >= count {
      assert |rows| == |multiset(rows)| == |pool|;
      MadeCreated(rows, nonword, draws, count);
      var c := Records.Created(Made(rows, nonword, draws, count));
      assert st.trials + c.0 == c.0;
      assert GenerateSpec(params, st, pool, rows, nonword, draws) == (st.(trials := c.0), c.1);
    }
  }

  // ---- counting each trial once ------------------------------------------

  predicate Answered(t: Trial) { t.response.Some? }

  function CountAnswered(s: seq<Trial>): int {
    if s == [] then 0 else CountAnswered(s[..|s| - 1]) + (if Answered(s[|s| - 1]) then 1 else 0)
  }

  function CountSolved(s: seq<Trial>): int {
    if s == [] then 0 else CountSolved(s[..|s| - 1]) + (if Answered(s[|s| - 1]) && s[|s| - 1].isCorrect == Some(true) then 1 else 0)
  }

  function CountFailed(s: seq<Trial>): int {
    if s == [] then 0 else CountFailed(s[..|s| - 1]) + (if Answered(s[|s| - 1]) && s[|s| - 1].isCorrect != Some(true) then 1 else 0)
  }

  /** The counters agree with the records: every answered trial counted
      once, as solved or failed. */
  predicate Tallied(st: State) {
    st.player.numTrials == CountAnswered(st.trials) &&
    st.player.numSolved == CountSolved(st.trials) && st.player.numFailed == CountFailed(st.trials)
  }

  lemma {:induction false} CountsUpdate(s: seq<Trial>, k: nat, t: Trial)
    requires k < |s|
    ensures CountAnswered(s[k := t]) == CountAnswered(s) - (if Answered(s[k]) then 1 else 0) + (if Answered(t) then 1 else 0)
    ensures CountSolved(s[k := t]) == CountSolved(s) - (if Answered(s[k]) && s[k].isCorrect == Some(true) then 1 else 0)
                                                     + (if Answered(t) && t.isCorrect == Some(true) then 1 else 0)
    ensures CountFailed(s[k := t]) == CountFailed(s) - (if Answered(s[k]) && s[k].isCorrect != Some(true) then 1 else 0)
                                                     + (if Answered(t) && t.isCorrect != Some(true) then 1 else 0)
  {
    var n := |s| - 1;
    if k < n {
      assert s[k := t][..n] == s[..n][k := t];
      CountsUpdate(s[..n], k, t);
    } else {
      assert s[k := t][..n] == s[..n];
    }
  }

  /** Under the `Once` rule an accepted response keeps the counters in
      agreement with the records. */
  lemma ResponseOnceKeepsTally(params: Params, st: State, k: nat, msg: Dict, passed: int, now: real)
    requires k < |st.trials| && Tallied(st)
    requires ResponseSpec(params, st, k, msg, passed, now, Once).1.Ok?
    ensures Tallied(ResponseSpec(params, st, k, msg, passed, now, Once).0)
  {
    var st1 := ResponseSpec(params, st, k, msg, passed, now, Once).0;
    ResponseFrame(params, st, k, msg, passed, now, Once);
    CountsUpdate(st.trials, k, st1.trials[k]);
  }

  /** Under the `Once` rule a timeout keeps the counters in agreement with
      the records. */
  lemma TimeoutOnceKeepsTally(params: Params, st: State, k: nat, now: real)
    requires k < |st.trials| && Tallied(st)
    ensures Tallied(TimeoutSpec(params, st, k, now, Once).0)
  {
    var st1 := TimeoutSpec(params, st, k, now, Once).0;
    assert st1.trials == st.trials[k := st1.trials[k]];
    CountsUpdate(st.trials, k, st1.trials[k]);
  }

  /** Sending the next trial keeps the counters in agreement with the
      records. */
  lemma NewKeepsTally(params: Params, st: State, now: real, counting: Counting)
    requires Wf(params, st) && Tallied(st)
    ensures Tallied(NewSpec(params, st, CurrentIndex(st), now).0)
  {
    New(params, st, now);
    var st1 := NewSpec(params, st, CurrentIndex(st), now).0;
    if st1 != st {
      CountsUpdate(st.trials, st.player.iteration, st1.trials[st.player.iteration]);
    }
  }

  /** Counting a trial once, when it is first answered, keeps the counters
      in agreement with the records over every accepted message. */
  lemma PlayOnceKeepsTally(params: Params, st: State, message: Value, now: real)
    requires Wf(params, st) && Tallied(st)
    requires PlaySpec(params, st, message, now, Once).1.Ok?
    ensures Tallied(PlaySpec(params, st, message, now, Once).0)
  {
    MessageGuards(params, st, message, now, Once);
    Dispatch(params, st, message, now, Once);
    var it := st.player.iteration;
    var kind := message.fields["type"];
    if kind == Str("new") {
      NewKeepsTally(params, st, now, Once);
    } else if kind == Str("response") && it > 0 {
      ResponseOnceKeepsTally(params, st, it - 1, message.fields, Elapsed(params, st, now).value, now);
    } else if kind == Str("timeout") && it > 0 {
      TimeoutOnceKeepsTally(params, st, it - 1, now);
    }
  }

  /** As written, a timeout after one answer counts the trial a second
      time: one trial, two counted. */
  lemma TimeoutAfterAnswerCountsTwice()
    ensures var params := Params(1, 1, None, false);
      var t := Trial(1, Some(0.0), Some(1.0), "cue", "word", "0.5", "word", "word", 1, Some("word"), Some(500), Some(true), None, Some(0));
      var st := State(Player(1, 1, 1, 0), [t]);
      var message := Obj(map["type" := Str("timeout")]);
      var (st1, r) := PlaySpec(params, st, message, 2.0, AsWritten);
      Wf(params, st) && Tallied(st) && r.Ok? && |st1.trials| == 1 && st1.player.numTrials == 2 && !Tallied(st1)
  {
    var params := Params(1, 1, None, false);
    var t := Trial(1, Some(0.0), Some(1.0), "cue", "word", "0.5", "word", "word", 1, Some("word"), Some(500), Some(true), None, Some(0));
    var st := State(Player(1, 1, 1, 0), [t]);
    var message := Obj(map["type" := Str("timeout")]);
    assert [t][..0] == [];
    Dispatch(params, st, message, 2.0, AsWritten);
    var (st1, r) := PlaySpec(params, st, message, 2.0, AsWritten);
    var t1 := st1.trials[0];
    assert st1.trials == [t1];
    assert [t1][..0] == [];
    assert CountAnswered([t1]) == 1;
  }
}
