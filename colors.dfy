/** The colours (Stroop) app, `colors/__init__.py`: a colour name is shown in
    some ink colour and the participant names the ink. The live method
    `play_game` serves the puzzles under the configured pacing, skipping and
    retry rules. */
module Colors {
  import opened Wrappers
  import opened Json

  /** `Constants.colors` */
  const COLORS: seq<string> := ["red", "green", "blue", "yellow", "magenta", "cyan"]

  /** The session configuration `play_game` reads, with its defaults
      applied. */
  datatype Config = Config(trialDelay: real, retryDelay: real, forceSolve: bool, allowSkip: bool, maxIter: int)

  datatype Player = Player(gameRound: int, gameIteration: int, total: int, correct: int, incorrect: int)

  /** A `Trial` record; `congruent` is never assigned and is left out. */
  datatype Trial = Trial(round: int, iteration: int, timestamp: real, color: string, text: string, solution: string,
                         answerTimestamp: Option<real>, answer: Option<Value>, isCorrect: Option<bool>, retries: int)

  /** The player and the player's trial records in creation order. */
  datatype State = State(player: Player, trials: seq<Trial>)

  /** `summarize_trials` */
  datatype Stats = Stats(total: int, correct: int, incorrect: int)

  /** The replies; an image is identified by the word and the ink it
      shows. */
  datatype Reply =
    | Image(text: string, ink: string, stats: Stats)
    | GameOver
    | Feedback(feedback: bool, stats: Stats)

  // ---- puzzles -------------------------------------------------------------

  /** `generate_puzzle`: `colorPick` and `textPick` are the draws of the two
      `random.choice` calls; the solution is the ink colour. */
  function GeneratePuzzle(colorPick: nat, textPick: nat): (r: Trial)
    ensures r.color in COLORS && r.text in COLORS && r.solution == r.color
    ensures r.answer.None? && r.answerTimestamp.None? && r.isCorrect.None? && r.retries == 0
    ensures r.round == 0 && r.iteration == 0
  {
    var color := COLORS[colorPick % |COLORS|];
    Trial(0, 0, 0.0, color, COLORS[textPick % |COLORS|], color, None, None, None, 0)
  }

  /** `check_answer`: the answer is compared as it is with the ink colour. */
  function CheckAnswer(t: Trial, answer: Value): (r: (Trial, Outcome)) {
    if answer == Str("") || answer == Null then (t, Fail(ValueError))
    else (t.(answer := Some(answer), isCorrect := Some(answer == Str(t.color))), Pass)
  }

  /** An empty or `None` answer is refused and stores nothing; any other
      answer is stored, and is correct exactly when it is the ink colour's
      name, in the same case. */
  lemma CheckAnswerMeans(t: Trial, answer: Value)
    ensures var (t1, out) := CheckAnswer(t, answer);
      (answer == Str("") || answer == Null ==> t1 == t && out == Fail(ValueError)) &&
      (answer != Str("") && answer != Null ==>
        out == Pass && t1.answer == Some(answer) &&
        (t1.isCorrect == Some(true) <==> answer.Str? && answer.s == t.color) &&
        t1.color == t.color && t1.iteration == t.iteration && t1.retries == t.retries)
  {
  }

  // ---- queries -------------------------------------------------------------

  /** `get_last_trial`: the newest trial of the player, in any round. */
  function LastTrial(st: State): (r: Option<nat>)
    ensures r.Some? <==> st.trials != []
    ensures r.Some? ==> r.value == |st.trials| - 1
  {
    if st.trials == [] then None else Some(|st.trials| - 1)
  }

  function CountCorrect(s: seq<Trial>, value: bool): nat {
    if s == [] then 0 else CountCorrect(s[..|s| - 1], value) + (if s[|s| - 1].isCorrect == Some(value) then 1 else 0)
  }

  /** `summarize_trials` */
  function Summarize(s: seq<Trial>): Stats {
    Stats(|s|, CountCorrect(s, true), CountCorrect(s, false))
  }

  /** The correct and the incorrect trials are distinct trials: together
      they are at most all of them. */
  lemma {:induction false} SummarizeBounds(s: seq<Trial>)
    ensures 0 <= Summarize(s).correct && 0 <= Summarize(s).incorrect
    ensures Summarize(s).correct + Summarize(s).incorrect <= Summarize(s).total
  {
    if s != [] {
      SummarizeBounds(s[..|s| - 1]);
    }
  }

  // ---- the handlers --------------------------------------------------------

  /** The `next` message: the guards apply only when there is a trial; then
      the end of the game, then a new puzzle numbered after the last. */
  function NextSpec(cfg: Config, st: State, now: real, colorPick: nat, textPick: nat): (State, Result<Reply>) {
    var last := LastTrial(st);
    if last.Some? && now - st.trials[last.value].timestamp < cfg.trialDelay then (st, Err(RuntimeError))
    else if last.Some? && cfg.forceSolve && st.trials[last.value].isCorrect != Some(true) then (st, Err(RuntimeError))
    else if last.Some? && !cfg.allowSkip && st.trials[last.value].answer.None? then (st, Err(RuntimeError))
    else if last.Some? && cfg.maxIter != 0 && st.trials[last.value].iteration >= cfg.maxIter then (st, Ok(GameOver))
    else
      var iteration := if last.Some? then st.trials[last.value].iteration + 1 else 1;
      var t := GeneratePuzzle(colorPick, textPick).(timestamp := now, iteration := iteration);
      var st1 := State(st.player.(gameIteration := iteration), st.trials + [t]);
      (st1, Ok(Image(t.text, t.color, Summarize(st1.trials))))
  }

  /** Whether a retry comes too early: a zero (falsy) answer time does not
      count. */
  predicate RetryTooEarly(cfg: Config, t: Trial, now: real) {
    t.answerTimestamp.Some? && t.answerTimestamp.value != 0.0 && now - t.answerTimestamp.value < cfg.retryDelay
  }

  /** The `answer` message on the newest trial. */
  function AnswerSpec(cfg: Config, st: State, answer: Value, now: real): (State, Result<Reply>) {
    match LastTrial(st)
    case None => (st, Err(RuntimeError))
    case Some(k) =>
      var t := st.trials[k];
      if t.answer.Some? && !cfg.forceSolve then (st, Err(RuntimeError))
      else if RetryTooEarly(cfg, t, now) then (st, Err(RuntimeError))
      else
        match CheckAnswer(t, answer)
        case (_, Fail(e)) => (st, Err(e))
        case (t1, Pass) =>
          var t2 := t1.(answerTimestamp := Some(now), retries := t1.retries + 1);
          var st1 := st.(trials := st.trials[k := t2]);
          (st1, Ok(Feedback(t2.isCorrect == Some(true), Summarize(st1.trials))))
  }

  /** `play_game(player, data)` at time `now`, with the draws of a new
      puzzle. */
  function PlaySpec(cfg: Config, st: State, data: Dict, now: real, colorPick: nat, textPick: nat): (State, Result<Reply>) {
    if "next" in data then NextSpec(cfg, st, now, colorPick, textPick)
    else if "answer" in data then AnswerSpec(cfg, st, data["answer"], now)
    else (st, Err(ValueError))
  }

  /** `before_next_page`: the player's totals become the summary. */
  function FinishSpec(st: State): (r: State)
    ensures r.trials == st.trials
  {
    var stats := Summarize(st.trials);
    st.(player := st.player.(total := stats.total, correct := stats.correct, incorrect := stats.incorrect))
  }

  class Game {
    var player: Player
    var trials: seq<Trial>
    const cfg: Config

    function Snapshot(): State reads this {
      State(player, trials)
    }

    constructor(cfg: Config)
      ensures Snapshot() == State(Player(0, 0, 0, 0, 0), []) && this.cfg == cfg
    {
      this.cfg := cfg;
      player := Player(0, 0, 0, 0, 0);
      trials := [];
    }

    /** `play_game` at time `now`. */
    method PlayGame(data: Dict, now: real, colorPick: nat, textPick: nat) returns (r: Result<Reply>)
      modifies this
      ensures (Snapshot(), r) == PlaySpec(cfg, old(Snapshot()), data, now, colorPick, textPick)
    {
      var last := if |trials| > 0 then Some(|trials| - 1) else None;
      if "next" in data {
        r := Next(last, now, colorPick, textPick);
        return;
      }
      if "answer" in data {
        if last.None? {
          return Err(RuntimeError);
        }
        r := Answer(last.value, data["answer"], now);
        return;
      }
      return Err(ValueError);
    }

    /** The `next` branch. */
    method Next(last: Option<nat>, now: real, colorPick: nat, textPick: nat) returns (r: Result<Reply>)
      requires last == LastTrial(Snapshot())
      modifies this
      ensures (Snapshot(), r) == NextSpec(cfg, old(Snapshot()), now, colorPick, textPick)
    {
      if last.Some? {
        var t := trials[last.value];
        if now - t.timestamp < cfg.trialDelay {
          return Err(RuntimeError);
        }
        if cfg.forceSolve && t.isCorrect != Some(true) {
          return Err(RuntimeError);
        }
        if !cfg.allowSkip && t.answer.None? {
          return Err(RuntimeError);
        }
        if cfg.maxIter != 0 && t.iteration >= cfg.maxIter {
          return Ok(GameOver);
        }
      }
      var trial := GeneratePuzzle(colorPick, textPick);
      trial := trial.(timestamp := now);
      trial := trial.(iteration := if last.Some? then trials[last.value].iteration + 1 else 1);
      player := player.(gameIteration := trial.iteration);
      trials := trials + [trial];
      return Ok(Image(trial.text, trial.color, Summarize(trials)));
    }

    /** The `answer` branch on the newest trial `k`. */
    method Answer(k: nat, answer: Value, now: real) returns (r: Result<Reply>)
      requires LastTrial(Snapshot()) == Some(k)
      modifies this
      ensures (Snapshot(), r) == AnswerSpec(cfg, old(Snapshot()), answer, now)
    {
      var t := trials[k];
      if t.answer.Some? && !cfg.forceSolve {
        return Err(RuntimeError);
      }
      if t.answerTimestamp.Some? && t.answerTimestamp.value != 0.0 && now - t.answerTimestamp.value < cfg.retryDelay {
        return Err(RuntimeError);
      }
      if answer == Str("") || answer == Null {
        return Err(ValueError);
      }
      t := t.(answer := Some(answer));
      t := t.(isCorrect := Some(answer == Str(t.color)));
      t := t.(answerTimestamp := Some(now));
      t := t.(retries := t.retries + 1);
      trials := trials[k := t];
      return Ok(Feedback(t.isCorrect.value, Summarize(trials)));
    }

    /** `before_next_page` */
    method Finish()
      modifies this
      ensures Snapshot() == FinishSpec(old(Snapshot()))
    {
      var stats := Summarize(trials);
      player := player.(total := stats.total, correct := stats.correct, incorrect := stats.incorrect);
    }
  }

  // ---- properties ----------------------------------------------------------

  /** The first `next` is always served; later ones are refused, changing
      nothing, before the trial delay is over, on an unsolved puzzle under
      `force_solve`, and on an unanswered one unless skipping is allowed,
      in that order; then the game is over once the newest puzzle's
      iteration reaches `num_iterations`. */
  lemma NextGuards(cfg: Config, st: State, now: real, colorPick: nat, textPick: nat)
    ensures var (st1, r) := NextSpec(cfg, st, now, colorPick, textPick);
      (st.trials == [] ==> r.Ok? && r.value.Image?) &&
      (st.trials != [] ==>
        var t := st.trials[|st.trials| - 1];
        var early := now - t.timestamp < cfg.trialDelay;
        var unsolved := cfg.forceSolve && t.isCorrect != Some(true);
        var unanswered := !cfg.allowSkip && t.answer.None?;
        (early || unsolved || unanswered ==> (st1, r) == (st, Err(RuntimeError))) &&
        (!early && !unsolved && !unanswered && cfg.maxIter != 0 && t.iteration >= cfg.maxIter ==> (st1, r) == (st, Ok(GameOver))) &&
        (cfg.maxIter == 0 || t.iteration < cfg.maxIter ==> (r.Ok? <==> !early && !unsolved && !unanswered)))
  {
  }

  /** A served puzzle is appended after the others, numbered one past the
      newest (or 1), and the player's iteration follows it. */
  lemma NextNumbers(cfg: Config, st: State, now: real, colorPick: nat, textPick: nat)
    ensures var (st1, r) := NextSpec(cfg, st, now, colorPick, textPick);
      r.Ok? && r.value.Image? ==>
        |st1.trials| == |st.trials| + 1 && st1.trials[..|st.trials|] == st.trials &&
        st1.trials[|st.trials|].iteration == (if st.trials == [] then 1 else st.trials[|st.trials| - 1].iteration + 1) &&
        st1.player.gameIteration == st1.trials[|st.trials|].iteration &&
        st1.trials[|st.trials|].timestamp == now && st1.trials[|st.trials|].answer.None?
  {
    var st1 := NextSpec(cfg, st, now, colorPick, textPick).0;
    if |st1.trials| == |st.trials| + 1 {
      assert st1.trials[..|st.trials|] == st.trials;
    }
  }

  /** `answer` needs a trial; re-answering is refused unless `force_solve`,
      and so is a retry within the retry delay of a nonzero answer time; an
      accepted answer changes only the newest trial, storing the answer,
      its correctness and its time, with one more try. */
  lemma AnswerGuards(cfg: Config, st: State, answer: Value, now: real)
    ensures var (st1, r) := AnswerSpec(cfg, st, answer, now);
      (st.trials == [] ==> (st1, r) == (st, Err(RuntimeError))) &&
      (st.trials != [] ==>
        var k := |st.trials| - 1;
        var t := st.trials[k];
        (t.answer.Some? && !cfg.forceSolve ==> (st1, r) == (st, Err(RuntimeError))) &&
        (RetryTooEarly(cfg, t, now) ==> (st1, r) == (st, Err(RuntimeError))) &&
        (r.Err? ==> st1 == st) &&
        (r.Ok? <==> (t.answer.None? || cfg.forceSolve) && !RetryTooEarly(cfg, t, now) && answer != Str("") && answer != Null) &&
        (r.Ok? ==>
          st1.player == st.player && |st1.trials| == |st.trials| && st1.trials[..k] == st.trials[..k] &&
          st1.trials[k] == t.(answer := Some(answer), isCorrect := Some(answer == Str(t.color)),
                              answerTimestamp := Some(now), retries := t.retries + 1) &&
          r.value == Feedback(answer == Str(t.color), Summarize(st1.trials))))
  {
  }

  /** Any message but `next` and `answer` is a ValueError. */
  lemma UnknownMessage(cfg: Config, st: State, data: Dict, now: real, colorPick: nat, textPick: nat)
    requires "next" !in data && "answer" !in data
    ensures PlaySpec(cfg, st, data, now, colorPick, textPick) == (st, Err(ValueError))
  {
  }

  /** The trials are numbered `1, 2, ...` in creation order, the player's
      iteration is the newest one's, a trial is answered exactly when it has
      an answer time and a try, and every solution is the ink colour. */
  predicate Wf(st: State) {
    st.player.gameIteration == |st.trials| &&
    forall i :: 0 <= i < |st.trials| ==>
      st.trials[i].iteration == i + 1 && st.trials[i].solution == st.trials[i].color &&
      (st.trials[i].answer.Some? <==> st.trials[i].answerTimestamp.Some?) &&
      (st.trials[i].answer.Some? <==> st.trials[i].retries > 0)
  }

  /** Every message keeps `Wf`, and with `num_iterations` set no more
      puzzles are served than it allows. */
  lemma PlayKeepsWf(cfg: Config, st: State, data: Dict, now: real, colorPick: nat, textPick: nat)
    requires Wf(st) && forall i :: 0 <= i < |st.trials| ==> st.trials[i].retries >= 0
    ensures var st1 := PlaySpec(cfg, st, data, now, colorPick, textPick).0;
      Wf(st1) && forall i :: 0 <= i < |st1.trials| ==> st1.trials[i].retries >= 0
    ensures var st1 := PlaySpec(cfg, st, data, now, colorPick, textPick).0;
      cfg.maxIter > 0 && |st.trials| <= cfg.maxIter ==> |st1.trials| <= cfg.maxIter
  {
    var st1 := PlaySpec(cfg, st, data, now, colorPick, textPick).0;
    if |st1.trials| == |st.trials| + 1 {
      assert forall i :: 0 <= i < |st.trials| ==> st1.trials[i] == st.trials[i];
    } else if st1 != st {
      assert forall i :: 0 <= i < |st.trials| - 1 ==> st1.trials[i] == st.trials[i];
    }
  }

  /** `before_next_page` records the summary on the player, and the totals
      recorded are consistent. */
  lemma FinishRecords(st: State)
    ensures var st1 := FinishSpec(st);
      st1.player.total == |st.trials| &&
      st1.player.correct + st1.player.incorrect <= st1.player.total &&
      st1.player.gameIteration == st.player.gameIteration
  {
    SummarizeBounds(st.trials);
  }
}
