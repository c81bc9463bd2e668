/** The stand-alone CAPTCHA transcription app (`transcription/__init__.py`):
    a puzzle of random characters is shown as a distorted image, the
    participant types it in, and the live method `play_game` serves the
    puzzles one after another under the configured pacing, skipping and
    retry rules. */
module Transcription {
  import opened Wrappers
  import opened Json
  import opened Text

  /** `Constants.characters` and `Constants.captcha_length`. */
  const CHARACTERS: string := "ABCDEFGHIJKLMNOPQRSTUVWXYZ0123456789"
  const CAPTCHA_LENGTH: int := 3

  /** The session configuration `play_game` reads, with its defaults
      applied, and `settings.DEBUG`. */
  datatype Config = Config(trialDelay: real, retryDelay: real, forceSolve: bool, allowSkip: bool,
                           allowRetry: bool, maxIter: int, debug: bool)

  /** `config.get('allow_retry', False) or force_solve` */
  predicate RetryAllowed(cfg: Config) {
    cfg.allowRetry || cfg.forceSolve
  }

  datatype Player = Player(captchaLength: int, gameRound: int, gameIteration: int)

  /** A `Trial` record; the answer is stored as the message carries it. */
  datatype Trial = Trial(round: int, iteration: int, timestamp: real, length: int, text: string, solution: string,
                         answerTimestamp: Option<real>, answer: Option<Value>, isCorrect: Option<bool>, retries: int)

  /** The player and the player's trial records in creation order. */
  datatype State = State(player: Player, trials: seq<Trial>)

  /** `summarize_trials` */
  datatype Stats = Stats(total: int, correct: int, incorrect: int)

  /** The replies; an image is identified by the text it shows. */
  datatype Reply =
    | Image(image: string, stats: Stats)
    | GameOver
    | Feedback(feedback: bool, stats: Stats)
    | Solution(solution: string)

  /** How a new trial is numbered: as written (from the freshly created
      record, so always 1), or from the trial before it. */
  datatype Numbering = AsWritten | Consecutive

  // ---- puzzles -------------------------------------------------------------

  /** The text of a puzzle of `length` characters; `pick(i)` is the draw of
      `random.choice` for character `i`. */
  function PuzzleText(length: int, pick: nat -> nat): (r: string)
    ensures |r| == (if length < 0 then 0 else length)
    ensures forall i :: 0 <= i < |r| ==> r[i] in CHARACTERS
  {
    var n: nat := if length < 0 then 0 else length;
    seq(n, i requires 0 <= i < n => CHARACTERS[pick(i) % |CHARACTERS|])
  }

  /** `generate_puzzle`: the record as created, before the caller stamps
      it; the solution is the text in lower case. */
  function GeneratePuzzle(p: Player, pick: nat -> nat): (r: Trial)
    ensures r.length == p.captchaLength && |r.text| == (if p.captchaLength < 0 then 0 else p.captchaLength)
    ensures forall i :: 0 <= i < |r.text| ==> r.text[i] in CHARACTERS
    ensures r.solution == Lower(r.text) && r.answer.None? && r.isCorrect.None? && r.retries == 0
    ensures r.round == 0 && r.iteration == 0
  {
    var text := PuzzleText(p.captchaLength, pick);
    Trial(0, 0, 0.0, p.captchaLength, text, Lower(text), None, None, None, 0)
  }

  /** `check_answer`: an empty or `None` answer is refused before anything
      is stored; the answer is stored before it is lower-cased, so an answer
      that is not a string stays stored. */
  function CheckAnswer(t: Trial, answer: Value): (Trial, Outcome) {
    if answer == Str("") || answer == Null then (t, Fail(ValueError))
    else
      var t1 := t.(answer := Some(answer));
      if !answer.Str? then (t1, Fail(AttributeError))
      else (t1.(isCorrect := Some(Lower(answer.s) == t.solution)), Pass)
  }

  /** The answer is compared in lower case with the solution, so the
      puzzle's text in any casing is correct, and an answer is correct only
      when it lower-cases to the solution. */
  lemma CheckAnswerIgnoresCase(t: Trial, answer: string)
    requires t.solution == Lower(t.text)
    ensures answer != "" ==> CheckAnswer(t, Str(answer)).1 == Pass
    ensures answer != "" ==> (CheckAnswer(t, Str(answer)).0.isCorrect == Some(true) <==> Lower(answer) == t.solution)
    ensures t.text != "" ==> CheckAnswer(t, Str(t.text)).0.isCorrect == Some(true)
    ensures t.text != "" ==> CheckAnswer(t, Str(t.solution)).0.isCorrect == Some(true)
  {
    LowerIdempotent(t.text);
  }

  /** An empty or `None` answer is a ValueError and one that is not a string
      an AttributeError; only a string answer is judged. */
  lemma CheckAnswerRefuses(t: Trial, answer: Value)
    ensures answer == Str("") || answer == Null ==> CheckAnswer(t, answer) == (t, Fail(ValueError))
    ensures answer != Str("") && answer != Null && !answer.Str? ==>
      CheckAnswer(t, answer) == (t.(answer := Some(answer)), Fail(AttributeError))
    ensures CheckAnswer(t, answer).1 == Pass <==> answer.Str? && answer.s != ""
  {
  }

  // ---- queries -------------------------------------------------------------

  /** `get_last_trial`: the last trial of the player's round and
      iteration. */
  function LastTrial(s: seq<Trial>, round: int, iteration: int): (r: Option<nat>)
    ensures r.Some? ==> r.value < |s| && s[r.value].round == round && s[r.value].iteration == iteration
  {
    if s == [] then None
    else if s[|s| - 1].round == round && s[|s| - 1].iteration == iteration then Some(|s| - 1)
    else LastTrial(s[..|s| - 1], round, iteration)
  }

  /** No later trial is of that round and iteration, and none is found
      exactly when there is none. */
  lemma {:induction false} LastTrialIsLast(s: seq<Trial>, round: int, iteration: int)
    ensures var r := LastTrial(s, round, iteration);
      (r.None? <==> forall i :: 0 <= i < |s| ==> !(s[i].round == round && s[i].iteration == iteration)) &&
      (r.Some? ==> forall i :: r.value < i < |s| ==> !(s[i].round == round && s[i].iteration == iteration))
  {
    if s != [] {
      var n := |s| - 1;
      LastTrialIsLast(s[..n], round, iteration);
      assert forall i :: 0 <= i < n ==> s[..n][i] == s[i];
    }
  }

  function CurrentTrial(st: State): Option<nat> {
    LastTrial(st.trials, st.player.gameRound, st.player.gameIteration)
  }

  function CountCorrect(s: seq<Trial>, value: bool): nat {
    if s == [] then 0 else CountCorrect(s[..|s| - 1], value) + (if s[|s| - 1].isCorrect == Some(value) then 1 else 0)
  }

  /** `summarize_trials` */
  function Summarize(s: seq<Trial>): Stats {
    Stats(|s|, CountCorrect(s, true), CountCorrect(s, false))
  }

  /** The correct and the incorrect trials are distinct trials: together
      they are at most all, and exactly all once every trial is judged. */
  lemma {:induction false} SummarizeBounds(s: seq<Trial>)
    ensures Summarize(s).correct + Summarize(s).incorrect <= Summarize(s).total
    ensures (forall i :: 0 <= i < |s| ==> s[i].isCorrect.Some?) ==>
      Summarize(s).correct + Summarize(s).incorrect == Summarize(s).total
  {
    if s != [] {
      var n := |s| - 1;
      SummarizeBounds(s[..n]);
      assert forall i :: 0 <= i < n ==> s[..n][i] == s[i];
      if forall i :: 0 <= i < |s| ==> s[i].isCorrect.Some? {
        assert forall i :: 0 <= i < n ==> s[..n][i].isCorrect.Some?;
        if s[n].isCorrect.value {
          assert s[n].isCorrect == Some(true);
        } else {
          assert s[n].isCorrect == Some(false);
        }
      }
    }
  }

  // ---- the handlers --------------------------------------------------------

  /** The empty message: a first puzzle when there is none, otherwise the
      current one again. */
  function LoadSpec(st: State, now: real, pick: nat -> nat): (State, Result<Reply>) {
    match CurrentTrial(st)
    case Some(k) => (st, Ok(Image(st.trials[k].text, Summarize(st.trials))))
    case None =>
      var t := GeneratePuzzle(st.player, pick).(timestamp := now, iteration := 1);
      var st1 := State(st.player.(gameIteration := 1), st.trials + [t]);
      (st1, Ok(Image(t.text, Summarize(st1.trials))))
  }

  /** The `next` message: the guards in order, the end of the game, then a
      new puzzle. */
  function NextSpec(cfg: Config, st: State, now: real, pick: nat -> nat, numbering: Numbering): (State, Result<Reply>) {
    match CurrentTrial(st)
    case None => (st, Err(RuntimeError))
    case Some(k) =>
      var t := st.trials[k];
      if now - t.timestamp < cfg.trialDelay then (st, Err(RuntimeError))
      else if cfg.forceSolve && t.isCorrect != Some(true) then (st, Err(RuntimeError))
      else if !cfg.allowSkip && t.answer.None? then (st, Err(RuntimeError))
      else if cfg.maxIter != 0 && t.iteration >= cfg.maxIter then (st, Ok(GameOver))
      else
        var created := GeneratePuzzle(st.player, pick).(timestamp := now);
        var iteration := if numbering == AsWritten then created.iteration + 1 else t.iteration + 1;
        var t1 := created.(iteration := iteration);
        var st1 := State(st.player.(gameIteration := iteration), st.trials + [t1]);
        (st1, Ok(Image(t1.text, Summarize(st1.trials))))
  }

  /** The `answer` message: a retry is refused unless allowed and the retry
      delay is over; an answer is stored with its time and one more try. */
  function AnswerSpec(cfg: Config, st: State, answer: Value, now: real): (State, Result<Reply>) {
    match CurrentTrial(st)
    case None => (st, Err(RuntimeError))
    case Some(k) =>
      var t := st.trials[k];
      if t.answer.Some? && !RetryAllowed(cfg) then (st, Err(RuntimeError))
      else if t.answer.Some? && t.answerTimestamp.None? then (st, Err(TypeError))
      else if t.answer.Some? && now - t.answerTimestamp.value < cfg.retryDelay then (st, Err(RuntimeError))
      else
        match CheckAnswer(t, answer)
        case (t1, Fail(e)) => (st.(trials := st.trials[k := t1]), Err(e))
        case (t1, Pass) =>
          var t2 := t1.(answerTimestamp := Some(now), retries := t1.retries + 1);
          var st1 := st.(trials := st.trials[k := t2]);
          (st1, Ok(Feedback(t2.isCorrect == Some(true), Summarize(st1.trials))))
  }

  /** `play_game(player, data)` at time `now`, with `pick` the draws of a new
      puzzle; the app itself numbers trials `AsWritten`. */
  function PlaySpec(cfg: Config, st: State, data: Dict, now: real, pick: nat -> nat, numbering: Numbering): (State, Result<Reply>) {
    if data == map[] then LoadSpec(st, now, pick)
    else if "next" in data then NextSpec(cfg, st, now, pick, numbering)
    else if "answer" in data then AnswerSpec(cfg, st, data["answer"], now)
    else if "cheat" in data && cfg.debug then
      match CurrentTrial(st)
      case None => (st, Err(RuntimeError))
      case Some(k) => (st, Ok(Solution(st.trials[k].solution)))
    else (st, Err(ValueError))
  }

  class Game {
    var player: Player
    var trials: seq<Trial>
    const cfg: Config

    function Snapshot(): State reads this {
      State(player, trials)
    }

    constructor(cfg: Config)
      ensures Snapshot() == State(Player(CAPTCHA_LENGTH, 0, 0), []) && this.cfg == cfg
    {
      this.cfg := cfg;
      player := Player(CAPTCHA_LENGTH, 0, 0);
      trials := [];
    }

    /** `play_game` at time `now`. */
    method PlayGame(data: Dict, now: real, pick: nat -> nat) returns (r: Result<Reply>)
      modifies this
      ensures (Snapshot(), r) == PlaySpec(cfg, old(Snapshot()), data, now, pick, AsWritten)
    {
      var trial := LastTrial(trials, player.gameRound, player.gameIteration);
      if data == map[] {
        if trial.None? {
          var t := GeneratePuzzle(player, pick);
          t := t.(timestamp := now);
          t := t.(iteration := 1);
          trials := trials + [t];
          player := player.(gameIteration := 1);
          return Ok(Image(t.text, Summarize(trials)));
        }
        return Ok(Image(trials[trial.value].text, Summarize(trials)));
      }
      if "next" in data {
        r := Next(trial, now, pick);
        return;
      }
      if "answer" in data {
        if trial.None? {
          return Err(RuntimeError);
        }
        r := Answer(trial.value, data["answer"], now);
        return;
      }
      if "cheat" in data && cfg.debug {
        if trial.None? {
          return Err(RuntimeError);
        }
        return Ok(Solution(trials[trial.value].solution));
      }
      return Err(ValueError);
    }

    /** The `next` branch. */
    method Next(trial: Option<nat>, now: real, pick: nat -> nat) returns (r: Result<Reply>)
      requires trial == CurrentTrial(Snapshot())
      modifies this
      ensures (Snapshot(), r) == NextSpec(cfg, old(Snapshot()), now, pick, AsWritten)
    {
      if trial.None? {
        return Err(RuntimeError);
      }
      var t := trials[trial.value];
      if now - t.timestamp < cfg.trialDelay {
        return Err(RuntimeError);
      }
      if cfg.forceSolve && t.isCorrect != Some(true) {
        return Err(RuntimeError);
      }
      if !cfg.allowSkip && t.answer.None? {
        return Err(RuntimeError);
      }
      if cfg.maxIter != 0 && t.iteration >= cfg.maxIter {
        return Ok(GameOver);
      }
      t := GeneratePuzzle(player, pick);
      t := t.(timestamp := now);
      t := t.(iteration := t.iteration + 1);
      trials := trials + [t];
      player := player.(gameIteration := t.iteration);
      return Ok(Image(t.text, Summarize(trials)));
    }

    /** The `answer` branch on the current trial `k`. */
    method Answer(k: nat, answer: Value, now: real) returns (r: Result<Reply>)
      requires CurrentTrial(Snapshot()) == Some(k)
      modifies this
      ensures (Snapshot(), r) == AnswerSpec(cfg, old(Snapshot()), answer, now)
    {
      var t := trials[k];
      if t.answer.Some? {
        if !(cfg.allowRetry || cfg.forceSolve) {
          return Err(RuntimeError);
        }
        if t.answerTimestamp.None? {
          return Err(TypeError);
        }
        if now - t.answerTimestamp.value < cfg.retryDelay {
          return Err(RuntimeError);
        }
      }
      if answer == Str("") || answer == Null {
        assert trials[k := t] == trials;
        return Err(ValueError);
      }
      t := t.(answer := Some(answer));
      trials := trials[k := t];
      if !answer.Str? {
        return Err(AttributeError);
      }
      t := t.(isCorrect := Some(Lower(answer.s) == t.solution));
      t := t.(answerTimestamp := Some(now));
      t := t.(retries := t.retries + 1);
      trials := trials[k := t];
      assert trials == old(trials)[k := t];
      return Ok(Feedback(t.isCorrect.value, Summarize(trials)));
    }
  }

  // ---- properties ----------------------------------------------------------

  /** The empty message makes a first puzzle, numbered 1 and stamped with
      the time, only when there is no current one; otherwise it shows the
      current one again and changes nothing. */
  lemma Load(st: State, now: real, pick: nat -> nat)
    ensures var (st1, r) := LoadSpec(st, now, pick);
      (CurrentTrial(st).Some? ==> st1 == st && r == Ok(Image(st.trials[CurrentTrial(st).value].text, Summarize(st.trials)))) &&
      (CurrentTrial(st).None? ==>
        |st1.trials| == |st.trials| + 1 && st1.trials[..|st.trials|] == st.trials && st1.player.gameIteration == 1 &&
        st1.trials[|st.trials|].iteration == 1 && st1.trials[|st.trials|].timestamp == now &&
        st1.trials[|st.trials|].solution == Lower(st1.trials[|st.trials|].text) &&
        r == Ok(Image(st1.trials[|st.trials|].text, Summarize(st1.trials))))
  {
    if CurrentTrial(st).None? {
      var st1 := LoadSpec(st, now, pick).0;
      assert st1.trials[..|st.trials|] == st.trials;
    }
  }

  /** `next` is refused, changing nothing, without a current puzzle, before
      the trial delay is over, on an unsolved puzzle under `force_solve`, and
      on an unanswered puzzle unless skipping is allowed; then the game is
      over once the current puzzle's iteration reaches `num_iterations`. */
  lemma NextGuards(cfg: Config, st: State, now: real, pick: nat -> nat, numbering: Numbering)
    ensures var (st1, r) := NextSpec(cfg, st, now, pick, numbering);
      var cur := CurrentTrial(st);
      (cur.None? ==> (st1, r) == (st, Err(RuntimeError))) &&
      (cur.Some? ==>
        var t := st.trials[cur.value];
        var early := now - t.timestamp < cfg.trialDelay;
        var unsolved := cfg.forceSolve && t.isCorrect != Some(true);
        var unanswered := !cfg.allowSkip && t.answer.None?;
        (early || unsolved || unanswered ==> (st1, r) == (st, Err(RuntimeError))) &&
        (!early && !unsolved && !unanswered && cfg.maxIter != 0 && t.iteration >= cfg.maxIter ==> (st1, r) == (st, Ok(GameOver))) &&
        (r.Ok? && r.value != GameOver ==> |st1.trials| == |st.trials| + 1 && st1.trials[..|st.trials|] == st.trials))
  {
    var st1 := NextSpec(cfg, st, now, pick, numbering).0;
    if |st1.trials| == |st.trials| + 1 {
      assert st1.trials[..|st.trials|] == st.trials;
    }
  }

  /** As written a new puzzle takes its number from the record just
      created, so it is always numbered 1, and so is the player's
      iteration. */
  lemma NextNumbersOne(cfg: Config, st: State, now: real, pick: nat -> nat)
    ensures var (st1, r) := NextSpec(cfg, st, now, pick, AsWritten);
      r.Ok? && r.value != GameOver ==> st1.trials[|st.trials|].iteration == 1 && st1.player.gameIteration == 1
  {
  }

  /** A retry is refused, changing nothing, unless retrying is allowed
      (`allow_retry` or `force_solve`) and the retry delay is over; an
      accepted answer is stored on the current puzzle alone, with its time,
      its correctness, and one more try. */
  lemma Answer(cfg: Config, st: State, answer: Value, now: real)
    requires CurrentTrial(st).Some?
    ensures var (st1, r) := AnswerSpec(cfg, st, answer, now);
      var k := CurrentTrial(st).value;
      var t := st.trials[k];
      (t.answer.Some? && !RetryAllowed(cfg) ==> (st1, r) == (st, Err(RuntimeError))) &&
      (t.answer.Some? && t.answerTimestamp.Some? && now - t.answerTimestamp.value < cfg.retryDelay ==> (st1, r) == (st, Err(RuntimeError))) &&
      (r.Ok? ==>
        answer.Str? && answer.s != "" && (t.answer.None? || RetryAllowed(cfg)) &&
        st1.player == st.player && st1.trials == st.trials[k := st1.trials[k]] &&
        st1.trials[k] == t.(answer := Some(answer), isCorrect := Some(Lower(answer.s) == t.solution),
                            answerTimestamp := Some(now), retries := t.retries + 1) &&
        r.value == Feedback(Lower(answer.s) == t.solution, Summarize(st1.trials)))
  {
  }

  /** `cheat` gives the solution only under DEBUG, any other message but
      the empty one, `next` and `answer` is a ValueError, and both change
      nothing. */
  lemma MessageGuards(cfg: Config, st: State, data: Dict, now: real, pick: nat -> nat, numbering: Numbering)
    requires data != map[] && "next" !in data && "answer" !in data
    ensures var (st1, r) := PlaySpec(cfg, st, data, now, pick, numbering);
      st1 == st &&
      (!("cheat" in data && cfg.debug) ==> r == Err(ValueError)) &&
      ("cheat" in data && cfg.debug && CurrentTrial(st).Some? ==> r == Ok(Solution(st.trials[CurrentTrial(st).value].solution)))
  {
  }

  // ---- numbering the trials ------------------------------------------------

  /** As written every trial is numbered 1 in round 0, and the player's
      iteration is 1 once there is a trial. */
  predicate AllAtOne(st: State) {
    st.player.gameRound == 0 &&
    (st.trials == [] ==> st.player.gameIteration == 0) &&
    (st.trials != [] ==> st.player.gameIteration == 1) &&
    forall i :: 0 <= i < |st.trials| ==> st.trials[i].round == 0 && st.trials[i].iteration == 1
  }

  /** Under `AllAtOne` the current puzzle is the newest. */
  lemma CurrentIsNewest(st: State)
    requires AllAtOne(st)
    ensures CurrentTrial(st) == if st.trials == [] then None else Some(|st.trials| - 1)
  {
    if st.trials == [] {
      assert CurrentTrial(st) == None;
    }
  }

  /** Storing an answer renumbers nothing. */
  lemma AnswerKeepsNumbers(cfg: Config, st: State, answer: Value, now: real)
    ensures var st1 := AnswerSpec(cfg, st, answer, now).0;
      st1.player == st.player && |st1.trials| == |st.trials| &&
      forall i :: 0 <= i < |st.trials| ==> st1.trials[i].round == st.trials[i].round && st1.trials[i].iteration == st.trials[i].iteration
  {
  }

  lemma LoadKeepsAllAtOne(st: State, now: real, pick: nat -> nat)
    requires AllAtOne(st)
    ensures AllAtOne(LoadSpec(st, now, pick).0)
  {
    CurrentIsNewest(st);
  }

  lemma NextKeepsAllAtOne(cfg: Config, st: State, now: real, pick: nat -> nat)
    requires AllAtOne(st)
    ensures AllAtOne(NextSpec(cfg, st, now, pick, AsWritten).0)
  {
    CurrentIsNewest(st);
    var st1 := NextSpec(cfg, st, now, pick, AsWritten).0;
    if st1 != st {
      assert forall i :: 0 <= i < |st.trials| ==> st1.trials[i] == st.trials[i];
    }
  }

  /** Every message keeps every trial numbered 1, as written. */
  lemma PlayKeepsAllAtOne(cfg: Config, st: State, data: Dict, now: real, pick: nat -> nat)
    requires AllAtOne(st)
    ensures AllAtOne(PlaySpec(cfg, st, data, now, pick, AsWritten).0)
  {
    if data == map[] {
      LoadKeepsAllAtOne(st, now, pick);
    } else if "next" in data {
      NextKeepsAllAtOne(cfg, st, now, pick);
    } else if "answer" in data {
      AnswerKeepsNumbers(cfg, st, data["answer"], now);
    }
  }

  /** So, as written, with more than one iteration configured `next` never
      ends the game: the puzzles never run out. */
  lemma NeverGameOver(cfg: Config, st: State, now: real, pick: nat -> nat)
    requires AllAtOne(st) && cfg.maxIter > 1
    ensures NextSpec(cfg, st, now, pick, AsWritten).1 != Ok(GameOver)
  {
    CurrentIsNewest(st);
  }

  /** Numbered consecutively: trial `i` is iteration `i + 1` of round 0, and
      the player's iteration is the number of trials. */
  predicate NumberedInOrder(st: State) {
    st.player.gameRound == 0 && st.player.gameIteration == |st.trials| &&
    forall i :: 0 <= i < |st.trials| ==> st.trials[i].round == 0 && st.trials[i].iteration == i + 1
  }

  lemma CurrentIsLast(st: State)
    requires NumberedInOrder(st)
    ensures CurrentTrial(st) == if st.trials == [] then None else Some(|st.trials| - 1)
  {
    if st.trials == [] {
      assert CurrentTrial(st) == None;
    }
  }

  lemma LoadKeepsInOrder(st: State, now: real, pick: nat -> nat, maxIter: int)
    requires NumberedInOrder(st) && maxIter > 0 && |st.trials| <= maxIter
    ensures var st1 := LoadSpec(st, now, pick).0;
      NumberedInOrder(st1) && |st1.trials| <= maxIter
  {
    CurrentIsLast(st);
  }

  lemma NextKeepsInOrder(cfg: Config, st: State, now: real, pick: nat -> nat)
    requires NumberedInOrder(st) && cfg.maxIter > 0 && |st.trials| <= cfg.maxIter
    ensures var st1 := NextSpec(cfg, st, now, pick, Consecutive).0;
      NumberedInOrder(st1) && |st1.trials| <= cfg.maxIter
  {
    CurrentIsLast(st);
    var st1 := NextSpec(cfg, st, now, pick, Consecutive).0;
    if st1 != st {
      assert forall i :: 0 <= i < |st.trials| ==> st1.trials[i] == st.trials[i];
    }
  }

  /** Numbering each puzzle after the one before it, as evidently intended,
      keeps the trials numbered consecutively and never serves more
      puzzles than `num_iterations`. */
  lemma ConsecutiveEnds(cfg: Config, st: State, data: Dict, now: real, pick: nat -> nat)
    requires NumberedInOrder(st) && cfg.maxIter > 0 && |st.trials| <= cfg.maxIter
    ensures var st1 := PlaySpec(cfg, st, data, now, pick, Consecutive).0;
      NumberedInOrder(st1) && |st1.trials| <= cfg.maxIter
  {
    if data == map[] {
      LoadKeepsInOrder(st, now, pick, cfg.maxIter);
    } else if "next" in data {
      NextKeepsInOrder(cfg, st, now, pick);
    } else if "answer" in data {
      AnswerKeepsNumbers(cfg, st, data["answer"], now);
    }
  }
}
