/** The arithmetics app, `arithmetics/__init__.py`: the participant adds two
    two-digit numbers shown as an image, as many as fit in the game's time;
    the payoff is the number of correct answers less the incorrect ones. */
module Arithmetics {
  import opened Wrappers
  import opened Json
  import opened Text

  /** `Constants.digits`: the digits without 0. */
  const DIGITS: seq<nat> := [1, 2, 3, 4, 5, 6, 7, 8, 9]

  /** The session configuration `play_game` reads, with its defaults
      applied. */
  datatype Config = Config(trialDelay: real, forceSolve: bool)

  datatype Player = Player(total: int, answered: int, correct: int, incorrect: int, payoff: int)

  /** A `Trial` record; the answer is stored as the message carries it,
      a JSON `null` as `None`, the column's null. */
  datatype Trial = Trial(timestamp: real, iteration: int, puzzle: string, solution: int,
                         answer: Option<Value>, isCorrect: Option<bool>, retries: int)

  datatype State = State(player: Player, trials: seq<Trial>)

  datatype Reply = Image(puzzle: string) | Feedback(feedback: Option<bool>)

  /** The four draws of `random.choice(Constants.digits)`. */
  datatype Draws = Draws(a1: nat, a2: nat, b1: nat, b2: nat)

  // ---- puzzles -------------------------------------------------------------

  function Digit(pick: nat): nat {
    DIGITS[pick % |DIGITS|]
  }

  /** A two-digit operand with no zero digit. */
  function Operand(tens: nat, ones: nat): nat {
    Digit(tens) * 10 + Digit(ones)
  }

  /** `generate_puzzle`: the record as created, before the caller stamps it. */
  function GeneratePuzzle(d: Draws): (r: Trial)
    ensures r.answer.None? && r.isCorrect.None? && r.retries == 0 && r.iteration == 0
  {
    var a := Operand(d.a1, d.a2);
    var b := Operand(d.b1, d.b2);
    Trial(0.0, 0, NatToString(a) + " + " + NatToString(b) + " = ", a + b, None, None, 0)
  }

  /** An operand lies in 11..99, has no zero digit, and prints as its two
      digits. */
  lemma OperandDigits(tens: nat, ones: nat)
    ensures var n := Operand(tens, ones);
      11 <= n <= 99 && n / 10 == Digit(tens) && n % 10 == Digit(ones) && n % 10 != 0 &&
      NatToString(n) == [DigitChar(Digit(tens)), DigitChar(Digit(ones))]
  {
    var n := Operand(tens, ones);
    assert n / 10 == Digit(tens) && n % 10 == Digit(ones);
    assert NatToString(n) == NatToString(n / 10) + [DigitChar(n % 10)];
  }

  /** The puzzle reads `"a + b = "` with two-digit operands, ten characters
      in all, and its solution is their sum, between 22 and 198. */
  lemma PuzzleShape(d: Draws)
    ensures var t := GeneratePuzzle(d);
      |t.puzzle| == 10 && t.puzzle[2..5] == " + " && t.puzzle[7..] == " = " &&
      AllDigits(t.puzzle[0..2]) && AllDigits(t.puzzle[5..7]) &&
      t.puzzle[0] != '0' && t.puzzle[1] != '0' && t.puzzle[5] != '0' && t.puzzle[6] != '0' &&
      t.solution == DigitsValue(t.puzzle[0..2]) + DigitsValue(t.puzzle[5..7]) &&
      22 <= t.solution <= 198
  {
    OperandDigits(d.a1, d.a2);
    OperandDigits(d.b1, d.b2);
    var a := Operand(d.a1, d.a2);
    var b := Operand(d.b1, d.b2);
    var t := GeneratePuzzle(d);
    assert t.puzzle[0..2] == NatToString(a);
    assert t.puzzle[5..7] == NatToString(b);
    DigitsOfNat(a);
    DigitsOfNat(b);
  }

  /** What `trial.answer = answer` leaves in the column: `None` for a JSON
      `null`, the value otherwise. */
  function Stored(answer: Value): Option<Value> {
    if answer.Null? then None else Some(answer)
  }

  /** `check_answer`: an empty answer is refused; otherwise the answer is
      stored before `int(answer)`, so one that does not parse stays
      stored, and a `null` clears the answer while the verdict stays. */
  function CheckAnswer(t: Trial, answer: Value): (Trial, Outcome) {
    if answer == Str("") then (t, Fail(ValueError))
    else
      var t1 := t.(answer := Stored(answer));
      match PyInt(answer)
      case Err(e) => (t1, Fail(e))
      case Ok(n) => (t1.(isCorrect := Some(n == t.solution)), Pass)
  }

  /** An empty answer stores nothing; any other answer is stored, a `null`
      as no answer; it is judged exactly when it converts to an integer, and
      correct exactly when that integer is the solution, so the solution's
      own decimal text is correct; a `null` is a TypeError that keeps the
      earlier verdict; no answer changes a try. */
  lemma CheckAnswerMeans(t: Trial, answer: Value)
    requires t.solution >= 0
    ensures var (t1, out) := CheckAnswer(t, answer);
      (answer == Str("") ==> t1 == t && out == Fail(ValueError)) &&
      (answer != Str("") ==> (t1.answer.None? <==> answer.Null?) && (answer.Null? || t1.answer == Some(answer)) &&
                             (out == Pass <==> PyInt(answer).Ok?)) &&
      (answer.Null? ==> out == Fail(TypeError)) &&
      (out.Fail? ==> t1.isCorrect == t.isCorrect) && t1.retries == t.retries &&
      (out == Pass ==> (t1.isCorrect == Some(true) <==> PyInt(answer) == Ok(t.solution))) &&
      CheckAnswer(t, Str(NatToString(t.solution))).0.isCorrect == Some(true)
  {
    ParseIntOfIntToString(t.solution);
  }

  // ---- the handlers --------------------------------------------------------

  /** `get_last_trial` */
  function LastTrial(st: State): Option<nat> {
    if st.trials == [] then None else Some(|st.trials| - 1)
  }

  /** The `next` message: the delay guard, the force-solve guard, then a new
      puzzle numbered after the last. */
  function NextSpec(cfg: Config, st: State, now: real, d: Draws): (State, Result<Reply>) {
    var last := LastTrial(st);
    var iteration := if last.Some? then st.trials[last.value].iteration else 0;
    if last.Some? && now - st.trials[last.value].timestamp < cfg.trialDelay then (st, Err(RuntimeError))
    else if last.Some? && cfg.forceSolve && st.trials[last.value].isCorrect != Some(true) then (st, Err(ValueError))
    else
      var t := GeneratePuzzle(d).(timestamp := now, iteration := iteration + 1);
      (st.(trials := st.trials + [t]), Ok(Image(t.puzzle)))
  }

  /** The `answer` message on the newest trial: with none, the empty answer
      is still a ValueError and any other one fails on the missing record. */
  function AnswerSpec(st: State, answer: Value): (State, Result<Reply>) {
    match LastTrial(st)
    case None => (st, Err(if answer == Str("") then ValueError else AttributeError))
    case Some(k) =>
      match CheckAnswer(st.trials[k], answer)
      case (t1, Fail(e)) => (st.(trials := st.trials[k := t1]), Err(e))
      case (t1, Pass) =>
        var t2 := t1.(retries := t1.retries + 1);
        (st.(trials := st.trials[k := t2]), Ok(Feedback(t2.isCorrect)))
  }

  /** `play_game(player, data)` at time `now`, with the draws of a new
      puzzle. */
  function PlaySpec(cfg: Config, st: State, data: Dict, now: real, d: Draws): (State, Result<Reply>) {
    if "next" in data then NextSpec(cfg, st, now, d)
    else if "answer" in data then AnswerSpec(st, data["answer"])
    else (st, Err(ValueError))
  }

  function CountAnswered(s: seq<Trial>): nat {
    if s == [] then 0 else CountAnswered(s[..|s| - 1]) + (if s[|s| - 1].answer.Some? then 1 else 0)
  }

  function CountCorrect(s: seq<Trial>, value: bool): nat {
    if s == [] then 0 else CountCorrect(s[..|s| - 1], value) + (if s[|s| - 1].isCorrect == Some(value) then 1 else 0)
  }

  /** `summarize_trials` then the payoff, in `before_next_page`. */
  function FinishSpec(st: State): State {
    var total := |st.trials|;
    var unanswered := total - CountAnswered(st.trials);
    var correct := CountCorrect(st.trials, true);
    var incorrect := CountCorrect(st.trials, false);
    st.(player := Player(total, total - unanswered, correct, incorrect, correct - incorrect))
  }

  class Game {
    var player: Player
    var trials: seq<Trial>
    const cfg: Config

    function Snapshot(): State reads this {
      State(player, trials)
    }

    constructor(cfg: Config)
      ensures Snapshot() == State(Player(0, 0, 0, 0, 0), []) && this.cfg == cfg
    {
      this.cfg := cfg;
      player := Player(0, 0, 0, 0, 0);
      trials := [];
    }

    /** `play_game` at time `now`. */
    method PlayGame(data: Dict, now: real, d: Draws) returns (r: Result<Reply>)
      modifies this
      ensures (Snapshot(), r) == PlaySpec(cfg, old(Snapshot()), data, now, d)
    {
      var last := if |trials| > 0 then Some(|trials| - 1) else None;
      var iteration := if last.Some? then trials[last.value].iteration else 0;
      if "next" in data {
        if last.Some? && now - trials[last.value].timestamp < cfg.trialDelay {
          return Err(RuntimeError);
        }
        if last.Some? && cfg.forceSolve && trials[last.value].isCorrect != Some(true) {
          return Err(ValueError);
        }
        var t := GeneratePuzzle(d);
        t := t.(timestamp := now);
        t := t.(iteration := iteration + 1);
        trials := trials + [t];
        return Ok(Image(t.puzzle));
      }
      if "answer" in data {
        r := Answer(last, data["answer"]);
        return;
      }
      return Err(ValueError);
    }

    /** The `answer` branch on the newest trial, if any. */
    method Answer(last: Option<nat>, answer: Value) returns (r: Result<Reply>)
      requires last == LastTrial(Snapshot())
      modifies this
      ensures (Snapshot(), r) == AnswerSpec(old(Snapshot()), answer)
    {
      if answer == Str("") {
        if last.Some? {
          assert trials[last.value := trials[last.value]] == trials;
        }
        return Err(ValueError);
      }
      if last.None? {
        return Err(AttributeError);
      }
      var k := last.value;
      var t := trials[k].(answer := Stored(answer));
      trials := trials[k := t];
      var n := PyInt(answer);
      if n.Err? {
        return Err(n.error);
      }
      t := t.(isCorrect := Some(n.value == t.solution));
      t := t.(retries := t.retries + 1);
      trials := trials[k := t];
      assert trials == old(trials)[k := t];
      return Ok(Feedback(t.isCorrect));
    }

    /** `before_next_page` */
    method Finish()
      modifies this
      ensures Snapshot() == FinishSpec(old(Snapshot()))
    {
      var total := |trials|;
      var unanswered := total - CountAnswered(trials);
      var answered := total - unanswered;
      var correct: int := CountCorrect(trials, true);
      var incorrect: int := CountCorrect(trials, false);
      player := Player(total, answered, correct, incorrect, correct - incorrect);
    }
  }

  // ---- properties ----------------------------------------------------------

  /** `next` is refused, changing nothing, within the trial delay (a
      RuntimeError) and over an unsolved puzzle under `force_solve` (a
      ValueError); otherwise a puzzle numbered one past the newest is
      appended. There is no skipping guard and no iteration cap. */
  lemma NextGuards(cfg: Config, st: State, now: real, d: Draws)
    ensures var (st1, r) := NextSpec(cfg, st, now, d);
      (st.trials == [] ==> r.Ok?) &&
      (st.trials != [] ==>
        var t := st.trials[|st.trials| - 1];
        var early := now - t.timestamp < cfg.trialDelay;
        var unsolved := cfg.forceSolve && t.isCorrect != Some(true);
        (early ==> (st1, r) == (st, Err(RuntimeError))) &&
        (!early && unsolved ==> (st1, r) == (st, Err(ValueError))) &&
        (r.Ok? <==> !early && !unsolved)) &&
      (r.Ok? ==>
        |st1.trials| == |st.trials| + 1 && st1.trials[..|st.trials|] == st.trials && st1.player == st.player &&
        st1.trials[|st.trials|].iteration == (if st.trials == [] then 1 else st.trials[|st.trials| - 1].iteration + 1) &&
        st1.trials[|st.trials|].timestamp == now && r.value == Image(st1.trials[|st.trials|].puzzle))
  {
    var st1 := NextSpec(cfg, st, now, d).0;
    if |st1.trials| == |st.trials| + 1 {
      assert st1.trials[..|st.trials|] == st.trials;
    }
  }

  /** There is no retry guard: every answer that converts is judged anew and
      adds a try, whether or not the puzzle was answered before. */
  lemma AnswerAlwaysRetries(st: State, answer: Value)
    requires st.trials != [] && answer != Str("") && PyInt(answer).Ok?
    ensures var (st1, r) := AnswerSpec(st, answer);
      var k := |st.trials| - 1;
      var t := st.trials[k];
      r == Ok(Feedback(Some(PyInt(answer).value == t.solution))) &&
      st1 == st.(trials := st.trials[k := t.(answer := Some(answer), isCorrect := Some(PyInt(answer).value == t.solution),
                                             retries := t.retries + 1)])
  {
  }

  /** A refused answer adds no try; the empty one stores nothing. */
  lemma AnswerRefused(st: State, answer: Value)
    ensures var (st1, r) := AnswerSpec(st, answer);
      (st.trials == [] ==> st1 == st && r.Err?) &&
      (answer == Str("") ==> (st1, r) == (st, Err(ValueError))) &&
      (r.Err? ==> |st1.trials| == |st.trials| && forall i :: 0 <= i < |st.trials| ==> st1.trials[i].retries == st.trials[i].retries)
  {
    if st.trials != [] && answer == Str("") {
      var k := |st.trials| - 1;
      assert st.trials[k := st.trials[k]] == st.trials;
    }
  }

  /** Trials are numbered `1, 2, ...`; a trial has a verdict exactly when
      it has a try.  A verdict need not come with an answer: a later `null`
      clears the answer and keeps the verdict. */
  predicate Wf(st: State) {
    forall i :: 0 <= i < |st.trials| ==>
      st.trials[i].iteration == i + 1 && st.trials[i].retries >= 0 &&
      (st.trials[i].isCorrect.Some? <==> st.trials[i].retries > 0)
  }

  lemma PlayKeepsWf(cfg: Config, st: State, data: Dict, now: real, d: Draws)
    requires Wf(st)
    ensures Wf(PlaySpec(cfg, st, data, now, d).0)
  {
    var st1 := PlaySpec(cfg, st, data, now, d).0;
    if |st1.trials| == |st.trials| + 1 {
      assert forall i :: 0 <= i < |st.trials| ==> st1.trials[i] == st.trials[i];
    } else if st1 != st {
      assert forall i :: 0 <= i < |st.trials| - 1 ==> st1.trials[i] == st.trials[i];
    }
  }

  /** The trials with at least one try. */
  function CountTried(s: seq<Trial>): nat {
    if s == [] then 0 else CountTried(s[..|s| - 1]) + (if s[|s| - 1].retries > 0 then 1 else 0)
  }

  /** When verdicts sit exactly on the tried trials, the correct and the
      incorrect together are the tried ones; no count exceeds the trials. */
  lemma {:induction false} VerdictsTried(s: seq<Trial>)
    requires forall i :: 0 <= i < |s| ==> (s[i].isCorrect.Some? <==> s[i].retries > 0)
    ensures CountCorrect(s, true) + CountCorrect(s, false) == CountTried(s) <= |s|
    ensures CountAnswered(s) <= |s|
  {
    if s != [] {
      var n := |s| - 1;
      assert forall i :: 0 <= i < n ==> s[..n][i] == s[i];
      assert s[n].isCorrect.Some? <==> s[n].retries > 0;
      VerdictsTried(s[..n]);
      if s[n].isCorrect.Some? {
        if s[n].isCorrect.value {
          assert s[n].isCorrect == Some(true);
        } else {
          assert s[n].isCorrect == Some(false);
        }
      }
    }
  }

  /** `answered` is the number of trials with an answer and the payoff is
      the correct answers less the incorrect ones, so it lies between minus
      and plus the number of tried trials, at most the total.  It is not
      bounded by `answered`: see `NulledAnswerKeepsVerdict`. */
  lemma FinishPayoff(st: State)
    requires Wf(st)
    ensures var p := FinishSpec(st).player;
      p.total == |st.trials| && p.answered == CountAnswered(st.trials) <= p.total &&
      p.payoff == p.correct - p.incorrect && p.correct + p.incorrect == CountTried(st.trials) &&
      -(CountTried(st.trials) as int) <= p.payoff <= CountTried(st.trials) <= p.total &&
      FinishSpec(st).trials == st.trials
  {
    VerdictsTried(st.trials);
  }

  /** Answering `42` to a puzzle whose solution is 42 and then `null` leaves
      the trial unanswered but correct: the page then counts no answer, one
      correct trial and a payoff of 1. */
  lemma NulledAnswerKeepsVerdict(t: Trial)
    requires t.solution == 42 && t.iteration == 1 && t.retries == 0 && t.isCorrect.None?
    ensures var st0 := State(Player(0, 0, 0, 0, 0), [t]);
      var st1 := AnswerSpec(st0, Num(42)).0;
      var (st2, r) := AnswerSpec(st1, Null);
      Wf(st0) && Wf(st2) && r == Err(TypeError) &&
      st2.trials[0].answer.None? && st2.trials[0].isCorrect == Some(true) &&
      var p := FinishSpec(st2).player;
      p.total == 1 && p.answered == 0 && p.correct == 1 && p.incorrect == 0 && p.payoff == 1
  {
    var st0 := State(Player(0, 0, 0, 0, 0), [t]);
    var t1 := t.(answer := Some(Num(42)), isCorrect := Some(true), retries := 1);
    assert CheckAnswer(t, Num(42)) == (t1.(retries := 0), Pass);
    assert [t][0 := t1] == [t1];
    assert AnswerSpec(st0, Num(42)) == (st0.(trials := [t1]), Ok(Feedback(Some(true))));
    var t2 := t1.(answer := None);
    var st2 := st0.(trials := [t2]);
    assert CheckAnswer(t1, Null) == (t2, Fail(TypeError));
    assert [t1][0 := t2] == [t2];
    assert AnswerSpec(st0.(trials := [t1]), Null) == (st2, Err(TypeError));
    assert st2.trials[..0] == [];
    assert CountAnswered(st2.trials) == 0;
    assert CountCorrect(st2.trials, true) == 1;
    assert CountCorrect(st2.trials, false) == 0;
  }
}
