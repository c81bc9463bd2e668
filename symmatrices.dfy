/** The symbol-matrix app, `symmatrices/__init__.py`: the participant counts
    the ♠ in a square matrix of card-suit symbols; the payoff is the number
    of correct counts. */
module Symmatrices {
  import opened Wrappers
  import opened Json
  import opened Text

  /** `Constants.characters` and `Constants.counted_char`. */
  const CHARACTERS: string := "♠♡♢♣♤♥♦♧"
  const COUNTED: char := '♠'
  const DEFAULT_SIZE: int := 5

  /** The session configuration read, with its defaults applied: the
      trial delay, `force_solve`, `matrix_size` and whether `testing` is
      set (truthy). */
  datatype Config = Config(trialDelay: real, forceSolve: bool, size: int, testing: bool)

  datatype Player = Player(total: int, answered: int, correct: int, incorrect: int, payoff: int)

  /** A `Trial` record; the answer is stored as converted, or raw when it
      does not convert. */
  datatype Trial = Trial(timestamp: real, iteration: int, size: int, content: string, solution: int,
                         answer: Option<Value>, isCorrect: Option<bool>, retries: int)

  datatype State = State(player: Player, trials: seq<Trial>)

  /** The replies; an image is identified by its size and content. */
  datatype Reply = Image(size: int, content: string) | Feedback(feedback: bool)

  // ---- puzzles -------------------------------------------------------------

  /** The random matrix: `pick(i)` is the draw of `random.choice` for cell
      `i`. */
  function Content(length: int, pick: nat -> nat): (r: string)
    ensures |r| == (if length < 0 then 0 else length)
    ensures forall i :: 0 <= i < |r| ==> r[i] in CHARACTERS
  {
    var n: nat := if length < 0 then 0 else length;
    seq(n, i requires 0 <= i < n => CHARACTERS[pick(i) % |CHARACTERS|])
  }

  /** `generate_puzzle` outside testing: the size, the content and the
      count of ♠. */
  function GeneratePuzzle(size: int, pick: nat -> nat): (int, string, int) {
    var content := Content(size * size, pick);
    (size, content, Count(content, COUNTED))
  }

  /** A puzzle has `size * size` symbols from the eight suits and its
      solution is the number of ♠ among them, so at most that many. */
  lemma PuzzleShape(size: int, pick: nat -> nat)
    ensures var (sz, content, count) := GeneratePuzzle(size, pick);
      sz == size && |content| == size * size && (forall i :: 0 <= i < |content| ==> content[i] in CHARACTERS) &&
      count == multiset(content)[COUNTED] && 0 <= count <= size * size
  {
    var content := Content(size * size, pick);
    assert size * size >= 0;
    assert multiset(content)[COUNTED] <= |multiset(content)|;
  }

  /** The testing branch's puzzle: `count` ♠ then `length - 1` fillers. */
  function TestingContent(length: int, count: int): string {
    Repeat(COUNTED, count) + Repeat('x', length - 1)
  }

  /** Its length is `count + length - 1` (each part at least empty), and it
      holds exactly `count` ♠. */
  lemma TestingShape(length: int, count: int)
    requires count >= 0 && length >= 1
    ensures |TestingContent(length, count)| == count + length - 1
    ensures Count(TestingContent(length, count), COUNTED) == count
  {
    var a := Repeat(COUNTED, count);
    var b := Repeat('x', length - 1);
    assert multiset(a) == multiset{}[COUNTED := count] by {
      MultisetOfRepeat(COUNTED, count);
    }
    assert COUNTED !in multiset(b);
    assert multiset(a + b) == multiset(a) + multiset(b);
  }

  // ---- the handlers --------------------------------------------------------

  function LastTrial(st: State): Option<nat> {
    if st.trials == [] then None else Some(|st.trials| - 1)
  }

  /** The `next` message: the delay guard, the force-solve guard, then a new
      puzzle numbered after the last. The testing branch reads
      `player.total_puzzles`, which this player does not have, so it fails
      with an AttributeError before any record is made. */
  function NextSpec(cfg: Config, st: State, now: real, pick: nat -> nat): (State, Result<Reply>) {
    var last := LastTrial(st);
    var iteration := if last.Some? then st.trials[last.value].iteration else 0;
    if last.Some? && now - st.trials[last.value].timestamp < cfg.trialDelay then (st, Err(RuntimeError))
    else if last.Some? && cfg.forceSolve && st.trials[last.value].isCorrect != Some(true) then (st, Err(ValueError))
    else if cfg.testing then (st, Err(AttributeError))
    else
      var (size, content, count) := GeneratePuzzle(cfg.size, pick);
      var t := Trial(now, iteration + 1, size, content, count, None, None, 0);
      (st.(trials := st.trials + [t]), Ok(Image(size, content)))
  }

  /** The answer as stored: converted by `int()` when it converts; a
      ValueError from `int()` is constructed but not raised, so the raw
      value stays. */
  function Converted(answer: Value): Result<Value> {
    match PyInt(answer)
    case Ok(n) => Ok(Num(n))
    case Err(ValueError) => Ok(answer)
    case Err(e) => Err(e)
  }

  /** The `answer` message: the conversion, then the record at the end
      (an AttributeError when there is none), judged and with one more
      try. */
  function AnswerSpec(st: State, answer: Value): (State, Result<Reply>) {
    match Converted(answer)
    case Err(e) => (st, Err(e))
    case Ok(a) =>
      match LastTrial(st)
      case None => (st, Err(AttributeError))
      case Some(k) =>
        var t := st.trials[k];
        var correct := a == Num(t.solution);
        var t1 := t.(answer := Some(a), isCorrect := Some(correct), retries := t.retries + 1);
        (st.(trials := st.trials[k := t1]), Ok(Feedback(correct)))
  }

  /** `play_game(player, data)` at time `now`. */
  function PlaySpec(cfg: Config, st: State, data: Dict, now: real, pick: nat -> nat): (State, Result<Reply>) {
    if "next" in data then NextSpec(cfg, st, now, pick)
    else if "answer" in data then AnswerSpec(st, data["answer"])
    else (st, Err(ValueError))
  }

  function CountAnswered(s: seq<Trial>): nat {
    if s == [] then 0 else CountAnswered(s[..|s| - 1]) + (if s[|s| - 1].answer.Some? then 1 else 0)
  }

  function CountCorrect(s: seq<Trial>, value: bool): nat {
    if s == [] then 0 else CountCorrect(s[..|s| - 1], value) + (if s[|s| - 1].isCorrect == Some(value) then 1 else 0)
  }

  /** `summarize_trials` then the payoff, in `before_next_page`. */
  function FinishSpec(st: State): State {
    var total := |st.trials|;
    var unanswered := total - CountAnswered(st.trials);
    var correct := CountCorrect(st.trials, true);
    st.(player := Player(total, total - unanswered, correct, CountCorrect(st.trials, false), correct))
  }

  class Game {
    var player: Player
    var trials: seq<Trial>
    const cfg: Config

    function Snapshot(): State reads this {
      State(player, trials)
    }

    constructor(cfg: Config)
      ensures Snapshot() == State(Player(0, 0, 0, 0, 0), []) && this.cfg == cfg
    {
      this.cfg := cfg;
      player := Player(0, 0, 0, 0, 0);
      trials := [];
    }

    /** `play_game` at time `now`. */
    method PlayGame(data: Dict, now: real, pick: nat -> nat) returns (r: Result<Reply>)
      modifies this
      ensures (Snapshot(), r) == PlaySpec(cfg, old(Snapshot()), data, now, pick)
    {
      var last := if |trials| > 0 then Some(|trials| - 1) else None;
      var iteration := if last.Some? then trials[last.value].iteration else 0;
      if "next" in data {
        if last.Some? && now - trials[last.value].timestamp < cfg.trialDelay {
          return Err(RuntimeError);
        }
        if last.Some? && cfg.forceSolve && trials[last.value].isCorrect != Some(true) {
          return Err(ValueError);
        }
        if cfg.testing {
          return Err(AttributeError);
        }
        var (size, content, count) := GeneratePuzzle(cfg.size, pick);
        trials := trials + [Trial(now, iteration + 1, size, content, count, None, None, 0)];
        return Ok(Image(size, content));
      }
      if "answer" in data {
        var answer := data["answer"];
        var n := PyInt(answer);
        if n.Ok? {
          answer := Num(n.value);
        } else if n.error != ValueError {
          return Err(n.error);
        }
        if last.None? {
          return Err(AttributeError);
        }
        var t := trials[last.value];
        t := t.(answer := Some(answer));
        t := t.(isCorrect := Some(answer == Num(t.solution)));
        t := t.(retries := t.retries + 1);
        trials := trials[last.value := t];
        return Ok(Feedback(t.isCorrect.value));
      }
      return Err(ValueError);
    }

    /** `before_next_page` */
    method Finish()
      modifies this
      ensures Snapshot() == FinishSpec(old(Snapshot()))
    {
      var total := |trials|;
      var unanswered := total - CountAnswered(trials);
      player := Player(total, total - unanswered, CountCorrect(trials, true), CountCorrect(trials, false), 0);
      player := player.(payoff := player.correct);
    }
  }

  // ---- properties ----------------------------------------------------------

  /** `next` is refused, changing nothing, within the trial delay (a
      RuntimeError) and over an unsolved puzzle under `force_solve` (a
      ValueError); in testing mode it always fails; otherwise a puzzle
      numbered one past the newest, with its ♠ count as solution, is
      appended. */
  lemma NextGuards(cfg: Config, st: State, now: real, pick: nat -> nat)
    ensures var (st1, r) := NextSpec(cfg, st, now, pick);
      (st.trials != [] ==>
        var t := st.trials[|st.trials| - 1];
        var early := now - t.timestamp < cfg.trialDelay;
        var unsolved := cfg.forceSolve && t.isCorrect != Some(true);
        (early ==> (st1, r) == (st, Err(RuntimeError))) &&
        (!early && unsolved ==> (st1, r) == (st, Err(ValueError)))) &&
      (cfg.testing ==> st1 == st && r.Err?) &&
      (r.Ok? ==>
        !cfg.testing && |st1.trials| == |st.trials| + 1 && st1.trials[..|st.trials|] == st.trials &&
        st1.trials[|st.trials|].iteration == (if st.trials == [] then 1 else st.trials[|st.trials| - 1].iteration + 1) &&
        st1.trials[|st.trials|].solution == Count(st1.trials[|st.trials|].content, COUNTED) &&
        |st1.trials[|st.trials|].content| == cfg.size * cfg.size &&
        st1.trials[|st.trials|].answer.None?)
  {
    var st1 := NextSpec(cfg, st, now, pick).0;
    if |st1.trials| == |st.trials| + 1 {
      assert st1.trials[..|st.trials|] == st.trials;
      PuzzleShape(cfg.size, pick);
    }
  }

  /** An answer that `int()` refuses with a ValueError is still accepted: it
      is stored raw and judged incorrect, and the try counts. */
  lemma BogusAnswerAccepted(st: State, answer: Value)
    requires st.trials != [] && answer.Str? && ParseInt(answer.s).None?
    ensures var (st1, r) := AnswerSpec(st, answer);
      var k := |st.trials| - 1;
      r == Ok(Feedback(false)) &&
      st1.trials == st.trials[k := st.trials[k].(answer := Some(answer), isCorrect := Some(false), retries := st.trials[k].retries + 1)]
  {
  }

  /** Every accepted answer, first or repeated, adds a try and is correct
      exactly when it converts to the solution; `None`, lists and dicts are
      a TypeError. */
  lemma AnswerCounts(st: State, answer: Value)
    ensures var (st1, r) := AnswerSpec(st, answer);
      (answer.Null? || answer.Arr? || answer.Obj? ==> (st1, r) == (st, Err(TypeError))) &&
      (st.trials == [] ==> st1 == st && r.Err?) &&
      (r.Ok? ==>
        var k := |st.trials| - 1;
        st.trials != [] && |st1.trials| == |st.trials| && st1.trials[..k] == st.trials[..k] &&
        st1.trials[k].retries == st.trials[k].retries + 1 && st1.trials[k].answer.Some? &&
        (r.value.feedback <==> PyInt(answer) == Ok(st.trials[k].solution)) &&
        st1.trials[k].isCorrect == Some(r.value.feedback))
  {
  }

  /** Trials are numbered `1, 2, ...`; a trial with a try or a verdict has an
      answer. */
  predicate Wf(st: State) {
    forall i :: 0 <= i < |st.trials| ==>
      st.trials[i].iteration == i + 1 && st.trials[i].retries >= 0 &&
      (st.trials[i].retries > 0 ==> st.trials[i].answer.Some?) &&
      (st.trials[i].isCorrect.Some? ==> st.trials[i].answer.Some?)
  }

  lemma PlayKeepsWf(cfg: Config, st: State, data: Dict, now: real, pick: nat -> nat)
    requires Wf(st)
    ensures Wf(PlaySpec(cfg, st, data, now, pick).0)
  {
    var st1 := PlaySpec(cfg, st, data, now, pick).0;
    if |st1.trials| == |st.trials| + 1 {
      assert forall i :: 0 <= i < |st.trials| ==> st1.trials[i] == st.trials[i];
    } else if st1 != st {
      assert forall i :: 0 <= i < |st.trials| - 1 ==> st1.trials[i] == st.trials[i];
    }
  }

  lemma {:induction false} VerdictsAnswered(s: seq<Trial>)
    requires forall i :: 0 <= i < |s| ==> (s[i].isCorrect.Some? ==> s[i].answer.Some?)
    ensures CountCorrect(s, true) + CountCorrect(s, false) <= CountAnswered(s) <= |s|
  {
    if s != [] {
      var n := |s| - 1;
      assert forall i :: 0 <= i < n ==> s[..n][i] == s[i];
      VerdictsAnswered(s[..n]);
    }
  }

  /** `answered` is the number of trials with an answer and the payoff is
      the number of correct ones, at most the number answered. */
  lemma FinishPayoff(st: State)
    requires Wf(st)
    ensures var p := FinishSpec(st).player;
      p.total == |st.trials| && p.answered == CountAnswered(st.trials) &&
      p.payoff == p.correct && 0 <= p.payoff && p.correct + p.incorrect <= p.answered &&
      FinishSpec(st).trials == st.trials
  {
    VerdictsAnswered(st.trials);
  }
}
