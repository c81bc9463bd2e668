/** The counting-matrix CAPTCHA app, `matrices/__init__.py`: the participant
    counts the zeros in a square matrix of `0` and `1`; the live method
    `play_captcha` records the answer to the newest unanswered puzzle and
    always serves a new one. */
module Matrices {
  import opened Wrappers
  import opened Json
  import opened Text

  /** `Constants.characters` and `Constants.counted_char`. */
  const CHARACTERS: string := "01"
  const COUNTED: char := '0'
  const DEFAULT_SIZE: int := 5

  /** `matrix_size` (with its default applied) and whether `testing` is set
      (truthy). */
  datatype Config = Config(size: int, testing: bool)

  datatype Player = Player(totalPuzzles: int, totalSolved: int)

  /** A `PuzzleRecord`; the answer is stored as converted, `""` for a skip. */
  datatype Record = Record(timestamp: real, iteration: int, difficulty: int, puzzle: string, solution: int,
                           answer: Option<Value>, isCorrect: Option<bool>, isSkipped: Option<bool>)

  datatype State = State(player: Player, records: seq<Record>)

  /** The reply: the image of the new puzzle, identified by its size and
      content. */
  datatype Reply = Image(size: int, puzzle: string)

  // ---- puzzles -------------------------------------------------------------

  /** The random matrix: `pick(i)` is the draw of `random.choice` for cell
      `i`. */
  function Content(length: int, pick: nat -> nat): (r: string)
    ensures |r| == (if length < 0 then 0 else length)
    ensures forall i :: 0 <= i < |r| ==> r[i] in CHARACTERS
  {
    var n: nat := if length < 0 then 0 else length;
    seq(n, i requires 0 <= i < n => CHARACTERS[pick(i) % |CHARACTERS|])
  }

  /** `generate_puzzle`: the size, the puzzle and its solution. In testing
      mode the puzzle is `totalPuzzles` zeros then `size * size - 1`
      fillers, so its solution is known in advance. */
  function GeneratePuzzle(cfg: Config, totalPuzzles: int, pick: nat -> nat): (int, string, int) {
    var length := cfg.size * cfg.size;
    if cfg.testing then (cfg.size, Repeat(COUNTED, totalPuzzles) + Repeat('x', length - 1), totalPuzzles)
    else
      var content := Content(length, pick);
      (cfg.size, content, Count(content, COUNTED))
  }

  /** A random puzzle has `size * size` cells of `0` and `1` and its
      solution is the number of zeros; a testing puzzle is
      `totalPuzzles + size * size - 1` long and its solution, too, is its
      number of zeros. */
  lemma PuzzleShape(cfg: Config, totalPuzzles: int, pick: nat -> nat)
    requires cfg.testing ==> totalPuzzles >= 0 && cfg.size != 0
    ensures var (size, puzzle, solution) := GeneratePuzzle(cfg, totalPuzzles, pick);
      size == cfg.size && solution == Count(puzzle, COUNTED) &&
      (!cfg.testing ==> |puzzle| == cfg.size * cfg.size && (forall i :: 0 <= i < |puzzle| ==> puzzle[i] in CHARACTERS) &&
                        0 <= solution <= cfg.size * cfg.size) &&
      (cfg.testing ==> |puzzle| == totalPuzzles + cfg.size * cfg.size - 1)
  {
    var length := cfg.size * cfg.size;
    assert length >= 0;
    if cfg.testing {
      assert length >= 1;
      var a := Repeat(COUNTED, totalPuzzles);
      var b := Repeat('x', length - 1);
      MultisetOfRepeat(COUNTED, totalPuzzles);
      assert COUNTED !in multiset(b);
      assert multiset(a + b) == multiset(a) + multiset(b);
    } else {
      var content := Content(length, pick);
      assert multiset(content)[COUNTED] <= |multiset(content)|;
    }
  }

  // ---- the handler ---------------------------------------------------------

  /** `PuzzleRecord.filter(player=player, answer=None)[-1]`: the newest
      record without an answer, or Python's IndexError. */
  function LastUnanswered(s: seq<Record>): (r: Result<nat>)
    ensures r.Ok? ==> r.value < |s|
  {
    if s == [] then Err(IndexError)
    else if s[|s| - 1].answer.None? then Ok(|s| - 1)
    else LastUnanswered(s[..|s| - 1])
  }

  /** It is the last record without an answer, and an IndexError exactly
      when every record has one. */
  lemma {:induction false} LastUnansweredIsLast(s: seq<Record>)
    ensures var r := LastUnanswered(s);
      (r.Err? <==> forall i :: 0 <= i < |s| ==> s[i].answer.Some?) &&
      (r.Err? ==> r.error == IndexError) &&
      (r.Ok? ==> s[r.value].answer.None? && forall i :: r.value < i < |s| ==> s[i].answer.Some?)
  {
    if s != [] {
      var n := |s| - 1;
      LastUnansweredIsLast(s[..n]);
      assert forall i :: 0 <= i < n ==> s[..n][i] == s[i];
    }
  }

  /** The answer handling of `play_captcha`: the answer as stored, whether
      it counts as solved, and the next iteration; the conversion runs
      before the lookup. */
  function Answered(st: State, answer: Value): Result<(State, int)> {
    var skipped := answer == Str("");
    var converted := if skipped then Ok(answer) else (match PyInt(answer) case Ok(n) => Ok(Num(n)) case Err(e) => Err(e));
    match converted
    case Err(e) => Err(e)
    case Ok(a) =>
      match LastUnanswered(st.records)
      case Err(e) => Err(e)
      case Ok(k) =>
        var task := st.records[k];
        var correct := !skipped && a == Num(task.solution);
        var task1 := task.(answer := Some(a), isCorrect := Some(correct), isSkipped := Some(skipped));
        var player := if correct then st.player.(totalSolved := st.player.totalSolved + 1) else st.player;
        Ok((State(player, st.records[k := task1]), task.iteration + 1))
  }

  /** `play_captcha(player, data)` at time `now`, with the draws of the new
      puzzle. */
  function PlaySpec(cfg: Config, st: State, data: Dict, now: real, pick: nat -> nat): (State, Result<Reply>) {
    var step: Result<(State, int)> := if "start" in data then Ok((st, 0))
                else if "answer" in data then Answered(st, data["answer"])
                else Err(ValueError);
    match step
    case Err(e) => (st, Err(e))
    case Ok((st1, iteration)) =>
      var player := st1.player.(totalPuzzles := st1.player.totalPuzzles + 1);
      var (size, puzzle, solution) := GeneratePuzzle(cfg, player.totalPuzzles, pick);
      var record := Record(now, iteration, size, puzzle, solution, None, None, None);
      (State(player, st1.records + [record]), Ok(Image(size, puzzle)))
  }

  class Game {
    var player: Player
    var records: seq<Record>
    const cfg: Config

    function Snapshot(): State reads this {
      State(player, records)
    }

    constructor(cfg: Config)
      ensures Snapshot() == State(Player(0, 0), []) && this.cfg == cfg
    {
      this.cfg := cfg;
      player := Player(0, 0);
      records := [];
    }

    /** `play_captcha` at time `now`. */
    method PlayCaptcha(data: Dict, now: real, pick: nat -> nat) returns (r: Result<Reply>)
      modifies this
      ensures (Snapshot(), r) == PlaySpec(cfg, old(Snapshot()), data, now, pick)
    {
      var iteration;
      if "start" in data {
        iteration := 0;
      } else if "answer" in data {
        var answer := data["answer"];
        var skipped := answer == Str("");
        if !skipped {
          var n := PyInt(answer);
          if n.Err? {
            return Err(n.error);
          }
          answer := Num(n.value);
        }
        var found := LastUnanswered(records);
        if found.Err? {
          return Err(found.error);
        }
        var task := records[found.value];
        var correct := !skipped && answer == Num(task.solution);
        task := task.(answer := Some(answer));
        task := task.(isCorrect := Some(correct));
        task := task.(isSkipped := Some(skipped));
        records := records[found.value := task];
        if correct {
          player := player.(totalSolved := player.totalSolved + 1);
        }
        iteration := task.iteration + 1;
      } else {
        return Err(ValueError);
      }
      player := player.(totalPuzzles := player.totalPuzzles + 1);
      var (size, puzzle, solution) := GeneratePuzzle(cfg, player.totalPuzzles, pick);
      records := records + [Record(now, iteration, size, puzzle, solution, None, None, None)];
      return Ok(Image(size, puzzle));
    }
  }

  // ---- properties ----------------------------------------------------------

  /** `start` serves a puzzle at iteration 0 and any message but `start` and
      `answer` is a ValueError that changes nothing. */
  lemma StartAndUnknown(cfg: Config, st: State, data: Dict, now: real, pick: nat -> nat)
    ensures var (st1, r) := PlaySpec(cfg, st, data, now, pick);
      ("start" in data ==> r.Ok? && st1.records[..|st.records|] == st.records && |st1.records| == |st.records| + 1 &&
                           st1.records[|st.records|].iteration == 0 && st1.player.totalSolved == st.player.totalSolved) &&
      ("start" !in data && "answer" !in data ==> (st1, r) == (st, Err(ValueError)))
  {
    if "start" in data {
      var st1 := PlaySpec(cfg, st, data, now, pick).0;
      assert st1.records[..|st.records|] == st.records;
    }
  }

  /** An answer goes to the newest unanswered puzzle. A skip (`""`) stores
      `""`, so the puzzle leaves the unanswered ones, marked skipped and
      incorrect; any other answer is converted by `int()` (its errors
      propagate, changing nothing) and is correct exactly when it equals the
      solution. `total_solved` rises exactly on a correct answer, and the
      next puzzle is numbered one past the answered one. */
  lemma AnswerMeans(st: State, answer: Value)
    requires LastUnanswered(st.records).Ok?
    ensures var k := LastUnanswered(st.records).value;
      var task := st.records[k];
      var (skipped, conv) := (answer == Str(""), PyInt(answer));
      (!skipped && conv.Err? ==> Answered(st, answer) == Err(conv.error)) &&
      (skipped || conv.Ok? ==>
        var (st1, iteration) := Answered(st, answer).value;
        var correct := !skipped && conv.value == task.solution;
        iteration == task.iteration + 1 && |st1.records| == |st.records| &&
        st1.records == st.records[k := task.(answer := Some(if skipped then answer else Num(conv.value)),
                                             isCorrect := Some(correct), isSkipped := Some(skipped))] &&
        st1.records[k].answer.Some? &&
        st1.player.totalSolved == st.player.totalSolved + (if correct then 1 else 0) &&
        st1.player.totalPuzzles == st.player.totalPuzzles)
  {
  }

  /** An answer with no unanswered puzzle is an IndexError and changes
      nothing (unless its conversion fails first). */
  lemma AnswerWithoutPuzzle(cfg: Config, st: State, answer: Value, now: real, pick: nat -> nat)
    requires forall i :: 0 <= i < |st.records| ==> st.records[i].answer.Some?
    requires answer == Str("") || PyInt(answer).Ok?
    ensures PlaySpec(cfg, st, map["answer" := answer], now, pick) == (st, Err(IndexError))
  {
    LastUnansweredIsLast(st.records);
  }

  function CountSolved(s: seq<Record>): nat {
    if s == [] then 0 else CountSolved(s[..|s| - 1]) + (if s[|s| - 1].isCorrect == Some(true) then 1 else 0)
  }

  function CountUnanswered(s: seq<Record>): nat {
    if s == [] then 0 else CountUnanswered(s[..|s| - 1]) + (if s[|s| - 1].answer.None? then 1 else 0)
  }

  /** Replacing one record changes each count by that record's change. */
  lemma {:induction false} CountsUpdate(s: seq<Record>, k: nat, r: Record)
    requires k < |s|
    ensures CountSolved(s[k := r]) == CountSolved(s) - (if s[k].isCorrect == Some(true) then 1 else 0) + (if r.isCorrect == Some(true) then 1 else 0)
    ensures CountUnanswered(s[k := r]) == CountUnanswered(s) - (if s[k].answer.None? then 1 else 0) + (if r.answer.None? then 1 else 0)
  {
    var n := |s| - 1;
    if k < n {
      CountsUpdate(s[..n], k, r);
      assert s[k := r][..n] == s[..n][k := r];
    } else {
      assert s[k := r][..n] == s[..n];
    }
  }

  /** The counters match the records: `total_puzzles` is the number of
      puzzles served and `total_solved` the number answered correctly, and
      an answered puzzle has a verdict. */
  predicate Tallied(st: State) {
    st.player.totalPuzzles == |st.records| && st.player.totalSolved == CountSolved(st.records) &&
    forall i :: 0 <= i < |st.records| ==> (st.records[i].answer.None? <==> st.records[i].isCorrect.None?)
  }

  /** Every message keeps the counters matching the records; an accepted
      one adds exactly one puzzle, and an answer leaves the number of
      unanswered puzzles as it was while `start` adds one. */
  lemma PlayKeepsTally(cfg: Config, st: State, data: Dict, now: real, pick: nat -> nat)
    requires Tallied(st)
    ensures var (st1, r) := PlaySpec(cfg, st, data, now, pick);
      Tallied(st1) && (r.Ok? ==> |st1.records| == |st.records| + 1) &&
      (r.Ok? && "start" !in data ==> CountUnanswered(st1.records) == CountUnanswered(st.records)) &&
      (r.Ok? && "start" in data ==> CountUnanswered(st1.records) == CountUnanswered(st.records) + 1)
  {
    var (st1, r) := PlaySpec(cfg, st, data, now, pick);
    if r.Ok? {
      var mid := if "start" in data then st else Answered(st, data["answer"]).value.0;
      if "start" !in data {
        LastUnansweredIsLast(st.records);
        var k := LastUnanswered(st.records).value;
        CountsUpdate(st.records, k, mid.records[k]);
        assert forall i :: 0 <= i < |st.records| && i != k ==> mid.records[i] == st.records[i];
      }
      var n := |mid.records|;
      assert st1.records[..n] == mid.records;
      assert forall i :: 0 <= i < n ==> st1.records[i] == mid.records[i];
    }
  }
}
