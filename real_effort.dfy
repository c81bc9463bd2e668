/** The real-effort app's live method `play_game`: puzzles one after the
    other, answers with a limited number of paced retries, and the player's
    counters.  The puzzle image is left out: a reply names the puzzle record
    it would render. */
module RealEffort {
  import opened Wrappers
  import opened Json
  import opened Text
  import Records
  import TaskDecoding
  import TaskMatrix
  import TaskTranscription

  datatype Task = Matrix | Transcription | Decoding

  /** `get_task_module`: the session config's `"task"`, matrix by default. */
  function GetTaskModule(task: Option<Value>): (r: Task)
    ensures r == Transcription <==> task == Some(Str("transcription"))
    ensures r == Decoding <==> task == Some(Str("decoding"))
    ensures r == Matrix <==> task != Some(Str("transcription")) && task != Some(Str("decoding"))
  {
    if task == Some(Str("matrix")) then Matrix
    else if task == Some(Str("transcription")) then Transcription
    else if task == Some(Str("decoding")) then Decoding
    else Matrix
  }

  /** `session.ret_params` and `settings.DEBUG`; times are seconds. */
  datatype Config = Config(task: Option<Value>, retryDelay: real, puzzleDelay: real, attemptsPerPuzzle: int, debug: bool)

  /** The default parameters `creating_session` fills in. */
  function DefaultConfig(task: Option<Value>, debug: bool): Config {
    Config(task, 1.0, 1.0, 1, debug)
  }

  datatype Puzzle = Puzzle(iteration: int, attempts: int, timestamp: real, text: Value, solution: string,
                           response: Option<Value>, responseTimestamp: Option<real>, isCorrect: Option<bool>)

  datatype Player = Player(iteration: int, numTrials: int, numCorrect: int, numFailed: int)

  /** The player and the player's puzzle records in creation order. */
  datatype State = State(player: Player, puzzles: seq<Puzzle>)

  datatype Progress = Progress(numTrials: int, numCorrect: int, numIncorrect: int, iteration: int)

  function GetProgress(p: Player): Progress {
    Progress(p.numTrials, p.numCorrect, p.numFailed, p.iteration)
  }

  /** The dict sent back to the player; `puzzle` is the index of the record
      whose image is sent. */
  datatype Reply =
    | Cheat(solution: string)
    | Loaded(current: Option<nat>, progress: Progress)
    | NewPuzzle(puzzle: nat, progress: Progress)
    | Feedback(feedback: bool, retriesLeft: int, progress: Progress)

  /** The random draws of the three generators. */
  datatype Draws = Draws(chars: seq<char>, digits: seq<char>, coded: seq<char>, matrix: seq<nat>, transcription: seq<nat>)

  predicate DrawsValid(d: Draws) {
    TaskDecoding.IsSample(d.chars, TaskDecoding.CHARSET, |TaskDecoding.DIGITS|) &&
    TaskDecoding.IsSample(d.digits, TaskDecoding.DIGITS, |TaskDecoding.DIGITS|) &&
    TaskDecoding.IsSample(d.coded, TaskDecoding.DIGITS, TaskDecoding.WORD_LENGTH) &&
    TaskMatrix.ValidPicks(d.matrix) &&
    |d.transcription| == TaskTranscription.LENGTH &&
    forall i :: 0 <= i < |d.transcription| ==> d.transcription[i] < |TaskTranscription.CHARSET|
  }

  /** `task_module.generate_puzzle_fields()`: the text and the solution. */
  function GenerateFields(task: Task, d: Draws): (Value, string)
    requires DrawsValid(d)
  {
    match task
    case Matrix =>
      var text := TaskMatrix.MatrixText(d.matrix);
      (Str(text), NatToString(Count(text, TaskMatrix.COUNTED_CHAR)))
    case Transcription =>
      var f := TaskTranscription.GeneratePuzzleFields(d.transcription);
      (Str(f.0), f.1)
    case Decoding =>
      var f := TaskDecoding.GeneratePuzzleFields(d.chars, d.digits, d.coded);
      (f.text, f.solution)
  }

  /** `task_module.is_correct(answer, puzzle)`. */
  function IsCorrect(task: Task, answer: Value, solution: string): Result<bool> {
    match task
    case Matrix => Ok(TaskMatrix.IsCorrect(answer, solution))
    case _ => TaskTranscription.IsCorrect(answer, solution)
  }

  /** `get_current_puzzle`: the puzzle of the player's iteration, if any; two
      of them fail to unpack. */
  function GetCurrentPuzzle(st: State): (r: Result<Option<nat>>)
    ensures r.Ok? && r.value.Some? ==> r.value.value < |st.puzzles| && st.puzzles[r.value.value].iteration == st.player.iteration
    ensures r == Ok(None) <==> forall i :: 0 <= i < |st.puzzles| ==> st.puzzles[i].iteration != st.player.iteration
  {
    var found := PuzzlesAt(st.puzzles, st.player.iteration);
    assert found != [] ==> found[0] < |st.puzzles|;
    Records.AtMostOne(found)
  }

  /** The indices of the puzzles of an iteration, in order. */
  function PuzzlesAt(s: seq<Puzzle>, it: int): (r: seq<nat>)
    ensures forall k :: 0 <= k < |r| ==> r[k] < |s| && s[r[k]].iteration == it
    ensures forall i :: 0 <= i < |s| && s[i].iteration == it ==> i in r
  {
    if s == [] then []
    else PuzzlesAt(s[..|s| - 1], it) + (if s[|s| - 1].iteration == it then [|s| - 1] else [])
  }

  /** `generate_puzzle`: the iteration moves on and the new record carries it. */
  function GeneratePuzzle(cfg: Config, st: State, now: real, d: Draws): State
    requires DrawsValid(d)
  {
    var fields := GenerateFields(GetTaskModule(cfg.task), d);
    var p := st.player.(iteration := st.player.iteration + 1);
    State(p, st.puzzles + [Puzzle(p.iteration, 0, now, fields.0, fields.1, None, None, None)])
  }

  /** Taking back the counting of a puzzle's previous answer. */
  function Uncount(p: Player, wasCorrect: Option<bool>): Player {
    if wasCorrect == Some(true) then p.(numTrials := p.numTrials - 1, numCorrect := p.numCorrect - 1)
    else p.(numTrials := p.numTrials - 1, numFailed := p.numFailed - 1)
  }

  function Counted(p: Player, correct: bool): Player {
    if correct then p.(numCorrect := p.numCorrect + 1, numTrials := p.numTrials + 1)
    else p.(numFailed := p.numFailed + 1, numTrials := p.numTrials + 1)
  }

  /** The retry guards: out of attempts, or too soon after the last answer.
      A previous answer whose check failed left no response timestamp, and
      adding a delay to `None` is a TypeError. */
  function RetryGuard(cfg: Config, pz: Puzzle, now: real): Outcome {
    if pz.response.None? then Pass
    else if pz.attempts >= cfg.attemptsPerPuzzle then Fail(RuntimeError)
    else match pz.responseTimestamp
      case None => Fail(TypeError)
      case Some(t) => if now < t + cfg.retryDelay then Fail(RuntimeError) else Pass
  }

  /** An answer to the current puzzle `k`, as the handler is written: a
      retry's counting is undone before the answer is looked at, and the
      response is stored before it is checked. */
  function AnswerSpec(cfg: Config, st: State, k: nat, answer: Value, now: real): (State, Result<Reply>)
    requires k < |st.puzzles|
  {
    var pz := st.puzzles[k];
    match RetryGuard(cfg, pz, now)
    case Fail(e) => (st, Err(e))
    case Pass =>
      var p1 := if pz.response.Some? then Uncount(st.player, pz.isCorrect) else st.player;
      if answer == Str("") || answer == Null then (State(p1, st.puzzles), Err(ValueError))
      else
        var pz1 := pz.(response := Some(answer));
        match IsCorrect(GetTaskModule(cfg.task), answer, pz.solution)
        case Err(e) => (State(p1, st.puzzles[k := pz1]), Err(e))
        case Ok(c) =>
          var pz2 := pz1.(isCorrect := Some(c), responseTimestamp := Some(now), attempts := pz.attempts + 1);
          var p2 := Counted(p1, c);
          (State(p2, st.puzzles[k := pz2]), Ok(Feedback(c, cfg.attemptsPerPuzzle - pz2.attempts, GetProgress(p2))))
  }

  /** `play_game(player, data)` at time `now`. */
  function PlaySpec(cfg: Config, st: State, data: Dict, now: real, d: Draws): (State, Result<Reply>)
    requires DrawsValid(d)
  {
    match GetCurrentPuzzle(st)
    case Err(e) => (st, Err(e))
    case Ok(cur) =>
      if "cheat" in data && cfg.debug then
        (st, if cur.None? then Err(AttributeError) else Ok(Cheat(st.puzzles[cur.value].solution)))
      else if data == map[] then (st, Ok(Loaded(cur, GetProgress(st.player))))
      else if "next" in data then
        if cur.Some? && st.puzzles[cur.value].response.None? then (st, Err(RuntimeError))
        else if cur.Some? && now < st.puzzles[cur.value].timestamp + cfg.puzzleDelay then (st, Err(RuntimeError))
        else
          var st1 := GeneratePuzzle(cfg, st, now, d);
          (st1, Ok(NewPuzzle(|st.puzzles|, GetProgress(st1.player))))
      else if "answer" in data then
        if cur.None? then (st, Err(RuntimeError)) else AnswerSpec(cfg, st, cur.value, data["answer"], now)
      else (st, Err(RuntimeError))
  }

  class Game {
    var player: Player
    var puzzles: seq<Puzzle>
    const cfg: Config

    function Snapshot(): State reads this {
      State(player, puzzles)
    }

    constructor(cfg: Config)
      ensures Snapshot() == State(Player(0, 0, 0, 0), []) && this.cfg == cfg
    {
      this.cfg := cfg;
      player := Player(0, 0, 0, 0);
      puzzles := [];
    }

    method PlayGame(data: Dict, now: real, d: Draws) returns (r: Result<Reply>)
      requires DrawsValid(d)
      modifies this
      ensures (Snapshot(), r) == PlaySpec(cfg, old(Snapshot()), data, now, d)
    {
      var found := GetCurrentPuzzle(Snapshot());
      if found.Err? {
        return Err(found.error);
      }
      var cur := found.value;
      if "cheat" in data && cfg.debug {
        if cur.None? {
          return Err(AttributeError);
        }
        return Ok(Cheat(puzzles[cur.value].solution));
      }
      if data == map[] {
        return Ok(Loaded(cur, GetProgress(player)));
      }
      if "next" in data {
        if cur.Some? {
          if puzzles[cur.value].response.None? {
            return Err(RuntimeError);
          }
          if now < puzzles[cur.value].timestamp + cfg.puzzleDelay {
            return Err(RuntimeError);
          }
        }
        AddPuzzle(now, d);
        return Ok(NewPuzzle(|puzzles| - 1, GetProgress(player)));
      }
      if "answer" in data {
        if cur.None? {
          return Err(RuntimeError);
        }
        r := Answer(cur.value, data["answer"], now);
        return;
      }
      return Err(RuntimeError);
    }

    /** `generate_puzzle`: a new record for the next iteration. */
    method AddPuzzle(now: real, d: Draws)
      requires DrawsValid(d)
      modifies this
      ensures Snapshot() == GeneratePuzzle(cfg, old(Snapshot()), now, d)
    {
      var text: Value, solution: string;
      match GetTaskModule(cfg.task) {
        case Matrix =>
          var t, s := TaskMatrix.GeneratePuzzleFields(d.matrix);
          text, solution := Str(t), s;
        case Transcription =>
          var f := TaskTranscription.GeneratePuzzleFields(d.transcription);
          text, solution := Str(f.0), f.1;
        case Decoding =>
          var f := TaskDecoding.GeneratePuzzleFields(d.chars, d.digits, d.coded);
          text, solution := f.text, f.solution;
      }
      player := player.(iteration := player.iteration + 1);
      puzzles := puzzles + [Puzzle(player.iteration, 0, now, text, solution, None, None, None)];
    }

    /** The answer branch, on the current puzzle `k`. */
    method Answer(k: nat, answer: Value, now: real) returns (r: Result<Reply>)
      requires k < |puzzles|
      modifies this
      ensures (Snapshot(), r) == AnswerSpec(cfg, old(Snapshot()), k, answer, now)
    {
      var pz := puzzles[k];
      if pz.response.Some? {
        if pz.attempts >= cfg.attemptsPerPuzzle {
          return Err(RuntimeError);
        }
        if pz.responseTimestamp.None? {
          return Err(TypeError);
        }
        if now < pz.responseTimestamp.value + cfg.retryDelay {
          return Err(RuntimeError);
        }
        player := Uncount(player, pz.isCorrect);
      }
      if answer == Str("") || answer == Null {
        return Err(ValueError);
      }
      var correct := IsCorrect(GetTaskModule(cfg.task), answer, pz.solution);
      pz := pz.(response := Some(answer));
      puzzles := puzzles[k := pz];
      if correct.Err? {
        return Err(correct.error);
      }
      ghost var p1 := player;
      pz := pz.(isCorrect := Some(correct.value), responseTimestamp := Some(now), attempts := pz.attempts + 1);
      puzzles := puzzles[k := pz];
      player := Counted(player, correct.value);
      assert p1 == if old(puzzles)[k].response.Some? then Uncount(old(player), old(puzzles)[k].isCorrect) else old(player);
      assert puzzles == old(puzzles)[k := pz];
      assert pz == old(puzzles)[k].(response := Some(answer)).(isCorrect := Some(correct.value), responseTimestamp := Some(now), attempts := old(puzzles)[k].attempts + 1);
      return Ok(Feedback(correct.value, cfg.attemptsPerPuzzle - pz.attempts, GetProgress(player)));
    }
  }

  // ---- properties ------------------------------------------------------------

  /** Puzzles are created only by `generate_puzzle`, so record `i` is the
      puzzle of iteration `i + 1` and the current one is the last. */
  ghost predicate Numbered(st: State) {
    |st.puzzles| == st.player.iteration && forall i :: 0 <= i < |st.puzzles| ==> st.puzzles[i].iteration == i + 1
  }

  lemma CurrentIsLast(st: State)
    requires Numbered(st)
    ensures GetCurrentPuzzle(st) == if st.puzzles == [] then Ok(None) else Ok(Some(|st.puzzles| - 1))
  {
    var found := PuzzlesAt(st.puzzles, st.player.iteration);
    if st.puzzles != [] {
      var n := |st.puzzles| - 1;
      var prefix := st.puzzles[..n];
      var before := PuzzlesAt(prefix, st.player.iteration);
      assert found == before + [n];
      if before != [] {
        assert false;
      }
    }
  }

  /** `next` is refused over an unanswered puzzle and before the puzzle delay
      has passed; otherwise the iteration moves on by exactly one and the new
      puzzle carries it; the numbering is kept. */
  lemma NextPuzzle(cfg: Config, st: State, data: Dict, now: real, d: Draws)
    requires DrawsValid(d) && Numbered(st) && "next" in data && data != map[] && !("cheat" in data && cfg.debug)
    ensures var (st1, r) := PlaySpec(cfg, st, data, now, d);
      (st.puzzles != [] && st.puzzles[|st.puzzles| - 1].response.None? ==> (st1, r) == (st, Err(RuntimeError))) &&
      (st.puzzles != [] && now < st.puzzles[|st.puzzles| - 1].timestamp + cfg.puzzleDelay ==> (st1, r) == (st, Err(RuntimeError))) &&
      (r.Ok? ==> st1.player.iteration == st.player.iteration + 1 && |st1.puzzles| == |st.puzzles| + 1 &&
                 st1.puzzles[|st.puzzles|].iteration == st1.player.iteration && st1.puzzles[|st.puzzles|].response.None? &&
                 st1.puzzles[..|st.puzzles|] == st.puzzles && Numbered(st1)) &&
      (r.Err? ==> st1 == st)
  {
    CurrentIsLast(st);
    var (st1, r) := PlaySpec(cfg, st, data, now, d);
    if r.Ok? {
      assert st1.puzzles[..|st.puzzles|] == st.puzzles;
    }
  }

  /** An answer with no puzzle is a RuntimeError, and an empty one a
      ValueError; a retry is refused once the attempts are used up or before
      the retry delay has passed, changing nothing. */
  lemma AnswerGuards(cfg: Config, st: State, data: Dict, now: real, d: Draws)
    requires DrawsValid(d) && Numbered(st) && "answer" in data && !("next" in data) && !("cheat" in data && cfg.debug)
    ensures st.puzzles == [] ==> PlaySpec(cfg, st, data, now, d) == (st, Err(RuntimeError))
    ensures st.puzzles != [] && st.puzzles[|st.puzzles| - 1].response.Some? &&
            st.puzzles[|st.puzzles| - 1].attempts >= cfg.attemptsPerPuzzle ==>
      PlaySpec(cfg, st, data, now, d) == (st, Err(RuntimeError))
    ensures st.puzzles != [] && st.puzzles[|st.puzzles| - 1].response.Some? &&
            st.puzzles[|st.puzzles| - 1].attempts < cfg.attemptsPerPuzzle &&
            st.puzzles[|st.puzzles| - 1].responseTimestamp.Some? &&
            now < st.puzzles[|st.puzzles| - 1].responseTimestamp.value + cfg.retryDelay ==>
      PlaySpec(cfg, st, data, now, d) == (st, Err(RuntimeError))
    ensures st.puzzles != [] && st.puzzles[|st.puzzles| - 1].response.None? && (data["answer"] == Str("") || data["answer"] == Null) ==>
      PlaySpec(cfg, st, data, now, d) == (st, Err(ValueError))
    ensures PlaySpec(cfg, st, data, now, d).1.Ok? ==>
      (data["answer"] != Str("") && data["answer"] != Null &&
       PlaySpec(cfg, st, data, now, d).0.puzzles[|st.puzzles| - 1].response == Some(data["answer"]) &&
       PlaySpec(cfg, st, data, now, d).0.puzzles[|st.puzzles| - 1].attempts == st.puzzles[|st.puzzles| - 1].attempts + 1)
  {
    CurrentIsLast(st);
  }

  /** The load message changes nothing and reports the current puzzle. */
  lemma LoadChangesNothing(cfg: Config, st: State, now: real, d: Draws)
    requires DrawsValid(d) && Numbered(st)
    ensures PlaySpec(cfg, st, map[], now, d) ==
      (st, Ok(Loaded(if st.puzzles == [] then None else Some(|st.puzzles| - 1), GetProgress(st.player))))
  {
    CurrentIsLast(st);
  }

  // ---- the counters ----------------------------------------------------------

  function CountCorrect(s: seq<Puzzle>): int {
    if s == [] then 0 else CountCorrect(s[..|s| - 1]) + (if Answered(s[|s| - 1]) && s[|s| - 1].isCorrect == Some(true) then 1 else 0)
  }

  function CountFailed(s: seq<Puzzle>): int {
    if s == [] then 0 else CountFailed(s[..|s| - 1]) + (if Answered(s[|s| - 1]) && s[|s| - 1].isCorrect != Some(true) then 1 else 0)
  }

  predicate Answered(pz: Puzzle) { pz.response.Some? }

  /** The counters agree with the records: every answered puzzle counted once,
      as correct or failed. */
  predicate Tallied(st: State) {
    st.player.numCorrect == CountCorrect(st.puzzles) && st.player.numFailed == CountFailed(st.puzzles) &&
    st.player.numTrials == st.player.numCorrect + st.player.numFailed
  }

  lemma {:induction false} CountsAppend(s: seq<Puzzle>, pz: Puzzle)
    requires !Answered(pz)
    ensures CountCorrect(s + [pz]) == CountCorrect(s) && CountFailed(s + [pz]) == CountFailed(s)
  {
    assert (s + [pz])[..|s|] == s;
  }

  lemma {:induction false} CountsUpdate(s: seq<Puzzle>, k: nat, pz: Puzzle)
    requires k < |s|
    ensures CountCorrect(s[k := pz]) == CountCorrect(s) - (if Answered(s[k]) && s[k].isCorrect == Some(true) then 1 else 0)
                                                         + (if Answered(pz) && pz.isCorrect == Some(true) then 1 else 0)
    ensures CountFailed(s[k := pz]) == CountFailed(s) - (if Answered(s[k]) && s[k].isCorrect != Some(true) then 1 else 0)
                                                       + (if Answered(pz) && pz.isCorrect != Some(true) then 1 else 0)
  {
    var n := |s| - 1;
    if k < n {
      assert s[k := pz][..n] == s[..n][k := pz];
      CountsUpdate(s[..n], k, pz);
    } else {
      assert s[k := pz][..n] == s[..n];
    }
  }

  /** Every accepted message keeps the counters in agreement with the
      records; in particular `num_trials == num_correct + num_failed`, and a
      puzzle answered several times is counted once. */
  lemma AcceptedKeepsTally(cfg: Config, st: State, data: Dict, now: real, d: Draws)
    requires DrawsValid(d) && Tallied(st)
    requires PlaySpec(cfg, st, data, now, d).1.Ok?
    ensures Tallied(PlaySpec(cfg, st, data, now, d).0)
  {
    var cur := GetCurrentPuzzle(st).value;
    if "cheat" in data && cfg.debug {
    } else if data == map[] {
    } else if "next" in data {
      var st1 := GeneratePuzzle(cfg, st, now, d);
      CountsAppend(st.puzzles, st1.puzzles[|st.puzzles|]);
    } else {
      var k := cur.value;
      var pz := st.puzzles[k];
      var st1 := PlaySpec(cfg, st, data, now, d).0;
      CountsUpdate(st.puzzles, k, st1.puzzles[k]);
    }
  }

  // ---- the retry counting, evidently intended --------------------------------

  /** An answer as evidently intended: the answer is checked before a
      retry's counting is undone, so a refused answer changes nothing. */
  function AnswerFixed(cfg: Config, st: State, k: nat, answer: Value, now: real): (State, Result<Reply>)
    requires k < |st.puzzles|
  {
    var pz := st.puzzles[k];
    match RetryGuard(cfg, pz, now)
    case Fail(e) => (st, Err(e))
    case Pass =>
      if answer == Str("") || answer == Null then (st, Err(ValueError))
      else match IsCorrect(GetTaskModule(cfg.task), answer, pz.solution)
        case Err(e) => (st, Err(e))
        case Ok(c) =>
          var p1 := if pz.response.Some? then Uncount(st.player, pz.isCorrect) else st.player;
          var pz2 := pz.(response := Some(answer), isCorrect := Some(c), responseTimestamp := Some(now), attempts := pz.attempts + 1);
          var p2 := Counted(p1, c);
          (State(p2, st.puzzles[k := pz2]), Ok(Feedback(c, cfg.attemptsPerPuzzle - pz2.attempts, GetProgress(p2))))
  }

  /** With the fix, every answer, accepted or refused, keeps the counters in
      agreement with the records. */
  lemma AnswerFixedKeepsTally(cfg: Config, st: State, k: nat, answer: Value, now: real)
    requires k < |st.puzzles| && Tallied(st)
    ensures Tallied(AnswerFixed(cfg, st, k, answer, now).0)
  {
    var (st1, r) := AnswerFixed(cfg, st, k, answer, now);
    if r.Ok? {
      CountsUpdate(st.puzzles, k, st1.puzzles[k]);
    }
  }

  /** As written, an empty retry undoes the counting of an answered puzzle
      and is then refused; the next accepted retry undoes it again, so a
      correctly answered puzzle ends up uncounted. */
  lemma EmptyRetryLosesCount()
    ensures var cfg := Config(None, 1.0, 1.0, 2, false);
      var pz := Puzzle(1, 1, 0.0, Str("x"), "3", Some(Str("3")), Some(0.0), Some(true));
      var st := State(Player(1, 1, 1, 0), [pz]);
      var (st1, r1) := AnswerSpec(cfg, st, 0, Str(""), 5.0);
      var (st2, r2) := AnswerSpec(cfg, st1, 0, Str("3"), 6.0);
      Tallied(st) && r1 == Err(ValueError) && !Tallied(st1) &&
      r2.Ok? && st2.puzzles[0].isCorrect == Some(true) && st2.player.numCorrect == 0 && !Tallied(st2)
  {
    var cfg := Config(None, 1.0, 1.0, 2, false);
    var pz := Puzzle(1, 1, 0.0, Str("x"), "3", Some(Str("3")), Some(0.0), Some(true));
    var st := State(Player(1, 1, 1, 0), [pz]);
    assert CountCorrect([pz]) == 1 && CountFailed([pz]) == 0 by {
      assert [pz][..0] == [];
    }
    var (st1, r1) := AnswerSpec(cfg, st, 0, Str(""), 5.0);
    assert st1.puzzles == [pz];
    var (st2, r2) := AnswerSpec(cfg, st1, 0, Str("3"), 6.0);
    var pz2 := st2.puzzles[0];
    assert st2.puzzles == [pz2];
    assert CountCorrect([pz2]) == 1 by {
      assert [pz2][..0] == [];
    }
  }

  /** As written, a retry whose response is not a string, on a
      transcription puzzle, undoes the counting of the puzzle's correct
      answer and then fails in `is_correct` (`lower()` of a number), so the
      puzzle stays correct but is no longer counted. */
  lemma NonStringRetryLosesCount()
    ensures var cfg := Config(Some(Str("transcription")), 1.0, 1.0, 2, false);
      var pz := Puzzle(1, 1, 0.0, Str("x"), "abc", Some(Str("abc")), Some(0.0), Some(true));
      var st := State(Player(1, 1, 1, 0), [pz]);
      var (st1, r1) := AnswerSpec(cfg, st, 0, Num(3), 5.0);
      Tallied(st) && r1 == Err(AttributeError) && st1.puzzles[0].isCorrect == Some(true) &&
      st1.player.numCorrect == 0 && !Tallied(st1)
  {
    var pz := Puzzle(1, 1, 0.0, Str("x"), "abc", Some(Str("abc")), Some(0.0), Some(true));
    assert CountCorrect([pz]) == 1 && CountFailed([pz]) == 0 by {
      assert [pz][..0] == [];
    }
    var pz1 := pz.(response := Some(Num(3)));
    assert CountCorrect([pz1]) == 1 by {
      assert [pz1][..0] == [];
    }
  }
}
