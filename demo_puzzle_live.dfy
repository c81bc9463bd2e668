/** The live sliding-puzzle demo (`demo_puzzle_live/__init__.py`): each
    trial is a 3 x 3 board shuffled by as many moves as the player's current
    difficulty; the player moves tiles into the empty cell, and the trial
    ends when the board is solved, when as many moves as the difficulty are
    spent, or on a timeout. The difficulty rises after a solved trial and
    falls, down to 1, after an unsolved one.

    The board is kept as its JSON text in the record; here the decoded
    board is stored, and `actions` is the decoded list of moves, with its
    JSON text given by `ActionsText`. */
module DemoPuzzleLive {
  import opened Wrappers
  import opened Text
  import opened PuzzleUtils

  const BOARD_SIZE: int := 3
  const INITIAL_DIFFICULTY: int := 2
  /** The solved 3 x 3 board. */
  const SOLVED: seq<Cell> := Solved(BOARD_SIZE * BOARD_SIZE)

  /** A stored board: always the nine cells of a 3 x 3 board. */
  type Board = b: seq<Cell> | |b| == 9 witness Solved(9)

  datatype Player = Player(roundNumber: int, curIteration: int, curDifficulty: int, numTrials: int, numSolved: int, numFailed: int, numSkipped: int)

  datatype Trial = Trial(
    round: int,
    iteration: int,
    difficulty: int,
    puzzle: Board,
    isCompleted: bool,
    actions: seq<int>,
    result: Board,
    isCorrect: Option<bool>,
    isTimeouted: Option<bool>)

  datatype State = State(player: Player, trials: seq<Trial>)

  datatype Progress = Progress(total: Option<int>, current: int, completed: int, solved: int, failed: int, moves: int)

  datatype Reply =
    | MoveInvalid
    | MoveFeedback(correct: bool, final: bool, board: Board)
    | TimeoutFeedback(correct: bool)

  /** `json.dumps` of a list of moves. */
  function ActionsText(actions: seq<int>): string {
    "[" + Join(ActionParts(actions), ", ") + "]"
  }

  /** `str` of each move. */
  function ActionParts(actions: seq<int>): (r: seq<string>)
    ensures |r| == |actions| && forall j :: 0 <= j < |r| ==> r[j] == IntToString(actions[j])
  {
    if actions == [] then [] else ActionParts(actions[..|actions| - 1]) + [IntToString(actions[|actions| - 1])]
  }

  // ---- generation -------------------------------------------------------------

  /** `generate_trial`: the solved board shuffled by `curDifficulty` moves,
      `picks(i)` standing for the i-th `random.choice`. */
  function GenerateTrial(p: Player, picks: nat -> nat): Result<Trial> {
    var shuffled := ShuffleSpec(SOLVED, BOARD_SIZE, Picks(picks, if p.curDifficulty < 0 then 0 else p.curDifficulty));
    if shuffled.outcome.Fail? then Err(shuffled.outcome.error)
    else Ok(Trial(p.roundNumber, p.curIteration, p.curDifficulty, shuffled.board, false, [], shuffled.board, None, None))
  }

  lemma SolvedFree()
    ensures FindFreeCell(SOLVED) == Ok(8)
  {
    assert SOLVED[8] == Free;
    assert forall i :: 0 <= i < 8 ==> SOLVED[i] != Free;
    assert Free !in SOLVED[..8];
  }

  /** The first `n` picks. */
  function Picks(picks: nat -> nat, n: nat): seq<nat> {
    seq(n, i requires 0 <= i < n => picks(i))
  }

  /** On the 3 x 3 board every cell has a neighbour, so the shuffle never
      fails. */
  lemma {:induction false} ShuffleNeverFails(b: seq<Cell>, dst: int, ps: seq<nat>)
    requires |b| == 9 && OnBoard(BOARD_SIZE, dst)
    ensures ShuffleFrom(b, BOARD_SIZE, dst, ps).outcome == Pass
    decreases |ps|
  {
    if ps != [] {
      DirectionsCount(BOARD_SIZE, dst);
      var nbours := GetDirections(BOARD_SIZE, dst);
      var k := ps[0] % |nbours|;
      assert 0 <= k < |nbours|;
      var src := nbours[k];
      DirectionsOnBoard(BOARD_SIZE, dst);
      ShuffleNeverFails(Moved(b, dst, src), src, ps[1..]);
    }
  }

  /** A new trial is the solved board after exactly `difficulty` valid
      moves (for a nonnegative difficulty), so it is a puzzle board; it
      starts with no actions and as its own current result. */
  lemma GeneratedTrial(p: Player, picks: nat -> nat)
    ensures var r := GenerateTrial(p, picks);
      var ps := Picks(picks, if p.curDifficulty < 0 then 0 else p.curDifficulty);
      var moves := ShuffleMoves(BOARD_SIZE, 8, ps);
      r.Ok? && |moves| == |ps| &&
      r.value.puzzle == ApplyFrom(SOLVED, BOARD_SIZE, 8, moves).board &&
      ApplyFrom(SOLVED, BOARD_SIZE, 8, moves).outcome == Pass &&
      IsPuzzleBoard(r.value.puzzle, BOARD_SIZE) &&
      r.value.result == r.value.puzzle && r.value.actions == [] &&
      r.value.difficulty == p.curDifficulty && r.value.iteration == p.curIteration && !r.value.isCompleted
  {
    var ps := Picks(picks, if p.curDifficulty < 0 then 0 else p.curDifficulty);
    var b := SOLVED;
    SolvedFree();
    SolvedIsPuzzleBoard(BOARD_SIZE);
    assert ShuffleSpec(b, BOARD_SIZE, ps) == ShuffleFrom(b, BOARD_SIZE, 8, ps);
    ShuffleIsValidMoves(b, BOARD_SIZE, 8, ps);
    ApplyKeepsBoard(b, BOARD_SIZE, 8, ShuffleMoves(BOARD_SIZE, 8, ps));
    ShuffleNeverFails(b, 8, ps);
  }

  // ---- lookups and progress -------------------------------------------------------

  /** `get_trial`: the first trial of the player's current iteration. */
  function GetTrial(st: State): (r: Option<nat>)
    ensures r.Some? ==> r.value < |st.trials| && st.trials[r.value].iteration == st.player.curIteration
    ensures r.Some? ==> forall j :: 0 <= j < r.value ==> st.trials[j].iteration != st.player.curIteration
    ensures r.None? ==> forall j :: 0 <= j < |st.trials| ==> st.trials[j].iteration != st.player.curIteration
  {
    FirstOf(st.trials, st.player.curIteration, 0)
  }

  function FirstOf(s: seq<Trial>, iteration: int, from: nat): (r: Option<nat>)
    requires from <= |s|
    requires forall j :: 0 <= j < from ==> s[j].iteration != iteration
    ensures r.Some? ==> r.value < |s| && s[r.value].iteration == iteration
    ensures r.Some? ==> forall j :: 0 <= j < r.value ==> s[j].iteration != iteration
    ensures r.None? ==> forall j :: 0 <= j < |s| ==> s[j].iteration != iteration
    decreases |s| - from
  {
    if from == |s| then None
    else if s[from].iteration == iteration then Some(from)
    else FirstOf(s, iteration, from + 1)
  }

  /** `get_progress(player, trial)`: `moves` counts the commas of the
      actions' JSON text, plus one. */
  function GetProgress(p: Player, trial: Option<Trial>): Progress {
    var moves := if trial.Some? && ActionsText(trial.value.actions) != "" then Count(ActionsText(trial.value.actions), ',') + 1 else 0;
    Progress(None, p.curIteration, p.numTrials, p.numSolved, p.numFailed, moves)
  }

  lemma NoComma(i: int)
    ensures Count(IntToString(i), ',') == 0
  {
    var s := NatToString(if i < 0 then -i else i);
    forall j | 0 <= j < |s| ensures s[j] != ',' {
      assert IsDigit(s[j]);
    }
    assert ',' !in s;
    if i < 0 {
      assert multiset(IntToString(i)) == multiset("-") + multiset(s);
    }
  }

  /** A join of comma-free parts with `", "` has one comma fewer than parts. */
  lemma {:induction false} JoinCommas(parts: seq<string>)
    requires forall j :: 0 <= j < |parts| ==> Count(parts[j], ',') == 0
    ensures Count(Join(parts, ", "), ',') == if parts == [] then 0 else |parts| - 1
  {
    if |parts| > 1 {
      var n := |parts| - 1;
      JoinCommas(parts[..n]);
      var j := Join(parts[..n], ", ");
      assert Join(parts, ", ") == j + ", " + parts[n];
      assert multiset(j + ", " + parts[n]) == multiset(j) + multiset(", ") + multiset(parts[n]);
    }
  }

  /** The progress reports one move for the empty list `[]`, and otherwise
      the number of moves made. */
  lemma MovesReported(p: Player, t: Trial)
    ensures GetProgress(p, Some(t)).moves == if t.actions == [] then 1 else |t.actions|
  {
    var parts := ActionParts(t.actions);
    forall j | 0 <= j < |parts| ensures Count(parts[j], ',') == 0 {
      NoComma(t.actions[j]);
    }
    JoinCommas(parts);
    var joined := Join(parts, ", ");
    assert ActionsText(t.actions) == "[" + joined + "]";
    assert ActionsText(t.actions) != "";
    CountConcat("[", joined, ',');
    CountConcat("[" + joined, "]", ',');
  }

  lemma CountConcat(a: string, b: string, c: char)
    ensures Count(a + b, c) == Count(a, c) + Count(b, c)
  {
    assert multiset(a + b) == multiset(a) + multiset(b);
  }

  // ---- the handlers -------------------------------------------------------------

  /** The difficulty for the next trial after the current one. */
  function NextDifficulty(p: Player, current: Option<Trial>): int {
    if current.None? then p.curDifficulty
    else if current.value.isCorrect == Some(true) then p.curDifficulty + 1
    else if p.curDifficulty > 1 then p.curDifficulty - 1
    else p.curDifficulty
  }

  /** `on_load`: the difficulty adjusted, the next iteration, and its new
      trial; a failed generation keeps the player's changes. */
  function OnLoadSpec(st: State, picks: nat -> nat): (State, Result<nat>) {
    var current := GetTrial(st);
    var player := st.player.(curDifficulty := NextDifficulty(st.player, if current.Some? then Some(st.trials[current.value]) else None),
                             curIteration := st.player.curIteration + 1);
    match GenerateTrial(player, picks)
    case Err(e) => (st.(player := player), Err(e))
    case Ok(t) => (State(player, st.trials + [t]), Ok(|st.trials|))
  }

  /** The counters after a trial ends as `t`. */
  function Tally(p: Player, t: Trial): Player {
    if !t.isCompleted then p
    else if t.isCorrect == Some(true) then p.(numTrials := p.numTrials + 1, numSolved := p.numSolved + 1)
    else p.(numTrials := p.numTrials + 1, numFailed := p.numFailed + 1)
  }

  /** `on_move(player, trial, move, response_time)` on trial `k`; the
      response time is not stored. */
  function OnMoveSpec(st: State, k: nat, move: int): (State, Result<Reply>)
    requires k < |st.trials|
  {
    var t := st.trials[k];
    var board := t.result;
    match FindFreeCell(board)
    case Err(e) => (st, Err(e))
    case Ok(dst) =>
      if !ValidateMove(board, BOARD_SIZE, dst, move) then (st, Ok(MoveInvalid))
      else
        var applied := ApplySpec(board, BOARD_SIZE, [move]);
        if applied.outcome.Fail? then (st, Err(applied.outcome.error))
        else
          var actions := t.actions + [move];
          var t1 := t.(result := applied.board, actions := actions);
          match ValidateBoard(applied.board)
          case Err(e) => (st.(trials := st.trials[k := t1]), Err(e))
          case Ok(correct) =>
            var t2 := t1.(isCorrect := Some(correct), isCompleted := t1.isCompleted || correct || |actions| == t.difficulty);
            (State(Tally(st.player, t2), st.trials[k := t2]), Ok(MoveFeedback(correct, t2.isCompleted, applied.board)))
  }

  /** `on_timeout(player, trial)` on trial `k`. */
  function OnTimeoutSpec(st: State, k: nat): (State, Result<Reply>)
    requires k < |st.trials|
  {
    var t := st.trials[k].(isTimeouted := Some(true));
    match ValidateBoard(t.result)
    case Err(e) => (st.(trials := st.trials[k := t]), Err(e))
    case Ok(correct) =>
      var t1 := t.(isCorrect := Some(correct), isCompleted := true);
      (State(Tally(st.player, t1), st.trials[k := t1]), Ok(TimeoutFeedback(false)))
  }

  // ---- properties -------------------------------------------------------------

  /** The difficulty rises by one after a solved trial and falls by one
      after another trial only while above 1; it never drops below 1 from
      1 or more. */
  lemma DifficultyRule(p: Player, current: Option<Trial>)
    ensures var d := NextDifficulty(p, current);
      (current.Some? && current.value.isCorrect == Some(true) ==> d == p.curDifficulty + 1) &&
      (current.Some? && current.value.isCorrect != Some(true) ==> d == (if p.curDifficulty > 1 then p.curDifficulty - 1 else p.curDifficulty)) &&
      (current.None? ==> d == p.curDifficulty) &&
      (p.curDifficulty >= 1 ==> d >= 1)
  {
  }

  /** A move the board refuses changes nothing. An accepted move slides the
      chosen tile into the empty cell, records the move, sets the verdict to
      whether the board is now solved, and completes the trial when solved
      or when the moves reach the difficulty; the counters change only as
      the trial completes. */
  lemma OnMoveMeans(st: State, k: nat, move: int)
    requires k < |st.trials| && Free in st.trials[k].result
    ensures var (st1, r) := OnMoveSpec(st, k, move);
      var t := st.trials[k];
      var dst := FindFreeCell(t.result).value;
      r.Ok? &&
      (r.value == MoveInvalid <==> !(t.result[dst] == Free && Adjacent(BOARD_SIZE, dst, move))) &&
      (r.value == MoveInvalid ==> st1 == st) &&
      (r.value != MoveInvalid ==>
        var t1 := st1.trials[k];
        st1.trials == st.trials[k := t1] &&
        t1.result == Moved(t.result, dst, move) && t1.actions == t.actions + [move] &&
        t1.result[move] == Free && t1.result[dst] == t.result[move] &&
        t1.isCorrect == Some(t1.result == SOLVED) &&
        (t1.isCompleted <==> t.isCompleted || t1.result == SOLVED || |t.actions| + 1 == t.difficulty) &&
        r.value == MoveFeedback(t1.result == SOLVED, t1.isCompleted, t1.result) &&
        t1.iteration == t.iteration && t1.difficulty == t.difficulty &&
        st1.player == Tally(st.player, t1))
  {
    var t := st.trials[k];
    var dst := FindFreeCell(t.result).value;
    ValidateMoveMeaning(t.result, BOARD_SIZE, dst, move);
    if ValidateMove(t.result, BOARD_SIZE, dst, move) {
      DirectionsOnBoard(BOARD_SIZE, dst);
      DirectionsAreNeighbours(BOARD_SIZE, dst, move);
      var m := Moved(t.result, dst, move);
      assert [move][1..] == [];
      assert ApplyFrom(t.result, BOARD_SIZE, dst, [move]) == ApplyFrom(m, BOARD_SIZE, move, []);
      assert ApplySpec(t.result, BOARD_SIZE, [move]) == Applied(m, move, Pass);
      ValidateBoardExactlySolved(m);
      assert m[move] == Free && m[dst] == t.result[move];
    }
  }

  /** A timeout completes the trial with the board's verdict, counts it,
      and reports the response as incorrect. */
  lemma OnTimeoutMeans(st: State, k: nat)
    requires k < |st.trials|
    ensures var (st1, r) := OnTimeoutSpec(st, k);
      var t1 := st1.trials[k];
      r == Ok(TimeoutFeedback(false)) && st1.trials == st.trials[k := t1] &&
      t1 == st.trials[k].(isTimeouted := Some(true), isCompleted := true, isCorrect := t1.isCorrect) &&
      t1.isCorrect == Some(st.trials[k].result == SOLVED) &&
      st1.player.numTrials == st.player.numTrials + 1 &&
      st1.player.numSolved + st1.player.numFailed == st.player.numSolved + st.player.numFailed + 1 &&
      (st1.player.numSolved == st.player.numSolved + 1 <==> st.trials[k].result == SOLVED)
  {
    ValidateBoardExactlySolved(st.trials[k].result);
  }

  /** The number of completed trials with verdict `outcome`. */
  function Ended(s: seq<Trial>, solved: bool): (r: nat)
    ensures r <= |s|
  {
    if s == [] then 0
    else Ended(s[..|s| - 1], solved) + (if s[|s| - 1].isCompleted && (s[|s| - 1].isCorrect == Some(true)) == solved then 1 else 0)
  }

  function EndedAs(t: Trial, solved: bool): nat {
    if t.isCompleted && (t.isCorrect == Some(true)) == solved then 1 else 0
  }

  lemma {:induction false} EndedUpdate(s: seq<Trial>, k: nat, t: Trial, solved: bool)
    requires k < |s|
    ensures Ended(s[k := t], solved) == Ended(s, solved) - EndedAs(s[k], solved) + EndedAs(t, solved)
  {
    var n := |s| - 1;
    if k < n {
      EndedUpdate(s[..n], k, t, solved);
      assert s[k := t][..n] == s[..n][k := t];
    } else {
      assert s[k := t][..n] == s[..n];
    }
  }

  lemma EndedAppend(s: seq<Trial>, t: Trial, solved: bool)
    ensures Ended(s + [t], solved) == Ended(s, solved) + EndedAs(t, solved)
  {
    assert (s + [t])[..|s|] == s;
  }

  /** The iteration counter numbers the trials, the difficulty is at least
      1, every board is a puzzle board, and the counters agree with how the
      trials ended. */
  ghost predicate Wf(st: State) {
    st.player.curIteration == |st.trials| && st.player.curDifficulty >= 1 &&
    (forall j :: 0 <= j < |st.trials| ==> st.trials[j].iteration == j + 1 && IsPuzzleBoard(st.trials[j].result, BOARD_SIZE)) &&
    st.player.numSolved == Ended(st.trials, true) && st.player.numFailed == Ended(st.trials, false) &&
    st.player.numTrials == st.player.numSolved + st.player.numFailed
  }

  lemma PuzzleBoardHasFree(b: seq<Cell>)
    requires IsPuzzleBoard(b, BOARD_SIZE)
    ensures Free in b
  {
    assert SOLVED[8] == Free;
    assert multiset(SOLVED)[Free] > 0;
  }

  lemma OnLoadKeepsWf(st: State, picks: nat -> nat)
    requires Wf(st)
    ensures var (st1, r) := OnLoadSpec(st, picks);
      Wf(st1) && r == Ok(|st.trials|) && GetTrial(st1) == Some(|st.trials|) && st1.trials[..|st.trials|] == st.trials
  {
    var current := GetTrial(st);
    var player := st.player.(curDifficulty := NextDifficulty(st.player, if current.Some? then Some(st.trials[current.value]) else None),
                             curIteration := st.player.curIteration + 1);
    GeneratedTrial(player, picks);
    AppendKeepsWf(st, player, GenerateTrial(player, picks).value);
  }

  /** Appending an open trial of the next iteration keeps the invariant and
      makes it the current trial. */
  lemma AppendKeepsWf(st: State, player: Player, t: Trial)
    requires Wf(st) && player.curIteration == st.player.curIteration + 1 && player.curDifficulty >= 1
    requires player == st.player.(curIteration := player.curIteration, curDifficulty := player.curDifficulty)
    requires t.iteration == player.curIteration && !t.isCompleted && IsPuzzleBoard(t.result, BOARD_SIZE)
    ensures var st1 := State(player, st.trials + [t]);
      Wf(st1) && GetTrial(st1) == Some(|st.trials|) && st1.trials[..|st.trials|] == st.trials
  {
    EndedAppend(st.trials, t, true);
    EndedAppend(st.trials, t, false);
    var st1 := State(player, st.trials + [t]);
    forall j | 0 <= j < |st1.trials|
      ensures st1.trials[j].iteration == j + 1 && IsPuzzleBoard(st1.trials[j].result, BOARD_SIZE)
    {
      if j < |st.trials| {
        assert st1.trials[j] == st.trials[j];
      }
    }
    assert st1.trials[..|st.trials|] == st.trials;
  }

  /** On an open trial a move keeps the invariant.  The trial is open
      whenever the trials page's guard (`LiveTrials.OpenTrial`) admits the
      move, which is how the hooks are meant to be wired. */
  lemma OnMoveKeepsWf(st: State, k: nat, move: int)
    requires Wf(st) && k < |st.trials| && !st.trials[k].isCompleted
    ensures Wf(OnMoveSpec(st, k, move).0)
  {
    var t := st.trials[k];
    PuzzleBoardHasFree(t.result);
    OnMoveMeans(st, k, move);
    var (st1, r) := OnMoveSpec(st, k, move);
    if r.value != MoveInvalid {
      var dst := FindFreeCell(t.result).value;
      MoveKeepsCells(t.result, BOARD_SIZE, dst, move);
      EndedUpdate(st.trials, k, st1.trials[k], true);
      EndedUpdate(st.trials, k, st1.trials[k], false);
    }
  }

  lemma OnTimeoutKeepsWf(st: State, k: nat)
    requires Wf(st) && k < |st.trials| && !st.trials[k].isCompleted
    ensures Wf(OnTimeoutSpec(st, k).0)
  {
    OnTimeoutMeans(st, k);
    var st1 := OnTimeoutSpec(st, k).0;
    EndedUpdate(st.trials, k, st1.trials[k], true);
    EndedUpdate(st.trials, k, st1.trials[k], false);
  }

  class Game {
    var player: Player
    var trials: seq<Trial>

    function Snapshot(): State reads this {
      State(player, trials)
    }

    /** `creating_session`: the initial difficulty. */
    constructor(roundNumber: int)
      ensures Snapshot() == State(Player(roundNumber, 0, INITIAL_DIFFICULTY, 0, 0, 0, 0), [])
      ensures Wf(Snapshot())
    {
      player := Player(roundNumber, 0, INITIAL_DIFFICULTY, 0, 0, 0, 0);
      trials := [];
    }

    /** `on_load` */
    method OnLoad(picks: nat -> nat) returns (r: Result<nat>)
      modifies this
      ensures (Snapshot(), r) == OnLoadSpec(old(Snapshot()), picks)
    {
      var current := GetTrial(Snapshot());
      ghost var cur := if current.Some? then Some(trials[current.value]) else None;
      if current.Some? {
        if trials[current.value].isCorrect == Some(true) {
          player := player.(curDifficulty := player.curDifficulty + 1);
        } else if player.curDifficulty > 1 {
          player := player.(curDifficulty := player.curDifficulty - 1);
        }
      }
      assert player == old(player).(curDifficulty := NextDifficulty(old(player), cur));
      player := player.(curIteration := player.curIteration + 1);
      ghost var spec := OnLoadSpec(old(Snapshot()), picks);
      var t := GenerateTrial(player, picks);
      assert spec == if t.Err? then (State(player, trials), Err(t.error)) else (State(player, trials + [t.value]), Ok(|trials|));
      if t.Err? {
        return Err(t.error);
      }
      trials := trials + [t.value];
      return Ok(|trials| - 1);
    }

    /** `on_move` on the trial at index `k`. */
    method OnMove(k: nat, move: int) returns (r: Result<Reply>)
      requires k < |trials|
      modifies this
      ensures (Snapshot(), r) == OnMoveSpec(old(Snapshot()), k, move)
    {
      var t := trials[k];
      var board := t.result;
      var dst := FindFreeCell(board);
      if dst.Err? {
        return Err(dst.error);
      }
      if !ValidateMove(board, BOARD_SIZE, dst.value, move) {
        return Ok(MoveInvalid);
      }
      var applied := ApplySpec(board, BOARD_SIZE, [move]);
      if applied.outcome.Fail? {
        return Err(applied.outcome.error);
      }
      var actions := t.actions + [move];
      t := t.(result := applied.board);
      t := t.(actions := actions);
      var correct := ValidateBoard(t.result);
      assert correct.Ok?;
      t := t.(isCorrect := Some(correct.value));
      if correct.value || |actions| == t.difficulty {
        t := t.(isCompleted := true);
      }
      trials := trials[k := t];
      if t.isCompleted {
        player := player.(numTrials := player.numTrials + 1);
        if t.isCorrect == Some(true) {
          player := player.(numSolved := player.numSolved + 1);
        } else {
          player := player.(numFailed := player.numFailed + 1);
        }
      }
      return Ok(MoveFeedback(correct.value, t.isCompleted, applied.board));
    }

    /** `on_timeout` on the trial at index `k`. */
    method OnTimeout(k: nat) returns (r: Result<Reply>)
      requires k < |trials|
      modifies this
      ensures (Snapshot(), r) == OnTimeoutSpec(old(Snapshot()), k)
    {
      var t := trials[k].(isTimeouted := Some(true));
      var correct := ValidateBoard(t.result);
      assert correct.Ok?;
      t := t.(isCorrect := Some(correct.value));
      t := t.(isCompleted := true);
      trials := trials[k := t];
      player := player.(numTrials := player.numTrials + 1);
      if t.isCorrect == Some(true) {
        player := player.(numSolved := player.numSolved + 1);
      } else {
        player := player.(numFailed := player.numFailed + 1);
      }
      return Ok(TimeoutFeedback(false));
    }
  }
}
