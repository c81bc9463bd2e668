/** The local fill-the-pattern demo (`demo_puzzles_local/__init__.py`):
    each puzzle has a hidden 4 x 4 target with `difficulty` filled cells;
    the page sends back the player's matrix, which is compared cell by cell
    with the target. Puzzles are created and answered through the
    `live_puzzles` protocol, which is not part of this model. */
module DemoPuzzlesLocal {
  import opened Wrappers
  import opened Json
  import opened Text
  import opened PyList

  const MATRIX_SIZE: int := 4
  const MATRIX_LENGTH: int := MATRIX_SIZE * MATRIX_SIZE
  const CHAR_EMPTY: char := '\U{2022}'
  const CHAR_FILL: char := '\U{25CF}'
  /** The `difficulty` session parameter's default. */
  const DEFAULT_DIFFICULTY: int := 4

  datatype Puzzle = Puzzle(
    iteration: int,
    isCompleted: bool,
    isTimeouted: bool,
    isSkipped: bool,
    isSuccessful: Option<bool>,
    target: string,
    difficulty: int,
    matrix: string)

  datatype State = State(numCompleted: int, numSolved: int, puzzles: seq<Puzzle>)

  /** The reply to a response: the feedback and the per-cell verdicts. */
  datatype Reply = Reply(responseCorrect: bool, responseFinal: bool, validated: seq<Option<bool>>)

  // ---- generation ---------------------------------------------------------------

  function Swap(s: string, i: nat, j: nat): (r: string)
    requires i < |s| && j < |s|
    ensures |r| == |s| && multiset(r) == multiset(s)
  {
    s[i := s[j]][j := s[i]]
  }

  /** The swaps `random.shuffle` makes from position `i` down to 1, with
      `picks(i)` standing for its `randbelow(i + 1)`. */
  function ShuffleDown(s: string, i: nat, picks: nat -> nat): (r: string)
    requires i < |s|
    ensures |r| == |s| && multiset(r) == multiset(s)
    decreases i
  {
    if i == 0 then s else ShuffleDown(Swap(s, i, picks(i) % (i + 1)), i - 1, picks)
  }

  /** `random.shuffle` on a list of characters. */
  function Shuffled(s: string, picks: nat -> nat): (r: string)
    ensures |r| == |s| && multiset(r) == multiset(s)
  {
    if s == [] then s else ShuffleDown(s, |s| - 1, picks)
  }

  /** `generate_puzzle(player, iteration, difficulty)` */
  function GeneratePuzzle(iteration: int, difficulty: int, picks: nat -> nat): Puzzle {
    var target := Repeat(CHAR_FILL, difficulty) + Repeat(CHAR_EMPTY, MATRIX_LENGTH - difficulty);
    Puzzle(iteration, false, false, false, None, Shuffled(target, picks), difficulty, Repeat(CHAR_EMPTY, MATRIX_LENGTH))
  }

  /** The unshuffled target: `max(difficulty, 0)` filled cells and
      `max(16 - difficulty, 0)` empty ones. */
  lemma TargetCells(difficulty: int)
    ensures var fills: nat := if difficulty < 0 then 0 else difficulty;
      var empties: nat := if MATRIX_LENGTH - difficulty < 0 then 0 else MATRIX_LENGTH - difficulty;
      multiset(Repeat(CHAR_FILL, difficulty) + Repeat(CHAR_EMPTY, MATRIX_LENGTH - difficulty)) ==
        multiset{}[CHAR_FILL := fills][CHAR_EMPTY := empties]
  {
    var fills: nat := if difficulty < 0 then 0 else difficulty;
    var empties: nat := if MATRIX_LENGTH - difficulty < 0 then 0 else MATRIX_LENGTH - difficulty;
    MultisetOfRepeat(CHAR_FILL, fills);
    MultisetOfRepeat(CHAR_EMPTY, empties);
    var f := Repeat(CHAR_FILL, difficulty);
    var e := Repeat(CHAR_EMPTY, MATRIX_LENGTH - difficulty);
    assert f == Repeat(CHAR_FILL, fills);
    assert e == Repeat(CHAR_EMPTY, empties);
    assert multiset(f + e) == multiset(f) + multiset(e);
  }

  /** The initial matrix is 16 empty cells. For a difficulty from 0 to 16
      the target is 16 cells of which exactly `difficulty` are filled and
      the rest empty; a larger difficulty gives that many filled cells, and
      a negative one `16 - difficulty` empty cells. */
  lemma GeneratedPuzzle(iteration: int, difficulty: int, picks: nat -> nat)
    ensures var p := GeneratePuzzle(iteration, difficulty, picks);
      |p.matrix| == MATRIX_LENGTH && (forall i :: 0 <= i < |p.matrix| ==> p.matrix[i] == CHAR_EMPTY) &&
      (0 <= difficulty <= MATRIX_LENGTH ==>
        |p.target| == MATRIX_LENGTH &&
        multiset(p.target) == multiset{}[CHAR_FILL := difficulty][CHAR_EMPTY := MATRIX_LENGTH - difficulty]) &&
      (difficulty > MATRIX_LENGTH ==> multiset(p.target) == multiset{}[CHAR_FILL := difficulty]) &&
      (difficulty < 0 ==> multiset(p.target) == multiset{}[CHAR_EMPTY := MATRIX_LENGTH - difficulty]) &&
      p.iteration == iteration && p.difficulty == difficulty && !p.isCompleted && p.isSuccessful.None?
  {
    TargetCells(difficulty);
    var p := GeneratePuzzle(iteration, difficulty, picks);
    assert multiset{}[CHAR_FILL := 0] == multiset{};
    assert multiset{}[CHAR_EMPTY := 0] == multiset{};
    if 0 <= difficulty <= MATRIX_LENGTH {
      assert |p.target| == |multiset(p.target)| == MATRIX_LENGTH;
    }
  }

  // ---- cells --------------------------------------------------------------------

  /** `fill_cell` on a matrix: `matrix[pos] = CHAR_FILL`, with Python's
      indexing. */
  function Filled(matrix: string, pos: int): (r: Result<string>)
    ensures r.Ok? <==> -|matrix| <= pos < |matrix|
    ensures r.Err? ==> r.error == IndexError
    ensures r.Ok? ==> var k := PyIndex(|matrix|, pos).value;
      |r.value| == |matrix| && r.value[k] == CHAR_FILL &&
      forall j :: 0 <= j < |matrix| && j != k ==> r.value[j] == matrix[j]
  {
    match PyIndex(|matrix|, pos)
    case None => Err(IndexError)
    case Some(k) => Ok(matrix[k := CHAR_FILL])
  }

  /** `validate_cell(puzzle, pos)` */
  function ValidateCell(matrix: string, target: string, pos: int): Result<Option<bool>> {
    match PyAt(matrix, pos)
    case Err(e) => Err(e)
    case Ok(c) =>
      if c != CHAR_FILL then Ok(None)
      else match PyAt(target, pos)
        case Err(e) => Err(e)
        case Ok(t) => Ok(Some(c == t))
  }

  /** An unfilled cell has no verdict; a filled one is right exactly when
      the target cell is filled; only an index outside a string fails. */
  lemma ValidateCellMeans(matrix: string, target: string, pos: nat)
    ensures var r := ValidateCell(matrix, target, pos);
      (r.Err? <==> pos >= |matrix| || (matrix[pos] == CHAR_FILL && pos >= |target|)) &&
      (r.Err? ==> r.error == IndexError) &&
      (r.Ok? ==> (r.value.None? <==> matrix[pos] != CHAR_FILL)) &&
      (r.Ok? && r.value.Some? ==> r.value.value == (target[pos] == CHAR_FILL))
  {
  }

  /** Filling a cell and validating it reports whether the target has it. */
  lemma FillThenValidate(matrix: string, target: string, pos: nat)
    requires pos < |matrix| && pos < |target|
    ensures ValidateCell(Filled(matrix, pos).value, target, pos) == Ok(Some(target[pos] == CHAR_FILL))
  {
  }

  // ---- the whole puzzle -------------------------------------------------------------

  /** The verdicts of cells `0 .. n - 1`, failing at the first bad index. */
  function Validated(matrix: string, target: string, n: nat): Result<seq<Option<bool>>> {
    if n == 0 then Ok([])
    else match Validated(matrix, target, n - 1)
      case Err(e) => Err(e)
      case Ok(v) =>
        match ValidateCell(matrix, target, n - 1)
        case Err(e) => Err(e)
        case Ok(c) => Ok(v + [c])
  }

  /** `validated.count(True)` */
  function CountTrue(v: seq<Option<bool>>): nat {
    if v == [] then 0 else CountTrue(v[..|v| - 1]) + (if v[|v| - 1] == Some(true) then 1 else 0)
  }

  /** The cells among `0 .. n - 1` filled in both the matrix and the target. */
  function Hits(matrix: string, target: string, n: nat): nat
    requires n <= |matrix| && n <= |target|
  {
    if n == 0 then 0 else Hits(matrix, target, n - 1) + (if matrix[n - 1] == CHAR_FILL && target[n - 1] == CHAR_FILL then 1 else 0)
  }

  /** `validate_puzzle(puzzle)`: solved, and the verdict of every cell. */
  function ValidatePuzzle(p: Puzzle): Result<(bool, seq<Option<bool>>)> {
    match Validated(p.matrix, p.target, MATRIX_LENGTH)
    case Err(e) => Err(e)
    case Ok(v) => Ok((CountTrue(v) == p.difficulty, v))
  }

  lemma {:induction false} ValidatedMeans(matrix: string, target: string, n: nat)
    requires n <= |target|
    ensures var r := Validated(matrix, target, n);
      (r.Ok? <==> n <= |matrix|) && (r.Err? ==> r.error == IndexError) &&
      (r.Ok? ==>
        |r.value| == n && CountTrue(r.value) == Hits(matrix, target, n) &&
        forall i :: 0 <= i < n ==> r.value[i] == ValidateCell(matrix, target, i).value)
  {
    if n > 0 {
      ValidatedMeans(matrix, target, n - 1);
      ValidateCellMeans(matrix, target, n - 1);
      var r := Validated(matrix, target, n);
      if r.Ok? {
        var v := Validated(matrix, target, n - 1).value;
        assert r.value == v + [ValidateCell(matrix, target, n - 1).value];
        assert r.value[..n - 1] == v;
      }
    }
  }

  /** With a full-length target, the puzzle can be validated exactly when
      the matrix has all 16 cells; it is solved exactly when the cells
      filled in both number `difficulty`, however many other cells are
      filled. */
  lemma ValidatePuzzleMeans(p: Puzzle)
    requires |p.target| >= MATRIX_LENGTH
    ensures var r := ValidatePuzzle(p);
      (r.Ok? <==> |p.matrix| >= MATRIX_LENGTH) && (r.Err? ==> r.error == IndexError) &&
      (r.Ok? ==> |r.value.1| == MATRIX_LENGTH && (r.value.0 <==> Hits(p.matrix, p.target, MATRIX_LENGTH) == p.difficulty))
  {
    ValidatedMeans(p.matrix, p.target, MATRIX_LENGTH);
  }

  // ---- the response -------------------------------------------------------------------

  /** `"".join(v)` on a decoded value: a string is joined from its own
      characters, a list must hold strings only. */
  function JoinValue(v: Value): Result<string> {
    match v
    case Str(s) => Ok(s)
    case Arr(items) => JoinItems(items)
    case Obj(_) => Err(Unsupported)
    case _ => Err(TypeError)
  }

  function JoinItems(items: seq<Value>): (r: Result<string>)
    ensures r.Err? ==> r.error == TypeError
  {
    if items == [] then Ok("")
    else match JoinItems(items[..|items| - 1])
      case Err(e) => Err(e)
      case Ok(s) => if items[|items| - 1].Str? then Ok(s + items[|items| - 1].s) else Err(TypeError)
  }

  /** A list of one-character strings joins to those characters. */
  lemma {:induction false} JoinCells(cells: string)
    ensures JoinItems(seq(|cells|, i requires 0 <= i < |cells| => Str([cells[i]]))) == Ok(cells)
  {
    if cells != [] {
      var n := |cells| - 1;
      JoinCells(cells[..n]);
      var items := seq(|cells|, i requires 0 <= i < |cells| => Str([cells[i]]));
      assert items[..n] == seq(n, i requires 0 <= i < n => Str([cells[..n][i]]));
      assert cells[..n] + [cells[n]] == cells;
    }
  }

  /** `Game.validate_response(puzzle, response, timeout_happened)` on puzzle
      `k`; the timeout flag is not used. */
  function ValidateResponseSpec(st: State, k: nat, response: Dict, timeout: bool): (State, Result<Reply>)
    requires k < |st.puzzles|
  {
    var p := st.puzzles[k];
    if "solution" !in response then (st, Err(KeyError))
    else match JoinValue(response["solution"])
      case Err(e) => (st, Err(e))
      case Ok(matrix) =>
        var p1 := p.(matrix := matrix);
        var movesCount := Count(matrix, CHAR_FILL);
        match ValidatePuzzle(p1)
        case Err(e) => (st.(puzzles := st.puzzles[k := p1]), Err(e))
        case Ok(res) =>
          var p2 := p1.(isSuccessful := Some(res.0), isCompleted := true, isSkipped := movesCount == 0);
          (State(st.numCompleted + 1, st.numSolved + (if res.0 then 1 else 0), st.puzzles[k := p2]),
           Ok(Reply(res.0, true, res.1)))
  }

  /** A full-length answer stores the joined matrix, completes the puzzle
      with its verdict, marks it skipped exactly when no cell is filled, and
      counts it; a missing `solution` changes nothing. */
  lemma ValidateResponseMeans(st: State, k: nat, response: Dict, timeout: bool)
    requires k < |st.puzzles| && |st.puzzles[k].target| >= MATRIX_LENGTH
    ensures var (st1, r) := ValidateResponseSpec(st, k, response, timeout);
      var p := st1.puzzles[k];
      |st1.puzzles| == |st.puzzles| && (forall j :: 0 <= j < |st.puzzles| && j != k ==> st1.puzzles[j] == st.puzzles[j]) &&
      ("solution" !in response ==> st1 == st && r == Err(KeyError)) &&
      (r.Ok? ==>
        JoinValue(response["solution"]) == Ok(p.matrix) && |p.matrix| >= MATRIX_LENGTH &&
        p == st.puzzles[k].(matrix := p.matrix, isCompleted := true, isSuccessful := p.isSuccessful, isSkipped := p.isSkipped) &&
        (p.isSkipped <==> CHAR_FILL !in p.matrix) &&
        p.isSuccessful == Some(r.value.responseCorrect) &&
        (r.value.responseCorrect <==> Hits(p.matrix, p.target, MATRIX_LENGTH) == p.difficulty) &&
        r.value.responseFinal &&
        st1.numCompleted == st.numCompleted + 1 &&
        st1.numSolved == st.numSolved + (if r.value.responseCorrect then 1 else 0)) &&
      ("solution" in response && JoinValue(response["solution"]).Ok? ==>
        (r.Ok? <==> |JoinValue(response["solution"]).value| >= MATRIX_LENGTH))
  {
    if "solution" in response && JoinValue(response["solution"]).Ok? {
      var m := JoinValue(response["solution"]).value;
      ValidatePuzzleMeans(st.puzzles[k].(matrix := m));
    }
  }

  /** The number of completed puzzles, and of completed successful ones. */
  function Ended(s: seq<Puzzle>, solvedOnly: bool): nat {
    if s == [] then 0
    else Ended(s[..|s| - 1], solvedOnly) + (if s[|s| - 1].isCompleted && (!solvedOnly || s[|s| - 1].isSuccessful == Some(true)) then 1 else 0)
  }

  function EndedAs(p: Puzzle, solvedOnly: bool): nat {
    if p.isCompleted && (!solvedOnly || p.isSuccessful == Some(true)) then 1 else 0
  }

  lemma {:induction false} EndedUpdate(s: seq<Puzzle>, k: nat, p: Puzzle, solvedOnly: bool)
    requires k < |s|
    ensures Ended(s[k := p], solvedOnly) == Ended(s, solvedOnly) - EndedAs(s[k], solvedOnly) + EndedAs(p, solvedOnly)
  {
    var n := |s| - 1;
    if k < n {
      EndedUpdate(s[..n], k, p, solvedOnly);
      assert s[k := p][..n] == s[..n][k := p];
    } else {
      assert s[k := p][..n] == s[..n];
    }
  }

  lemma EndedAppend(s: seq<Puzzle>, p: Puzzle, solvedOnly: bool)
    ensures Ended(s + [p], solvedOnly) == Ended(s, solvedOnly) + EndedAs(p, solvedOnly)
  {
    assert (s + [p])[..|s|] == s;
  }

  /** The counters agree with the puzzles. */
  predicate Wf(st: State) {
    st.numCompleted == Ended(st.puzzles, false) && st.numSolved == Ended(st.puzzles, true)
  }

  /** On an open puzzle, as the `live_puzzles` protocol guarantees, a
      response keeps the counters in step with the puzzles. */
  lemma ValidateKeepsWf(st: State, k: nat, response: Dict, timeout: bool)
    requires Wf(st) && k < |st.puzzles| && !st.puzzles[k].isCompleted
    ensures Wf(ValidateResponseSpec(st, k, response, timeout).0)
  {
    var st1 := ValidateResponseSpec(st, k, response, timeout).0;
    if st1 != st {
      EndedUpdate(st.puzzles, k, st1.puzzles[k], false);
      EndedUpdate(st.puzzles, k, st1.puzzles[k], true);
    }
  }

  class Game {
    var numCompleted: int
    var numSolved: int
    var puzzles: seq<Puzzle>

    function Snapshot(): State reads this {
      State(numCompleted, numSolved, puzzles)
    }

    constructor()
      ensures Snapshot() == State(0, 0, []) && Wf(Snapshot())
    {
      numCompleted := 0;
      numSolved := 0;
      puzzles := [];
    }

    /** `Game.new_trial`: a new puzzle at the session's difficulty. */
    method NewTrial(iteration: int, difficulty: int, picks: nat -> nat) returns (k: nat)
      modifies this
      ensures puzzles == old(puzzles) + [GeneratePuzzle(iteration, difficulty, picks)] && k == |old(puzzles)|
      ensures numCompleted == old(numCompleted) && numSolved == old(numSolved)
      ensures old(Wf(Snapshot())) ==> Wf(Snapshot())
    {
      var p := GeneratePuzzle(iteration, difficulty, picks);
      EndedAppend(puzzles, p, false);
      EndedAppend(puzzles, p, true);
      puzzles := puzzles + [p];
      k := |puzzles| - 1;
    }

    /** `fill_cell(puzzle, pos)` on puzzle `k`. */
    method FillCell(k: nat, pos: int) returns (r: Outcome)
      requires k < |puzzles|
      modifies this
      ensures var f := Filled(old(puzzles[k].matrix), pos);
        (r.Pass? <==> f.Ok?) && (r.Fail? ==> r.error == IndexError) &&
        puzzles == (if f.Ok? then old(puzzles)[k := old(puzzles[k]).(matrix := f.value)] else old(puzzles))
      ensures numCompleted == old(numCompleted) && numSolved == old(numSolved)
    {
      var m := puzzles[k].matrix;
      var i := PyIndex(|m|, pos);
      if i.None? {
        return Fail(IndexError);
      }
      puzzles := puzzles[k := puzzles[k].(matrix := m[i.value := CHAR_FILL])];
      return Pass;
    }

    /** `Game.validate_response` on puzzle `k`. */
    method ValidateResponse(k: nat, response: Dict, timeout: bool) returns (r: Result<Reply>)
      requires k < |puzzles|
      modifies this
      ensures (Snapshot(), r) == ValidateResponseSpec(old(Snapshot()), k, response, timeout)
    {
      if "solution" !in response {
        return Err(KeyError);
      }
      var joined := JoinValue(response["solution"]);
      if joined.Err? {
        return Err(joined.error);
      }
      ghost var before := puzzles;
      var p := puzzles[k].(matrix := joined.value);
      puzzles := puzzles[k := p];
      var movesCount := Count(p.matrix, CHAR_FILL);
      var res := ValidatePuzzle(p);
      if res.Err? {
        return Err(res.error);
      }
      var solved := res.value.0;
      var validated := res.value.1;
      p := p.(isSuccessful := Some(solved));
      p := p.(isCompleted := true);
      p := p.(isSkipped := movesCount == 0);
      puzzles := puzzles[k := p];
      assert puzzles == before[k := p];
      numCompleted := numCompleted + 1;
      if solved {
        numSolved := numSolved + 1;
      }
      return Ok(Reply(solved, true, validated));
    }
  }
}
