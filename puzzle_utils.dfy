/** The sliding-tile puzzle engine of `common/puzzle_utils.py`: a flat board
    of `size*size` cells holding the tiles 1..size*size-1 and one empty cell.
    Boards are arrays changed in place, as the Python list is. */
module PuzzleUtils {
  import opened Wrappers

  /** A board cell: the empty cell (Python `None`) or a numbered tile. */
  datatype Cell = Free | Tile(n: int)

  /** The solved board of `total` cells: tiles 1..total-1 in order, then the
      empty cell. */
  function Solved(total: nat): seq<Cell> {
    seq(total, i requires 0 <= i < total => if i == total - 1 then Free else Tile(i + 1))
  }

  /** A board reachable from the solved one: right length, same cells. */
  ghost predicate IsPuzzleBoard(b: seq<Cell>, size: int) {
    size > 0 && |b| == size * size && multiset(b) == multiset(Solved(size * size))
  }

  method InitBoard(size: int) returns (r: Result<array<Cell>>)
    ensures r.Err? <==> size == 0
    ensures r.Err? ==> r.error == IndexError
    ensures r.Ok? ==> fresh(r.value) && r.value[..] == Solved(size * size)
  {
    var total := size * size;
    if total == 0 {
      // `board[-1] = None` on an empty list
      return Err(IndexError);
    }
    var board := new Cell[total];
    var i := 0;
    while i < total
      invariant 0 <= i <= total
      invariant forall k :: 0 <= k < i ==> board[k] == Tile(k + 1)
    {
      board[i] := Tile(i + 1);
      i := i + 1;
    }
    board[total - 1] := Free;
    assert board[..] == Solved(total);
    return Ok(board);
  }

  // ---- neighbours --------------------------------------------------------

  predicate OnBoard(size: int, p: int) { 0 <= p < size * size }

  /** Orthogonal adjacency of two cells of a `size` x `size` board. */
  predicate Adjacent(size: int, a: int, b: int)
    requires size > 0
  {
    OnBoard(size, a) && OnBoard(size, b) &&
    var ra, ca, rb, cb := a / size, a % size, b / size, b % size;
    (ra == rb && (ca - cb == 1 || cb - ca == 1)) ||
    (ca == cb && (ra - rb == 1 || rb - ra == 1))
  }

  /** `getDirections`: the neighbours of `srcpos` in the order up, down,
      left, right. Python's `//` and `%` agree with Dafny's for `size > 0`. */
  function GetDirections(size: int, srcpos: int): seq<int>
    requires size > 0
  {
    var r, c := srcpos / size, srcpos % size;
    (if r > 0 then [(r - 1) * size + c] else []) +
    (if r < size - 1 then [(r + 1) * size + c] else []) +
    (if c > 0 then [r * size + (c - 1)] else []) +
    (if c < size - 1 then [r * size + (c + 1)] else [])
  }

  lemma MulAtLeast(d: int, size: int)
    requires d >= 1 && size > 0
    ensures d * size >= size
  {
    if d > 1 {
      MulAtLeast(d - 1, size);
      assert d * size == (d - 1) * size + size;
    }
  }

  lemma MulMonotone(a: int, b: int, size: int)
    requires a <= b && size > 0
    ensures a * size <= b * size
  {
    if a < b {
      MulAtLeast(b - a, size);
      assert (b - a) * size == b * size - a * size;
    }
  }

  /** Row and column of the cell `r * size + c`. */
  lemma RowCol(size: int, r: int, c: int)
    requires size > 0 && 0 <= c < size
    ensures (r * size + c) / size == r && (r * size + c) % size == c
  {
    var p := r * size + c;
    var q, m := p / size, p % size;
    assert p == q * size + m;
    if r > q {
      MulAtLeast(r - q, size);
    } else if r < q {
      MulAtLeast(q - r, size);
    }
  }

  lemma OnBoardRowCol(size: int, p: int)
    requires size > 0
    ensures OnBoard(size, p) <==> 0 <= p / size < size
    ensures p == (p / size) * size + p % size && 0 <= p % size < size
  {
    var q, m := p / size, p % size;
    assert p == q * size + m;
    if q < 0 {
      MulMonotone(q, -1, size);
    } else if q >= size {
      MulMonotone(size, q, size);
    } else {
      MulMonotone(0, q, size);
      MulMonotone(q, size - 1, size);
      assert (size - 1) * size == size * size - size;
    }
  }

  /** A cell is `r' * size + c'` exactly when its row is `r'` and its column
      `c'`. */
  lemma CellIs(size: int, q: int, r': int, c': int)
    requires size > 0 && 0 <= c' < size
    ensures q == r' * size + c' <==> q / size == r' && q % size == c'
  {
    RowCol(size, r', c');
    OnBoardRowCol(size, q);
  }

  /** The listed neighbours by row and column. */
  lemma InDirections(size: int, p: int, q: int)
    requires size > 0 && OnBoard(size, p)
    ensures var r, c, rq, cq := p / size, p % size, q / size, q % size;
      q in GetDirections(size, p) <==>
        (r > 0 && rq == r - 1 && cq == c) || (r < size - 1 && rq == r + 1 && cq == c) ||
        (c > 0 && rq == r && cq == c - 1) || (c < size - 1 && rq == r && cq == c + 1)
  {
    var r, c := p / size, p % size;
    OnBoardRowCol(size, p);
    CellIs(size, q, r - 1, c);
    CellIs(size, q, r + 1, c);
    if c > 0 { CellIs(size, q, r, c - 1); }
    if c < size - 1 { CellIs(size, q, r, c + 1); }
    var up := if r > 0 then [(r - 1) * size + c] else [];
    var down := if r < size - 1 then [(r + 1) * size + c] else [];
    var left := if c > 0 then [r * size + (c - 1)] else [];
    var right := if c < size - 1 then [r * size + (c + 1)] else [];
    assert GetDirections(size, p) == up + down + left + right;
  }

  /** Every listed neighbour is an adjacent cell and every adjacent cell is
      listed. */
  lemma DirectionsAreNeighbours(size: int, p: int, q: int)
    requires size > 0 && OnBoard(size, p)
    ensures q in GetDirections(size, p) <==> Adjacent(size, p, q)
  {
    InDirections(size, p, q);
    OnBoardRowCol(size, p);
    OnBoardRowCol(size, q);
  }

  lemma DirectionsOnBoard(size: int, p: int)
    requires size > 0 && OnBoard(size, p)
    ensures forall q :: q in GetDirections(size, p) ==> OnBoard(size, q) && q != p
  {
    forall q | q in GetDirections(size, p)
      ensures OnBoard(size, q) && q != p
    {
      DirectionsAreNeighbours(size, p, q);
    }
  }

  /** Adjacency is symmetric: `q` neighbours `p` iff `p` neighbours `q`. */
  lemma DirectionsSymmetric(size: int, p: int, q: int)
    requires size > 0 && OnBoard(size, p) && OnBoard(size, q)
    ensures q in GetDirections(size, p) <==> p in GetDirections(size, q)
  {
    DirectionsAreNeighbours(size, p, q);
    DirectionsAreNeighbours(size, q, p);
  }

  /** On a board of side at least 2 a cell has between 2 and 4 neighbours. */
  lemma DirectionsCount(size: int, p: int)
    requires size >= 2 && OnBoard(size, p)
    ensures 2 <= |GetDirections(size, p)| <= 4
  {
    OnBoardRowCol(size, p);
  }

  // ---- moves -------------------------------------------------------------

  /** The board after `moveCell(board, dst, src)`. */
  function Moved(b: seq<Cell>, dst: int, src: int): seq<Cell>
    requires 0 <= dst < |b| && 0 <= src < |b|
  {
    b[dst := b[src]][src := Free]
  }

  method MoveCell(a: array<Cell>, dst: int, src: int)
    requires 0 <= dst < a.Length && 0 <= src < a.Length
    modifies a
    ensures a[..] == Moved(old(a[..]), dst, src)
  {
    a[dst] := a[src];
    a[src] := Free;
  }

  /** `board.index(None)`, raising ValueError when there is no empty cell. */
  function FindFreeCell(b: seq<Cell>): (r: Result<nat>)
    ensures r.Ok? ==> r.value < |b| && b[r.value] == Free && Free !in b[..r.value]
    ensures r.Err? <==> Free !in b
    ensures r.Err? ==> r.error == ValueError
  {
    if b == [] then Err(ValueError)
    else if b[0] == Free then Ok(0)
    else match FindFreeCell(b[1..])
      case Ok(i) => assert b[1..][..i] == b[1..i + 1]; Ok(i + 1)
      case Err(e) => Err(e)
  }

  /** `validateMove`; a negative `dst` indexes from the end, as in Python. */
  function ValidateMove(b: seq<Cell>, size: int, dst: int, src: int): bool
    requires size > 0 && -|b| <= dst < |b|
  {
    var d := if dst < 0 then dst + |b| else dst;
    if b[d] != Free then false else src in GetDirections(size, dst)
  }

  lemma ValidateMoveMeaning(b: seq<Cell>, size: int, dst: int, src: int)
    requires size > 0 && |b| == size * size && OnBoard(size, dst)
    ensures ValidateMove(b, size, dst, src) <==> b[dst] == Free && Adjacent(size, dst, src)
  {
    DirectionsAreNeighbours(size, dst, src);
  }

  /** Moving a cell into the empty one keeps the cells. */
  lemma MovedCells(b: seq<Cell>, dst: int, src: int)
    requires 0 <= dst < |b| && 0 <= src < |b| && src != dst && b[dst] == Free
    ensures multiset(Moved(b, dst, src)) == multiset(b)
  {
    calc {
      multiset(Moved(b, dst, src));
      multiset(b[dst := b[src]]) - multiset{b[src]} + multiset{Free};
      multiset(b) - multiset{Free} + multiset{b[src]} - multiset{b[src]} + multiset{Free};
      multiset(b);
    }
  }

  lemma MoveKeepsCells(b: seq<Cell>, size: int, dst: int, src: int)
    requires IsPuzzleBoard(b, size) && OnBoard(size, dst) && ValidateMove(b, size, dst, src)
    ensures OnBoard(size, src) && src != dst
    ensures IsPuzzleBoard(Moved(b, dst, src), size)
    ensures Moved(b, dst, src)[src] == Free && Moved(b, dst, src)[dst] == b[src]
  {
    assert b[dst] == Free && src in GetDirections(size, dst);
    DirectionsOnBoard(size, dst);
    MovedCells(b, dst, src);
  }

  /** The end of applying a list of moves: the board, the empty cell (the
      last moved position) and whether some move was refused. */
  datatype Applied = Applied(board: seq<Cell>, free: int, outcome: Outcome)

  function ApplyFrom(b: seq<Cell>, size: int, dst: int, moves: seq<int>): (r: Applied)
    requires size > 0 && |b| == size * size && OnBoard(size, dst)
    ensures |r.board| == |b| && OnBoard(size, r.free)
    decreases |moves|
  {
    if moves == [] then Applied(b, dst, Pass)
    else if !ValidateMove(b, size, dst, moves[0]) then Applied(b, dst, Fail(ValueError))
    else
      DirectionsOnBoard(size, dst);
      ApplyFrom(Moved(b, dst, moves[0]), size, moves[0], moves[1..])
  }

  /** `applyMoves` on a board value. */
  function ApplySpec(b: seq<Cell>, size: int, moves: seq<int>): Applied
    requires size > 0 && |b| == size * size
  {
    match FindFreeCell(b)
    case Err(e) => Applied(b, -1, Fail(e))
    case Ok(dst) => ApplyFrom(b, size, dst, moves)
  }

  method ApplyMoves(a: array<Cell>, size: int, moves: seq<int>) returns (r: Outcome)
    requires size > 0 && a.Length == size * size
    modifies a
    ensures a[..] == ApplySpec(old(a[..]), size, moves).board
    ensures r == ApplySpec(old(a[..]), size, moves).outcome
  {
    var found := FindFreeCell(a[..]);
    if found.Err? {
      return Fail(found.error);
    }
    var dst: int := found.value;
    var i := 0;
    while i < |moves|
      invariant 0 <= i <= |moves| && OnBoard(size, dst)
      invariant ApplyFrom(a[..], size, dst, moves[i..]) == ApplySpec(old(a[..]), size, moves)
    {
      var src := moves[i];
      assert moves[i..][0] == src && moves[i..][1..] == moves[i + 1..];
      if !ValidateMove(a[..], size, dst, src) {
        return Fail(ValueError);
      }
      DirectionsOnBoard(size, dst);
      MoveCell(a, dst, src);
      dst := src;
      i := i + 1;
    }
    return Pass;
  }

  /** Applying `m1 + m2` is applying `m1` and, unless a move of `m1` was
      refused (leaving the moves before it applied), then `m2`. */
  lemma {:induction false} ApplySplit(b: seq<Cell>, size: int, dst: int, m1: seq<int>, m2: seq<int>)
    requires size > 0 && |b| == size * size && OnBoard(size, dst)
    decreases |m1|
    ensures ApplyFrom(b, size, dst, m1 + m2) ==
      var p := ApplyFrom(b, size, dst, m1);
      if p.outcome.Fail? then p else ApplyFrom(p.board, size, p.free, m2)
  {
    if m1 != [] {
      assert (m1 + m2)[0] == m1[0] && (m1 + m2)[1..] == m1[1..] + m2;
      if ValidateMove(b, size, dst, m1[0]) {
        DirectionsOnBoard(size, dst);
        ApplySplit(Moved(b, dst, m1[0]), size, m1[0], m1[1..], m2);
      }
    } else {
      assert m1 + m2 == m2;
    }
  }

  /** Applied moves keep the board a puzzle board, the only refused outcome is
      ValueError, and the empty cell ends at the last moved position. */
  lemma {:induction false} ApplyKeepsBoard(b: seq<Cell>, size: int, dst: int, moves: seq<int>)
    requires IsPuzzleBoard(b, size) && OnBoard(size, dst) && b[dst] == Free
    ensures var r := ApplyFrom(b, size, dst, moves);
      IsPuzzleBoard(r.board, size) && r.board[r.free] == Free &&
      (r.outcome.Fail? ==> r.outcome.error == ValueError) &&
      (r.outcome.Pass? && moves != [] ==> r.free == moves[|moves| - 1])
    decreases |moves|
  {
    if moves != [] && ValidateMove(b, size, dst, moves[0]) {
      MoveKeepsCells(b, size, dst, moves[0]);
      ApplyKeepsBoard(Moved(b, dst, moves[0]), size, moves[0], moves[1..]);
    }
  }

  // ---- shuffling ---------------------------------------------------------

  /** `[s for s in nbours if s != prev]`. */
  function Exclude(nbours: seq<int>, prev: Option<int>): (r: seq<int>)
    ensures forall s :: s in r <==> s in nbours && prev != Some(s)
  {
    if nbours == [] then []
    else (if prev == Some(nbours[0]) then [] else [nbours[0]]) + Exclude(nbours[1..], prev)
  }

  lemma {:induction false} ExcludeAbsent(nbours: seq<int>, prev: Option<int>)
    requires prev.Some? ==> prev.value !in nbours
    ensures Exclude(nbours, prev) == nbours
  {
    if nbours != [] {
      ExcludeAbsent(nbours[1..], prev);
    }
  }

  /** The shuffle with `picks[i]` standing for `random.choice` at step `i`:
      the chosen neighbour is `nbours[picks[i] % |nbours|]`. */
  function ShuffleFrom(b: seq<Cell>, size: int, dst: int, picks: seq<nat>): (r: Applied)
    requires size > 0 && |b| == size * size && OnBoard(size, dst)
    ensures |r.board| == |b| && OnBoard(size, r.free)
    decreases |picks|
  {
    if picks == [] then Applied(b, dst, Pass)
    else
      var nbours := GetDirections(size, dst);
      if nbours == [] then Applied(b, dst, Fail(IndexError))  // random.choice([])
      else
        var k := picks[0] % |nbours|;
        assert 0 <= k < |nbours|;
        var src := nbours[k];
        DirectionsOnBoard(size, dst);
        assert OnBoard(size, src);
        ShuffleFrom(Moved(b, dst, src), size, src, picks[1..])
  }

  /** One step of the shuffle: the pick chooses a neighbour, whose tile moves
      into the empty cell. */
  lemma ShuffleStep(b: seq<Cell>, size: int, dst: int, picks: seq<nat>, k: nat)
    requires size > 0 && |b| == size * size && OnBoard(size, dst) && picks != []
    requires GetDirections(size, dst) != [] && k == picks[0] % |GetDirections(size, dst)|
    ensures OnBoard(size, GetDirections(size, dst)[k])
    ensures ShuffleFrom(b, size, dst, picks) ==
      ShuffleFrom(Moved(b, dst, GetDirections(size, dst)[k]), size, GetDirections(size, dst)[k], picks[1..])
  {
    DirectionsOnBoard(size, dst);
  }

  /** `shuffleBoard` on a board value. */
  function ShuffleSpec(b: seq<Cell>, size: int, picks: seq<nat>): Applied
    requires size > 0 && |b| == size * size
  {
    match FindFreeCell(b)
    case Err(e) => Applied(b, -1, Fail(e))
    case Ok(dst) => ShuffleFrom(b, size, dst, picks)
  }

  /** One pass of `shuffleBoard`'s loop with the empty cell at `dst` and the
      last moved position `src`: it moves the chosen neighbour and returns
      its position, or fails when there is none. */
  method ShuffleOnce(a: array<Cell>, size: int, dst: int, src: Option<int>, picks: seq<nat>) returns (r: Outcome, s: int)
    requires size > 0 && a.Length == size * size && OnBoard(size, dst) && picks != []
    requires src == None || src == Some(dst)
    modifies a
    ensures OnBoard(size, s)
    ensures r.Fail? ==> a[..] == old(a[..]) && ShuffleFrom(old(a[..]), size, dst, picks) == Applied(a[..], dst, r)
    ensures r.Pass? ==> ShuffleFrom(old(a[..]), size, dst, picks) == ShuffleFrom(a[..], size, s, picks[1..])
  {
    var dirs := GetDirections(size, dst);
    DirectionsOnBoard(size, dst);
    ExcludeAbsent(dirs, src);
    var nbours := Exclude(dirs, src);
    if nbours == [] {
      return Fail(IndexError), dst;
    }
    var k := picks[0] % |nbours|;
    ShuffleStep(a[..], size, dst, picks, k);
    s := nbours[k];
    MoveCell(a, dst, s);
    r := Pass;
  }

  method ShuffleBoard(a: array<Cell>, size: int, numMoves: int, picks: seq<nat>) returns (r: Outcome)
    requires size > 0 && a.Length == size * size && |picks| >= numMoves
    modifies a
    ensures var n := if numMoves < 0 then 0 else numMoves;
      a[..] == ShuffleSpec(old(a[..]), size, picks[..n]).board &&
      r == ShuffleSpec(old(a[..]), size, picks[..n]).outcome
  {
    var n := if numMoves < 0 then 0 else numMoves;
    ghost var spec := ShuffleSpec(a[..], size, picks[..n]);
    var found := FindFreeCell(a[..]);
    if found.Err? {
      return Fail(found.error);
    }
    var dst: int := found.value;
    var src: Option<int> := None;
    var i := 0;
    while i < n
      invariant 0 <= i <= n && OnBoard(size, dst)
      invariant src == None || src == Some(dst)
      invariant ShuffleFrom(a[..], size, dst, picks[i..n]) == spec
    {
      var step, s := ShuffleOnce(a, size, dst, src, picks[i..n]);
      if step.Fail? {
        return step;
      }
      assert picks[i..n][1..] == picks[i + 1..n];
      dst := s;
      src := Some(s);
      i := i + 1;
    }
    return Pass;
  }

  /** The positions the shuffle moves, which depend on the positions only. */
  function ShuffleMoves(size: int, dst: int, picks: seq<nat>): (m: seq<int>)
    requires size > 0 && OnBoard(size, dst)
    decreases |picks|
  {
    if picks == [] then []
    else
      var nbours := GetDirections(size, dst);
      if nbours == [] then []
      else
        var k := picks[0] % |nbours|;
        assert 0 <= k < |nbours|;
        var src := nbours[k];
        DirectionsOnBoard(size, dst);
        assert OnBoard(size, src);
        [src] + ShuffleMoves(size, src, picks[1..])
  }

  /** On a board of side at least 2 the shuffle never fails: it makes exactly
      one valid move per pick, i.e. it is `applyMoves` of the chosen moves. */
  lemma {:induction false} ShuffleIsValidMoves(b: seq<Cell>, size: int, dst: int, picks: seq<nat>)
    requires size >= 2 && |b| == size * size && OnBoard(size, dst) && b[dst] == Free
    ensures |ShuffleMoves(size, dst, picks)| == |picks|
    ensures ShuffleFrom(b, size, dst, picks) == ApplyFrom(b, size, dst, ShuffleMoves(size, dst, picks))
    decreases |picks|
  {
    if picks != [] {
      DirectionsCount(size, dst);
      var nbours := GetDirections(size, dst);
      var k := picks[0] % |nbours|;
      assert 0 <= k < |nbours|;
      var src := nbours[k];
      DirectionsOnBoard(size, dst);
      assert OnBoard(size, src);
      var m := ShuffleMoves(size, dst, picks);
      assert m[0] == src && m[1..] == ShuffleMoves(size, src, picks[1..]);
      assert ValidateMove(b, size, dst, src);
      ShuffleIsValidMoves(Moved(b, dst, src), size, src, picks[1..]);
    }
  }

  /** On a 1 x 1 board the only cell has no neighbour: any move fails. */
  lemma ShuffleSingleCell(b: seq<Cell>, picks: seq<nat>)
    requires |b| == 1 && picks != []
    ensures ShuffleFrom(b, 1, 0, picks).outcome == Fail(IndexError)
  {
  }

  /** The neighbours of the bottom-right and the top-right cell of a
      2 x 2 board. */
  lemma TwoByTwo()
    ensures GetDirections(2, 3) == [1, 2] && GetDirections(2, 1) == [3, 0]
  {
    assert 3 / 2 == 1 && 3 % 2 == 1 && 1 / 2 == 0 && 1 % 2 == 1;
  }

  /** The solved 2 x 2 board, cell by cell. */
  predicate IsSolvedTwo(b: seq<Cell>) {
    |b| == 4 && b[0] == Tile(1) && b[1] == Tile(2) && b[2] == Tile(3) && b[3] == Free
  }

  /** As written the exclusion in `shuffleBoard` compares with the position
      just moved into, which is the empty cell itself and never a
      neighbour, so the shuffle may move a tile straight back: on the solved
      2 x 2 board two first choices return to the solved board. */
  lemma ShuffleUndoes(b: seq<Cell>, picks: seq<nat>)
    requires IsSolvedTwo(b) && |picks| == 2 && picks[0] == 0 && picks[1] == 0
    ensures b == Solved(4)
    ensures ShuffleMoves(2, 3, picks) == [1, 3]
    ensures ShuffleSpec(b, 2, picks) == Applied(b, 3, Pass)
  {
    TwoByTwo();
    assert FindFreeCell(b) == Ok(3) by {
      assert b[0] != Free && b[1..][0] != Free && b[2..][0] != Free && b[3..][0] == Free;
      assert b[1..][1..] == b[2..] && b[2..][1..] == b[3..];
    }
    var b1 := Moved(b, 3, 1);
    assert ShuffleFrom(b, 2, 3, picks) == ShuffleFrom(b1, 2, 1, picks[1..]);
    assert ShuffleFrom(b1, 2, 1, picks[1..]) == ShuffleFrom(Moved(b1, 1, 3), 2, 3, picks[2..]);
    assert Moved(b1, 1, 3) == b;
    assert ShuffleMoves(2, 3, picks) == [1] + ShuffleMoves(2, 1, picks[1..]);
    assert ShuffleMoves(2, 1, picks[1..]) == [3] + ShuffleMoves(2, 3, picks[2..]);
  }

  /** The shuffle as its comment intends: the neighbour the empty cell
      came from (`prev`) is excluded, so no move undoes the one before. */
  function ShuffleAvoiding(b: seq<Cell>, size: int, dst: int, prev: Option<int>, picks: seq<nat>): (r: Applied)
    requires size > 0 && |b| == size * size && OnBoard(size, dst)
    ensures |r.board| == |b| && OnBoard(size, r.free)
    decreases |picks|
  {
    if picks == [] then Applied(b, dst, Pass)
    else
      var nbours := Exclude(GetDirections(size, dst), prev);
      if nbours == [] then Applied(b, dst, Fail(IndexError))
      else
        var k := picks[0] % |nbours|;
        var src := nbours[k];
        DirectionsOnBoard(size, dst);
        assert src in GetDirections(size, dst);
        ShuffleAvoiding(Moved(b, dst, src), size, src, Some(dst), picks[1..])
  }

  /** The positions the intended shuffle moves. */
  function AvoidingMoves(size: int, dst: int, prev: Option<int>, picks: seq<nat>): (m: seq<int>)
    requires size > 0 && OnBoard(size, dst)
    ensures |m| <= |picks|
    decreases |picks|
  {
    if picks == [] then []
    else
      var nbours := Exclude(GetDirections(size, dst), prev);
      if nbours == [] then []
      else
        var k := picks[0] % |nbours|;
        var src := nbours[k];
        DirectionsOnBoard(size, dst);
        assert src in GetDirections(size, dst);
        [src] + AvoidingMoves(size, src, Some(dst), picks[1..])
  }

  /** The intended shuffle never returns the empty cell to where it just
      was: the first move avoids `prev`, and every later move avoids the
      position the empty cell held two moves earlier. */
  lemma {:induction false} AvoidingNeverUndoes(size: int, dst: int, prev: Option<int>, picks: seq<nat>)
    requires size > 0 && OnBoard(size, dst)
    ensures var m := AvoidingMoves(size, dst, prev, picks);
      (m != [] && prev.Some? ==> m[0] != prev.value) &&
      forall i :: 1 <= i < |m| ==> m[i] != (if i == 1 then dst else m[i - 2])
    decreases |picks|
  {
    if picks != [] {
      var nbours := Exclude(GetDirections(size, dst), prev);
      if nbours != [] {
        var k := picks[0] % |nbours|;
        var src := nbours[k];
        DirectionsOnBoard(size, dst);
        assert src in nbours;
        var rest := AvoidingMoves(size, src, Some(dst), picks[1..]);
        AvoidingNeverUndoes(size, src, Some(dst), picks[1..]);
        var m := AvoidingMoves(size, dst, prev, picks);
        assert m == [src] + rest;
        forall i | 1 <= i < |m|
          ensures m[i] != (if i == 1 then dst else m[i - 2])
        {
          assert m[i] == rest[i - 1];
          if i >= 3 {
            assert m[i - 2] == rest[i - 3];
          }
        }
      }
    }
  }

  /** When followed, the intended shuffle is moving the board along its
      moves, and the two first choices on the solved 2 x 2 board no longer
      return to it. */
  lemma {:induction false} AvoidingIsItsMoves(b: seq<Cell>, size: int, dst: int, prev: Option<int>, picks: seq<nat>)
    requires size > 0 && |b| == size * size && OnBoard(size, dst) && b[dst] == Free
    ensures var m := AvoidingMoves(size, dst, prev, picks);
      var r := ShuffleAvoiding(b, size, dst, prev, picks);
      r.outcome == (if |m| == |picks| then Pass else Fail(IndexError)) &&
      r == (var a := ApplyFrom(b, size, dst, m); Applied(a.board, a.free, r.outcome))
    decreases |picks|
  {
    if picks != [] {
      var nbours := Exclude(GetDirections(size, dst), prev);
      if nbours != [] {
        var k := picks[0] % |nbours|;
        var src := nbours[k];
        DirectionsOnBoard(size, dst);
        assert src in GetDirections(size, dst);
        var m := AvoidingMoves(size, dst, prev, picks);
        assert m[0] == src && m[1..] == AvoidingMoves(size, src, Some(dst), picks[1..]);
        assert ValidateMove(b, size, dst, src);
        assert Moved(b, dst, src)[src] == Free;
        AvoidingIsItsMoves(Moved(b, dst, src), size, src, Some(dst), picks[1..]);
      }
    }
  }

  lemma AvoidingDoesNotUndo(b: seq<Cell>, picks: seq<nat>)
    requires IsSolvedTwo(b) && |picks| == 2 && picks[0] == 0 && picks[1] == 0
    ensures AvoidingMoves(2, 3, None, picks) == [1, 0]
    ensures ShuffleAvoiding(b, 2, 3, None, picks).board != b
  {
    TwoByTwo();
    TwoByTwoAvoiding(picks);
    var b1 := Moved(b, 3, 1);
    var b2 := Moved(b1, 1, 0);
    assert ShuffleAvoiding(b, 2, 3, None, picks) == ShuffleAvoiding(b1, 2, 1, Some(3), picks[1..]);
    assert ShuffleAvoiding(b1, 2, 1, Some(3), picks[1..]) == ShuffleAvoiding(b2, 2, 0, Some(1), picks[2..]);
    assert b2[0] == Free;
  }

  /** The moves the intended shuffle makes on the 2 x 2 board. */
  lemma TwoByTwoAvoiding(picks: seq<nat>)
    requires |picks| == 2 && picks[0] == 0 && picks[1] == 0
    ensures Exclude(GetDirections(2, 3), None) == [1, 2] && Exclude(GetDirections(2, 1), Some(3)) == [0]
    ensures AvoidingMoves(2, 3, None, picks) == [1, 0]
  {
    TwoByTwo();
    assert Exclude([1, 2], None) == [1, 2];
    assert Exclude([3, 0], Some(3)) == [0];
    assert AvoidingMoves(2, 3, None, picks) == [1] + AvoidingMoves(2, 1, Some(3), picks[1..]);
    assert AvoidingMoves(2, 1, Some(3), picks[1..]) == [0] + AvoidingMoves(2, 0, Some(1), picks[2..]);
  }

  // ---- solved check ------------------------------------------------------

  /** Cell `i` holds tile `i+1` for every `i` of `s`. */
  predicate InOrder(s: seq<Cell>)
    ensures InOrder(s) <==> forall i :: 0 <= i < |s| ==> s[i] == Tile(i + 1)
  {
    s == [] || (InOrder(s[..|s| - 1]) && s[|s| - 1] == Tile(|s|))
  }

  /** `validateBoard`; `board[-1]` on an empty board raises IndexError. */
  function ValidateBoard(b: seq<Cell>): Result<bool> {
    if b == [] then Err(IndexError) else Ok(b[|b| - 1] == Free && InOrder(b[..|b| - 1]))
  }

  /** The solved board is the one board of its length that `validateBoard`
      accepts. */
  lemma ValidateBoardExactlySolved(b: seq<Cell>)
    requires b != []
    ensures ValidateBoard(b) == Ok(true) <==> b == Solved(|b|)
  {
    if ValidateBoard(b) == Ok(true) {
      assert forall i :: 0 <= i < |b| - 1 ==> b[..|b| - 1][i] == b[i];
    }
    if b == Solved(|b|) {
      assert InOrder(b[..|b| - 1]);
    }
  }

  lemma SolvedIsPuzzleBoard(size: int)
    requires size > 0
    ensures IsPuzzleBoard(Solved(size * size), size)
    ensures ValidateBoard(Solved(size * size)) == Ok(true)
  {
    ValidateBoardExactlySolved(Solved(size * size));
  }
}
