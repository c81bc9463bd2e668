/** The browser twin of the puzzle engine, `demo_puzzle_utils.js`: pure
    functions over a board value, where `null` is the empty cell. */
module PuzzleUtilsJs {
  import opened Wrappers
  import PU = PuzzleUtils

  type Cell = PU.Cell

  /** `board.indexOf(null)`: the first empty cell, or -1. */
  function FindFreeCell(b: seq<Cell>): (r: int)
    ensures r == -1 <==> PU.Free !in b
    ensures r != -1 ==> 0 <= r < |b| && b[r] == PU.Free && PU.Free !in b[..r]
  {
    match PU.FindFreeCell(b)
    case Ok(i) => i
    case Err(_) => -1
  }

  /** JavaScript `%`: the remainder takes the sign of the dividend. */
  function JsRem(a: int, n: int): int
    requires n > 0
  {
    if a >= 0 then a % n else -((-a) % n)
  }

  /** `getDirections` with `Math.floor(srcpos / size)` and JavaScript `%`. */
  function GetDirections(size: int, srcpos: int): seq<int>
    requires size > 0
  {
    var r, c := srcpos / size, JsRem(srcpos, size);
    (if r > 0 then [(r - 1) * size + c] else []) +
    (if r < size - 1 then [(r + 1) * size + c] else []) +
    (if c > 0 then [r * size + (c - 1)] else []) +
    (if c < size - 1 then [r * size + (c + 1)] else [])
  }

  /** For every position that can be on a board the two versions list the
      same neighbours in the same order. */
  lemma DirectionsAgree(size: int, srcpos: int)
    requires size > 0 && srcpos >= 0
    ensures GetDirections(size, srcpos) == PU.GetDirections(size, srcpos)
  {
  }

  /** For negative positions they differ: on a 3 x 3 board JavaScript gives
      [-1, -3] for -1, Python [2, -2]. */
  lemma DirectionsDifferBelowZero()
    ensures GetDirections(3, -1) == [-1, -3]
    ensures PU.GetDirections(3, -1) == [2, -2]
  {
  }

  /** `validateMove`: `board[dst]` outside the board is `undefined`, which
      is `!== null`, so such a move is refused. */
  function ValidateMove(b: seq<Cell>, size: int, dst: int, src: int): bool
    requires size > 0
  {
    if !(0 <= dst < |b|) || b[dst] != PU.Free then false
    else dst in GetDirections(size, src)
  }

  /** On a board of `size*size` cells the browser check equals the server
      check, since adjacency is symmetric. */
  lemma ValidateMoveAgrees(b: seq<Cell>, size: int, dst: int, src: int)
    requires size > 0 && |b| == size * size && PU.OnBoard(size, dst) && PU.OnBoard(size, src)
    ensures ValidateMove(b, size, dst, src) == PU.ValidateMove(b, size, dst, src)
  {
    DirectionsAgree(size, src);
    DirectionsAgree(size, dst);
    PU.DirectionsSymmetric(size, dst, src);
  }

  /** `moveCell`: a new board, `src` emptied and its tile at `dst`. */
  function MoveCell(b: seq<Cell>, dst: int, src: int): (r: seq<Cell>)
    requires 0 <= src < |b|
    ensures |r| == |b| && r[src] == PU.Free
    ensures 0 <= dst < |b| && dst != src ==> r[dst] == b[src]
    ensures forall i :: 0 <= i < |b| && i != src && i != dst ==> r[i] == b[i]
  {
    seq(|b|, i requires 0 <= i < |b| => if i == src then PU.Free else if i == dst then b[src] else b[i])
  }

  /** The browser move and the in-place server move produce the same board. */
  lemma MoveCellAgrees(b: seq<Cell>, dst: int, src: int)
    requires 0 <= dst < |b| && 0 <= src < |b|
    ensures MoveCell(b, dst, src) == PU.Moved(b, dst, src)
  {
  }

  /** `validateBoard`: one flag per cell; the last flag says the last cell is
      empty. On an empty board the write to index -1 leaves the array empty. */
  function ValidateBoard(b: seq<Cell>): (r: seq<bool>)
    ensures |r| == |b|
    ensures forall i :: 0 <= i < |b| - 1 ==> (r[i] <==> b[i] == PU.Tile(i + 1))
    ensures b != [] ==> (r[|b| - 1] <==> b[|b| - 1] == PU.Free)
  {
    var valid := seq(|b|, i requires 0 <= i < |b| => b[i] == PU.Tile(i + 1));
    if b == [] then valid else valid[|b| - 1 := b[|b| - 1] == PU.Free]
  }

  /** Every flag is set exactly when the server's `validateBoard` accepts. */
  lemma ValidateBoardAgrees(b: seq<Cell>)
    requires b != []
    ensures (forall i :: 0 <= i < |b| ==> ValidateBoard(b)[i]) <==> PU.ValidateBoard(b) == Ok(true)
  {
    var v := ValidateBoard(b);
    if forall i :: 0 <= i < |b| ==> v[i] {
      var pre := b[..|b| - 1];
      assert forall i :: 0 <= i < |pre| ==> pre[i] == b[i] && v[i];
    }
  }
}
