/** The matrix task of the real-effort app: a 4 by 5 grid of arrows in
    which the participant counts the right arrows. */
module TaskMatrix {
  import opened Wrappers
  import opened Json
  import opened Text

  const WIDTH: nat := 5
  const HEIGHT: nat := 4
  const IGNORED_CHAR: char := '\U{2193}'
  const COUNTED_CHAR: char := '\U{2192}'
  /** `IGNORED_CHARS + COUNTED_CHAR`, the string `random.choice` draws from. */
  const CHOICES: string := [IGNORED_CHAR, COUNTED_CHAR]

  /** One draw of `random.choice(CHOICES)` per cell, row after row. */
  predicate ValidPicks(picks: seq<nat>) {
    |picks| == WIDTH * HEIGHT && forall i :: 0 <= i < |picks| ==> picks[i] < |CHOICES|
  }

  /** The characters the draws select. */
  function Cells(picks: seq<nat>): (r: string)
    requires forall i :: 0 <= i < |picks| ==> picks[i] < |CHOICES|
    ensures |r| == |picks| && forall i :: 0 <= i < |picks| ==> r[i] == CHOICES[picks[i]]
  {
    seq(|picks|, i requires 0 <= i < |picks| => CHOICES[picks[i]])
  }

  /** Row `r` of the grid. */
  function RowOf(picks: seq<nat>, r: nat): string
    requires ValidPicks(picks) && r < HEIGHT
  {
    Cells(picks[r * WIDTH..(r + 1) * WIDTH])
  }

  /** The first `n` rows. */
  function Rows(picks: seq<nat>, n: nat): seq<string>
    requires ValidPicks(picks) && n <= HEIGHT
  {
    seq(n, r requires 0 <= r < n => RowOf(picks, r))
  }

  function MatrixText(picks: seq<nat>): string
    requires ValidPicks(picks)
  {
    Join(Rows(picks, HEIGHT), "\n")
  }

  /** `generate_puzzle_fields`: the rows joined by newlines, and the number
      of counted arrows as a decimal string.  It reads no state. */
  method GeneratePuzzleFields(picks: seq<nat>) returns (text: string, solution: string)
    requires ValidPicks(picks)
    ensures text == MatrixText(picks)
    ensures solution == NatToString(Count(text, COUNTED_CHAR))
  {
    var rows: seq<string> := [];
    var i := 0;
    while i < HEIGHT
      invariant 0 <= i <= HEIGHT
      invariant rows == Rows(picks, i)
    {
      var row := Cells(picks[i * WIDTH..(i + 1) * WIDTH]);
      rows := rows + [row];
      i := i + 1;
    }
    text := Join(rows, "\n");
    solution := NatToString(Count(text, COUNTED_CHAR));
  }

  /** The number of draws that picked the counted arrow. */
  function Ones(picks: seq<nat>): (r: nat)
    ensures r <= |picks|
  {
    if picks == [] then 0 else Ones(picks[..|picks| - 1]) + (if picks[|picks| - 1] == 1 then 1 else 0)
  }

  lemma {:induction false} OnesAppend(a: seq<nat>, b: seq<nat>)
    ensures Ones(a + b) == Ones(a) + Ones(b)
    decreases |b|
  {
    if b != [] {
      assert (a + b)[..|a + b| - 1] == a + b[..|b| - 1];
      OnesAppend(a, b[..|b| - 1]);
    } else {
      assert a + b == a;
    }
  }

  lemma {:induction false} CellsCount(picks: seq<nat>)
    requires forall i :: 0 <= i < |picks| ==> picks[i] < |CHOICES|
    ensures Count(Cells(picks), COUNTED_CHAR) == Ones(picks)
  {
    if picks != [] {
      var init := picks[..|picks| - 1];
      CellsCount(init);
      assert Cells(picks) == Cells(init) + [CHOICES[picks[|picks| - 1]]];
    }
  }

  /** The text is the four rows separated by newlines: 23 characters. */
  lemma TextShape(picks: seq<nat>)
    requires ValidPicks(picks)
    ensures MatrixText(picks) == RowOf(picks, 0) + "\n" + RowOf(picks, 1) + "\n" + RowOf(picks, 2) + "\n" + RowOf(picks, 3)
    ensures |MatrixText(picks)| == HEIGHT * WIDTH + HEIGHT - 1
  {
    var rows := Rows(picks, HEIGHT);
    var r0, r1, r2, r3 := RowOf(picks, 0), RowOf(picks, 1), RowOf(picks, 2), RowOf(picks, 3);
    assert rows[..3][..2][..1] == [r0] && rows[..3][..2][1] == r1 && rows[..3][2] == r2 && rows[3] == r3;
    assert Join(rows[..3][..2][..1], "\n") == r0;
    assert Join(rows[..3][..2], "\n") == r0 + "\n" + r1;
    assert Join(rows[..3], "\n") == r0 + "\n" + r1 + "\n" + r2;
  }

  /** Row `r` occupies characters `6r` to `6r+4`, and a newline follows every
      row but the last. */
  lemma TextCharacters(picks: seq<nat>, r: nat, j: nat)
    requires ValidPicks(picks) && r < HEIGHT && j <= WIDTH
    ensures |MatrixText(picks)| == HEIGHT * (WIDTH + 1) - 1 &&
            (j < WIDTH ==> MatrixText(picks)[r * (WIDTH + 1) + j] == CHOICES[picks[r * WIDTH + j]]) &&
            (j == WIDTH && r < HEIGHT - 1 ==> MatrixText(picks)[r * (WIDTH + 1) + j] == '\n')
  {
    TextShape(picks);
  }

  lemma CountConcat(a: string, b: string, c: char)
    ensures Count(a + b, c) == Count(a, c) + Count(b, c)
  {
    assert multiset(a + b) == multiset(a) + multiset(b);
  }

  /** Four rows joined by newlines hold as many of a character other than
      the newline as the rows together. */
  lemma JoinedCount(r0: string, r1: string, r2: string, r3: string, c: char)
    requires c != '\n'
    ensures Count(r0 + "\n" + r1 + "\n" + r2 + "\n" + r3, c) == Count(r0, c) + Count(r1, c) + Count(r2, c) + Count(r3, c)
  {
    var nl := "\n";
    assert Count(nl, c) == 0;
    CountConcat(r0, nl, c);
    CountConcat(r0 + nl, r1, c);
    CountConcat(r0 + nl + r1, nl, c);
    CountConcat(r0 + nl + r1 + nl, r2, c);
    CountConcat(r0 + nl + r1 + nl + r2, nl, c);
    CountConcat(r0 + nl + r1 + nl + r2 + nl, r3, c);
  }

  /** The counted arrows of the draws are those of the four rows' draws. */
  lemma OnesOfRows(picks: seq<nat>)
    requires |picks| == WIDTH * HEIGHT
    ensures Ones(picks) == Ones(picks[0..5]) + Ones(picks[5..10]) + Ones(picks[10..15]) + Ones(picks[15..20])
  {
    var p0, p1, p2, p3 := picks[0..5], picks[5..10], picks[10..15], picks[15..20];
    assert picks == p0 + p1 + p2 + p3;
    OnesAppend(p0, p1);
    OnesAppend(p0 + p1, p2);
    OnesAppend(p0 + p1 + p2, p3);
  }

  /** The text holds one counted arrow per draw of it. */
  lemma TextCountsArrows(picks: seq<nat>)
    requires ValidPicks(picks)
    ensures Count(MatrixText(picks), COUNTED_CHAR) == Ones(picks)
  {
    TextShape(picks);
    var r0, r1, r2, r3 := RowOf(picks, 0), RowOf(picks, 1), RowOf(picks, 2), RowOf(picks, 3);
    CellsCount(picks[0..5]);
    CellsCount(picks[5..10]);
    CellsCount(picks[10..15]);
    CellsCount(picks[15..20]);
    JoinedCount(r0, r1, r2, r3, COUNTED_CHAR);
    OnesOfRows(picks);
  }

  /** The solution is the number of right arrows, between 0 and 20, written in
      decimal. */
  lemma SolutionCountsArrows(picks: seq<nat>)
    requires ValidPicks(picks)
    ensures Count(MatrixText(picks), COUNTED_CHAR) == Ones(picks) <= WIDTH * HEIGHT
    ensures ParseInt(NatToString(Count(MatrixText(picks), COUNTED_CHAR))) == Some(Ones(picks))
  {
    TextCountsArrows(picks);
    ParseIntOfIntToString(Ones(picks));
  }

  /** `is_correct`: the response must be exactly the solution string, with no
      trimming and no case folding. */
  function IsCorrect(response: Value, solution: string): (r: bool)
    ensures r <==> response == Str(solution)
  {
    response.Str? && response.s == solution
  }
}
