/** The slider puzzle's geometry and checking (`sliders/task_sliders.py`):
    one column of sliders, each with a target shifted from the centre by a
    whole number of steps, and an initial position. The random integers
    are drawn by `draws`. */
module TaskSliders {
  const SLIDER_RANGE: int := 100
  const SLIDER_EXTRA: int := 10
  const SLIDER_STEP: int := 8
  const SLIDER_WIDTH: int := SLIDER_STEP * SLIDER_RANGE
  const SLIDER_PADDING: int := SLIDER_STEP * SLIDER_EXTRA
  const SLIDER_HEIGHT: int := 16
  const SLIDER_BBOX: (int, int) := (SLIDER_WIDTH + SLIDER_PADDING, SLIDER_HEIGHT)
  const SLIDER_MARGIN: int := 12

  datatype Fields = Fields(size: seq<int>, coords: seq<seq<int>>, solution: seq<int>, initial: seq<int>)

  /** `random.randint(lo, hi)` given a draw. */
  function RandInt(lo: int, hi: int, draw: nat): (r: int)
    requires lo <= hi
    ensures lo <= r <= hi
  {
    lo + draw % (hi - lo + 1)
  }

  /** `generate_puzzle_fields(count)`; Python's `//` agrees with Dafny's `/`
      for the positive divisors used here. `solutionDraw(i)` and
      `initialDraw(i)` are the i-th draws of the two comprehensions. */
  function GeneratePuzzleFields(count: int, solutionDraw: nat -> nat, initialDraw: nat -> nat): Fields {
    var (boxW, boxH) := SLIDER_BBOX;
    var gridX := boxW + SLIDER_MARGIN;
    var gridY := boxH + SLIDER_MARGIN;
    var totalW := gridX + SLIDER_MARGIN;
    var totalH := gridY * count + SLIDER_MARGIN;
    var x0 := totalW / 2;
    var y0 := gridY / 2 + SLIDER_MARGIN / 2;
    var n: nat := if count < 0 then 0 else count;
    Fields(
      [totalW, totalH],
      seq(n, i requires 0 <= i < n => [x0, y0 + gridY * i]),
      seq(n, i requires 0 <= i < n => RandInt(-SLIDER_EXTRA / 2, SLIDER_EXTRA / 2, solutionDraw(i)) * SLIDER_STEP),
      seq(n, i requires 0 <= i < n => RandInt(-50, 50, initialDraw(i)) * SLIDER_STEP))
  }

  /** The image is 904 pixels wide and 28 per slider plus 12 high, and
      slider `i` is centred at (452, 20 + 28 i). */
  lemma FieldsGeometry(count: int, solutionDraw: nat -> nat, initialDraw: nat -> nat)
    ensures var f := GeneratePuzzleFields(count, solutionDraw, initialDraw);
      var n := if count < 0 then 0 else count;
      f.size == [904, 28 * count + 12] &&
      |f.coords| == |f.solution| == |f.initial| == n &&
      (forall i :: 0 <= i < n ==> f.coords[i] == [452, 20 + 28 * i])
  {
    assert SLIDER_BBOX == (880, 16);
  }

  lemma MultipleOfStep(a: int)
    ensures (a * 8) % 8 == 0
  {
  }

  /** Every target is a multiple of 8 within 40 of the centre, and every
      initial position a multiple of 8 within 400 of it. */
  lemma FieldsPositions(count: int, solutionDraw: nat -> nat, initialDraw: nat -> nat)
    ensures var f := GeneratePuzzleFields(count, solutionDraw, initialDraw);
      (forall i :: 0 <= i < |f.solution| ==> f.solution[i] % 8 == 0 && -40 <= f.solution[i] <= 40) &&
      (forall i :: 0 <= i < |f.initial| ==> f.initial[i] % 8 == 0 && -400 <= f.initial[i] <= 400)
  {
    assert SLIDER_STEP == 8 && -SLIDER_EXTRA / 2 == -5 && SLIDER_EXTRA / 2 == 5;
    var f := GeneratePuzzleFields(count, solutionDraw, initialDraw);
    forall i | 0 <= i < |f.solution|
      ensures f.solution[i] % 8 == 0 && -40 <= f.solution[i] <= 40
    {
      var a := RandInt(-5, 5, solutionDraw(i));
      assert f.solution[i] == a * 8;
      MultipleOfStep(a);
    }
    forall i | 0 <= i < |f.initial|
      ensures f.initial[i] % 8 == 0 && -400 <= f.initial[i] <= 400
    {
      var b := RandInt(-50, 50, initialDraw(i));
      assert f.initial[i] == b * 8;
      MultipleOfStep(b);
    }
  }

  /** `is_correct(response, puzzle)`: slider by slider, as far as both the
      response and the solution go. */
  function IsCorrect(response: seq<int>, solution: seq<int>): (r: seq<bool>)
    ensures |r| == if |response| < |solution| then |response| else |solution|
    ensures forall i :: 0 <= i < |r| ==> (r[i] <==> response[i] == solution[i])
  {
    var n := if |response| < |solution| then |response| else |solution|;
    seq(n, i requires 0 <= i < n => response[i] == solution[i])
  }

  /** The response matches as a whole exactly when every reported slider
      is correct and none is missing. */
  lemma IsCorrectAll(response: seq<int>, solution: seq<int>)
    ensures (|response| == |solution| && forall i :: 0 <= i < |IsCorrect(response, solution)| ==> IsCorrect(response, solution)[i])
            <==> response == solution
  {
    if response == solution {
    } else if |response| == |solution| {
      var i :| 0 <= i < |response| && response[i] != solution[i];
      assert !IsCorrect(response, solution)[i];
    }
  }
}
