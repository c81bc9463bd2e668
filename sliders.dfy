/** The slider puzzle live game (`sliders/__init__.py`): a puzzle of
    sliders whose targets must be found; every submitted value is snapped
    to the slider's steps and stored, and the puzzle records how many
    sliders are on target.

    `task_sliders.generate_puzzle` and `task_sliders.snap_value` are not
    part of this model: a new puzzle's solution and initial positions come
    in as `Generated`, and snapping is the parameter `snap`. */
module Sliders {
  import opened Wrappers
  import opened Json
  import opened PyList

  /** The session's `task_params` that the handler reads, the
      `settings.DEBUG` flag, and `task_sliders.snap_value`. */
  datatype Params = Params(numIterations: int, debug: bool, snap: (int, int) -> int)

  /** What `task_sliders.generate_puzzle` returns: the solution popped from
      it and the initial positions. */
  datatype Generated = Generated(solution: seq<int>, initial: seq<int>)

  datatype Puzzle = Puzzle(
    iteration: int,
    attempts: int,
    timestamp: real,
    solution: seq<int>,
    values: seq<int>,
    responseTimestamp: Option<real>,
    correct: Option<int>,
    solved: Option<bool>)

  datatype Player = Player(solvedSliders: Option<int>, elapsedTime: Option<real>, iteration: int, payoff: Option<int>)

  datatype State = State(player: Player, puzzles: seq<Puzzle>)

  datatype Reply =
    | Status(iteration: int, puzzle: Option<seq<int>>, iterationsLeft: Option<int>)
    | NewPuzzle(values: seq<int>, iteration: int)
    | Solution(solution: seq<int>)
    | Feedback(slider: int, value: int, isCorrect: bool, isCompleted: bool, iteration: int)

  // ---- the current puzzle --------------------------------------------------

  /** The indices of the puzzles of an iteration, in creation order. */
  function Matching(s: seq<Puzzle>, iteration: int): (r: seq<nat>)
    ensures forall j :: 0 <= j < |r| ==> r[j] < |s| && s[r[j]].iteration == iteration
  {
    if s == [] then []
    else Matching(s[..|s| - 1], iteration) + (if s[|s| - 1].iteration == iteration then [|s| - 1] else [])
  }

  /** `get_current_puzzle`: none, the one puzzle of the player's iteration,
      or a ValueError when the single-element unpacking finds several. */
  function Current(st: State): (r: Result<Option<nat>>)
    ensures r.Ok? && r.value.Some? ==> r.value.value < |st.puzzles| && st.puzzles[r.value.value].iteration == st.player.iteration
  {
    var m := Matching(st.puzzles, st.player.iteration);
    if |m| == 0 then Ok(None)
    else if |m| == 1 then Ok(Some(m[0]))
    else Err(ValueError)
  }

  lemma {:induction false} NoneMatching(s: seq<Puzzle>, iteration: int)
    requires forall j :: 0 <= j < |s| ==> s[j].iteration < iteration
    ensures Matching(s, iteration) == []
  {
    if s != [] {
      NoneMatching(s[..|s| - 1], iteration);
    }
  }

  // ---- handle_response -----------------------------------------------------

  /** How many of the first `n` sliders are on target. */
  function CountCorrect(values: seq<int>, solution: seq<int>, n: nat): (r: nat)
    requires n <= |values| && n <= |solution|
    ensures r <= n
  {
    if n == 0 then 0 else CountCorrect(values, solution, n - 1) + (if values[n - 1] == solution[n - 1] then 1 else 0)
  }

  /** All `n` sliders are counted exactly when all are on target. */
  lemma {:induction false} CountAll(values: seq<int>, solution: seq<int>, n: nat)
    requires n <= |values| && n <= |solution|
    ensures CountCorrect(values, solution, n) == n <==> values[..n] == solution[..n]
  {
    if n > 0 {
      CountAll(values, solution, n - 1);
      assert values[..n] == values[..n - 1] + [values[n - 1]];
      assert solution[..n] == solution[..n - 1] + [solution[n - 1]];
      if values[..n] == solution[..n] {
        assert values[..n][..n - 1] == values[..n - 1] && solution[..n][..n - 1] == solution[..n - 1];
        assert values[..n][n - 1] == values[n - 1];
      }
    }
  }

  /** With the sliders before `k` on target and those from `k` on off
      target, exactly `k` are counted. */
  lemma {:induction false} CountPrefix(values: seq<int>, solution: seq<int>, n: nat, k: nat)
    requires n <= |values| && n <= |solution| && k <= n
    requires forall j :: 0 <= j < k ==> values[j] == solution[j]
    requires forall j :: k <= j < n ==> values[j] != solution[j]
    ensures CountCorrect(values, solution, n) == k
  {
    if n > k {
      CountPrefix(values, solution, n - 1, k);
    } else if n > 0 {
      CountPrefix(values, solution, n - 1, k - 1);
    }
  }

  /** `handle_response(puzzle, i, value)`: the value snapped against the
      target of slider `i` is stored at `i` only, then every slider is
      checked; the feedback is the snapped value and whether slider `i` is
      on target. The list indexing raises IndexError before any change. */
  function HandleResponse(p: Puzzle, i: int, value: int, snap: (int, int) -> int): Result<(Puzzle, int, bool)> {
    match PyIndex(|p.solution|, i)
    case None => Err(IndexError)
    case Some(s) =>
      var v := snap(value, p.solution[s]);
      match PyIndex(|p.values|, i)
      case None => Err(IndexError)
      case Some(k) =>
        var values := p.values[k := v];
        if |values| < |p.solution| then Err(IndexError)
        else
          var n := CountCorrect(values, p.solution, |p.solution|);
          Ok((p.(values := values, correct := Some(n), solved := Some(n == |p.solution|)), v, v == p.solution[s]))
  }

  /** The response changes the stored values at slider `i` alone and only
      the values, count and completion of the puzzle; the count is at most
      the number of sliders, and the puzzle is solved exactly when every
      slider is on target. */
  lemma HandleResponseMeans(p: Puzzle, i: int, value: int, snap: (int, int) -> int)
    ensures var r := HandleResponse(p, i, value, snap);
      (r.Ok? <==> -|p.solution| <= i < |p.solution| && -|p.values| <= i < |p.values| && |p.values| >= |p.solution|) &&
      (r.Err? ==> r.error == IndexError) &&
      (r.Ok? ==>
        var (q, v, ok) := r.value;
        var k := PyIndex(|p.values|, i).value;
        v == snap(value, PyAt(p.solution, i).value) && (ok <==> v == PyAt(p.solution, i).value) &&
        q == p.(values := q.values, correct := q.correct, solved := q.solved) &&
        |q.values| == |p.values| && q.values[k] == v &&
        (forall j :: 0 <= j < |p.values| && j != k ==> q.values[j] == p.values[j]) &&
        q.correct.Some? && 0 <= q.correct.value <= |p.solution| &&
        (q.solved == Some(true) <==> q.values[..|p.solution|] == p.solution) &&
        q.solved.Some?)
  {
    var r := HandleResponse(p, i, value, snap);
    if r.Ok? {
      var q := r.value.0;
      CountAll(q.values, p.solution, |p.solution|);
      assert p.solution[..|p.solution|] == p.solution;
    }
  }

  /** Fixing slider `k` while the earlier sliders are on target and the
      later ones are not counts `k + 1` sliders, and solves the puzzle
      exactly on the last slider; a wrong value counts `k`. */
  lemma FixingInOrder(p: Puzzle, k: nat, value: int, snap: (int, int) -> int)
    requires k < |p.solution| == |p.values|
    requires forall j :: 0 <= j < k ==> p.values[j] == p.solution[j]
    requires forall j :: k < j < |p.solution| ==> p.values[j] != p.solution[j]
    ensures var r := HandleResponse(p, k, value, snap);
      r.Ok? &&
      var (q, v, ok) := r.value;
      (ok ==> q.correct == Some(k + 1) && (q.solved == Some(true) <==> k == |p.solution| - 1)) &&
      (!ok ==> q.correct == Some(k) && q.solved == Some(false))
  {
    var r := HandleResponse(p, k, value, snap);
    var (q, v, ok) := r.value;
    if ok {
      CountPrefix(q.values, p.solution, |p.solution|, k + 1);
    } else {
      CountPrefix(q.values, p.solution, |p.solution|, k);
    }
  }

  // ---- play_game -----------------------------------------------------------

  /** The `new` message. */
  function NewSpec(params: Params, st: State, current: Option<nat>, now: real, gen: Generated): (State, Result<Reply>)
    requires current.Some? ==> current.value < |st.puzzles|
  {
    if current.Some? && st.puzzles[current.value].correct.None? then (st, Err(RuntimeError))
    else if current.Some? && st.puzzles[current.value].iteration == params.numIterations then
      (st, Ok(Status(st.player.iteration, None, Some(0))))
    else
      var player := st.player.(iteration := st.player.iteration + 1);
      var z := Puzzle(player.iteration, 0, now, gen.solution, gen.initial, None, None, None);
      (State(player, st.puzzles + [z]), Ok(NewPuzzle(z.values, player.iteration)))
  }

  /** The `value` message: both fields are parsed with `int()` before the
      response is handled. */
  function ValueSpec(params: Params, st: State, current: Option<nat>, msg: Dict, now: real): (State, Result<Reply>)
    requires current.Some? ==> current.value < |st.puzzles|
  {
    match current
    case None => (st, Err(RuntimeError))
    case Some(k) =>
      if "slider" !in msg then (st, Err(KeyError))
      else
        match PyInt(msg["slider"])
        case Err(e) => (st, Err(e))
        case Ok(slider) =>
          if "value" !in msg then (st, Err(KeyError))
          else
            match PyInt(msg["value"])
            case Err(e) => (st, Err(e))
            case Ok(value) =>
              match HandleResponse(st.puzzles[k], slider, value, params.snap)
              case Err(e) => (st, Err(e))
              case Ok((q, v, ok)) =>
                var q1 := q.(responseTimestamp := Some(now));
                (st.(puzzles := st.puzzles[k := q1]), Ok(Feedback(slider, v, ok, q.solved == Some(true), st.player.iteration)))
  }

  /** `play_game`: the current puzzle is looked up first, then the message
      type is read and dispatched. */
  function PlaySpec(params: Params, st: State, msg: Dict, now: real, gen: Generated): (State, Result<Reply>) {
    match Current(st)
    case Err(e) => (st, Err(e))
    case Ok(current) =>
      if "type" !in msg then (st, Err(KeyError))
      else if msg["type"] == Str("load") then
        (st, Ok(Status(st.player.iteration, if current.Some? then Some(st.puzzles[current.value].values) else None, None)))
      else if msg["type"] == Str("cheat") && params.debug then
        if current.None? then (st, Err(AttributeError))
        else (st, Ok(Solution(st.puzzles[current.value].solution)))
      else if msg["type"] == Str("new") then NewSpec(params, st, current, now, gen)
      else if msg["type"] == Str("value") then ValueSpec(params, st, current, msg, now)
      else (st, Err(RuntimeError))
  }

  /** `before_next_page`: the elapsed time of the current puzzle and its
      count of correct sliders, which is also the payoff. */
  function FinishSpec(st: State): (State, Outcome) {
    match Current(st)
    case Err(e) => (st, Fail(e))
    case Ok(None) => (st, Fail(AttributeError))
    case Ok(Some(k)) =>
      var z := st.puzzles[k];
      if z.responseTimestamp.None? then (st, Fail(TypeError))
      else
        var player := st.player.(elapsedTime := Some(z.responseTimestamp.value - z.timestamp),
                                 solvedSliders := z.correct, payoff := z.correct);
        (st.(player := player), Pass)
  }

  // ---- properties -----------------------------------------------------------

  /** Puzzles are created one per iteration, in order, the last being that
      of the player's iteration; a puzzle is checked (count, completion and
      response time) all at once, with a count that matches its completion. */
  predicate PuzzleWf(z: Puzzle) {
    z.attempts == 0 &&
    (z.responseTimestamp.Some? <==> z.correct.Some?) && (z.correct.Some? <==> z.solved.Some?) &&
    (z.correct.Some? ==> 0 <= z.correct.value <= |z.solution| && (z.solved.value <==> z.correct.value == |z.solution|))
  }

  predicate Wf(st: State) {
    st.player.iteration >= 0 &&
    (forall j :: 0 <= j < |st.puzzles| ==> PuzzleWf(st.puzzles[j]) && 1 <= st.puzzles[j].iteration <= st.player.iteration) &&
    (forall j, k :: 0 <= j < k < |st.puzzles| ==> st.puzzles[j].iteration < st.puzzles[k].iteration) &&
    (st.puzzles != [] ==> st.puzzles[|st.puzzles| - 1].iteration == st.player.iteration)
  }

  /** In a well-formed state the lookup never fails, and finds the last
      puzzle exactly when there is one. */
  lemma CurrentIsLast(st: State)
    requires Wf(st)
    ensures Current(st) == Ok(if st.puzzles == [] then None else Some(|st.puzzles| - 1))
  {
    if st.puzzles != [] {
      var n := |st.puzzles| - 1;
      NoneMatching(st.puzzles[..n], st.player.iteration);
    }
  }

  /** `load` changes nothing and shows the stored values of the current
      puzzle when there is one; `cheat` outside debugging and unknown types
      are refused. */
  lemma LoadAndUnknown(params: Params, st: State, msg: Dict, now: real, gen: Generated)
    requires Wf(st)
    ensures var (st1, r) := PlaySpec(params, st, msg, now, gen);
      ("type" !in msg ==> st1 == st && r == Err(KeyError)) &&
      ("type" in msg && msg["type"] == Str("load") ==>
         st1 == st &&
         r == Ok(Status(st.player.iteration, if st.puzzles == [] then None else Some(st.puzzles[|st.puzzles| - 1].values), None))) &&
      ("type" in msg && msg["type"] == Str("cheat") ==>
         st1 == st && (params.debug && st.puzzles != [] ==> r == Ok(Solution(st.puzzles[|st.puzzles| - 1].solution))) &&
         (!params.debug ==> r == Err(RuntimeError))) &&
      ("type" in msg && !(msg["type"] in {Str("load"), Str("cheat"), Str("new"), Str("value")}) ==> st1 == st && r == Err(RuntimeError))
  {
    CurrentIsLast(st);
  }

  /** `new`: refused while the current puzzle is unchecked; the end of the
      game at its last iteration; otherwise the next iteration's puzzle,
      showing its initial values, becomes the current one. */
  lemma NewGuards(params: Params, st: State, msg: Dict, now: real, gen: Generated)
    requires Wf(st) && "type" in msg && msg["type"] == Str("new")
    ensures var (st1, r) := PlaySpec(params, st, msg, now, gen);
      var n := |st.puzzles|;
      (n > 0 && st.puzzles[n - 1].correct.None? ==> st1 == st && r == Err(RuntimeError)) &&
      (n > 0 && st.puzzles[n - 1].correct.Some? && st.puzzles[n - 1].iteration == params.numIterations ==>
         st1 == st && r == Ok(Status(st.player.iteration, None, Some(0)))) &&
      ((n == 0 || (st.puzzles[n - 1].correct.Some? && st.puzzles[n - 1].iteration != params.numIterations)) ==>
         st1.player == st.player.(iteration := st.player.iteration + 1) &&
         st1.puzzles == st.puzzles + [Puzzle(st.player.iteration + 1, 0, now, gen.solution, gen.initial, None, None, None)] &&
         r == Ok(NewPuzzle(gen.initial, st.player.iteration + 1)) &&
         Current(st1) == Ok(Some(n)))
  {
    CurrentIsLast(st);
    var (st1, r) := PlaySpec(params, st, msg, now, gen);
    if st1 != st {
      NoneMatching(st.puzzles, st.player.iteration + 1);
      assert st1.puzzles[..|st.puzzles|] == st.puzzles;
    }
  }

  /** `value`: refused without a puzzle, and with a missing or unparsable
      field (a KeyError, or `int()`'s ValueError or TypeError) or a slider
      index out of range, leaving everything unchanged; otherwise the
      current puzzle alone takes the handled response and the time. */
  lemma ValueGuards(params: Params, st: State, msg: Dict, now: real, gen: Generated)
    requires Wf(st) && "type" in msg && msg["type"] == Str("value")
    ensures var (st1, r) := PlaySpec(params, st, msg, now, gen);
      (st.puzzles == [] ==> st1 == st && r == Err(RuntimeError)) &&
      (st.puzzles != [] && ("slider" !in msg || (PyInt(msg["slider"]).Ok? && "value" !in msg)) ==> st1 == st && r == Err(KeyError)) &&
      (st.puzzles != [] && "slider" in msg && PyInt(msg["slider"]).Err? ==> st1 == st && r == Err(PyInt(msg["slider"]).error)) &&
      (r.Err? ==> st1 == st) &&
      (r.Ok? ==>
        var k := |st.puzzles| - 1;
        var slider := PyInt(msg["slider"]).value;
        var h := HandleResponse(st.puzzles[k], slider, PyInt(msg["value"]).value, params.snap);
        h.Ok? && st1.player == st.player &&
        st1.puzzles == st.puzzles[k := h.value.0.(responseTimestamp := Some(now))] &&
        r == Ok(Feedback(slider, h.value.1, h.value.2, h.value.0.solved == Some(true), st.player.iteration)))
  {
    CurrentIsLast(st);
  }

  lemma NewKeepsWf(params: Params, st: State, msg: Dict, now: real, gen: Generated)
    requires Wf(st) && "type" in msg && msg["type"] == Str("new")
    ensures Wf(PlaySpec(params, st, msg, now, gen).0)
  {
    NewGuards(params, st, msg, now, gen);
    var (st1, r) := PlaySpec(params, st, msg, now, gen);
    if st1 != st {
      var n := |st.puzzles|;
      assert PuzzleWf(st1.puzzles[n]);
      assert forall j :: 0 <= j < n ==> st1.puzzles[j] == st.puzzles[j];
    }
  }

  lemma ValueKeepsWf(params: Params, st: State, msg: Dict, now: real, gen: Generated)
    requires Wf(st) && "type" in msg && msg["type"] == Str("value")
    ensures Wf(PlaySpec(params, st, msg, now, gen).0)
  {
    ValueGuards(params, st, msg, now, gen);
    var (st1, r) := PlaySpec(params, st, msg, now, gen);
    if r.Ok? {
      var k := |st.puzzles| - 1;
      var h := HandleResponse(st.puzzles[k], PyInt(msg["slider"]).value, PyInt(msg["value"]).value, params.snap);
      HandleResponseMeans(st.puzzles[k], PyInt(msg["slider"]).value, PyInt(msg["value"]).value, params.snap);
      ReplaceKeepsWf(st, k, h.value.0.(responseTimestamp := Some(now)));
    }
  }

  /** Replacing a puzzle by a well-formed one of the same iteration keeps
      the invariant. */
  lemma ReplaceKeepsWf(st: State, k: nat, q: Puzzle)
    requires Wf(st) && k < |st.puzzles| && q.iteration == st.puzzles[k].iteration && PuzzleWf(q)
    ensures Wf(st.(puzzles := st.puzzles[k := q]))
  {
  }

  /** Every message keeps the invariant. */
  lemma PlayKeepsWf(params: Params, st: State, msg: Dict, now: real, gen: Generated)
    requires Wf(st)
    ensures Wf(PlaySpec(params, st, msg, now, gen).0)
  {
    CurrentIsLast(st);
    if "type" in msg && msg["type"] == Str("new") {
      NewKeepsWf(params, st, msg, now, gen);
    } else if "type" in msg && msg["type"] == Str("value") {
      ValueKeepsWf(params, st, msg, now, gen);
    }
  }

  /** `before_next_page` after a checked puzzle: the payoff is the number of
      sliders on target, at most the number of sliders. */
  lemma FinishPayoff(st: State)
    requires Wf(st)
    ensures var (st1, out) := FinishSpec(st);
      (st.puzzles == [] ==> out == Fail(AttributeError)) &&
      (out.Pass? <==> st.puzzles != [] && st.puzzles[|st.puzzles| - 1].responseTimestamp.Some?) &&
      (out.Pass? ==>
        var z := st.puzzles[|st.puzzles| - 1];
        st1.puzzles == st.puzzles && st1.player.iteration == st.player.iteration &&
        st1.player.payoff == st1.player.solvedSliders == z.correct &&
        z.correct.Some? && 0 <= z.correct.value <= |z.solution| &&
        st1.player.elapsedTime == Some(z.responseTimestamp.value - z.timestamp))
  {
    CurrentIsLast(st);
    if st.puzzles != [] {
      assert PuzzleWf(st.puzzles[|st.puzzles| - 1]);
    }
  }

  class Game {
    var player: Player
    var puzzles: seq<Puzzle>
    const params: Params

    function Snapshot(): State reads this {
      State(player, puzzles)
    }

    constructor(params: Params)
      ensures Snapshot() == State(Player(Some(0), None, 0, None), []) && this.params == params
      ensures Wf(Snapshot())
    {
      this.params := params;
      player := Player(Some(0), None, 0, None);
      puzzles := [];
    }

    /** `handle_response` on the stored puzzle `k`. */
    method HandleResponseAt(k: nat, i: int, value: int) returns (r: Result<(int, bool)>)
      requires k < |puzzles|
      modifies this
      ensures var h := HandleResponse(old(puzzles[k]), i, value, params.snap);
        player == old(player) &&
        (h.Err? ==> r == Err(h.error) && puzzles == old(puzzles)) &&
        (h.Ok? ==> r == Ok((h.value.1, h.value.2)) && puzzles == old(puzzles)[k := h.value.0])
    {
      var p := puzzles[k];
      var s := PyIndex(|p.solution|, i);
      if s.None? {
        return Err(IndexError);
      }
      var v := params.snap(value, p.solution[s.value]);
      var j := PyIndex(|p.values|, i);
      if j.None? {
        return Err(IndexError);
      }
      var values := p.values[j.value := v];
      var isCorrect := v == p.solution[s.value];
      if |values| < |p.solution| {
        return Err(IndexError);
      }
      var n := CountCorrect(values, p.solution, |p.solution|);
      p := p.(values := values);
      p := p.(correct := Some(n));
      p := p.(solved := Some(n == |p.solution|));
      puzzles := puzzles[k := p];
      return Ok((v, isCorrect));
    }

    /** The `new` message, given the current puzzle. */
    method NewMessage(cur: Option<nat>, now: real, gen: Generated) returns (r: Result<Reply>)
      requires cur.Some? ==> cur.value < |puzzles|
      modifies this
      ensures (Snapshot(), r) == NewSpec(params, old(Snapshot()), cur, now, gen)
    {
      if cur.Some? {
        if puzzles[cur.value].correct.None? {
          return Err(RuntimeError);
        }
        if puzzles[cur.value].iteration == params.numIterations {
          return Ok(Status(player.iteration, None, Some(0)));
        }
      }
      player := player.(iteration := player.iteration + 1);
      var z := Puzzle(player.iteration, 0, now, gen.solution, gen.initial, None, None, None);
      puzzles := puzzles + [z];
      return Ok(NewPuzzle(z.values, player.iteration));
    }

    /** The `value` message, given the current puzzle. */
    method ValueMessage(cur: Option<nat>, msg: Dict, now: real) returns (r: Result<Reply>)
      requires cur.Some? ==> cur.value < |puzzles|
      modifies this
      ensures (Snapshot(), r) == ValueSpec(params, old(Snapshot()), cur, msg, now)
    {
      if cur.None? {
        return Err(RuntimeError);
      }
      var k := cur.value;
      if "slider" !in msg {
        return Err(KeyError);
      }
      var slider := PyInt(msg["slider"]);
      if slider.Err? {
        return Err(slider.error);
      }
      if "value" !in msg {
        return Err(KeyError);
      }
      var value := PyInt(msg["value"]);
      if value.Err? {
        return Err(value.error);
      }
      ghost var h := HandleResponse(puzzles[k], slider.value, value.value, params.snap);
      var feedback := HandleResponseAt(k, slider.value, value.value);
      if feedback.Err? {
        return Err(feedback.error);
      }
      assert h.Ok? && feedback.value == (h.value.1, h.value.2);
      assert puzzles == old(puzzles)[k := h.value.0];
      assert puzzles[k] == h.value.0;
      var completed := puzzles[k].solved == Some(true);
      puzzles := puzzles[k := puzzles[k].(responseTimestamp := Some(now))];
      ghost var st0 := old(Snapshot());
      assert st0.puzzles[k] == old(puzzles)[k];
      assert PyInt(msg["slider"]) == slider && PyInt(msg["value"]) == value;
      assert HandleResponse(st0.puzzles[k], slider.value, value.value, params.snap) == h;
      assert ValueSpec(params, st0, cur, msg, now).1 == Ok(Feedback(slider.value, feedback.value.0, feedback.value.1, completed, player.iteration));
      assert ValueSpec(params, st0, cur, msg, now).0 == Snapshot();
      return Ok(Feedback(slider.value, feedback.value.0, feedback.value.1, completed, player.iteration));
    }

    /** `play_game` at time `now`; `gen` is the puzzle a `new` message
        would generate. */
    method PlayGame(msg: Dict, now: real, gen: Generated) returns (r: Result<Reply>)
      modifies this
      ensures (Snapshot(), r) == PlaySpec(params, old(Snapshot()), msg, now, gen)
    {
      var current := Current(Snapshot());
      if current.Err? {
        return Err(current.error);
      }
      var cur := current.value;
      if "type" !in msg {
        return Err(KeyError);
      }
      var ty := msg["type"];
      if ty == Str("load") {
        return Ok(Status(player.iteration, if cur.Some? then Some(puzzles[cur.value].values) else None, None));
      }
      if ty == Str("cheat") && params.debug {
        if cur.None? {
          return Err(AttributeError);
        }
        return Ok(Solution(puzzles[cur.value].solution));
      }
      if ty == Str("new") {
        r := NewMessage(cur, now, gen);
        return;
      }
      if ty == Str("value") {
        r := ValueMessage(cur, msg, now);
        return;
      }
      return Err(RuntimeError);
    }

    /** `before_next_page` */
    method Finish() returns (out: Outcome)
      modifies this
      ensures (Snapshot(), out) == FinishSpec(old(Snapshot()))
    {
      var current := Current(Snapshot());
      if current.Err? {
        return Fail(current.error);
      }
      if current.value.None? {
        return Fail(AttributeError);
      }
      var z := puzzles[current.value.value];
      if z.responseTimestamp.None? {
        return Fail(TypeError);
      }
      player := player.(elapsedTime := Some(z.responseTimestamp.value - z.timestamp));
      player := player.(solvedSliders := z.correct);
      player := player.(payoff := player.solvedSliders);
      return Pass;
    }
  }
}
