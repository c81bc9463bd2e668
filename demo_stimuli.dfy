/** The stimulus/response demo (`demo_stimuli/__init__.py`): all trials are
    generated up front, the page plays them in the browser and submits the
    results in one batch; on leaving the page the results are matched with
    the trials in order, unmatched trials are deleted, and the player's
    counters are computed from what remains.

    The prime and target pools are read from a CSV file; here they are
    parameters. */
module DemoStimuli {
  import opened Wrappers
  import opened Json

  const NUM_TRIALS: nat := 5

  /** A pool row: its `stimulus` and `category` columns. */
  datatype Stim = Stim(stimulus: string, category: string)

  /** The positions `random.choice` picks in the prime and the target pool. */
  datatype Draw = Draw(prime: nat, target: nat)

  datatype Player = Player(roundNumber: int, numTrials: int, numSolved: int, numFailed: int, numSkipped: int, resultsData: string)

  /** A trial record. `response` and `retries` hold whatever the results
      carried (`Null` for Python's `None`); `retries` starts at 0. */
  datatype Trial = Trial(
    round: int,
    iteration: int,
    prime: string,
    primeCategory: string,
    target: string,
    targetCategory: string,
    isCongruent: bool,
    isCompleted: bool,
    response: Value,
    isCorrect: Option<bool>,
    retries: Value,
    isTimeouted: Option<bool>)

  datatype State = State(player: Player, trials: seq<Trial>)

  /** Python's `v == i` for a decoded JSON value and an integer (booleans
      compare as 0 and 1). */
  predicate PyEqInt(v: Value, i: int) {
    match v
    case Num(n) => n == i
    case Bool(b) => (if b then 1 else 0) == i
    case _ => false
  }

  /** `d.get(k)`, with a missing key read as `None`. */
  function GetOrNull(d: Dict, k: string): Value {
    if k in d then d[k] else Null
  }

  // ---- generation ------------------------------------------------------------

  /** `generate_trial(player, iteration)`; `random.choice` on an empty pool
      raises IndexError. */
  function GenerateTrial(round: int, iteration: int, primes: seq<Stim>, targets: seq<Stim>, d: Draw): Result<Trial> {
    if primes == [] || targets == [] then Err(IndexError)
    else
      var p := primes[d.prime % |primes|];
      var t := targets[d.target % |targets|];
      Ok(Trial(round, iteration, p.stimulus, p.category, t.stimulus, t.category, p.category == t.category,
               false, Null, None, Num(0), None))
  }

  /** `pregenerate_trials`: iterations 1 to `NUM_TRIALS`, the i-th drawn by
      `draws(i)`. The pools are the same for every call, so either every
      trial is created or the first call fails. */
  function PregenerateSpec(round: int, primes: seq<Stim>, targets: seq<Stim>, draws: nat -> Draw): Result<seq<Trial>> {
    if primes == [] || targets == [] then Err(IndexError)
    else Ok(seq(NUM_TRIALS, j requires 0 <= j < NUM_TRIALS => GenerateTrial(round, j + 1, primes, targets, draws(j + 1)).value))
  }

  /** The trials are those of iterations 1 to 5 in order, each pairing a
      prime of the prime pool with a target of the target pool, congruent
      exactly when their categories agree, and not yet played. */
  lemma PregeneratedTrials(round: int, primes: seq<Stim>, targets: seq<Stim>, draws: nat -> Draw)
    ensures var r := PregenerateSpec(round, primes, targets, draws);
      (r.Err? <==> primes == [] || targets == []) && (r.Err? ==> r.error == IndexError) &&
      (r.Ok? ==>
        |r.value| == NUM_TRIALS &&
        forall j :: 0 <= j < |r.value| ==>
          var t := r.value[j];
          t.iteration == j + 1 && t.round == round && !t.isCompleted &&
          (exists p :: p in primes && t.prime == p.stimulus && t.primeCategory == p.category) &&
          (exists q :: q in targets && t.target == q.stimulus && t.targetCategory == q.category) &&
          (t.isCongruent <==> t.primeCategory == t.targetCategory))
  {
    var r := PregenerateSpec(round, primes, targets, draws);
    if r.Ok? {
      forall j | 0 <= j < |r.value|
        ensures var t := r.value[j];
          t.iteration == j + 1 && t.round == round && !t.isCompleted &&
          (exists p :: p in primes && t.prime == p.stimulus && t.primeCategory == p.category) &&
          (exists q :: q in targets && t.target == q.stimulus && t.targetCategory == q.category) &&
          (t.isCongruent <==> t.primeCategory == t.targetCategory)
      {
        var d := draws(j + 1);
        var p, q := primes[d.prime % |primes|], targets[d.target % |targets|];
        assert r.value[j] == GenerateTrial(round, j + 1, primes, targets, d).value;
        assert p in primes && q in targets;
      }
    }
  }

  // ---- validation -------------------------------------------------------------

  /** `validate_trial(trial, response)` */
  function ValidateTrial(t: Trial, response: Value): Trial {
    t.(response := response, isCorrect := if response == Null then None else Some(response == Str(t.targetCategory)))
  }

  /** One turn of the loop in `validate_trials`: the iteration check, then
      the fields in the source's order. A failure keeps what was already
      assigned to the trial. */
  function ValidateStep(t: Trial, result: Value): (Trial, Outcome) {
    if !result.Obj? then (t, Fail(TypeError))
    else
      var m := result.fields;
      if "i" !in m then (t, Fail(KeyError))
      else if !PyEqInt(m["i"], t.iteration) then (t, Fail(AssertionError))
      else
        var t1 := t.(isCompleted := true, retries := GetOrNull(m, "retr"), isTimeouted := Some(GetOrNull(m, "rt") == Null));
        if "input" !in m then (t1, Fail(KeyError))
        else (ValidateTrial(t1, m["input"]), Pass)
  }

  /** The first `n` turns of the loop. */
  function ValidatePrefix(trials: seq<Trial>, results: seq<Value>, n: nat): (r: (seq<Trial>, Outcome))
    requires n <= |trials| && n <= |results|
    ensures |r.0| == |trials|
    ensures forall j :: n <= j < |trials| ==> r.0[j] == trials[j]
  {
    if n == 0 then (trials, Pass)
    else
      var (done, out) := ValidatePrefix(trials, results, n - 1);
      if out.Fail? then (done, out)
      else
        var (t, o) := ValidateStep(done[n - 1], results[n - 1]);
        (done[n - 1 := t], o)
  }

  /** `validate_trials(player, results)`: the results are the decoded list
      of the page's `results_data`, zipped with the trials in order. */
  function ValidateTrialsSpec(st: State, results: seq<Value>): (State, Outcome) {
    var n := if |st.trials| < |results| then |st.trials| else |results|;
    var (trials, out) := ValidatePrefix(st.trials, results, n);
    (State(st.player.(numTrials := |results|), trials), out)
  }

  /** Once a turn fails the loop is over. */
  lemma {:induction false} FailureStays(trials: seq<Trial>, results: seq<Value>, j: nat, n: nat)
    requires j <= n <= |trials| && n <= |results| && ValidatePrefix(trials, results, j).1.Fail?
    ensures ValidatePrefix(trials, results, n) == ValidatePrefix(trials, results, j)
    decreases n - j
  {
    if j < n {
      FailureStays(trials, results, j, n - 1);
    }
  }

  /** A result completes its trial exactly when it is a dict with the
      trial's iteration under `i` and an `input`; the trial then records the
      input, is timed out exactly when `rt` is missing or `None`, and is
      correct exactly when the input is the target's category, with no
      verdict for a `None` input. */
  lemma ValidateStepMeans(t: Trial, result: Value)
    ensures var (t1, out) := ValidateStep(t, result);
      (out.Pass? <==> result.Obj? && "i" in result.fields && PyEqInt(result.fields["i"], t.iteration) && "input" in result.fields) &&
      (out.Fail? ==> out.error in {TypeError, KeyError, AssertionError}) &&
      (out.Pass? ==>
        var m := result.fields;
        t1.isCompleted && t1.response == m["input"] &&
        (t1.isTimeouted == Some(true) <==> "rt" !in m || m["rt"] == Null) && t1.isTimeouted.Some? &&
        (t1.isCorrect.None? <==> m["input"] == Null) &&
        (t1.isCorrect == Some(true) <==> m["input"] == Str(t.targetCategory)) &&
        t1 == t.(isCompleted := true, response := t1.response, isCorrect := t1.isCorrect,
                 retries := t1.retries, isTimeouted := t1.isTimeouted))
  {
  }

  /** When every turn passes, each of the first `n` trials is the result
      of its turn and the rest are untouched. */
  lemma {:induction false} ValidatePrefixMeans(trials: seq<Trial>, results: seq<Value>, n: nat)
    requires n <= |trials| && n <= |results|
    ensures var (r, out) := ValidatePrefix(trials, results, n);
      out.Pass? ==> forall j :: 0 <= j < n ==> ValidateStep(trials[j], results[j]) == (r[j], Pass)
  {
    if n > 0 {
      ValidatePrefixMeans(trials, results, n - 1);
      var (done, out) := ValidatePrefix(trials, results, n - 1);
      if out.Pass? {
        var (t, o) := ValidateStep(done[n - 1], results[n - 1]);
        if o.Pass? {
          assert done[n - 1] == trials[n - 1];
        }
      }
    }
  }

  // ---- cleanup and statistics -------------------------------------------------

  /** The completed trials, in order: what `cleanup_trials` leaves. */
  function Completed(s: seq<Trial>): (r: seq<Trial>)
    ensures |r| <= |s|
    ensures forall j :: 0 <= j < |r| ==> r[j].isCompleted
  {
    if s == [] then []
    else Completed(s[..|s| - 1]) + (if s[|s| - 1].isCompleted then [s[|s| - 1]] else [])
  }

  /** Cleaning up keeps exactly the completed trials. */
  lemma {:induction false} CompletedMeans(s: seq<Trial>)
    ensures forall t :: t in Completed(s) <==> t in s && t.isCompleted
    ensures (forall j :: 0 <= j < |s| ==> s[j].isCompleted) ==> Completed(s) == s
    ensures (forall j :: 0 <= j < |s| ==> !s[j].isCompleted) ==> Completed(s) == []
  {
    if s != [] {
      var n := |s| - 1;
      CompletedMeans(s[..n]);
      assert s == s[..n] + [s[n]];
      forall t ensures t in s <==> t in s[..n] || t == s[n] {
      }
    }
  }

  /** The number of completed trials with verdict `outcome`
      (`Trial.filter(is_completed=True, is_correct=outcome)`). */
  function CountEnded(s: seq<Trial>, outcome: Option<bool>): (r: nat)
    ensures r <= |s|
  {
    if s == [] then 0
    else CountEnded(s[..|s| - 1], outcome) + (if s[|s| - 1].isCompleted && s[|s| - 1].isCorrect == outcome then 1 else 0)
  }

  /** `calc_stats(player)` */
  function CalcStats(p: Player, trials: seq<Trial>): Player {
    p.(numSolved := CountEnded(trials, Some(true)), numFailed := CountEnded(trials, Some(false)), numSkipped := CountEnded(trials, None))
  }

  /** Among completed trials every one is solved, failed or skipped. */
  lemma {:induction false} CountsCover(s: seq<Trial>)
    requires forall j :: 0 <= j < |s| ==> s[j].isCompleted
    ensures CountEnded(s, Some(true)) + CountEnded(s, Some(false)) + CountEnded(s, None) == |s|
  {
    if s != [] {
      var n := |s| - 1;
      CountsCover(s[..n]);
      // the last trial's verdict, case by case
      if s[n].isCorrect.Some? {
        if s[n].isCorrect.value {
        } else {
        }
      }
    }
  }

  /** `before_next_page`: the results field is cleared first, then the
      results are validated, the unmatched trials deleted and the counters
      computed; an exception in validation stops the rest. */
  function BeforeNextPageSpec(st: State, results: seq<Value>): (State, Outcome) {
    var st0 := st.(player := st.player.(resultsData := ""));
    var (st1, out) := ValidateTrialsSpec(st0, results);
    if out.Fail? then (st1, out)
    else
      var trials := Completed(st1.trials);
      (State(CalcStats(st1.player, trials), trials), Pass)
  }

  /** After a batch that validates, on trials not played before: the
      trials kept are exactly those matched with a result, all completed;
      the completed count is the number of results; and solved, failed and
      skipped count the kept trials, each exactly once. */
  lemma BatchOutcome(st: State, results: seq<Value>)
    requires forall j :: 0 <= j < |st.trials| ==> !st.trials[j].isCompleted
    ensures var (st1, out) := BeforeNextPageSpec(st, results);
      var n := if |st.trials| < |results| then |st.trials| else |results|;
      st1.player.resultsData == "" &&
      (out.Pass? ==>
        |st1.trials| == n &&
        (forall j :: 0 <= j < n ==> ValidateStep(st.trials[j], results[j]) == (st1.trials[j], Pass)) &&
        st1.player.numTrials == |results| &&
        st1.player.numSolved + st1.player.numFailed + st1.player.numSkipped == n)
  {
    var n := if |st.trials| < |results| then |st.trials| else |results|;
    var (validated, out) := ValidatePrefix(st.trials, results, n);
    if out.Pass? {
      ValidatePrefixMeans(st.trials, results, n);
      assert forall j :: 0 <= j < n ==> validated[j].isCompleted;
      assert validated == validated[..n] + validated[n..];
      CompletedOfSplit(validated, n);
      CountsCover(validated[..n]);
    }
  }

  lemma {:induction false} CompletedOfSplit(s: seq<Trial>, n: nat)
    requires n <= |s|
    requires forall j :: 0 <= j < n ==> s[j].isCompleted
    requires forall j :: n <= j < |s| ==> !s[j].isCompleted
    ensures Completed(s) == s[..n]
  {
    if |s| > n {
      var m := |s| - 1;
      CompletedOfSplit(s[..m], n);
      assert s[..m][..n] == s[..n];
    } else {
      CompletedMeans(s);
      assert s[..n] == s;
    }
  }

  class Game {
    var player: Player
    var trials: seq<Trial>

    function Snapshot(): State reads this {
      State(player, trials)
    }

    /** `creating_session` for one player: its counters at zero and its
        trials pregenerated. */
    constructor(roundNumber: int, primes: seq<Stim>, targets: seq<Stim>, draws: nat -> Draw)
      ensures player == Player(roundNumber, 0, 0, 0, 0, "")
      ensures var r := PregenerateSpec(roundNumber, primes, targets, draws);
        trials == (if r.Ok? then r.value else [])
    {
      player := Player(roundNumber, 0, 0, 0, 0, "");
      trials := [];
      new;
      if primes != [] && targets != [] {
        var i := 1;
        while i <= NUM_TRIALS
          invariant 1 <= i <= NUM_TRIALS + 1
          invariant |trials| == i - 1 && player == Player(roundNumber, 0, 0, 0, 0, "")
          invariant forall j :: 0 <= j < i - 1 ==> trials[j] == GenerateTrial(roundNumber, j + 1, primes, targets, draws(j + 1)).value
        {
          var t := GenerateTrial(roundNumber, i, primes, targets, draws(i));
          trials := trials + [t.value];
          i := i + 1;
        }
      }
    }

    /** `validate_trials(player, results)` */
    method ValidateTrials(results: seq<Value>) returns (out: Outcome)
      modifies this
      ensures (Snapshot(), out) == ValidateTrialsSpec(old(Snapshot()), results)
    {
      player := player.(numTrials := |results|);
      var n := if |trials| < |results| then |trials| else |results|;
      ghost var start := trials;
      var i := 0;
      while i < n
        invariant 0 <= i <= n && |trials| == |start|
        invariant ValidatePrefix(start, results, i) == (trials, Pass)
        invariant player == old(player).(numTrials := |results|)
      {
        var (t, o) := ValidateStep(trials[i], results[i]);
        trials := trials[i := t];
        if o.Fail? {
          FailureStays(start, results, i + 1, n);
          return o;
        }
        i := i + 1;
      }
      return Pass;
    }

    /** `cleanup_trials(player)`: every incomplete trial is deleted. */
    method CleanupTrials()
      modifies this
      ensures trials == Completed(old(trials)) && player == old(player)
    {
      var kept: seq<Trial> := [];
      var i := 0;
      while i < |trials|
        invariant 0 <= i <= |trials|
        invariant kept == Completed(trials[..i])
      {
        assert trials[..i + 1][..i] == trials[..i];
        if trials[i].isCompleted {
          kept := kept + [trials[i]];
        }
        i := i + 1;
      }
      assert trials[..i] == trials;
      trials := kept;
    }

    /** `calc_stats(player)` */
    method UpdateStats()
      modifies this
      ensures player == CalcStats(old(player), trials) && trials == old(trials)
    {
      player := player.(numSolved := CountEnded(trials, Some(true)));
      player := player.(numFailed := CountEnded(trials, Some(false)));
      player := player.(numSkipped := CountEnded(trials, None));
    }

    /** `Main.before_next_page` with the decoded results. */
    method BeforeNextPage(results: seq<Value>) returns (out: Outcome)
      modifies this
      ensures (Snapshot(), out) == BeforeNextPageSpec(old(Snapshot()), results)
    {
      player := player.(resultsData := "");
      out := ValidateTrials(results);
      if out.Fail? {
        return;
      }
      CleanupTrials();
      UpdateStats();
    }
  }
}
