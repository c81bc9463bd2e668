/** The live stimulus/response demo (`demo_trials_live/__init__.py`): ten
    pregenerated prime/target trials, played one at a time through the
    `live_trials` protocol, which calls `validate_response` with the page's
    response or a timeout.

    The prime and target pools are read from CSV files; here they are
    parameters. */
module DemoTrialsLive {
  import opened Wrappers
  import opened Json

  const NUM_TRIALS: nat := 10

  /** A pool row: its `stimulus` and `category` columns. */
  datatype Stim = Stim(stimulus: string, category: string)

  /** The positions `random.choice` picks in the prime and the target pool. */
  datatype Draw = Draw(prime: nat, target: nat)

  /** A trial record; `response` and `responseTime` hold what the page
      sent, `Null` until then. */
  datatype Trial = Trial(
    iteration: int,
    isCompleted: bool,
    isTimeouted: bool,
    isSkipped: bool,
    isSuccessful: Option<bool>,
    prime: string,
    primeCategory: string,
    target: string,
    targetCategory: string,
    congruent: bool,
    response: Value,
    responseTime: Value)

  datatype State = State(numCompleted: int, trials: seq<Trial>)

  datatype Progress = Progress(total: int, current: int, completed: int)

  datatype Reply = Reply(responseFinal: bool, responseCorrect: Option<bool>)

  /** `image_url(filename)` */
  function ImageUrl(filename: string): string {
    "/static/images/" + filename
  }

  /** The trial of iteration `it` created by `pregenerate_trials`. */
  function NewTrial(it: int, p: Stim, t: Stim): Trial {
    Trial(it, false, false, false, None, p.stimulus, p.category, ImageUrl(t.stimulus), t.category, p.category == t.category, Null, Null)
  }

  /** `pregenerate_trials`; `random.choice` on an empty pool raises
      IndexError before anything is created. */
  function PregenerateSpec(primes: seq<Stim>, targets: seq<Stim>, draws: nat -> Draw): Result<seq<Trial>> {
    if primes == [] || targets == [] then Err(IndexError)
    else Ok(seq(NUM_TRIALS, j requires 0 <= j < NUM_TRIALS =>
      NewTrial(j + 1, primes[draws(j + 1).prime % |primes|], targets[draws(j + 1).target % |targets|])))
  }

  /** Iterations 1 to 10 in order, each target an image path of the target
      pool, congruent exactly when the categories agree, none played. */
  lemma PregeneratedTrials(primes: seq<Stim>, targets: seq<Stim>, draws: nat -> Draw)
    ensures var r := PregenerateSpec(primes, targets, draws);
      (r.Err? <==> primes == [] || targets == []) &&
      (r.Ok? ==>
        |r.value| == NUM_TRIALS &&
        forall j :: 0 <= j < |r.value| ==>
          var t := r.value[j];
          t.iteration == j + 1 && !t.isCompleted && t.isSuccessful.None? &&
          (exists q :: q in targets && t.target == "/static/images/" + q.stimulus && t.targetCategory == q.category) &&
          (exists p :: p in primes && t.prime == p.stimulus && t.primeCategory == p.category) &&
          (t.congruent <==> t.primeCategory == t.targetCategory))
  {
    var r := PregenerateSpec(primes, targets, draws);
    if r.Ok? {
      forall j | 0 <= j < |r.value|
        ensures var t := r.value[j];
          t.iteration == j + 1 && !t.isCompleted && t.isSuccessful.None? &&
          (exists q :: q in targets && t.target == "/static/images/" + q.stimulus && t.targetCategory == q.category) &&
          (exists p :: p in primes && t.prime == p.stimulus && t.primeCategory == p.category) &&
          (t.congruent <==> t.primeCategory == t.targetCategory)
      {
        var d := draws(j + 1);
        var p, q := primes[d.prime % |primes|], targets[d.target % |targets|];
        assert r.value[j] == NewTrial(j + 1, p, q);
        assert r.value[j].target == "/static/images/" + q.stimulus;
        assert p in primes && q in targets;
      }
    }
  }

  /** `Main.get_progress(player, iteration)` */
  function GetProgress(st: State, iteration: int): (r: Progress)
    ensures r.total == NUM_TRIALS && r.current == iteration && r.completed == st.numCompleted
  {
    Progress(NUM_TRIALS, iteration, st.numCompleted)
  }

  /** The trial after `Main.validate_response`, and whether it got that far:
      without a timeout the response time is stored before `input` is
      read. */
  function ValidatedTrial(t: Trial, response: Dict, timeout: bool): (Trial, Outcome) {
    if timeout then (t.(isTimeouted := true, isSuccessful := None, isCompleted := true), Pass)
    else
      var t1 := t.(responseTime := GetOrNull(response, "response_time"));
      if "input" !in response then (t1, Fail(KeyError))
      else (t1.(response := response["input"], isSuccessful := Some(response["input"] == Str(t.targetCategory)), isCompleted := true), Pass)
  }

  function GetOrNull(d: Dict, k: string): Value {
    if k in d then d[k] else Null
  }

  /** `Main.validate_response(trial, response, timeout_happened)` on trial `k`. */
  function ValidateResponseSpec(st: State, k: nat, response: Dict, timeout: bool): (State, Result<Reply>)
    requires k < |st.trials|
  {
    var (t, out) := ValidatedTrial(st.trials[k], response, timeout);
    var trials := st.trials[k := t];
    if out.Fail? then (st.(trials := trials), Err(out.error))
    else (State(st.numCompleted + 1, trials), Ok(Reply(true, t.isSuccessful)))
  }

  /** Every answered call completes its trial and the completed count and
      is final; a timeout marks the trial timed out with no verdict; a
      response is stored, successful exactly when it is the target's
      category; a response without `input` raises KeyError with only the
      response time stored. */
  lemma ValidateResponseMeans(st: State, k: nat, response: Dict, timeout: bool)
    requires k < |st.trials|
    ensures var (st1, r) := ValidateResponseSpec(st, k, response, timeout);
      var t := st1.trials[k];
      |st1.trials| == |st.trials| && (forall j :: 0 <= j < |st.trials| && j != k ==> st1.trials[j] == st.trials[j]) &&
      (r.Err? <==> !timeout && "input" !in response) &&
      (r.Err? ==> r.error == KeyError && st1.numCompleted == st.numCompleted && !t.isCompleted == !st.trials[k].isCompleted) &&
      (r.Ok? ==>
        st1.numCompleted == st.numCompleted + 1 && t.isCompleted && r.value.responseFinal &&
        r.value.responseCorrect == t.isSuccessful &&
        t.iteration == st.trials[k].iteration && t.targetCategory == st.trials[k].targetCategory) &&
      (r.Ok? && timeout ==> t.isTimeouted && t.isSuccessful.None?) &&
      (r.Ok? && !timeout ==>
        t.response == response["input"] &&
        (t.isSuccessful == Some(true) <==> response["input"] == Str(st.trials[k].targetCategory)) &&
        t.isSuccessful.Some?)
  {
  }

  /** The number of completed trials. */
  function CompletedCount(s: seq<Trial>): (r: nat)
    ensures r <= |s|
  {
    if s == [] then 0 else CompletedCount(s[..|s| - 1]) + (if s[|s| - 1].isCompleted then 1 else 0)
  }

  lemma {:induction false} CompletedUpdate(s: seq<Trial>, k: nat, t: Trial)
    requires k < |s|
    ensures CompletedCount(s[k := t]) == CompletedCount(s) - (if s[k].isCompleted then 1 else 0) + (if t.isCompleted then 1 else 0)
  {
    var n := |s| - 1;
    if k < n {
      CompletedUpdate(s[..n], k, t);
      assert s[k := t][..n] == s[..n][k := t];
    } else {
      assert s[k := t][..n] == s[..n];
    }
  }

  /** The completed count is the number of completed trials. */
  predicate Wf(st: State) {
    st.numCompleted == CompletedCount(st.trials)
  }

  /** On an open trial, as the `live_trials` protocol guarantees, answering
      keeps the count in step with the trials. */
  lemma ValidateKeepsWf(st: State, k: nat, response: Dict, timeout: bool)
    requires Wf(st) && k < |st.trials| && !st.trials[k].isCompleted
    ensures Wf(ValidateResponseSpec(st, k, response, timeout).0)
  {
    var (t, out) := ValidatedTrial(st.trials[k], response, timeout);
    CompletedUpdate(st.trials, k, t);
  }

  lemma {:induction false} NoneCompleted(s: seq<Trial>)
    requires forall j :: 0 <= j < |s| ==> !s[j].isCompleted
    ensures CompletedCount(s) == 0
  {
    if s != [] {
      NoneCompleted(s[..|s| - 1]);
    }
  }

  class Game {
    var numCompleted: int
    var trials: seq<Trial>

    function Snapshot(): State reads this {
      State(numCompleted, trials)
    }

    /** `creating_session` for one player: no trial completed, and the
        trials pregenerated when both pools have rows. */
    constructor(primes: seq<Stim>, targets: seq<Stim>, draws: nat -> Draw)
      ensures var r := PregenerateSpec(primes, targets, draws);
        Snapshot() == State(0, if r.Ok? then r.value else [])
      ensures Wf(Snapshot())
    {
      numCompleted := 0;
      trials := [];
      new;
      if primes != [] && targets != [] {
        var it := 1;
        while it <= NUM_TRIALS
          invariant 1 <= it <= NUM_TRIALS + 1 && numCompleted == 0
          invariant |trials| == it - 1
          invariant forall j :: 0 <= j < it - 1 ==>
            trials[j] == NewTrial(j + 1, primes[draws(j + 1).prime % |primes|], targets[draws(j + 1).target % |targets|])
        {
          var p := primes[draws(it).prime % |primes|];
          var q := targets[draws(it).target % |targets|];
          trials := trials + [NewTrial(it, p, q)];
          it := it + 1;
        }
      }
      NoneCompleted(trials);
    }

    /** `Main.validate_response` on the trial at index `k`. */
    method ValidateResponse(k: nat, response: Dict, timeout: bool) returns (r: Result<Reply>)
      requires k < |trials|
      modifies this
      ensures (Snapshot(), r) == ValidateResponseSpec(old(Snapshot()), k, response, timeout)
    {
      var t := trials[k];
      if timeout {
        t := t.(isTimeouted := true);
        t := t.(isSuccessful := None);
        t := t.(isCompleted := true);
      } else {
        t := t.(responseTime := GetOrNull(response, "response_time"));
        if "input" !in response {
          trials := trials[k := t];
          return Err(KeyError);
        }
        t := t.(response := response["input"]);
        t := t.(isSuccessful := Some(t.response == Str(t.targetCategory)));
        t := t.(isCompleted := true);
      }
      trials := trials[k := t];
      numCompleted := numCompleted + 1;
      return Ok(Reply(true, t.isSuccessful));
    }
  }
}
