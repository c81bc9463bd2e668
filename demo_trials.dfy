/** The question/answer demo (`demo_trials/__init__.py`): each trial shows
    three random characters, a response is accepted in any case and with
    surrounding white space, a wrong response may be retried up to
    `max_retries` times, and a timeout either submits the configured
    `nogo_answer` or skips the trial. The player keeps counts of completed
    trials and of how they ended. */
module DemoTrials {
  import opened Wrappers
  import opened Text

  const CHARSET: string := "ABCDEFGHIJKLMNOPQRSTUVWXYZ0123456789"
  const LENGTH: nat := 3

  /** The session's `params` the handlers read (their defaults are
      `max_retries = 3` and `nogo_answer = None`). */
  datatype Params = Params(maxRetries: int, nogoAnswer: Option<string>)

  datatype Player = Player(roundNumber: int, curIteration: int, numTrials: int, numSolved: int, numFailed: int, numSkipped: int)

  /** A trial record; unset fields are `None`. */
  datatype Trial = Trial(
    round: int,
    iteration: int,
    text: string,
    solution: string,
    isCompleted: bool,
    response: Option<string>,
    isCorrect: Option<bool>,
    retries: int,
    reactionTime: Option<int>,
    isTimeouted: Option<bool>)

  datatype Feedback = Feedback(input: Option<string>, correct: Option<bool>, final: bool)

  datatype Progress = Progress(total: Option<int>, current: int, completed: int, solved: int, failed: int, retries: Option<int>)

  datatype State = State(player: Player, trials: seq<Trial>)

  /** `generate_trial`: the i-th character is `CHARSET[pick(i) % 36]`, the
      stand-in for `random.choice`. */
  function GenerateTrial(p: Player, pick: nat -> nat): Trial {
    var text := seq(LENGTH, i requires 0 <= i < LENGTH => CHARSET[pick(i) % |CHARSET|]);
    Trial(p.roundNumber, p.curIteration, text, Lower(text), false, None, None, 0, None, None)
  }

  /** `get_trial`: the first trial of the player's current iteration. */
  function GetTrial(st: State): (r: Option<nat>)
    ensures r.Some? ==> r.value < |st.trials| && st.trials[r.value].iteration == st.player.curIteration
    ensures r.Some? ==> forall j :: 0 <= j < r.value ==> st.trials[j].iteration != st.player.curIteration
    ensures r.None? ==> forall j :: 0 <= j < |st.trials| ==> st.trials[j].iteration != st.player.curIteration
  {
    FirstOf(st.trials, st.player.curIteration, 0)
  }

  function FirstOf(s: seq<Trial>, iteration: int, from: nat): (r: Option<nat>)
    requires from <= |s|
    requires forall j :: 0 <= j < from ==> s[j].iteration != iteration
    ensures r.Some? ==> r.value < |s| && s[r.value].iteration == iteration
    ensures r.Some? ==> forall j :: 0 <= j < r.value ==> s[j].iteration != iteration
    ensures r.None? ==> forall j :: 0 <= j < |s| ==> s[j].iteration != iteration
    decreases |s| - from
  {
    if from == |s| then None
    else if s[from].iteration == iteration then Some(from)
    else FirstOf(s, iteration, from + 1)
  }

  /** `validate_trial(trial, response)` on the fields it sets. */
  function ValidateTrial(t: Trial, response: Option<string>): Trial {
    match response
    case None => t.(response := None, isCorrect := None)
    case Some(s) => t.(response := Some(Lower(Strip(s))), isCorrect := Some(Lower(Strip(s)) == t.solution))
  }

  /** `get_progress(player, trial)`: the total is the constant
      `NUM_ITERATIONS`, which is `None`. */
  function GetProgress(p: Player, trial: Option<Trial>): Progress {
    Progress(None, p.curIteration, p.numTrials, p.numSolved, p.numFailed, if trial.Some? then Some(trial.value.retries) else None)
  }

  /** `on_load`: the next iteration and its new trial. */
  function OnLoadSpec(st: State, pick: nat -> nat): (State, nat) {
    var player := st.player.(curIteration := st.player.curIteration + 1);
    (State(player, st.trials + [GenerateTrial(player, pick)]), |st.trials|)
  }

  /** The trial after `on_input`. */
  function AnsweredTrial(params: Params, t: Trial, input: Option<string>, responseTime: int, timeout: bool): Trial {
    var t1 := t.(reactionTime := Some(responseTime), isTimeouted := if timeout then Some(true) else t.isTimeouted);
    var effective := if timeout then params.nogoAnswer else input;
    if effective.Some? then
      var t2 := ValidateTrial(t1, effective);
      var t3 := t2.(retries := t2.retries + 1);
      t3.(isCompleted := t3.isCorrect == Some(true) || timeout || t3.retries == params.maxRetries)
    else
      t1.(response := None, isCorrect := None, isCompleted := true)
  }

  /** The counters after a trial ends as `t`. */
  function Tally(p: Player, t: Trial): Player {
    if !t.isCompleted then p
    else if t.isCorrect == Some(true) then p.(numTrials := p.numTrials + 1, numSolved := p.numSolved + 1)
    else if t.isCorrect == Some(false) then p.(numTrials := p.numTrials + 1, numFailed := p.numFailed + 1)
    else p.(numTrials := p.numTrials + 1, numSkipped := p.numSkipped + 1)
  }

  /** `on_input(player, trial, input, response_time, timeout)` on trial `k`. */
  function OnInputSpec(params: Params, st: State, k: nat, input: Option<string>, responseTime: int, timeout: bool): (State, Feedback)
    requires k < |st.trials|
  {
    var t := AnsweredTrial(params, st.trials[k], input, responseTime, timeout);
    (State(Tally(st.player, t), st.trials[k := t]), Feedback(t.response, t.isCorrect, t.isCompleted))
  }

  // ---- properties -------------------------------------------------------------

  /** A trial shows three characters of the charset; its own text is a
      correct response, and so is the text in lower case. */
  lemma GeneratedTextAccepted(p: Player, pick: nat -> nat)
    ensures var t := GenerateTrial(p, pick);
      |t.text| == LENGTH && (forall i :: 0 <= i < |t.text| ==> t.text[i] in CHARSET) &&
      t.iteration == p.curIteration && !t.isCompleted && t.retries == 0 &&
      ValidateTrial(t, Some(t.text)).isCorrect == Some(true) &&
      ValidateTrial(t, Some(Lower(t.text))).isCorrect == Some(true)
  {
    var t := GenerateTrial(p, pick);
    forall i | 0 <= i < |t.text| ensures t.text[i] in CHARSET && !IsSpace(t.text[i]) && !IsSpace(Lower(t.text)[i]) {
      CharsetNoSpace(pick(i) % |CHARSET|);
    }
    StripUnpadded(t.text);
    StripUnpadded(Lower(t.text));
    LowerIdempotent(t.text);
  }

  lemma CharsetNoSpace(j: nat)
    requires j < |CHARSET|
    ensures !IsSpace(CHARSET[j]) && !IsSpace(LowerChar(CHARSET[j]))
  {
    assert forall i :: 0 <= i < |CHARSET| ==> 'A' <= CHARSET[i] <= 'Z' || '0' <= CHARSET[i] <= '9';
  }

  /** The response is stored stripped and in lower case, and is correct
      exactly when that equals the solution; no response leaves both
      unset. Nothing else changes. */
  lemma ValidateMeans(t: Trial, response: Option<string>)
    ensures var r := ValidateTrial(t, response);
      r == t.(response := r.response, isCorrect := r.isCorrect) &&
      (response.None? <==> r.isCorrect.None?) && (response.None? <==> r.response.None?) &&
      (response.Some? ==>
         r.response == Some(Lower(Strip(response.value))) &&
         (r.isCorrect == Some(true) <==> Lower(Strip(response.value)) == t.solution))
  {
  }

  /** A timeout submits `nogo_answer` instead of the input and marks the
      trial; a submitted response counts one more retry and completes the
      trial when correct, on a timeout, or at exactly `max_retries`; no
      response completes it as skipped. The reaction time is stored. */
  lemma AnswerOutcome(params: Params, t: Trial, input: Option<string>, responseTime: int, timeout: bool)
    ensures var r := AnsweredTrial(params, t, input, responseTime, timeout);
      var effective := if timeout then params.nogoAnswer else input;
      r.reactionTime == Some(responseTime) && (timeout ==> r.isTimeouted == Some(true)) &&
      (!timeout ==> r.isTimeouted == t.isTimeouted) &&
      r.iteration == t.iteration && r.text == t.text && r.solution == t.solution &&
      (effective.None? ==> r.isCompleted && r.response.None? && r.isCorrect.None? && r.retries == t.retries) &&
      (effective.Some? ==>
        r.retries == t.retries + 1 && r.response == Some(Lower(Strip(effective.value))) &&
        (r.isCorrect == Some(true) <==> Lower(Strip(effective.value)) == t.solution) && r.isCorrect.Some? &&
        (r.isCompleted <==> r.isCorrect == Some(true) || timeout || t.retries + 1 == params.maxRetries))
  {
  }

  /** The number of completed trials that ended as `outcome` (`Some(true)`
      solved, `Some(false)` failed, `None` skipped). */
  function Ended(s: seq<Trial>, outcome: Option<bool>): (r: nat)
    ensures r <= |s|
  {
    if s == [] then 0
    else Ended(s[..|s| - 1], outcome) + (if s[|s| - 1].isCompleted && s[|s| - 1].isCorrect == outcome then 1 else 0)
  }

  function EndedAs(t: Trial, outcome: Option<bool>): nat {
    if t.isCompleted && t.isCorrect == outcome then 1 else 0
  }

  lemma {:induction false} EndedUpdate(s: seq<Trial>, k: nat, t: Trial, outcome: Option<bool>)
    requires k < |s|
    ensures Ended(s[k := t], outcome) == Ended(s, outcome) - EndedAs(s[k], outcome) + EndedAs(t, outcome)
  {
    var n := |s| - 1;
    if k < n {
      EndedUpdate(s[..n], k, t, outcome);
      assert s[k := t][..n] == s[..n][k := t];
    } else {
      assert s[k := t][..n] == s[..n];
    }
  }

  lemma EndedAppend(s: seq<Trial>, t: Trial, outcome: Option<bool>)
    ensures Ended(s + [t], outcome) == Ended(s, outcome) + EndedAs(t, outcome)
  {
    assert (s + [t])[..|s|] == s;
  }

  /** The iteration counter is the number of trials, trial `j` is that of
      iteration `j + 1`, and the counters agree with how the trials ended. */
  predicate Wf(st: State) {
    st.player.curIteration == |st.trials| &&
    (forall j :: 0 <= j < |st.trials| ==> st.trials[j].iteration == j + 1) &&
    st.player.numSolved == Ended(st.trials, Some(true)) &&
    st.player.numFailed == Ended(st.trials, Some(false)) &&
    st.player.numSkipped == Ended(st.trials, None) &&
    st.player.numTrials == st.player.numSolved + st.player.numFailed + st.player.numSkipped
  }

  /** In a well-formed state the current trial is the last one created,
      and the progress reports the number of trials as the current
      iteration and the sum of the outcomes as the completed count. */
  lemma CurrentIsLast(st: State)
    requires Wf(st)
    ensures GetTrial(st) == if st.trials == [] then None else Some(|st.trials| - 1)
    ensures var pr := GetProgress(st.player, if st.trials == [] then None else Some(st.trials[|st.trials| - 1]));
      pr.current == |st.trials| && pr.completed == st.player.numSolved + st.player.numFailed + st.player.numSkipped &&
      pr.total.None? && (pr.retries.Some? <==> st.trials != [])
  {
  }

  /** `on_load` creates the next iteration's trial as the current one and
      keeps the counters. */
  lemma OnLoadKeepsWf(st: State, pick: nat -> nat)
    requires Wf(st)
    ensures var (st1, k) := OnLoadSpec(st, pick);
      Wf(st1) && st1.player.curIteration == st.player.curIteration + 1 &&
      GetTrial(st1) == Some(k) && st1.trials[..k] == st.trials
  {
    var (st1, k) := OnLoadSpec(st, pick);
    var t := st1.trials[k];
    EndedAppend(st.trials, t, Some(true));
    EndedAppend(st.trials, t, Some(false));
    EndedAppend(st.trials, t, None);
    assert st1.trials[..k] == st.trials;
  }

  /** On an open trial, `on_input` raises the completed count by one
      exactly when it completes the trial, together with exactly the
      counter of its outcome, and keeps the invariant. */
  lemma OnInputKeepsWf(params: Params, st: State, k: nat, input: Option<string>, responseTime: int, timeout: bool)
    requires Wf(st) && k < |st.trials| && !st.trials[k].isCompleted
    ensures var (st1, fb) := OnInputSpec(params, st, k, input, responseTime, timeout);
      Wf(st1) &&
      st1.player.curIteration == st.player.curIteration &&
      st1.player.numTrials == st.player.numTrials + (if fb.final then 1 else 0) &&
      st1.player.numSolved == st.player.numSolved + (if fb.final && fb.correct == Some(true) then 1 else 0) &&
      st1.player.numFailed == st.player.numFailed + (if fb.final && fb.correct == Some(false) then 1 else 0) &&
      st1.player.numSkipped == st.player.numSkipped + (if fb.final && fb.correct.None? then 1 else 0)
  {
    var t := AnsweredTrial(params, st.trials[k], input, responseTime, timeout);
    EndedUpdate(st.trials, k, t, Some(true));
    EndedUpdate(st.trials, k, t, Some(false));
    EndedUpdate(st.trials, k, t, None);
  }

  class Game {
    var player: Player
    var trials: seq<Trial>
    const params: Params

    function Snapshot(): State reads this {
      State(player, trials)
    }

    constructor(params: Params, roundNumber: int)
      ensures Snapshot() == State(Player(roundNumber, 0, 0, 0, 0, 0), []) && this.params == params
      ensures Wf(Snapshot())
    {
      this.params := params;
      player := Player(roundNumber, 0, 0, 0, 0, 0);
      trials := [];
    }

    /** `on_load` */
    method OnLoad(pick: nat -> nat) returns (k: nat)
      modifies this
      ensures (Snapshot(), k) == OnLoadSpec(old(Snapshot()), pick)
    {
      player := player.(curIteration := player.curIteration + 1);
      var t := GenerateTrial(player, pick);
      k := |trials|;
      trials := trials + [t];
    }

    /** `on_input` on the trial at index `k`. */
    method OnInput(k: nat, input: Option<string>, responseTime: int, timeout: bool) returns (fb: Feedback)
      requires k < |trials|
      modifies this
      ensures (Snapshot(), fb) == OnInputSpec(params, old(Snapshot()), k, input, responseTime, timeout)
    {
      var t := trials[k];
      t := t.(reactionTime := Some(responseTime));
      var given := input;
      if timeout {
        t := t.(isTimeouted := Some(true));
        given := params.nogoAnswer;
      }
      if given.Some? {
        t := ValidateTrial(t, given);
        t := t.(retries := t.retries + 1);
        t := t.(isCompleted := t.isCorrect == Some(true) || timeout || t.retries == params.maxRetries);
      } else {
        t := t.(response := None, isCorrect := None);
        t := t.(isCompleted := true);
      }
      trials := trials[k := t];
      if t.isCompleted {
        player := player.(numTrials := player.numTrials + 1);
        if t.isCorrect == Some(true) {
          player := player.(numSolved := player.numSolved + 1);
        } else if t.isCorrect == Some(false) {
          player := player.(numFailed := player.numFailed + 1);
        } else {
          player := player.(numSkipped := player.numSkipped + 1);
        }
      }
      fb := Feedback(t.response, t.isCorrect, t.isCompleted);
    }
  }
}
