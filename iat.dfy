/** The Implicit Association Test live game (`iat/__init__.py`): seven
    rounds, each placing one or two categories on the left and on the right;
    every question is a word of one category and the correct answer is the
    side on which that category is shown.

    The word lists are a configuration parameter, the random choices come
    from `Draws`, and the current time `now` is a parameter. */
module Iat {
  import opened Wrappers
  import opened Json
  import opened IatBlocks

  /** The round set-up table of this game. Rounds 1 to 4 and 6 to 7 are
      those of `BLOCKS1` in `iat/blocks.py`, round 5 is that of `BLOCKS2`. */
  const ROUNDS: map<int, Block> := map[
    1 := Block("Round 1 (practice)", true, [(Primary, 1)], [(Primary, 2)]),
    2 := Block("Round 2 (practice)", true, [(Secondary, 1)], [(Secondary, 2)]),
    3 := Block("Round 3", false, [(Primary, 1), (Secondary, 1)], [(Primary, 2), (Secondary, 2)]),
    4 := Block("Round 4", false, [(Primary, 1), (Secondary, 1)], [(Primary, 2), (Secondary, 2)]),
    5 := Block("Round 5 (practice)", true, [(Secondary, 2)], [(Secondary, 1)]),
    6 := Block("Round 6", false, [(Primary, 2), (Secondary, 1)], [(Primary, 1), (Secondary, 2)]),
    7 := Block("Round 7", false, [(Primary, 2), (Secondary, 1)], [(Primary, 1), (Secondary, 2)])
  ]

  const TRIAL_DELAY: real := 0.25

  /** The session configuration: `trial_delay` (defaulting to
      `TRIAL_DELAY`), `num_iterations` per round, the `primary` and
      `secondary` pairs of category names, and the words of each category. */
  datatype Config = Config(
    trialDelay: real,
    numIterations: map<int, int>,
    pairs: map<Cls, seq<string>>,
    words: map<string, seq<string>>)

  datatype Player = Player(gameRound: int, gameIteration: int)

  datatype Trial = Trial(
    round: int,
    practice: bool,
    iteration: int,
    timestamp: real,
    left1: Option<string>,
    right1: Option<string>,
    left2: Option<string>,
    right2: Option<string>,
    stimulusClass: Cls,
    stimulus: string,
    correct: Side,
    answer: Option<Value>,
    reactionTime: Option<Value>,
    isCorrect: Option<bool>,
    retries: int)

  datatype State = State(player: Player, trials: seq<Trial>)

  /** The corner categories of a round, each side as its dict's items. */
  datatype Categories = Categories(left: seq<(Cls, string)>, right: seq<(Cls, string)>)

  datatype Progress = Progress(round: int, iteration: int, total: int, answered: nat)

  datatype Reply =
    | Question(cls: Cls, word: string, progress: Progress)
    | GameOver
    | Feedback(feedback: bool, progress: Progress)

  /** The outcomes of the three `random.choice` calls of one question. */
  datatype Draws = Draws(side: nat, cls: nat, word: nat)

  const CLASSES: seq<Cls> := [Primary, Secondary]

  function OnSide<V>(left: seq<(Cls, V)>, right: seq<(Cls, V)>, side: Side): seq<(Cls, V)> {
    if side == Left then left else right
  }

  /** The round design: practice exactly in rounds 1, 2 and 5; every side
      of every round shows a category; round 5 switches the secondary pair
      and rounds 6 and 7 switch the primary pair relative to rounds 2 and 3,
      so the practice round does not rehearse the switch tested after it. */
  lemma RoundsDesign()
    ensures forall r :: r in ROUNDS <==> 1 <= r <= 7
    ensures forall r :: r in ROUNDS ==> (ROUNDS[r].practice <==> r == 1 || r == 2 || r == 5)
    ensures forall r :: r in ROUNDS ==> ROUNDS[r].left != [] && ROUNDS[r].right != []
    ensures Swaps(ROUNDS[5], ROUNDS[2], Secondary) && Lookup(ROUNDS[5].left, Primary).None?
    ensures Swaps(ROUNDS[6], ROUNDS[3], Primary) && Keeps(ROUNDS[6], ROUNDS[3], Secondary)
    ensures Swaps(ROUNDS[7], ROUNDS[4], Primary) && Keeps(ROUNDS[7], ROUNDS[4], Secondary)
    ensures ROUNDS[5] == BLOCKS2[5] && (forall r :: r in ROUNDS && r != 5 ==> ROUNDS[r] == BLOCKS1[r])
  {
    RoundsShape();
    RoundsSwitch();
    RoundsTables();
  }

  lemma RoundsShape()
    ensures forall r :: r in ROUNDS <==> 1 <= r <= 7
    ensures forall r :: r in ROUNDS ==> (ROUNDS[r].practice <==> r == 1 || r == 2 || r == 5)
    ensures forall r :: r in ROUNDS ==> ROUNDS[r].left != [] && ROUNDS[r].right != []
  {
    assert ROUNDS.Keys == {1, 2, 3, 4, 5, 6, 7};
  }

  lemma RoundsSwitch()
    ensures Swaps(ROUNDS[5], ROUNDS[2], Secondary) && Lookup(ROUNDS[5].left, Primary).None?
    ensures Swaps(ROUNDS[6], ROUNDS[3], Primary) && Keeps(ROUNDS[6], ROUNDS[3], Secondary)
    ensures Swaps(ROUNDS[7], ROUNDS[4], Primary) && Keeps(ROUNDS[7], ROUNDS[4], Secondary)
  {
  }

  lemma RoundsTables()
    ensures ROUNDS[5] == BLOCKS2[5] && (forall r :: r in ROUNDS && r != 5 ==> ROUNDS[r] == BLOCKS1[r])
  {
    assert ROUNDS.Keys == {1, 2, 3, 4, 5, 6, 7};
  }

  // ---- setup_round ---------------------------------------------------------

  /** One side of `setup_round`: the classes in order, each either named by
      `conf[cls][pick]` or removed when the block does not show it. */
  function SetupSide(entries: seq<(Cls, int)>, pairs: map<Cls, seq<string>>, classes: seq<Cls>): Result<seq<(Cls, string)>> {
    if classes == [] then Ok([])
    else
      match SetupSide(entries, pairs, classes[..|classes| - 1])
      case Err(e) => Err(e)
      case Ok(done) =>
        var cls := classes[|classes| - 1];
        match Lookup(entries, cls)
        case None => Ok(done)
        case Some(idx) =>
          match CategoryAt(pairs, cls, idx)
          case Err(e) => Err(e)
          case Ok(name) => Ok(done + [(cls, name)])
  }

  /** `setup_round` for a round number. */
  function SetupRoundSpec(round: int, pairs: map<Cls, seq<string>>): Result<Categories> {
    if round !in ROUNDS then Err(KeyError)
    else
      match SetupSide(ROUNDS[round].left, pairs, CLASSES)
      case Err(e) => Err(e)
      case Ok(left) =>
        match SetupSide(ROUNDS[round].right, pairs, CLASSES)
        case Err(e) => Err(e)
        case Ok(right) => Ok(Categories(left, right))
  }

  lemma {:induction false} LookupAppend<V>(s: seq<(Cls, V)>, x: (Cls, V), c: Cls)
    ensures Lookup(s + [x], c) == if Lookup(s, c).Some? then Lookup(s, c) else if x.0 == c then Some(x.1) else None
  {
    if s != [] {
      LookupAppend(s[1..], x, c);
      assert (s + [x])[1..] == s[1..] + [x];
    }
  }

  /** A side of the set-up names exactly the classes, among `classes`, that
      the block shows on it, each by its position in the configured pair;
      it fails exactly when one of those names is missing. */
  lemma {:induction false} SetupSideMeans(entries: seq<(Cls, int)>, pairs: map<Cls, seq<string>>, classes: seq<Cls>)
    ensures var r := SetupSide(entries, pairs, classes);
      (r.Ok? <==> forall c :: c in classes && Lookup(entries, c).Some? ==> CategoryAt(pairs, c, Lookup(entries, c).value).Ok?) &&
      (r.Ok? ==> forall c: Cls :: (Lookup(r.value, c) ==
         if c in classes && Lookup(entries, c).Some? then Some(CategoryAt(pairs, c, Lookup(entries, c).value).value) else None)) &&
      (r.Err? ==> r.error in {KeyError, IndexError})
  {
    if classes != [] {
      var n := |classes| - 1;
      var cls := classes[n];
      SetupSideMeans(entries, pairs, classes[..n]);
      assert classes == classes[..n] + [cls];
      match SetupSide(entries, pairs, classes[..n])
      case Err(e) =>
      case Ok(done) =>
        match Lookup(entries, cls)
        case None =>
        case Some(idx) =>
          match CategoryAt(pairs, cls, idx)
          case Err(e) =>
          case Ok(name) =>
            forall c: Cls ensures Lookup(done + [(cls, name)], c) ==
              if c in classes && Lookup(entries, c).Some? then Some(CategoryAt(pairs, c, Lookup(entries, c).value).value) else None
            {
              LookupAppend(done, (cls, name), c);
            }
    }
  }

  /** Block `b` shows class `c` at one position of its pair on one side
      and at the other position on the other side, or not at all. */
  predicate BothPositions(b: Block, c: Cls) {
    match (Lookup(b.left, c), Lookup(b.right, c))
    case (None, None) => true
    case (Some(i), Some(j)) => (i == 1 && j == 2) || (i == 2 && j == 1)
    case _ => false
  }

  /** Every round shows each pair it uses at both of its positions. */
  lemma RoundsUseWholePairs(round: int, c: Cls)
    requires round in ROUNDS
    ensures BothPositions(ROUNDS[round], c)
  {
    assert ROUNDS.Keys == {1, 2, 3, 4, 5, 6, 7};
  }

  /** The name at the 1-based position `idx` of the pair `cls`, if any. */
  function NameAt(pairs: map<Cls, seq<string>>, cls: Cls, idx: Option<int>): Option<string> {
    if idx.Some? && cls in pairs && 1 <= idx.value <= |pairs[cls]| then Some(pairs[cls][idx.value - 1]) else None
  }

  /** `setup_round` succeeds exactly for a round of the table whose shown
      pairs are configured with at least two names; each corner is then the
      configured name at the position the table gives. */
  lemma SetupRoundMeans(round: int, pairs: map<Cls, seq<string>>)
    ensures var r := SetupRoundSpec(round, pairs);
      (r.Ok? <==> (round in ROUNDS && forall c :: Lookup(ROUNDS[round].left, c).Some? ==> c in pairs && |pairs[c]| >= 2)) &&
      (r.Err? ==> r.error in {KeyError, IndexError}) &&
      (r.Ok? ==> forall c: Cls ::
         Lookup(r.value.left, c) == NameAt(pairs, c, Lookup(ROUNDS[round].left, c)) &&
         Lookup(r.value.right, c) == NameAt(pairs, c, Lookup(ROUNDS[round].right, c)))
  {
    if round in ROUNDS {
      var b := ROUNDS[round];
      forall c: Cls
        ensures BothPositions(b, c)
      {
        RoundsUseWholePairs(round, c);
      }
      BlockNames(b, pairs);
    }
  }

  /** The set-up of a block showing whole pairs. */
  lemma BlockNames(b: Block, pairs: map<Cls, seq<string>>)
    requires forall c :: BothPositions(b, c)
    ensures var left := SetupSide(b.left, pairs, CLASSES);
      var right := SetupSide(b.right, pairs, CLASSES);
      (left.Ok? && right.Ok? <==> forall c :: Lookup(b.left, c).Some? ==> c in pairs && |pairs[c]| >= 2) &&
      (left.Err? ==> left.error in {KeyError, IndexError}) &&
      (right.Err? ==> right.error in {KeyError, IndexError}) &&
      (left.Ok? ==> forall c: Cls :: Lookup(left.value, c) == NameAt(pairs, c, Lookup(b.left, c))) &&
      (right.Ok? ==> forall c: Cls :: Lookup(right.value, c) == NameAt(pairs, c, Lookup(b.right, c)))
  {
    forall c: Cls
      ensures Lookup(b.left, c).Some? ==> 1 <= Lookup(b.left, c).value <= 2
      ensures Lookup(b.right, c).Some? ==> 1 <= Lookup(b.right, c).value <= 2
      ensures Lookup(b.left, c).Some? <==> Lookup(b.right, c).Some?
      ensures Lookup(b.left, c).Some? ==> Lookup(b.left, c).value == 2 || Lookup(b.right, c).value == 2
    {
      assert BothPositions(b, c);
    }
    SideNames(b.left, pairs);
    SideNames(b.right, pairs);
  }

  /** A side whose positions are 1 or 2, named class by class. */
  lemma SideNames(entries: seq<(Cls, int)>, pairs: map<Cls, seq<string>>)
    requires forall c :: Lookup(entries, c).Some? ==> 1 <= Lookup(entries, c).value <= 2
    ensures var r := SetupSide(entries, pairs, CLASSES);
      (r.Ok? <==> forall c :: Lookup(entries, c).Some? ==> c in pairs && Lookup(entries, c).value <= |pairs[c]|) &&
      (r.Err? ==> r.error in {KeyError, IndexError}) &&
      (r.Ok? ==> forall c: Cls :: Lookup(r.value, c) == NameAt(pairs, c, Lookup(entries, c)))
  {
    SetupSideMeans(entries, pairs, CLASSES);
    forall c: Cls
      ensures c in CLASSES
    {
      if c == Primary {
        assert CLASSES[0] == c;
      } else {
        assert CLASSES[1] == c;
      }
    }
  }

  /** One side, class by class, as the inner loop of `setup_round`. */
  method SetupSideLoop(entries: seq<(Cls, int)>, pairs: map<Cls, seq<string>>) returns (r: Result<seq<(Cls, string)>>)
    ensures r == SetupSide(entries, pairs, CLASSES)
  {
    var done: seq<(Cls, string)> := [];
    var i := 0;
    while i < |CLASSES|
      invariant 0 <= i <= |CLASSES|
      invariant SetupSide(entries, pairs, CLASSES[..i]) == Ok(done)
    {
      var cls := CLASSES[i];
      assert CLASSES[..i + 1][..i] == CLASSES[..i];
      var idx := Lookup(entries, cls);
      if idx.Some? {
        var name := CategoryAt(pairs, cls, idx.value);
        if name.Err? {
          assert i == 0 ==> CLASSES[..2][..1] == CLASSES[..1];
          assert CLASSES[..2] == CLASSES;
          return Err(name.error);
        }
        done := done + [(cls, name.value)];
      }
      i := i + 1;
    }
    assert CLASSES[..i] == CLASSES;
    return Ok(done);
  }

  /** `setup_round`: the left side then the right side. */
  method SetupRound(round: int, pairs: map<Cls, seq<string>>) returns (r: Result<Categories>)
    ensures r == SetupRoundSpec(round, pairs)
  {
    if round !in ROUNDS {
      return Err(KeyError);
    }
    var left := SetupSideLoop(ROUNDS[round].left, pairs);
    if left.Err? {
      return Err(left.error);
    }
    var right := SetupSideLoop(ROUNDS[round].right, pairs);
    if right.Err? {
      return Err(right.error);
    }
    return Ok(Categories(left.value, right.value));
  }

  // ---- questions -----------------------------------------------------------

  /** The corner field of a trial: `left_1`, `left_2`, `right_1`, `right_2`. */
  function Corner(t: Trial, side: Side, cls: Cls): Option<string> {
    match (side, cls)
    case (Left, Primary) => t.left1
    case (Left, Secondary) => t.left2
    case (Right, Primary) => t.right1
    case (Right, Secondary) => t.right2
  }

  /** `generate_question`: a side, one of the classes shown on it, and a
      word of that class's category; the side is the correct answer. */
  function GenerateQuestion(cfg: Config, round: int, d: Draws): Result<Trial> {
    if round !in ROUNDS then Err(KeyError)
    else
      match SetupRoundSpec(round, cfg.pairs)
      case Err(e) => Err(e)
      case Ok(cats) =>
        var side := if d.side % 2 == 0 then Left else Right;
        var shown := OnSide(cats.left, cats.right, side);
        if shown == [] then Err(IndexError)
        else
          var (cls, cat) := shown[d.cls % |shown|];
          if cat !in cfg.words then Err(KeyError)
          else if cfg.words[cat] == [] then Err(IndexError)
          else
            var word := cfg.words[cat][d.word % |cfg.words[cat]|];
            Ok(Trial(0, ROUNDS[round].practice, 0, 0.0,
                     Lookup(cats.left, Primary), Lookup(cats.right, Primary),
                     Lookup(cats.left, Secondary), Lookup(cats.right, Secondary),
                     cls, word, side, None, None, None, 0))
  }

  /** The classes of one side of a set-up are distinct. */
  lemma SetupSideDistinct(entries: seq<(Cls, int)>, pairs: map<Cls, seq<string>>)
    ensures var r := SetupSide(entries, pairs, CLASSES);
      r.Ok? ==> forall i, j :: 0 <= i < j < |r.value| ==> r.value[i].0 != r.value[j].0
  {
    assert CLASSES[..1][..0] == [] && CLASSES[..2][..1] == CLASSES[..1] && CLASSES[..2] == CLASSES;
    assert CLASSES[..1][0] == Primary && CLASSES[1] == Secondary;
    assert SetupSide(entries, pairs, CLASSES[..1][..0]) == Ok([]);
    var first := SetupSide(entries, pairs, CLASSES[..1]);
    assert first.Ok? ==> first.value == [] || (|first.value| == 1 && first.value[0].0 == Primary);
    var r := SetupSide(entries, pairs, CLASSES);
    assert r.Ok? ==> first.Ok? && (r.value == first.value || r.value == first.value + [(Secondary, r.value[|r.value| - 1].1)]);
  }

  lemma {:induction false} LookupOfDistinct<V>(s: seq<(Cls, V)>, k: nat)
    requires k < |s|
    requires forall i, j :: 0 <= i < j < |s| ==> s[i].0 != s[j].0
    ensures Lookup(s, s[k].0) == Some(s[k].1)
  {
    if k > 0 {
      assert s[0].0 != s[k].0;
      assert s[1..][k - 1] == s[k];
      LookupOfDistinct(s[1..], k - 1);
    }
  }

  /** Generating a question fails exactly when the round cannot be set up,
      or the category drawn has no words; the errors are lookups. */
  lemma GenerateQuestionFails(cfg: Config, round: int, d: Draws)
    ensures var r := GenerateQuestion(cfg, round, d);
      var side := if d.side % 2 == 0 then Left else Right;
      (r.Ok? <==> (SetupRoundSpec(round, cfg.pairs).Ok? &&
         var cats := SetupRoundSpec(round, cfg.pairs).value;
         var shown := OnSide(cats.left, cats.right, side);
         shown != [] && shown[d.cls % |shown|].1 in cfg.words && cfg.words[shown[d.cls % |shown|].1] != [])) &&
      (r.Err? ==> r.error in {KeyError, IndexError})
  {
    SetupRoundMeans(round, cfg.pairs);
  }

  /** A question is a word of the category shown, for its class, on the
      side that is its correct answer; the trial records the round's
      corners and practice flag and is not answered yet. */
  lemma GenerateQuestionMeans(cfg: Config, round: int, d: Draws)
    ensures var r := GenerateQuestion(cfg, round, d);
      r.Ok? ==>
        var t := r.value;
        (t.correct == Left <==> d.side % 2 == 0) &&
        round in ROUNDS && t.practice == ROUNDS[round].practice &&
        Lookup(OnSide(ROUNDS[round].left, ROUNDS[round].right, t.correct), t.stimulusClass).Some? &&
        Corner(t, t.correct, t.stimulusClass).Some? &&
        Corner(t, t.correct, t.stimulusClass).value in cfg.words &&
        t.stimulus in cfg.words[Corner(t, t.correct, t.stimulusClass).value] &&
        t.answer.None? && t.isCorrect.None? && t.reactionTime.None? && t.retries == 0
  {
    var r := GenerateQuestion(cfg, round, d);
    if r.Ok? {
      SetupRoundMeans(round, cfg.pairs);
      var cats := SetupRoundSpec(round, cfg.pairs).value;
      var side := r.value.correct;
      var b := ROUNDS[round];
      var entries := OnSide(b.left, b.right, side);
      SetupSideDistinct(entries, cfg.pairs);
      var shown := OnSide(cats.left, cats.right, side);
      assert shown == SetupSide(entries, cfg.pairs, CLASSES).value;
      var k := d.cls % |shown|;
      var cls := shown[k].0;
      LookupOfDistinct(shown, k);
      assert Lookup(shown, cls) == Some(shown[k].1);
      assert Corner(r.value, side, cls) == Lookup(shown, cls);
      assert Lookup(entries, cls).Some?;
    }
  }

  // ---- trials and progress -------------------------------------------------

  /** `get_last_trial`: the last trial of the player's round and iteration. */
  function LastTrial(s: seq<Trial>, round: int, iteration: int): (r: Option<nat>)
    ensures r.Some? ==> r.value < |s| && s[r.value].round == round && s[r.value].iteration == iteration
  {
    if s == [] then None
    else if s[|s| - 1].round == round && s[|s| - 1].iteration == iteration then Some(|s| - 1)
    else LastTrial(s[..|s| - 1], round, iteration)
  }

  /** None is found exactly when there is none, and no later trial is of
      that round and iteration. */
  lemma {:induction false} LastTrialIsLast(s: seq<Trial>, round: int, iteration: int)
    ensures var r := LastTrial(s, round, iteration);
      (r.None? <==> forall i :: 0 <= i < |s| ==> !(s[i].round == round && s[i].iteration == iteration)) &&
      (r.Some? ==> forall i :: r.value < i < |s| ==> !(s[i].round == round && s[i].iteration == iteration))
  {
    if s != [] {
      var n := |s| - 1;
      LastTrialIsLast(s[..n], round, iteration);
      assert forall i :: 0 <= i < n ==> s[..n][i] == s[i];
    }
  }

  function CurrentTrial(st: State): Option<nat> {
    LastTrial(st.trials, st.player.gameRound, st.player.gameIteration)
  }

  /** The trials of a round. */
  function CountRound(s: seq<Trial>, round: int): nat {
    if s == [] then 0 else CountRound(s[..|s| - 1], round) + (if s[|s| - 1].round == round then 1 else 0)
  }

  /** The trials of a round answered correctly. */
  function CountSolved(s: seq<Trial>, round: int): nat {
    if s == [] then 0
    else CountSolved(s[..|s| - 1], round) + (if s[|s| - 1].round == round && s[|s| - 1].isCorrect == Some(true) then 1 else 0)
  }

  /** `get_progress`, with `total` the round's `num_iterations`. */
  function GetProgress(st: State, total: int): Progress {
    Progress(st.player.gameRound, st.player.gameIteration, total, CountSolved(st.trials, st.player.gameRound))
  }

  /** At most every trial of the round is counted as answered. */
  lemma {:induction false} SolvedBound(s: seq<Trial>, round: int)
    ensures CountSolved(s, round) <= CountRound(s, round) <= |s|
  {
    if s != [] {
      SolvedBound(s[..|s| - 1], round);
    }
  }

  /** Replacing one trial changes the count by that trial alone. */
  lemma {:induction false} SolvedUpdate(s: seq<Trial>, k: nat, t: Trial, round: int)
    requires k < |s|
    ensures CountSolved(s[k := t], round) + (if s[k].round == round && s[k].isCorrect == Some(true) then 1 else 0) ==
            CountSolved(s, round) + (if t.round == round && t.isCorrect == Some(true) then 1 else 0)
  {
    var n := |s| - 1;
    if k < n {
      SolvedUpdate(s[..n], k, t, round);
      assert s[k := t][..n] == s[..n][k := t];
    } else {
      assert s[k := t][..n] == s[..n];
    }
  }

  /** A new trial adds itself to the count. */
  lemma SolvedAppend(s: seq<Trial>, t: Trial, round: int)
    ensures CountSolved(s + [t], round) == CountSolved(s, round) + (if t.round == round && t.isCorrect == Some(true) then 1 else 0)
  {
    assert (s + [t])[..|s|] == s;
  }

  // ---- play_game -----------------------------------------------------------

  /** `check_answer`: an empty or missing answer is refused, otherwise it is
      stored and judged against the correct side. */
  function CheckAnswer(t: Trial, answer: Value): (r: Result<Trial>)
    ensures r.Err? <==> answer == Str("") || answer == Null
    ensures r.Err? ==> r.error == ValueError
    ensures r.Ok? ==> (r.value == t.(answer := Some(answer), isCorrect := r.value.isCorrect) &&
      r.value.isCorrect == Some(answer == Str(SideName(t.correct))))
  {
    if answer == Str("") || answer == Null then Err(ValueError)
    else Ok(t.(answer := Some(answer), isCorrect := Some(answer == Str(SideName(t.correct)))))
  }

  /** The empty message: the current question again, or the first question
      of the round. */
  function LoadSpec(cfg: Config, st: State, now: real, d: Draws, total: int): (State, Result<Reply>) {
    match CurrentTrial(st)
    case Some(k) => (st, Ok(Question(st.trials[k].stimulusClass, st.trials[k].stimulus, GetProgress(st, total))))
    case None =>
      match GenerateQuestion(cfg, st.player.gameRound, d)
      case Err(e) => (st, Err(e))
      case Ok(q) =>
        var t := q.(round := st.player.gameRound, iteration := 1, timestamp := now);
        var st1 := State(st.player.(gameIteration := 1), st.trials + [t]);
        (st1, Ok(Question(t.stimulusClass, t.stimulus, GetProgress(st1, total))))
  }

  /** The `next` message: the guards in order, the end of the round, then
      the iteration is advanced and a new question generated. */
  function NextSpec(cfg: Config, st: State, now: real, d: Draws, maxIter: int): (State, Result<Reply>) {
    match CurrentTrial(st)
    case None => (st, Err(RuntimeError))
    case Some(k) =>
      var last := st.trials[k];
      if now - last.timestamp < cfg.trialDelay then (st, Err(RuntimeError))
      else if maxIter != 0 && last.iteration >= maxIter then (st, Ok(GameOver))
      else
        var player := st.player.(gameIteration := last.iteration + 1);
        match GenerateQuestion(cfg, player.gameRound, d)
        case Err(e) => (State(player, st.trials), Err(e))
        case Ok(q) =>
          var t := q.(round := player.gameRound, iteration := player.gameIteration, timestamp := now, retries := 0);
          var st1 := State(player, st.trials + [t]);
          (st1, Ok(Question(t.stimulusClass, t.stimulus, GetProgress(st1, maxIter))))
  }

  /** The `answer` message: the answer is checked and stored, then the
      reaction time (a KeyError when the message lacks it), then the
      retry is counted. */
  function AnswerSpec(st: State, data: Dict, total: int): (State, Result<Reply>)
    requires "answer" in data
  {
    match CurrentTrial(st)
    case None => (st, Err(RuntimeError))
    case Some(k) =>
      match CheckAnswer(st.trials[k], data["answer"])
      case Err(e) => (st, Err(e))
      case Ok(t) =>
        if "reaction" !in data then (st.(trials := st.trials[k := t]), Err(KeyError))
        else
          var t1 := t.(reactionTime := Some(data["reaction"]), retries := t.retries + 1);
          var st1 := st.(trials := st.trials[k := t1]);
          (st1, Ok(Feedback(t1.isCorrect.value, GetProgress(st1, total))))
  }

  /** `play_game`: `num_iterations` must have the round; then the message
      kinds in the order they are tested. */
  function PlaySpec(cfg: Config, st: State, data: Dict, now: real, d: Draws): (State, Result<Reply>) {
    if st.player.gameRound !in cfg.numIterations then (st, Err(KeyError))
    else
      var maxIter := cfg.numIterations[st.player.gameRound];
      if data == map[] then LoadSpec(cfg, st, now, d, maxIter)
      else if "next" in data then NextSpec(cfg, st, now, d, maxIter)
      else if "answer" in data then AnswerSpec(st, data, maxIter)
      else (st, Err(ValueError))
  }

  /** The guards of `play_game` before any message kind. */
  lemma MessageGuards(cfg: Config, st: State, data: Dict, now: real, d: Draws)
    ensures var (st1, r) := PlaySpec(cfg, st, data, now, d);
      (st.player.gameRound !in cfg.numIterations ==> st1 == st && r == Err(KeyError)) &&
      (data != map[] && "next" !in data && "answer" !in data ==> st1 == st && r.Err?)
  {
  }

  /** The empty message serves the current question unchanged, and creates
      the round's first question only when there is none. */
  lemma LoadServes(cfg: Config, st: State, now: real, d: Draws, total: int)
    ensures var (st1, r) := LoadSpec(cfg, st, now, d, total);
      (CurrentTrial(st).Some? ==>
         st1 == st &&
         r == Ok(Question(st.trials[CurrentTrial(st).value].stimulusClass, st.trials[CurrentTrial(st).value].stimulus, GetProgress(st, total)))) &&
      (CurrentTrial(st).None? && r.Err? ==> st1 == st) &&
      (CurrentTrial(st).None? && r.Ok? ==>
         var t := st1.trials[|st.trials|];
         st1.player == st.player.(gameIteration := 1) &&
         |st1.trials| == |st.trials| + 1 && st1.trials[..|st.trials|] == st.trials &&
         t.round == st.player.gameRound && t.iteration == 1 && t.timestamp == now &&
         CurrentTrial(st1) == Some(|st.trials|) &&
         r == Ok(Question(t.stimulusClass, t.stimulus, GetProgress(st1, total))))
  {
    match CurrentTrial(st)
    case Some(k) =>
    case None =>
      match GenerateQuestion(cfg, st.player.gameRound, d)
      case Err(e) =>
      case Ok(q) =>
        var t := q.(round := st.player.gameRound, iteration := 1, timestamp := now);
        assert (st.trials + [t])[..|st.trials|] == st.trials;
  }

  /** `next`: refused without a current question or before the delay; the
      end of the round once `num_iterations` questions are played (none
      when it is 0); otherwise the iteration advances, even when the new
      question then fails, and the new question is the current one. */
  lemma NextGuards(cfg: Config, st: State, now: real, d: Draws, maxIter: int)
    ensures var (st1, r) := NextSpec(cfg, st, now, d, maxIter);
      (CurrentTrial(st).None? ==> st1 == st && r == Err(RuntimeError)) &&
      (CurrentTrial(st).Some? ==>
        var last := st.trials[CurrentTrial(st).value];
        (now - last.timestamp < cfg.trialDelay ==> st1 == st && r == Err(RuntimeError)) &&
        (now - last.timestamp >= cfg.trialDelay ==>
          (r == Ok(GameOver) <==> maxIter != 0 && last.iteration >= maxIter) &&
          (r == Ok(GameOver) ==> st1 == st) &&
          (r != Ok(GameOver) ==> st1.player == st.player.(gameIteration := last.iteration + 1)) &&
          (r.Err? ==> st1.trials == st.trials) &&
          (r.Ok? && r != Ok(GameOver) ==>
            var t := st1.trials[|st.trials|];
            |st1.trials| == |st.trials| + 1 && st1.trials[..|st.trials|] == st.trials &&
            t.round == st.player.gameRound && t.iteration == last.iteration + 1 &&
            t.timestamp == now && t.retries == 0 && t.answer.None? &&
            CurrentTrial(st1) == Some(|st.trials|) &&
            r == Ok(Question(t.stimulusClass, t.stimulus, GetProgress(st1, maxIter))))))
  {
    match CurrentTrial(st)
    case None =>
    case Some(k) =>
      var last := st.trials[k];
      if now - last.timestamp >= cfg.trialDelay && !(maxIter != 0 && last.iteration >= maxIter) {
        var player := st.player.(gameIteration := last.iteration + 1);
        GenerateQuestionMeans(cfg, player.gameRound, d);
        match GenerateQuestion(cfg, player.gameRound, d)
        case Err(e) =>
        case Ok(q) =>
          var t := q.(round := player.gameRound, iteration := player.gameIteration, timestamp := now, retries := 0);
          assert (st.trials + [t])[..|st.trials|] == st.trials;
      }
  }

  /** `answer`: an empty answer changes nothing; otherwise the answer and
      its verdict are stored on the current question, the reaction time is
      required (its absence raises after the answer is stored), and the
      retry is counted; the progress counts the verdict. */
  lemma AnswerRecords(st: State, data: Dict, total: int)
    requires "answer" in data
    ensures var (st1, r) := AnswerSpec(st, data, total);
      var a := data["answer"];
      (CurrentTrial(st).None? ==> st1 == st && r == Err(RuntimeError)) &&
      (CurrentTrial(st).Some? ==>
        var k := CurrentTrial(st).value;
        var t := st.trials[k];
        ((a == Str("") || a == Null) ==> st1 == st && r == Err(ValueError)) &&
        (!(a == Str("") || a == Null) ==>
          var t1 := st1.trials[k];
          st1.player == st.player && |st1.trials| == |st.trials| && st1.trials == st.trials[k := t1] &&
          t1.answer == Some(a) && t1.isCorrect == Some(a == Str(SideName(t.correct))) &&
          t1.stimulus == t.stimulus && t1.correct == t.correct && t1.iteration == t.iteration && t1.round == t.round &&
          ("reaction" !in data ==> r == Err(KeyError) && t1.retries == t.retries && t1.reactionTime == t.reactionTime) &&
          ("reaction" in data ==>
             t1.retries == t.retries + 1 && t1.reactionTime == Some(data["reaction"]) &&
             r.Ok? && r.value.Feedback? && r.value.feedback == (a == Str(SideName(t.correct))) &&
             r.value.progress.answered + (if t.isCorrect == Some(true) then 1 else 0) ==
               CountSolved(st.trials, st.player.gameRound) + (if r.value.feedback then 1 else 0))))
  {
    match CurrentTrial(st)
    case None =>
    case Some(k) =>
      match CheckAnswer(st.trials[k], data["answer"])
      case Err(e) =>
      case Ok(t) =>
        if "reaction" in data {
          var t1 := t.(reactionTime := Some(data["reaction"]), retries := t.retries + 1);
          SolvedUpdate(st.trials, k, t1, st.player.gameRound);
        }
  }

  /** What every stored trial satisfies: it belongs to a round of the table
      and carries that round's practice flag, its word belongs to the
      category shown for its class on its correct side, its verdict is that
      of its answer, and a retry was counted only after a reaction time. */
  predicate TrialWf(cfg: Config, t: Trial) {
    t.round in ROUNDS && t.practice == ROUNDS[t.round].practice && t.iteration >= 1 && t.retries >= 0 &&
    Corner(t, t.correct, t.stimulusClass).Some? &&
    Corner(t, t.correct, t.stimulusClass).value in cfg.words &&
    t.stimulus in cfg.words[Corner(t, t.correct, t.stimulusClass).value] &&
    (t.answer.Some? <==> t.isCorrect.Some?) &&
    (t.isCorrect.Some? ==> t.isCorrect.value == (t.answer.value == Str(SideName(t.correct)))) &&
    (t.reactionTime.Some? ==> t.answer.Some?) &&
    (t.retries > 0 ==> t.reactionTime.Some?)
  }

  predicate Wf(cfg: Config, st: State) {
    forall i :: 0 <= i < |st.trials| ==> TrialWf(cfg, st.trials[i])
  }

  /** A question as stored by the empty message or by `next`. */
  lemma StoredQuestionWf(cfg: Config, round: int, d: Draws, iteration: int, now: real)
    requires GenerateQuestion(cfg, round, d).Ok? && iteration >= 1
    ensures TrialWf(cfg, GenerateQuestion(cfg, round, d).value.(round := round, iteration := iteration, timestamp := now, retries := 0))
  {
    GenerateQuestionMeans(cfg, round, d);
  }

  lemma LoadKeepsWf(cfg: Config, st: State, now: real, d: Draws, total: int)
    requires Wf(cfg, st)
    ensures Wf(cfg, LoadSpec(cfg, st, now, d, total).0)
  {
    if CurrentTrial(st).None? && GenerateQuestion(cfg, st.player.gameRound, d).Ok? {
      StoredQuestionWf(cfg, st.player.gameRound, d, 1, now);
      var q := GenerateQuestion(cfg, st.player.gameRound, d).value;
      assert q.retries == 0 by { GenerateQuestionMeans(cfg, st.player.gameRound, d); }
      assert q.(round := st.player.gameRound, iteration := 1, timestamp := now) ==
             q.(round := st.player.gameRound, iteration := 1, timestamp := now, retries := 0);
    }
  }

  lemma NextKeepsWf(cfg: Config, st: State, now: real, d: Draws, maxIter: int)
    requires Wf(cfg, st)
    ensures Wf(cfg, NextSpec(cfg, st, now, d, maxIter).0)
  {
    match CurrentTrial(st)
    case None =>
    case Some(k) =>
      var last := st.trials[k];
      assert TrialWf(cfg, last);
      if GenerateQuestion(cfg, st.player.gameRound, d).Ok? {
        StoredQuestionWf(cfg, st.player.gameRound, d, last.iteration + 1, now);
      }
  }

  lemma AnswerKeepsWf(cfg: Config, st: State, data: Dict, total: int)
    requires Wf(cfg, st) && "answer" in data
    ensures Wf(cfg, AnswerSpec(st, data, total).0)
  {
    match CurrentTrial(st)
    case None =>
    case Some(k) =>
      var t := st.trials[k];
      assert TrialWf(cfg, t);
      match CheckAnswer(t, data["answer"])
      case Err(e) =>
      case Ok(t1) =>
        assert Corner(t1, t1.correct, t1.stimulusClass) == Corner(t, t.correct, t.stimulusClass);
        var t2 := if "reaction" in data then t1.(reactionTime := Some(data["reaction"]), retries := t1.retries + 1) else t1;
        assert Corner(t2, t2.correct, t2.stimulusClass) == Corner(t, t.correct, t.stimulusClass);
        assert TrialWf(cfg, t2);
        assert AnswerSpec(st, data, total).0.trials == st.trials[k := t2];
  }

  /** Every message keeps the invariant. */
  lemma PlayKeepsWf(cfg: Config, st: State, data: Dict, now: real, d: Draws)
    requires Wf(cfg, st)
    ensures Wf(cfg, PlaySpec(cfg, st, data, now, d).0)
  {
    if st.player.gameRound in cfg.numIterations {
      var maxIter := cfg.numIterations[st.player.gameRound];
      if data == map[] {
        LoadKeepsWf(cfg, st, now, d, maxIter);
      } else if "next" in data {
        NextKeepsWf(cfg, st, now, d, maxIter);
      } else if "answer" in data {
        AnswerKeepsWf(cfg, st, data, maxIter);
      }
    }
  }

  // ---- the messages of the page script -------------------------------------

  /** The messages the page script `iat.js` sends: `{type: 'load'}` on
      start, `{type: 'next'}` for a question, and `{type: 'answer', answer,
      reaction_time}`. */
  function ClientLoad(): Dict { map["type" := Str("load")] }

  function ClientNext(): Dict { map["type" := Str("next")] }

  function ClientAnswer(answer: Value, reactionTime: Value): Dict {
    map["type" := Str("answer"), "answer" := answer, "reaction_time" := reactionTime]
  }

  /** As written the page script and `play_game` disagree: its load and next
      messages are neither empty nor carry a `next` key, so both are refused
      and change nothing; with no question served an answer is a
      RuntimeError, and an answer to an existing question is stored and then
      fails for want of `reaction`. */
  lemma ClientMessagesRefused(cfg: Config, st: State, now: real, d: Draws, answer: Value, rt: Value)
    requires st.player.gameRound in cfg.numIterations
    ensures PlaySpec(cfg, st, ClientLoad(), now, d) == (st, Err(ValueError))
    ensures PlaySpec(cfg, st, ClientNext(), now, d) == (st, Err(ValueError))
    ensures CurrentTrial(st).None? ==> PlaySpec(cfg, st, ClientAnswer(answer, rt), now, d) == (st, Err(RuntimeError))
    ensures CurrentTrial(st).Some? && answer != Str("") && answer != Null ==>
      PlaySpec(cfg, st, ClientAnswer(answer, rt), now, d).1 == Err(KeyError)
  {
    assert "type" in ClientLoad() && "type" in ClientNext() && "type" in ClientAnswer(answer, rt);
  }

  /** With the messages `play_game` reads (the empty message, then an
      `answer` with a `reaction`), a round without a question gets its first
      one, and an answer to it is stored, judged and fed back. */
  lemma ServerMessagesPlay(cfg: Config, st: State, now: real, d: Draws, answer: Value, rt: Value)
    requires st.player.gameRound in cfg.numIterations
    requires CurrentTrial(st).None? && GenerateQuestion(cfg, st.player.gameRound, d).Ok?
    requires answer != Str("") && answer != Null
    ensures var (st1, r1) := PlaySpec(cfg, st, map[], now, d);
      r1.Ok? && r1.value.Question? && CurrentTrial(st1) == Some(|st.trials|) &&
      var (st2, r2) := PlaySpec(cfg, st1, map["answer" := answer, "reaction" := rt], now, d);
      r2.Ok? && r2.value.Feedback? && st2.trials[|st.trials|].answer == Some(answer) &&
      st2.trials[|st.trials|].reactionTime == Some(rt)
  {
    var st1 := PlaySpec(cfg, st, map[], now, d).0;
    assert st1.trials[|st1.trials| - 1].round == st1.player.gameRound;
    var msg := map["answer" := answer, "reaction" := rt];
    assert msg != map[] by { assert "answer" in msg; }
  }

  class Game {
    var player: Player
    var trials: seq<Trial>
    const cfg: Config

    function Snapshot(): State reads this {
      State(player, trials)
    }

    constructor(cfg: Config)
      ensures Snapshot() == State(Player(1, 1), []) && this.cfg == cfg
    {
      this.cfg := cfg;
      player := Player(1, 1);
      trials := [];
    }

    /** The `vars_for_template` of page `Round<n>`: the round starts over
        at iteration 0, whose first question the empty message creates. */
    method EnterRound(n: int)
      modifies this
      ensures player == Player(n, 0) && trials == old(trials)
    {
      player := Player(n, 0);
    }

    /** `play_game` at time `now`, with the random draws `d`. */
    method PlayGame(data: Dict, now: real, d: Draws) returns (r: Result<Reply>)
      modifies this
      ensures (Snapshot(), r) == PlaySpec(cfg, old(Snapshot()), data, now, d)
    {
      if player.gameRound !in cfg.numIterations {
        return Err(KeyError);
      }
      var maxIter := cfg.numIterations[player.gameRound];
      var last := LastTrial(trials, player.gameRound, player.gameIteration);
      if data == map[] {
        if last.Some? {
          return Ok(Question(trials[last.value].stimulusClass, trials[last.value].stimulus, GetProgress(Snapshot(), maxIter)));
        }
        var q := GenerateQuestion(cfg, player.gameRound, d);
        if q.Err? {
          return Err(q.error);
        }
        var t := q.value;
        t := t.(round := player.gameRound);
        t := t.(iteration := 1);
        t := t.(timestamp := now);
        trials := trials + [t];
        player := player.(gameIteration := 1);
        return Ok(Question(t.stimulusClass, t.stimulus, GetProgress(Snapshot(), maxIter)));
      }
      if "next" in data {
        r := Next(last, now, d, maxIter);
        return;
      }
      if "answer" in data {
        r := Answer(last, data, maxIter);
        return;
      }
      return Err(ValueError);
    }

    /** The `next` branch. */
    method Next(last: Option<nat>, now: real, d: Draws, maxIter: int) returns (r: Result<Reply>)
      requires last == CurrentTrial(Snapshot())
      modifies this
      ensures (Snapshot(), r) == NextSpec(cfg, old(Snapshot()), now, d, maxIter)
    {
      if last.None? {
        return Err(RuntimeError);
      }
      var prev := trials[last.value];
      if now - prev.timestamp < cfg.trialDelay {
        return Err(RuntimeError);
      }
      if maxIter != 0 && prev.iteration >= maxIter {
        return Ok(GameOver);
      }
      player := player.(gameIteration := prev.iteration + 1);
      var q := GenerateQuestion(cfg, player.gameRound, d);
      if q.Err? {
        return Err(q.error);
      }
      var t := q.value;
      t := t.(round := player.gameRound);
      t := t.(iteration := player.gameIteration);
      t := t.(timestamp := now);
      t := t.(retries := 0);
      trials := trials + [t];
      return Ok(Question(t.stimulusClass, t.stimulus, GetProgress(Snapshot(), maxIter)));
    }

    /** The `answer` branch. */
    method Answer(last: Option<nat>, data: Dict, total: int) returns (r: Result<Reply>)
      requires "answer" in data && last == CurrentTrial(Snapshot())
      modifies this
      ensures (Snapshot(), r) == AnswerSpec(old(Snapshot()), data, total)
    {
      if last.None? {
        return Err(RuntimeError);
      }
      var k := last.value;
      var checked := CheckAnswer(trials[k], data["answer"]);
      if checked.Err? {
        return Err(checked.error);
      }
      var t := checked.value;
      if "reaction" !in data {
        trials := trials[k := t];
        return Err(KeyError);
      }
      t := t.(reactionTime := Some(data["reaction"]));
      t := t.(retries := t.retries + 1);
      trials := trials[k := t];
      return Ok(Feedback(t.isCorrect.value, GetProgress(Snapshot(), total)));
    }
  }
}
