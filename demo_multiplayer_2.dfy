/** The two-player tic-tac-toe demo (`demo_multiplayer_2/__init__.py`): a
    group shares one game record whose board is a string of nine cells; the
    active role places its mark and the game ends on a win or a full board.
    The `live_multiplayer` protocol that delivers the messages is not part
    of this model.

    The file spells the empty-cell marker as the three characters that the
    UTF-8 encoding of "•" gives when read back as Windows-1252, and its
    end-of-game test has two slips; `Variant` selects the code as written or
    the evidently intended rules, and the `Game` class uses the latter. */
module TicTacToe {
  import opened Wrappers
  import opened Json
  import opened Text
  import opened PyList

  datatype Role = X | O

  /** The role's mark, `player.role`. */
  function MarkChar(r: Role): char {
    if r == X then 'x' else 'o'
  }

  /** `NEXT_PLAYER` */
  function NextPlayer(r: Role): Role {
    if r == X then O else X
  }

  /** `C.CHAR_EMPTY` as the file spells it. */
  const CHAR_EMPTY_AS_WRITTEN: string := "\U{E2}\U{20AC}\U{A2}"
  /** The marker it stands for. */
  const EMPTY_CELL: char := '\U{2022}'

  const WINNING_PATTERNS: seq<string> := [
    "+++------", "---+++---", "------+++",
    "+--+--+--", "-+--+--+-", "--+--+--+",
    "+---+---+", "--+-+-+--"]

  datatype Variant = AsWritten | Corrected

  function EmptyMark(v: Variant): string {
    if v == AsWritten then CHAR_EMPTY_AS_WRITTEN else [EMPTY_CELL]
  }

  datatype Trial = Trial(isCompleted: Option<bool>, board: string, winner: Option<Role>)

  datatype Player = Player(numMoves: int, isWinner: bool)

  /** The game record, the group's active role and the two players. */
  datatype State = State(trial: Trial, active: Option<Role>, x: Player, o: Player)

  datatype Verdict = Verdict(winner: Option<Role>, winpattern: Option<string>, full: bool)

  datatype Reply =
    | Rejected
    | Final(board: string, winpattern: string)
    | Accepted(pos: int, mark: Role)

  datatype Status = GameOver(trialSuccessful: bool) | Turn(playerActive: bool)

  function PlayerOf(st: State, r: Role): Player {
    if r == X then st.x else st.o
  }

  function WithPlayer(st: State, r: Role, p: Player): State {
    if r == X then st.(x := p) else st.(o := p)
  }

  // ---- validate_game ---------------------------------------------------------------

  /** A role's marks as `+`, everything else as `-`. */
  function MarksOf(pattern: string, r: Role): string {
    if r == X then Replace(Replace(pattern, "x", "+"), "o", "-")
    else Replace(Replace(pattern, "o", "+"), "x", "-")
  }

  /** `marks` has `+` on every cell of the winning pattern `w`. */
  predicate Covers(marks: string, w: string) {
    forall i :: 0 <= i < |w| && w[i] == '+' ==> i < |marks| && marks[i] == '+'
  }

  /** As written a role wins only when its marks are exactly a winning
      pattern (`x_pattern in WINNING_PATTERNS`); as intended, when they
      include one. */
  predicate Wins(v: Variant, marks: string) {
    if v == AsWritten then marks in WINNING_PATTERNS
    else exists w :: w in WINNING_PATTERNS && Covers(marks, w)
  }

  /** As written `pattern.count('-') == 9`, i.e. every cell empty; as
      intended, no cell empty. */
  predicate FullOf(v: Variant, pattern: string) {
    if v == AsWritten then Count(pattern, '-') == 9 else Count(pattern, '-') == 0
  }

  /** `validate_game(game)`: X is checked before O. */
  function ValidateGame(v: Variant, board: string): Verdict {
    var pattern := Replace(board, EmptyMark(v), "-");
    var full := FullOf(v, pattern);
    var xp := MarksOf(pattern, X);
    if Wins(v, xp) then Verdict(Some(X), Some(xp), full)
    else
      var op := MarksOf(pattern, O);
      if Wins(v, op) then Verdict(Some(O), Some(op), full)
      else Verdict(None, None, full)
  }

  /** A board of nine cells, each empty or a mark. */
  predicate IsBoard(b: string) {
    |b| == 9 && forall i :: 0 <= i < |b| ==> b[i] == EMPTY_CELL || b[i] == 'x' || b[i] == 'o'
  }

  /** `c` stands on every cell of pattern `w`. */
  predicate Holds(b: string, c: char, w: string) {
    forall i :: 0 <= i < |w| && w[i] == '+' ==> i < |b| && b[i] == c
  }

  /** `c` holds a whole line of board `b`. */
  predicate LineOf(b: string, c: char) {
    exists w :: w in WINNING_PATTERNS && Holds(b, c, w)
  }

  /** Cell by cell, `MarksOf` turns the role's mark into `+`, the other
      mark into `-` and leaves every other character. */
  lemma MarksAt(p: string, r: Role)
    ensures |MarksOf(p, r)| == |p|
    ensures forall i :: 0 <= i < |p| ==>
      MarksOf(p, r)[i] == if p[i] == MarkChar(r) then '+' else if p[i] == MarkChar(NextPlayer(r)) then '-' else p[i]
  {
    if r == X {
      ReplaceChar(p, 'x', '+');
      ReplaceChar(Replace(p, "x", "+"), 'o', '-');
    } else {
      ReplaceChar(p, 'o', '+');
      ReplaceChar(Replace(p, "o", "+"), 'x', '-');
    }
  }

  lemma MarksCells(b: string, r: Role)
    requires IsBoard(b)
    ensures var m := MarksOf(Replace(b, [EMPTY_CELL], "-"), r);
      |m| == 9 && forall i :: 0 <= i < 9 ==> (m[i] == '+' <==> b[i] == MarkChar(r))
  {
    ReplaceChar(b, EMPTY_CELL, '-');
    MarksAt(Replace(b, [EMPTY_CELL], "-"), r);
  }

  /** Marks that agree cell by cell with where `c` stands on a board of
      nine cells include a winning pattern exactly when `c` holds a line. */
  lemma CoversMeansLine(m: string, b: string, c: char)
    requires |m| == 9 && |b| == 9
    requires forall i :: 0 <= i < 9 ==> (m[i] == '+' <==> b[i] == c)
    ensures Wins(Corrected, m) <==> LineOf(b, c)
  {
    forall w | w in WINNING_PATTERNS
      ensures Covers(m, w) <==> Holds(b, c, w)
    {
    }
  }

  lemma WinsMeansLine(b: string, r: Role)
    requires IsBoard(b)
    ensures Wins(Corrected, MarksOf(Replace(b, [EMPTY_CELL], "-"), r)) <==> LineOf(b, MarkChar(r))
  {
    MarksCells(b, r);
    CoversMeansLine(MarksOf(Replace(b, [EMPTY_CELL], "-"), r), b, MarkChar(r));
  }

  /** With the intended rules, on a board of nine cells: the board is full
      exactly when no cell is empty, X wins exactly when X holds a whole
      line, and O wins exactly when O does and X does not. */
  lemma CorrectedVerdict(b: string)
    requires IsBoard(b)
    ensures var r := ValidateGame(Corrected, b);
      (r.full <==> EMPTY_CELL !in b) &&
      (r.winner == Some(X) <==> LineOf(b, 'x')) &&
      (r.winner == Some(O) <==> !LineOf(b, 'x') && LineOf(b, 'o')) &&
      (r.winner.Some? <==> r.winpattern.Some?)
  {
    WinsMeansLine(b, X);
    WinsMeansLine(b, O);
    var p := Replace(b, [EMPTY_CELL], "-");
    ReplaceChar(b, EMPTY_CELL, '-');
    assert '-' in p <==> EMPTY_CELL in b by {
      if '-' in p {
        var i :| 0 <= i < |p| && p[i] == '-';
        assert b[i] == EMPTY_CELL;
      }
      if EMPTY_CELL in b {
        var i :| 0 <= i < |b| && b[i] == EMPTY_CELL;
        assert p[i] == '-';
      }
    }
  }

  /** One cell of `w` without `c` breaks the line. */
  lemma Breaks(b: string, c: char, w: string, i: nat)
    requires i < |w| && w[i] == '+' && i < |b| && b[i] != c
    ensures !Holds(b, c, w)
  {
  }

  /** The drawn board `x o x / x o o / o x x` holds no line of either mark. */
  lemma NoLineInDraw(b: string)
    requires IsDraw(b)
    ensures !LineOf(b, 'x') && !LineOf(b, 'o')
  {
    forall w | w in WINNING_PATTERNS
      ensures !Holds(b, 'x', w) && !Holds(b, 'o', w)
    {
      if w == WINNING_PATTERNS[0] {
        Breaks(b, 'x', w, 1); Breaks(b, 'o', w, 0);
      } else if w == WINNING_PATTERNS[1] {
        Breaks(b, 'x', w, 4); Breaks(b, 'o', w, 3);
      } else if w == WINNING_PATTERNS[2] {
        Breaks(b, 'x', w, 6); Breaks(b, 'o', w, 7);
      } else if w == WINNING_PATTERNS[3] {
        Breaks(b, 'x', w, 6); Breaks(b, 'o', w, 0);
      } else if w == WINNING_PATTERNS[4] {
        Breaks(b, 'x', w, 1); Breaks(b, 'o', w, 7);
      } else if w == WINNING_PATTERNS[5] {
        Breaks(b, 'x', w, 5); Breaks(b, 'o', w, 2);
      } else if w == WINNING_PATTERNS[6] {
        Breaks(b, 'x', w, 4); Breaks(b, 'o', w, 0);
      } else {
        Breaks(b, 'x', w, 4); Breaks(b, 'o', w, 2);
      }
    }
  }

  /** The drawn board `x o x / x o o / o x x`. */
  predicate IsDraw(b: string) {
    |b| == 9 &&
    b[0] == 'x' && b[1] == 'o' && b[2] == 'x' && b[3] == 'x' && b[4] == 'o' &&
    b[5] == 'o' && b[6] == 'o' && b[7] == 'x' && b[8] == 'x'
  }

  /** The drawn board is a full board with no line of either mark. */
  lemma DrawIsFull(b: string)
    requires IsDraw(b)
    ensures IsBoard(b) && EMPTY_CELL !in b && !LineOf(b, 'x') && !LineOf(b, 'o')
  {
    NoLineInDraw(b);
  }

  /** As written, the drawn board is not reported full, so the game goes
      on with no empty cell left. */
  lemma AsWrittenDrawNotFull(b: string)
    requires IsDraw(b)
    ensures ValidateGame(AsWritten, b) == Verdict(None, None, false)
  {
    assert CHAR_EMPTY_AS_WRITTEN[0] !in b;
    ReplaceSkips(b, "", CHAR_EMPTY_AS_WRITTEN, "-");
    assert b + "" == b;
    DrawMarks(b);
    AsWrittenNoVerdict(b, Replace(b, CHAR_EMPTY_AS_WRITTEN, "-"));
  }

  lemma DrawMarks(p: string)
    requires IsDraw(p)
    ensures MarksOf(p, X) !in WINNING_PATTERNS && MarksOf(p, O) !in WINNING_PATTERNS && Count(p, '-') == 0
  {
    MarksAt(p, X);
    MarksAt(p, O);
    NotExactX(MarksOf(p, X));
    NotExactO(MarksOf(p, O));
    assert '-' !in p;
  }

  /** As written, a board whose marks are no winning pattern and whose
      pattern is not all `-` gets no verdict at all. */
  lemma AsWrittenNoVerdict(b: string, p: string)
    requires p == Replace(b, CHAR_EMPTY_AS_WRITTEN, "-")
    requires MarksOf(p, X) !in WINNING_PATTERNS && MarksOf(p, O) !in WINNING_PATTERNS && Count(p, '-') != 9
    ensures ValidateGame(AsWritten, b) == Verdict(None, None, false)
  {
  }

  /** Marks of the shape `+ - ? / + ? ? / - ? ?` are no winning pattern. */
  lemma NotExactX(m: string)
    requires |m| == 9 && m[0] == '+' && m[1] == '-' && m[3] == '+' && m[6] == '-'
    ensures m !in WINNING_PATTERNS
  {
  }

  /** Marks of the shape `- + ? / ? - ? / ? ? ?` or `- + ? / ? ? + / ? ? ?`
      are no winning pattern. */
  lemma NotExactO(m: string)
    requires |m| == 9 && m[0] == '-' && m[1] == '+' && (m[4] == '-' || m[5] == '+')
    ensures m !in WINNING_PATTERNS
  {
  }

  /** Reading the as-written marker back: two trailing markers become two
      `-` cells. */
  lemma AsWrittenPattern(pre: string, e: string)
    requires e == CHAR_EMPTY_AS_WRITTEN && pre == "xooxxxo"
    ensures Replace(pre + e + e, e, "-") == pre + "--"
  {
    ReplaceSkips(pre, e + e, e, "-");
    ReplaceFront(e, e, "-");
    ReplaceFront(e, "", "-");
    assert pre + e + e == pre + (e + e);
    assert e + "" == e;
  }

  /** As written, X holding the middle row and one more cell does not win;
      with the intended rules X wins. */
  lemma AsWrittenLineMissed(b: string, c: string)
    requires b == "xooxxxo" + CHAR_EMPTY_AS_WRITTEN + CHAR_EMPTY_AS_WRITTEN
    requires c == "xooxxxo" + [EMPTY_CELL, EMPTY_CELL]
    ensures ValidateGame(AsWritten, b).winner.None?
    ensures LineOf(c, 'x') && ValidateGame(Corrected, c).winner == Some(X)
  {
    AsWrittenPattern("xooxxxo", CHAR_EMPTY_AS_WRITTEN);
    var p := Replace(b, CHAR_EMPTY_AS_WRITTEN, "-");
    MarksAt(p, X);
    MarksAt(p, O);
    NotExactX(MarksOf(p, X));
    NotExactO(MarksOf(p, O));
    assert IsBoard(c);
    assert Holds(c, 'x', WINNING_PATTERNS[1]);
    CorrectedVerdict(c);
  }

  // ---- validate_response -------------------------------------------------------------

  /** `board[pos]` accepts an int (or a bool); any other index is a
      TypeError. */
  function ActionIndex(v: Value): Result<int> {
    match v
    case Num(n) => Ok(n)
    case Bool(b) => Ok(if b then 1 else 0)
    case _ => Err(TypeError)
  }

  /** `Game.validate_response(game, player, response, timeout_happened)`
      for the player of role `role`. */
  function Respond(v: Variant, st: State, role: Role, response: Dict, timeout: bool): (State, Result<Reply>) {
    if timeout then (st, Err(NotImplementedError))
    else if st.active != Some(role) then (st, Err(RuntimeError))
    else if "action" !in response then (st, Err(KeyError))
    else match ActionIndex(response["action"])
      case Err(e) => (st, Err(e))
      case Ok(pos) =>
        var b := st.trial.board;
        match PyIndex(|b|, pos)
        case None => (st, Err(IndexError))
        case Some(k) =>
          if [b[k]] != EmptyMark(v) then (st, Ok(Rejected))
          else Place(v, st, role, k, pos)
  }

  /** The rest of `validate_response` once the cell at resolved index `k`
      (sent as `pos`) is known to be empty: count the move, place the mark,
      judge the board and either pass the turn or end the game. */
  function Place(v: Variant, st: State, role: Role, k: nat, pos: int): (State, Result<Reply>)
    requires k < |st.trial.board|
  {
    var st1 := Marked(st, role, k);
    Conclude(v, st1, role, ValidateGame(v, st1.trial.board), pos)
  }

  /** `player.num_moves += 1` and `put_mark(game, pos, mark)`. */
  function Marked(st: State, role: Role, k: nat): State
    requires k < |st.trial.board|
  {
    var mover := PlayerOf(st, role).(numMoves := PlayerOf(st, role).numMoves + 1);
    WithPlayer(st.(trial := st.trial.(board := st.trial.board[k := MarkChar(role)])), role, mover)
  }

  /** The end of `validate_response`, given the marked state and the
      board's `verdict`. */
  function Conclude(v: Variant, st: State, role: Role, verdict: Verdict, pos: int): (State, Result<Reply>) {
    var completed := verdict.full || verdict.winner.Some?;
    var st1 := st.(trial := st.trial.(isCompleted := Some(completed)));
    if !completed then (st1.(active := Some(NextPlayer(role))), Ok(Accepted(pos, role)))
    else
      var st2 :=
        if verdict.winner.Some? then WithPlayer(st1.(active := None, trial := st1.trial.(winner := verdict.winner)), role, PlayerOf(st1, role).(isWinner := true))
        else st1.(active := None);
      match verdict.winpattern
      case Some(w) => (st2, Ok(Final(st.trial.board, w)))
      case None =>
        // `list(None)` for a draw as written; an empty pattern as intended
        if v == AsWritten then (st2, Err(TypeError)) else (st2, Ok(Final(st.trial.board, "")))
  }

  /** Placing marks cell `k` with the mover's mark and nothing else there,
      counts one move for the mover and none for the other player, records
      whether the game is over, and ends it (no active role) exactly when it
      is over; an unfinished game passes the turn and acknowledges `pos`. */
  lemma PlaceMeans(v: Variant, st: State, role: Role, k: nat, pos: int)
    requires k < |st.trial.board|
    ensures var (st1, r) := Place(v, st, role, k, pos);
      st1 != st &&
      st1.trial.board == st.trial.board[k := MarkChar(role)] &&
      PlayerOf(st1, role).numMoves == PlayerOf(st, role).numMoves + 1 &&
      PlayerOf(st1, NextPlayer(role)) == PlayerOf(st, NextPlayer(role)) &&
      st1.trial.isCompleted.Some? &&
      (st1.trial.isCompleted == Some(true) <==> st1.active.None?) &&
      (st1.trial.isCompleted != Some(true) ==> st1.active == Some(NextPlayer(role)) && r == Ok(Accepted(pos, role)))
  {
    var st1 := Marked(st, role, k);
    ConcludeMeans(v, st1, role, ValidateGame(v, st1.trial.board), pos);
  }

  lemma ConcludeMeans(v: Variant, st: State, role: Role, verdict: Verdict, pos: int)
    ensures var (st1, r) := Conclude(v, st, role, verdict, pos);
      st1.trial.board == st.trial.board &&
      PlayerOf(st1, role).numMoves == PlayerOf(st, role).numMoves &&
      PlayerOf(st1, NextPlayer(role)) == PlayerOf(st, NextPlayer(role)) &&
      st1.trial.isCompleted.Some? &&
      (st1.trial.isCompleted == Some(true) <==> st1.active.None?) &&
      (st1.trial.isCompleted != Some(true) ==> st1.active == Some(NextPlayer(role)) && r == Ok(Accepted(pos, role)))
  {
  }

  /** A draw ends the game for both roles; as written the reply then fails
      on `list(None)`, as intended it carries an empty pattern. */
  lemma DrawReply(st: State, role: Role, pos: int)
    ensures var (st1, r) := Conclude(AsWritten, st, role, Verdict(None, None, true), pos);
      st1.active.None? && st1.trial.isCompleted == Some(true) && r == Err(TypeError)
    ensures var (st1, r) := Conclude(Corrected, st, role, Verdict(None, None, true), pos);
      st1.active.None? && st1.trial.winner == st.trial.winner && r == Ok(Final(st.trial.board, ""))
  {
  }

  /** `Game.get_status(game, player)` */
  function GetStatus(st: State, role: Role): Status {
    if st.trial.isCompleted == Some(true) then GameOver(st.trial.winner == Some(role))
    else Turn(st.active == Some(role))
  }

  /** `creating_session`: an empty board with X to move. */
  function Initial(v: Variant): State {
    State(Trial(None, RepeatStr(EmptyMark(v), 9), None), Some(X), Player(0, false), Player(0, false))
  }

  /** The status reports a finished game to both players, as won exactly
      for the winner, and otherwise tells each player whether it is their
      turn. */
  lemma StatusMeans(st: State, role: Role)
    ensures var s := GetStatus(st, role);
      (s.GameOver? <==> st.trial.isCompleted == Some(true)) &&
      (s.GameOver? ==> (s.trialSuccessful <==> st.trial.winner == Some(role))) &&
      (s.Turn? ==> (s.playerActive <==> st.active == Some(role)))
  {
  }

  /** Timeouts, wrong turns and occupied cells change nothing; a move on an
      empty cell places the mover's mark there and nowhere else and counts
      the move; with the intended rules an unfinished game passes the turn
      and a finished one has no active role. */
  lemma RespondMeans(v: Variant, st: State, role: Role, response: Dict, timeout: bool)
    ensures var (st1, r) := Respond(v, st, role, response, timeout);
      (timeout ==> r == Err(NotImplementedError) && st1 == st) &&
      (!timeout && st.active != Some(role) ==> r == Err(RuntimeError) && st1 == st) &&
      (r == Ok(Rejected) ==> st1 == st) &&
      (st1 != st ==>
        !timeout && st.active == Some(role) && "action" in response && ActionIndex(response["action"]).Ok? &&
        var pos := ActionIndex(response["action"]).value;
        var k := PyIndex(|st.trial.board|, pos);
        k.Some? && [st.trial.board[k.value]] == EmptyMark(v) &&
        st1.trial.board == st.trial.board[k.value := MarkChar(role)] &&
        PlayerOf(st1, role).numMoves == PlayerOf(st, role).numMoves + 1 &&
        PlayerOf(st1, NextPlayer(role)) == PlayerOf(st, NextPlayer(role)) &&
        (st1.trial.isCompleted == Some(true) <==> st1.active.None?) &&
        (st1.trial.isCompleted != Some(true) ==> st1.active == Some(NextPlayer(role)) && r == Ok(Accepted(pos, role))))
  {
    if !timeout && st.active == Some(role) && "action" in response && ActionIndex(response["action"]).Ok? {
      var pos := ActionIndex(response["action"]).value;
      var k := PyIndex(|st.trial.board|, pos);
      if k.Some? && [st.trial.board[k.value]] == EmptyMark(v) {
        PlaceMeans(v, st, role, k.value, pos);
      }
    }
  }

  // ---- the code as written ------------------------------------------------------------

  /** As written no cell ever equals the three-character marker, so every
      move is refused or fails and the state never changes. */
  lemma AsWrittenRefusesEveryMove(st: State, role: Role, response: Dict, timeout: bool)
    ensures var (st1, r) := Respond(AsWritten, st, role, response, timeout);
      st1 == st && (r.Err? || r == Ok(Rejected))
  {
  }

  datatype Move = Move(role: Role, response: Dict, timeout: bool)

  /** The state after a sequence of messages. */
  function Run(v: Variant, st: State, moves: seq<Move>): State
    decreases |moves|
  {
    if moves == [] then st
    else Run(v, Respond(v, st, moves[0].role, moves[0].response, moves[0].timeout).0, moves[1..])
  }

  /** As written the game never leaves its initial state: no sequence of
      messages places a mark. */
  lemma {:induction false} AsWrittenGameNeverMoves(moves: seq<Move>)
    ensures Run(AsWritten, Initial(AsWritten), moves) == Initial(AsWritten)
    decreases |moves|
  {
    if moves != [] {
      AsWrittenRefusesEveryMove(Initial(AsWritten), moves[0].role, moves[0].response, moves[0].timeout);
      AsWrittenGameNeverMoves(moves[1..]);
    }
  }

  // ---- the intended game ----------------------------------------------------------------

  /** The invariant of the intended game: the board is nine cells, the move
      counters count the marks, X moves first and the turns alternate, and
      an unfinished game has an empty cell and an active role. */
  predicate Wf(st: State) {
    var b := st.trial.board;
    IsBoard(b) && st.x.numMoves == Count(b, 'x') && st.o.numMoves == Count(b, 'o') &&
    (Count(b, 'x') == Count(b, 'o') || Count(b, 'x') == Count(b, 'o') + 1) &&
    (st.trial.isCompleted == Some(true) ==> st.active.None?) &&
    (st.trial.isCompleted != Some(true) ==>
      EMPTY_CELL in b && st.active == Some(if Count(b, 'x') == Count(b, 'o') then X else O))
  }

  lemma InitialWf()
    ensures Wf(Initial(Corrected))
  {
    var b := RepeatStr([EMPTY_CELL], 9);
    RepeatOne(EMPTY_CELL, 9);
    MultisetOfRepeat(EMPTY_CELL, 9);
    assert b[0] == EMPTY_CELL;
  }

  lemma {:induction false} RepeatOne(c: char, n: nat)
    ensures RepeatStr([c], n) == Repeat(c, n)
  {
    if n > 0 {
      RepeatOne(c, n - 1);
    }
  }

  /** Two different characters together occur at most `|s|` times. */
  lemma {:induction false} CountTwo(s: string, c: char, d: char)
    requires c != d
    ensures Count(s, c) + Count(s, d) <= |s|
  {
    if s != [] {
      var n := |s| - 1;
      CountTwo(s[..n], c, d);
      assert s == s[..n] + [s[n]];
      assert multiset(s) == multiset(s[..n]) + multiset{s[n]};
    }
  }

  /** The number of marks placed so far is at most nine. */
  lemma MovesBounded(st: State)
    requires Wf(st)
    ensures st.x.numMoves + st.o.numMoves <= 9
  {
    CountTwo(st.trial.board, 'x', 'o');
  }

  /** Marking an empty cell adds one of the mark and changes no other
      mark's count. */
  lemma CountAfterMark(b: string, k: nat, c: char)
    requires k < |b| && b[k] == EMPTY_CELL && c != EMPTY_CELL
    ensures Count(b[k := c], c) == Count(b, c) + 1
    ensures forall d :: d != c && d != EMPTY_CELL ==> Count(b[k := c], d) == Count(b, d)
  {
    assert multiset(b[k := c]) == multiset(b) - multiset{EMPTY_CELL} + multiset{c};
  }

  /** With the intended rules, placing the active role's mark on an empty
      cell keeps the invariant and adds one move. */
  lemma PlaceKeepsWf(st: State, role: Role, k: nat, pos: int)
    requires Wf(st) && st.active == Some(role) && k < |st.trial.board| && st.trial.board[k] == EMPTY_CELL
    ensures var st1 := Place(Corrected, st, role, k, pos).0;
      Wf(st1) && st1.x.numMoves + st1.o.numMoves == st.x.numMoves + st.o.numMoves + 1
  {
    var b1 := st.trial.board[k := MarkChar(role)];
    CountAfterMark(st.trial.board, k, MarkChar(role));
    assert IsBoard(b1);
    CorrectedVerdict(b1);
  }

  /** With the intended rules a move keeps the invariant; an accepted move
      places one more mark, so a game ends after at most nine of them. */
  lemma RespondKeepsWf(st: State, role: Role, response: Dict, timeout: bool)
    requires Wf(st)
    ensures var (st1, r) := Respond(Corrected, st, role, response, timeout);
      Wf(st1) &&
      (st1 != st ==> st1.x.numMoves + st1.o.numMoves == st.x.numMoves + st.o.numMoves + 1)
  {
    if !timeout && st.active == Some(role) && "action" in response && ActionIndex(response["action"]).Ok? {
      var pos := ActionIndex(response["action"]).value;
      var k := PyIndex(|st.trial.board|, pos);
      if k.Some? && [st.trial.board[k.value]] == [EMPTY_CELL] {
        PlaceKeepsWf(st, role, k.value, pos);
      }
    }
  }

  class Game {
    var trial: Trial
    var active: Option<Role>
    var x: Player
    var o: Player

    function Snapshot(): State reads this {
      State(trial, active, x, o)
    }

    /** `creating_session` for one group. */
    constructor()
      ensures Snapshot() == Initial(Corrected) && Wf(Snapshot())
    {
      trial := Trial(None, RepeatStr([EMPTY_CELL], 9), None);
      active := Some(X);
      x := Player(0, false);
      o := Player(0, false);
      InitialWf();
    }

    /** `put_mark(game, pos, role)` at a resolved position. */
    method PutMark(k: nat, role: Role)
      requires k < |trial.board|
      modifies this
      ensures trial == old(trial).(board := old(trial.board)[k := MarkChar(role)])
      ensures active == old(active) && x == old(x) && o == old(o)
    {
      trial := trial.(board := trial.board[k := MarkChar(role)]);
    }

    /** `Game.validate_response` with the intended rules. */
    method ValidateResponse(role: Role, response: Dict, timeout: bool) returns (r: Result<Reply>)
      modifies this
      ensures (Snapshot(), r) == Respond(Corrected, old(Snapshot()), role, response, timeout)
    {
      if timeout {
        return Err(NotImplementedError);
      }
      if active != Some(role) {
        return Err(RuntimeError);
      }
      if "action" !in response {
        return Err(KeyError);
      }
      var pos := ActionIndex(response["action"]);
      if pos.Err? {
        return Err(pos.error);
      }
      var k := PyIndex(|trial.board|, pos.value);
      if k.None? {
        return Err(IndexError);
      }
      if [trial.board[k.value]] != [EMPTY_CELL] {
        return Ok(Rejected);
      }
      r := PlaceMark(role, k.value, pos.value);
    }

    /** The move itself, on the empty cell at resolved index `k`. */
    method PlaceMark(role: Role, k: nat, pos: int) returns (r: Result<Reply>)
      requires k < |trial.board|
      modifies this
      ensures (Snapshot(), r) == Place(Corrected, old(Snapshot()), role, k, pos)
    {
      if role == X {
        x := x.(numMoves := x.numMoves + 1);
      } else {
        o := o.(numMoves := o.numMoves + 1);
      }
      PutMark(k, role);
      assert Snapshot() == Marked(old(Snapshot()), role, k);
      var verdict := ValidateGame(Corrected, trial.board);
      r := Finish(verdict, role, pos);
    }

    /** The end of the move, once the board's verdict is known. */
    method Finish(verdict: Verdict, role: Role, pos: int) returns (r: Result<Reply>)
      modifies this
      ensures (Snapshot(), r) == Conclude(Corrected, old(Snapshot()), role, verdict, pos)
    {
      trial := trial.(isCompleted := Some(verdict.full || verdict.winner.Some?));
      if trial.isCompleted == Some(true) {
        active := None;
        if verdict.winner.Some? {
          trial := trial.(winner := verdict.winner);
          if role == X {
            x := x.(isWinner := true);
          } else {
            o := o.(isWinner := true);
          }
        }
        var w := if verdict.winpattern.Some? then verdict.winpattern.value else "";
        return Ok(Final(trial.board, w));
      }
      active := Some(NextPlayer(role));
      return Ok(Accepted(pos, role));
    }
  }
}
