/** The game state machine: the pure transitions over `{board, secondsLeft,
    status}`, and an explicit event step that stands in for the click handlers
    and the React effects that drive them. */
module Game {
  import opened Wrappers
  import opened Cells
  import opened Boards

  /** The two revisions of the component: the TypeScript one and the earlier
      JavaScript one. They differ in the size of a new board and in whether the
      board-resolution effect is gated on Running. */
  datatype Version = TypeScript | JavaScript

  datatype GameStatus = Stopped | Running | Won | Lost

  datatype State = State(board: Board, secondsLeft: int, status: GameStatus)

  /** Seconds on the clock at the start of a game. */
  const StartSeconds: int := 100

  /** A new board is 6×6 in TypeScript and 5×6 in JavaScript. */
  function StartWidth(v: Version): (w: nat)
  {
    match v
    case TypeScript => 6
    case JavaScript => 5
  }

  const StartHeight: nat := 6

  /** The letters of a new board: 18 pairs in TypeScript, 15 in JavaScript. */
  function StartLetters(v: Version): (r: seq<string>)
    ensures |r| == if v == TypeScript then 18 else 15
  {
    assert StartWidth(v) * StartHeight == if v == TypeScript then 36 else 30;
    Letters(PairCount(StartWidth(v), StartHeight))
  }

  /** Whether the board-resolution effect fires only while Running. */
  predicate BoardEffectGated(v: Version) { v == TypeScript }

  // ---------------------------------------------------------------------------
  // Transitions

  function StartGame(v: Version, shuffle: seq<string> -> seq<string>): (s: State)
    ensures s.status == Running && s.secondsLeft == StartSeconds
    ensures forall j :: 0 <= j < |s.board| ==> s.board[j].status == Closed
  {
    assert StartWidth(v) * StartHeight == if v == TypeScript then 36 else 30;
    var generated := MakeRandom(StartWidth(v), StartHeight, shuffle);
    State(generated.value, StartSeconds, Running)
  }

  /** The state the view starts from: a fresh game, but Stopped. */
  function Initial(v: Version, shuffle: seq<string> -> seq<string>): (s: State)
    ensures s.status == Stopped && s.secondsLeft == StartSeconds
    ensures s.board == StartGame(v, shuffle).board
  {
    StartGame(v, shuffle).(status := Stopped)
  }

  predicate CanOpenCell(i: nat, s: State)
  {
    CanOpenAt(i, s.board)
  }

  function OpenCell(i: nat, s: State): (r: State)
    requires i < |s.board|
    ensures r.secondsLeft == s.secondsLeft && r.status == s.status
    ensures |r.board| == |s.board| && r.board[i] == Cell(s.board[i].symbol, Open)
    ensures forall j :: 0 <= j < |s.board| && j != i ==> r.board[j] == s.board[j]
  {
    s.(board := SetStatusAt(i, Open, s.board))
  }

  /** Every Open cell becomes Done; nothing else changes. */
  function SucceedStep(s: State): (r: State)
    ensures r.secondsLeft == s.secondsLeft && r.status == s.status && |r.board| == |s.board|
    ensures forall j :: 0 <= j < |s.board| ==>
      r.board[j] == if s.board[j].status == Open then Cell(s.board[j].symbol, Done) else s.board[j]
    ensures Count(IsOpen, r.board) == 0
  {
    var r := s.(board := SetStatusesBy(IsOpen, Done, s.board));
    CountZero(IsOpen, r.board);
    r
  }

  /** Every Open cell becomes Failed; nothing else changes. */
  function FailStep1(s: State): (r: State)
    ensures r.secondsLeft == s.secondsLeft && r.status == s.status && |r.board| == |s.board|
    ensures forall j :: 0 <= j < |s.board| ==>
      r.board[j] == if s.board[j].status == Open then Cell(s.board[j].symbol, Failed) else s.board[j]
    ensures Count(IsOpen, r.board) == 0
  {
    var r := s.(board := SetStatusesBy(IsOpen, Failed, s.board));
    CountZero(IsOpen, r.board);
    r
  }

  /** Every Failed cell becomes Closed again; nothing else changes. */
  function FailStep2(s: State): (r: State)
    ensures r.secondsLeft == s.secondsLeft && r.status == s.status && |r.board| == |s.board|
    ensures forall j :: 0 <= j < |s.board| ==>
      r.board[j] == if s.board[j].status == Failed then Cell(s.board[j].symbol, Closed) else s.board[j]
    ensures Count(IsFailed, r.board) == 0
  {
    var r := s.(board := SetStatusesBy(IsFailed, Closed, s.board));
    CountZero(IsFailed, r.board);
    r
  }

  /** Won when every cell is Done: `filter(isDone).length == board.length`. */
  function HasWinningCond(s: State): (r: bool)
    ensures r <==> forall j :: 0 <= j < |s.board| ==> s.board[j].status == Done
  {
    CountAll(IsDone, s.board);
    |Filter(IsDone, s.board)| == |s.board|
  }

  /** Lost when the clock shows `0` (`!secondsLeft`). */
  predicate HasLosingCond(s: State)
  {
    s.secondsLeft == 0
  }

  function SetStatus(status: GameStatus, s: State): (r: State)
    ensures r.board == s.board && r.secondsLeft == s.secondsLeft && r.status == status
  {
    s.(status := status)
  }

  /** One second passes: `max(secondsLeft - 1, 0)`. */
  function NextSecond(s: State): (r: State)
    ensures r.board == s.board && r.status == s.status
    ensures s.secondsLeft >= 0 ==> 0 <= r.secondsLeft <= s.secondsLeft
    ensures s.secondsLeft > 0 ==> r.secondsLeft == s.secondsLeft - 1
    ensures s.secondsLeft <= 1 ==> r.secondsLeft == 0
  {
    s.(secondsLeft := if s.secondsLeft - 1 > 0 then s.secondsLeft - 1 else 0)
  }

  // ---------------------------------------------------------------------------
  // The effects, as one explicit reaction round

  /** The status change the win/lose effect asks for, judged on the rendered
      state: only while Running, and a win before a loss. */
  function OutcomeUpdate(s: State): (outcome: Option<GameStatus>)
  {
    if s.status != Running then None
    else if HasWinningCond(s) then Some(Won)
    else if HasLosingCond(s) then Some(Lost)
    else None
  }

  datatype BoardUpdate = Unchanged | Succeed | Fail

  /** The board change the board effect asks for, judged on the rendered state. */
  function BoardUpdateOf(v: Version, s: State): (u: BoardUpdate)
  {
    if BoardEffectGated(v) && s.status != Running then Unchanged
    else if AreOpensEqual(s.board) then Succeed
    else if AreOpensDifferent(s.board) then Fail
    else Unchanged
  }

  function ApplyBoardUpdate(u: BoardUpdate, s: State): (r: State)
  {
    match u
    case Unchanged => s
    case Succeed => SucceedStep(s)
    case Fail => FailStep1(s)
  }

  /** One commit: both effects decide on the same state `s`, and their queued
      updaters apply in declaration order (win/lose first, then the board). */
  function React(v: Version, s: State): (r: State)
  {
    var afterOutcome := match OutcomeUpdate(s)
      case Some(status) => SetStatus(status, s)
      case None => s;
    ApplyBoardUpdate(BoardUpdateOf(v, s), afterOutcome)
  }

  /** No effect has anything left to do. */
  predicate Settled(v: Version, s: State)
  {
    React(v, s) == s
  }

  function RunningRank(s: State): (rank: nat)
  {
    if s.status == Running then 1 else 0
  }

  /** A reaction that changes something either ends the game or closes the
      open cells, so rounds of reactions come to rest. */
  lemma ReactProgress(v: Version, s: State)
    requires React(v, s) != s
    ensures RunningRank(React(v, s)) < RunningRank(s) ||
      (RunningRank(React(v, s)) == RunningRank(s) && Count(IsOpen, React(v, s).board) < Count(IsOpen, s.board))
  {
    if OutcomeUpdate(s).None? {
      assert BoardUpdateOf(v, s) != Unchanged;
    }
  }

  /** Reactions repeated until none has anything left to do. */
  function Settle(v: Version, s: State): (r: State)
    ensures Settled(v, r)
    decreases RunningRank(s), Count(IsOpen, s.board)
  {
    var t := React(v, s);
    if t == s then s
    else
      ReactProgress(v, s);
      Settle(v, t)
  }

  // ---------------------------------------------------------------------------
  // Events

  /** What the driver feeds the state machine: the two click handlers, one tick
      of the one-second interval, and the 500 ms timeout that `failStep1`
      schedules. */
  datatype Event = StartClick | CellClick(i: nat) | Tick | RevertTimeout

  /** The event itself, before any effect reacts to it. The interval exists only
      while Running; the revert timeout is never cancelled, so it applies in
      whatever state it finds. */
  function Apply(v: Version, shuffle: seq<string> -> seq<string>, s: State, e: Event): (r: State)
  {
    match e
    case StartClick => if s.status != Running then StartGame(v, shuffle) else s
    case CellClick(i) => if s.status == Running && CanOpenCell(i, s) then OpenCell(i, s) else s
    case Tick => if s.status == Running then NextSecond(s) else s
    case RevertTimeout => FailStep2(s)
  }

  /** An event followed by all the reactions it triggers. */
  function Step(v: Version, shuffle: seq<string> -> seq<string>, s: State, e: Event): (r: State)
    ensures Settled(v, r)
  {
    Settle(v, Apply(v, shuffle, s, e))
  }

  // ---------------------------------------------------------------------------
  // Lemmas about the transitions

  /** A new game holds `w * h` Closed cells (36 in TypeScript, 30 in
      JavaScript) with two of each of the first `w * h / 2` letters. */
  lemma StartGamePairs(v: Version, shuffle: seq<string> -> seq<string>)
    requires multiset(shuffle(Duplicate(StartLetters(v)))) == multiset(Duplicate(StartLetters(v)))
    ensures |StartLetters(v)| == if v == TypeScript then 18 else 15
    ensures |StartGame(v, shuffle).board| == 2 * |StartLetters(v)|
    ensures InPairs(StartGame(v, shuffle).board, StartLetters(v))
  {
    assert StartWidth(v) * StartHeight == if v == TypeScript then 36 else 30;
    MakeRandomPairs(StartWidth(v), StartHeight, shuffle);
  }

  /** Opening a legal cell adds exactly one Open cell and leaves at most two blocking. */
  lemma OpenCellLegal(i: nat, s: State)
    requires CanOpenCell(i, s)
    ensures s.board[i].status == Closed && OpenCell(i, s).board[i].status == Open
    ensures Count(IsOpen, OpenCell(i, s).board) == Count(IsOpen, s.board) + 1
    ensures Count(IsBlocking, OpenCell(i, s).board) <= 2
  {
    OpenLegalCell(i, s.board);
  }

  /** Failing and then reverting, on a board with no Failed cell, closes exactly
      the cells that were Open; every other cell, the clock and the status stay. */
  lemma FailThenRevert(s: State)
    requires Count(IsFailed, s.board) == 0
    ensures FailStep2(FailStep1(s)).secondsLeft == s.secondsLeft
    ensures FailStep2(FailStep1(s)).status == s.status
    ensures |FailStep2(FailStep1(s)).board| == |s.board|
    ensures forall j :: 0 <= j < |s.board| ==>
      FailStep2(FailStep1(s)).board[j] ==
        if s.board[j].status == Open then Cell(s.board[j].symbol, Closed) else s.board[j]
  {
    CountZero(IsFailed, s.board);
  }

  /** The clock after `k` ticks. */
  function Ticks(s: State, k: nat): (r: State)
  {
    if k == 0 then s else NextSecond(Ticks(s, k - 1))
  }

  /** The clock counts down one per tick to 0 and stays there; 100 ticks from a
      new game reach 0. */
  lemma {:induction false} TicksCountDown(s: State, k: nat)
    requires s.secondsLeft >= 0
    ensures Ticks(s, k).secondsLeft == if s.secondsLeft >= k then s.secondsLeft - k else 0
    ensures Ticks(s, k).board == s.board && Ticks(s, k).status == s.status
  {
    if k > 0 {
      TicksCountDown(s, k - 1);
    }
  }

  /** The status after one reaction: a Running game is won when every cell is
      Done, else lost when the clock shows 0. Win is checked first; no other
      status changes. */
  lemma ReactStatus(v: Version, s: State)
    ensures React(v, s).status ==
      if s.status != Running then s.status
      else if forall j :: 0 <= j < |s.board| ==> s.board[j].status == Done then Won
      else if s.secondsLeft == 0 then Lost
      else Running
  {
  }

  /** A finished board with an empty clock is a win, not a loss. */
  lemma WinBeforeLose(v: Version, shuffle: seq<string> -> seq<string>, s: State)
    requires s.status == Running && s.secondsLeft == 0
    requires forall j :: 0 <= j < |s.board| ==> s.board[j].status == Done
    ensures Step(v, shuffle, s, Tick).status == Won
  {
    var t := Apply(v, shuffle, s, Tick);
    assert t.board == s.board && t.secondsLeft == 0;
    SettleStatus(v, t);
  }

  /** Settling a Running state that the outcome effect ends keeps that end. */
  lemma SettleStatus(v: Version, s: State)
    requires s.status == Running
    requires OutcomeUpdate(s).Some?
    ensures Settle(v, s).status == OutcomeUpdate(s).value
  {
    var t := React(v, s);
    assert t.status == OutcomeUpdate(s).value;
    SettleKeepsFinished(v, t);
  }

  /** A state that is not Running keeps its status through any reactions. */
  lemma {:induction false} SettleKeepsFinished(v: Version, s: State)
    requires s.status != Running
    ensures Settle(v, s).status == s.status
    decreases Count(IsOpen, s.board)
  {
    var t := React(v, s);
    if t != s {
      ReactProgress(v, s);
      SettleKeepsFinished(v, t);
    }
  }

  /** In the TypeScript version the board effect does nothing outside Running. */
  lemma GatedBoardEffect(s: State)
    requires s.status != Running
    ensures React(TypeScript, s) == s
  {
  }

  /** In the JavaScript version the board effect is not gated: a game that is
      no longer Running with a matching open pair still has the pair resolved,
      where the TypeScript version leaves it alone. */
  lemma UngatedBoardEffect(s: State)
    requires s.status != Running
    requires Count(IsOpen, s.board) >= 2 && OpensShareSymbol(s.board)
    ensures React(JavaScript, s) == SucceedStep(s)
    ensures React(TypeScript, s) == s
  {
    AreOpensEqualMeans(s.board);
    assert OutcomeUpdate(s) == None;
    assert BoardUpdateOf(JavaScript, s) == Succeed;
  }

  /** While Running with time left and cell `k` not Done, two open cells
      with the same symbol are resolved: the reaction is `succeedStep`. */
  lemma ReactOnMatch(v: Version, s: State, k: nat)
    requires s.status == Running && s.secondsLeft > 0
    requires k < |s.board| && s.board[k].status != Done
    requires Count(IsOpen, s.board) >= 2 && OpensShareSymbol(s.board)
    ensures React(v, s) == SucceedStep(s)
  {
    NoOutcome(s, k);
    AreOpensEqualMeans(s.board);
    assert BoardUpdateOf(v, s) == Succeed;
  }

  /** While Running with time left and cell `k` not Done, open cells `i` and
      `j` with different symbols fail: the reaction is `failStep1`. */
  lemma ReactOnMismatch(v: Version, s: State, k: nat, i: nat, j: nat)
    requires s.status == Running && s.secondsLeft > 0
    requires k < |s.board| && s.board[k].status != Done
    requires i < |s.board| && j < |s.board| && IsOpen(s.board[i]) && IsOpen(s.board[j])
    requires s.board[i].symbol != s.board[j].symbol
    ensures React(v, s) == FailStep1(s)
  {
    NoOutcome(s, k);
    CountTwo(IsOpen, s.board, i, j);
    assert !OpensShareSymbol(s.board);
    AreOpensEqualMeans(s.board);
    OpensExclusive(s.board);
    assert BoardUpdateOf(v, s) == Fail;
  }

  /** A Running game with time left and a cell not Done is neither won nor lost. */
  lemma NoOutcome(s: State, k: nat)
    requires s.status == Running && s.secondsLeft > 0
    requires k < |s.board| && s.board[k].status != Done
    ensures OutcomeUpdate(s) == None
  {
  }

  // ---------------------------------------------------------------------------
  // Guards

  /** A settled state is a fixpoint of settling. */
  lemma SettleSettled(v: Version, s: State)
    requires Settled(v, s)
    ensures Settle(v, s) == s
  {
  }

  /** Starting is ignored while Running; opening a cell and ticking are ignored
      outside Running; an illegal cell is ignored while Running. */
  lemma GuardsIgnore(v: Version, shuffle: seq<string> -> seq<string>, s: State, i: nat)
    requires Settled(v, s)
    ensures s.status == Running ==> Step(v, shuffle, s, StartClick) == s
    ensures s.status != Running ==> Step(v, shuffle, s, CellClick(i)) == s
    ensures s.status != Running ==> Step(v, shuffle, s, Tick) == s
    ensures !CanOpenCell(i, s) ==> Step(v, shuffle, s, CellClick(i)) == s
  {
  }

  /** Starting outside Running gives exactly a new game (with a permuting shuffle,
      the new board is neither won nor lost). */
  lemma StartFromIdle(v: Version, shuffle: seq<string> -> seq<string>, s: State)
    requires s.status != Running
    requires multiset(shuffle(Duplicate(StartLetters(v)))) == multiset(Duplicate(StartLetters(v)))
    ensures Step(v, shuffle, s, StartClick) == StartGame(v, shuffle)
    ensures Step(v, shuffle, s, StartClick).status == Running
  {
    StartSettled(v, shuffle);
    assert Apply(v, shuffle, s, StartClick) == StartGame(v, shuffle);
    StepOfSettled(v, shuffle, s, StartClick, StartGame(v, shuffle));
  }

  /** The revert timeout is never cancelled, so it can fire after a new game has
      started; fired before any cell of the new game has failed (here on the
      fresh all-Closed board) it changes nothing. `StaleRevertEarly` shows the
      other case. */
  lemma StaleRevertHarmless(v: Version, shuffle: seq<string> -> seq<string>)
    requires multiset(shuffle(Duplicate(StartLetters(v)))) == multiset(Duplicate(StartLetters(v)))
    ensures Step(v, shuffle, StartGame(v, shuffle), RevertTimeout) == StartGame(v, shuffle)
  {
    RevertOnNewGame(v, shuffle);
    StartSettled(v, shuffle);
    StepOfSettled(v, shuffle, StartGame(v, shuffle), RevertTimeout, StartGame(v, shuffle));
  }

  lemma RevertOnNewGame(v: Version, shuffle: seq<string> -> seq<string>)
    ensures Apply(v, shuffle, StartGame(v, shuffle), RevertTimeout) == StartGame(v, shuffle)
  {
    RevertWithoutFailed(StartGame(v, shuffle));
  }

  /** `failStep2` on a board without Failed cells changes nothing. */
  lemma RevertWithoutFailed(s: State)
    requires forall j :: 0 <= j < |s.board| ==> s.board[j].status != Failed
    ensures FailStep2(s) == s
  {
    assert FailStep2(s).board == s.board;
  }

  /** A new game (with a permuting shuffle) triggers no reaction. */
  lemma StartSettled(v: Version, shuffle: seq<string> -> seq<string>)
    requires multiset(shuffle(Duplicate(StartLetters(v)))) == multiset(Duplicate(StartLetters(v)))
    ensures Settle(v, StartGame(v, shuffle)) == StartGame(v, shuffle)
  {
    StartGamePairs(v, shuffle);
    ClosedBoardSettled(v, StartGame(v, shuffle));
  }

  /** A Running game with time left on a nonempty all-Closed board triggers no
      reaction. */
  lemma ClosedBoardSettled(v: Version, s: State)
    requires s.status == Running && s.secondsLeft > 0 && |s.board| > 0
    requires forall j :: 0 <= j < |s.board| ==> s.board[j].status == Closed
    ensures Settled(v, s) && Settle(v, s) == s
  {
    CountZero(IsOpen, s.board);
    QuietSettled(v, s, 0);
  }

  /** When an event leads to a state that is already at rest, the step ends there. */
  lemma StepOfSettled(v: Version, shuffle: seq<string> -> seq<string>, s: State, e: Event, g: State)
    requires Apply(v, shuffle, s, e) == g
    requires Settle(v, g) == g
    ensures Step(v, shuffle, s, e) == g
  {
  }

  /** A legal click while Running opens the cell before the effects react. */
  lemma ClickOpens(v: Version, shuffle: seq<string> -> seq<string>, s: State, i: nat)
    requires s.status == Running && CanOpenCell(i, s)
    ensures Apply(v, shuffle, s, CellClick(i)) == OpenCell(i, s)
  {
  }

  // ---------------------------------------------------------------------------
  // Invariants across steps

  /** The clock lies in [0, 100] and at most two cells block. */
  predicate Inv(s: State)
  {
    0 <= s.secondsLeft <= StartSeconds && Count(IsBlocking, s.board) <= 2
  }

  /** `t` continues the game of `s`: the same cells with the same symbols, Done
      cells still Done, the clock not later, and a game that is not Running keeps
      its status. */
  predicate Follows(s: State, t: State)
  {
    && |t.board| == |s.board|
    && (forall j :: 0 <= j < |s.board| ==>
          t.board[j].symbol == s.board[j].symbol &&
          (s.board[j].status == Done ==> t.board[j].status == Done))
    && t.secondsLeft <= s.secondsLeft
    && (s.status != Running ==> t.status == s.status)
  }

  lemma InitialInv(v: Version, shuffle: seq<string> -> seq<string>)
    ensures Inv(Initial(v, shuffle)) && Inv(StartGame(v, shuffle))
  {
    CountZero(IsBlocking, StartGame(v, shuffle).board);
  }

  lemma ReactFollows(v: Version, s: State)
    ensures Follows(s, React(v, s))
    ensures Inv(s) ==> Inv(React(v, s))
  {
    var o := match OutcomeUpdate(s)
      case Some(status) => SetStatus(status, s)
      case None => s;
    assert Follows(s, o);
    BoardUpdateFollows(BoardUpdateOf(v, s), o);
    FollowsTransitive(s, o, React(v, s));
    if Inv(s) {
      CountMono(IsBlocking, o.board, React(v, s).board);
    }
  }

  /** A board update continues the game and blocks no cell that was not
      blocking before. */
  lemma BoardUpdateFollows(u: BoardUpdate, s: State)
    ensures Follows(s, ApplyBoardUpdate(u, s))
    ensures ApplyBoardUpdate(u, s).status == s.status
    ensures forall j :: 0 <= j < |s.board| && IsBlocking(ApplyBoardUpdate(u, s).board[j]) ==> IsBlocking(s.board[j])
  {
  }

  lemma {:induction false} SettleFollows(v: Version, s: State)
    ensures Follows(s, Settle(v, s))
    ensures Inv(s) ==> Inv(Settle(v, s))
    decreases RunningRank(s), Count(IsOpen, s.board)
  {
    var t := React(v, s);
    if t != s {
      ReactFollows(v, s);
      ReactProgress(v, s);
      SettleFollows(v, t);
    }
  }

  /** Every event keeps the invariant; every event but a start outside Running
      continues the same game. */
  lemma StepFollows(v: Version, shuffle: seq<string> -> seq<string>, s: State, e: Event)
    requires Inv(s)
    ensures Inv(Step(v, shuffle, s, e))
    ensures e != StartClick || s.status == Running ==> Follows(s, Step(v, shuffle, s, e))
  {
    var a := Apply(v, shuffle, s, e);
    ApplyFollows(v, shuffle, s, e);
    SettleFollows(v, a);
    if e != StartClick || s.status == Running {
      FollowsTransitive(s, a, Settle(v, a));
    }
  }

  /** The event alone keeps the invariant and, but for a start outside Running,
      continues the game. */
  lemma ApplyFollows(v: Version, shuffle: seq<string> -> seq<string>, s: State, e: Event)
    requires Inv(s)
    ensures Inv(Apply(v, shuffle, s, e))
    ensures e != StartClick || s.status == Running ==> Follows(s, Apply(v, shuffle, s, e))
  {
    var a := Apply(v, shuffle, s, e);
    match e {
      case StartClick =>
        InitialInv(v, shuffle);
      case CellClick(i) =>
        if s.status == Running && CanOpenCell(i, s) {
          OpenCellLegal(i, s);
        }
      case Tick =>
      case RevertTimeout =>
        CountMono(IsBlocking, s.board, a.board);
    }
  }

  lemma FollowsTransitive(s: State, t: State, u: State)
    requires Follows(s, t) && Follows(t, u)
    ensures Follows(s, u)
  {
  }

  // ---------------------------------------------------------------------------
  // Scenarios

  /** Board `[A, B, A, B]`: opening cells 0 and 2 resolves the pair to Done, and
      the game goes on. */
  lemma MatchingPairScenario(v: Version, shuffle: seq<string> -> seq<string>)
    ensures var s0 := State([Cell("A", Closed), Cell("B", Closed), Cell("A", Closed), Cell("B", Closed)], StartSeconds, Running);
      var s1 := Step(v, shuffle, s0, CellClick(0));
      var s2 := Step(v, shuffle, s1, CellClick(2));
      s1.board == [Cell("A", Open), Cell("B", Closed), Cell("A", Closed), Cell("B", Closed)] &&
      s2.board == [Cell("A", Done), Cell("B", Closed), Cell("A", Done), Cell("B", Closed)] &&
      s2.status == Running
  {
    var s0 := State([Cell("A", Closed), Cell("B", Closed), Cell("A", Closed), Cell("B", Closed)], StartSeconds, Running);
    var s1 := FirstOpenSettles(v, shuffle, s0);
    var s2 := SecondOpenMatches(v, shuffle, s1);
  }

  /** Opening cell 2 after cell 0 of `[A, B, A, B]` resolves the `A` pair. */
  lemma SecondOpenMatches(v: Version, shuffle: seq<string> -> seq<string>, s1: State) returns (s2: State)
    requires s1 == State([Cell("A", Open), Cell("B", Closed), Cell("A", Closed), Cell("B", Closed)], StartSeconds, Running)
    ensures s2 == Step(v, shuffle, s1, CellClick(2))
    ensures s2 == State([Cell("A", Done), Cell("B", Closed), Cell("A", Done), Cell("B", Closed)], StartSeconds, Running)
  {
    var a2 := State([Cell("A", Open), Cell("B", Closed), Cell("A", Open), Cell("B", Closed)], StartSeconds, Running);
    OneOpenCell(s1);
    ClickOpens(v, shuffle, s1, 2);
    assert OpenCell(2, s1).board == a2.board;
    s2 := State([Cell("A", Done), Cell("B", Closed), Cell("A", Done), Cell("B", Closed)], StartSeconds, Running);
    MatchReaction(v, a2);
    CountZero(IsOpen, s2.board);
    QuietSettled(v, s2, 1);
    StepOfOneReaction(v, shuffle, s1, CellClick(2), s2);
  }

  /** Two open `A` cells on `[A, B, A, B]` are resolved to Done. */
  lemma MatchReaction(v: Version, a: State)
    requires a == State([Cell("A", Open), Cell("B", Closed), Cell("A", Open), Cell("B", Closed)], StartSeconds, Running)
    ensures React(v, a) == State([Cell("A", Done), Cell("B", Closed), Cell("A", Done), Cell("B", Closed)], StartSeconds, Running)
  {
    CountTwo(IsOpen, a.board, 0, 2);
    assert OpensShareSymbol(a.board);
    ReactOnMatch(v, a, 1);
    MatchSucceeds(a);
  }

  /** `succeedStep` on the two open `A` cells of `[A, B, A, B]`. */
  lemma MatchSucceeds(a: State)
    requires a == State([Cell("A", Open), Cell("B", Closed), Cell("A", Open), Cell("B", Closed)], StartSeconds, Running)
    ensures SucceedStep(a) == State([Cell("A", Done), Cell("B", Closed), Cell("A", Done), Cell("B", Closed)], StartSeconds, Running)
  {
    var r := SucceedStep(a);
    assert r.board[0] == Cell("A", Done) && r.board[1] == Cell("B", Closed);
    assert r.board[2] == Cell("A", Done) && r.board[3] == Cell("B", Closed);
  }

  /** Board `[A, B, A, B]`: opening cells 0 and 1 fails the pair, and the revert
      timeout closes the board again. */
  lemma MismatchScenario(v: Version, shuffle: seq<string> -> seq<string>)
    ensures var s0 := State([Cell("A", Closed), Cell("B", Closed), Cell("A", Closed), Cell("B", Closed)], StartSeconds, Running);
      var s1 := Step(v, shuffle, s0, CellClick(0));
      var s2 := Step(v, shuffle, s1, CellClick(1));
      var s3 := Step(v, shuffle, s2, RevertTimeout);
      s2.board == [Cell("A", Failed), Cell("B", Failed), Cell("A", Closed), Cell("B", Closed)] &&
      s3 == s0
  {
    var s0 := State([Cell("A", Closed), Cell("B", Closed), Cell("A", Closed), Cell("B", Closed)], StartSeconds, Running);
    var s1 := FirstOpenSettles(v, shuffle, s0);
    var s2 := SecondOpenFails(v, shuffle, s1);
    RevertCloses(v, shuffle, s2, s0);
  }

  /** Opening cell 1 after cell 0 of `[A, B, A, B]` fails both. */
  lemma SecondOpenFails(v: Version, shuffle: seq<string> -> seq<string>, s1: State) returns (s2: State)
    requires s1 == State([Cell("A", Open), Cell("B", Closed), Cell("A", Closed), Cell("B", Closed)], StartSeconds, Running)
    ensures s2 == Step(v, shuffle, s1, CellClick(1))
    ensures s2 == State([Cell("A", Failed), Cell("B", Failed), Cell("A", Closed), Cell("B", Closed)], StartSeconds, Running)
  {
    var a2 := State([Cell("A", Open), Cell("B", Open), Cell("A", Closed), Cell("B", Closed)], StartSeconds, Running);
    OneOpenCell(s1);
    ClickOpens(v, shuffle, s1, 1);
    assert OpenCell(1, s1).board == a2.board;
    s2 := State([Cell("A", Failed), Cell("B", Failed), Cell("A", Closed), Cell("B", Closed)], StartSeconds, Running);
    MismatchReaction(v, a2);
    CountZero(IsOpen, s2.board);
    QuietSettled(v, s2, 2);
    StepOfOneReaction(v, shuffle, s1, CellClick(1), s2);
  }

  /** The revert timeout closes the failed pair again. */
  lemma RevertCloses(v: Version, shuffle: seq<string> -> seq<string>, s2: State, s0: State)
    requires s2 == State([Cell("A", Failed), Cell("B", Failed), Cell("A", Closed), Cell("B", Closed)], StartSeconds, Running)
    requires s0 == State([Cell("A", Closed), Cell("B", Closed), Cell("A", Closed), Cell("B", Closed)], StartSeconds, Running)
    ensures Step(v, shuffle, s2, RevertTimeout) == s0
  {
    var r := FailStep2(s2);
    assert r.board[0] == Cell("A", Closed) && r.board[1] == Cell("B", Closed);
    assert r.board[2] == Cell("A", Closed) && r.board[3] == Cell("B", Closed);
    assert Apply(v, shuffle, s2, RevertTimeout) == s0;
    CountZero(IsOpen, s0.board);
    QuietSettled(v, s0, 0);
    StepOfSettled(v, shuffle, s2, RevertTimeout, s0);
  }

  /** The revert timeout carries no trace of the game that scheduled it. When a
      timeout left over from the previous game fires after the new game's first
      mismatch on `[A, B, A, B]`, it closes the new Failed pair before that
      pair's own 500 ms have passed, and the new game's own timeout then finds
      nothing to close. */
  lemma StaleRevertEarly(v: Version, shuffle: seq<string> -> seq<string>, s2: State, s0: State)
    requires s2 == State([Cell("A", Failed), Cell("B", Failed), Cell("A", Closed), Cell("B", Closed)], StartSeconds, Running)
    requires s0 == State([Cell("A", Closed), Cell("B", Closed), Cell("A", Closed), Cell("B", Closed)], StartSeconds, Running)
    ensures Step(v, shuffle, s2, RevertTimeout) == s0
    ensures Step(v, shuffle, Step(v, shuffle, s2, RevertTimeout), RevertTimeout) == s0
  {
    RevertCloses(v, shuffle, s2, s0);
    RevertWithoutFailed(s0);
    CountZero(IsOpen, s0.board);
    QuietSettled(v, s0, 0);
    StepOfSettled(v, shuffle, s0, RevertTimeout, s0);
  }

  /** After the first click on `[A, B, A, B]` one cell blocks, so another
      Closed cell can be opened. */
  lemma OneOpenCell(s1: State)
    requires s1 == State([Cell("A", Open), Cell("B", Closed), Cell("A", Closed), Cell("B", Closed)], StartSeconds, Running)
    ensures Count(IsBlocking, s1.board) == 1
  {
    var closed := [Cell("A", Closed), Cell("B", Closed), Cell("A", Closed), Cell("B", Closed)];
    CountZero(IsBlocking, closed);
    CountUpdate(IsBlocking, closed, 0, Cell("A", Open));
    assert closed[0 := Cell("A", Open)] == s1.board;
  }

  /** An open `A` and an open `B` on `[A, B, A, B]` are marked Failed. */
  lemma MismatchReaction(v: Version, a: State)
    requires a == State([Cell("A", Open), Cell("B", Open), Cell("A", Closed), Cell("B", Closed)], StartSeconds, Running)
    ensures React(v, a) == State([Cell("A", Failed), Cell("B", Failed), Cell("A", Closed), Cell("B", Closed)], StartSeconds, Running)
  {
    ReactOnMismatch(v, a, 2, 0, 1);
    MismatchFails(a);
  }

  /** `failStep1` on the open `A` and `B` cells of `[A, B, A, B]`. */
  lemma MismatchFails(a: State)
    requires a == State([Cell("A", Open), Cell("B", Open), Cell("A", Closed), Cell("B", Closed)], StartSeconds, Running)
    ensures FailStep1(a) == State([Cell("A", Failed), Cell("B", Failed), Cell("A", Closed), Cell("B", Closed)], StartSeconds, Running)
  {
    var r := FailStep1(a);
    assert r.board[0] == Cell("A", Failed) && r.board[1] == Cell("B", Failed);
    assert r.board[2] == Cell("A", Closed) && r.board[3] == Cell("B", Closed);
  }

  /** When one reaction brings the state after an event to rest, the step ends
      there. */
  lemma StepOfOneReaction(v: Version, shuffle: seq<string> -> seq<string>, s: State, e: Event, g: State)
    requires React(v, Apply(v, shuffle, s, e)) == g
    requires Settle(v, g) == g
    ensures Step(v, shuffle, s, e) == g
  {
  }

  /** Opening cell 0 of the closed `[A, B, A, B]` board triggers no reaction. */
  lemma FirstOpenSettles(v: Version, shuffle: seq<string> -> seq<string>, s0: State) returns (s1: State)
    requires s0 == State([Cell("A", Closed), Cell("B", Closed), Cell("A", Closed), Cell("B", Closed)], StartSeconds, Running)
    ensures s1 == Step(v, shuffle, s0, CellClick(0))
    ensures s1 == State([Cell("A", Open), Cell("B", Closed), Cell("A", Closed), Cell("B", Closed)], StartSeconds, Running)
  {
    CountZero(IsBlocking, s0.board);
    CountZero(IsOpen, s0.board);
    ClickOpens(v, shuffle, s0, 0);
    OpenCellLegal(0, s0);
    s1 := State([Cell("A", Open), Cell("B", Closed), Cell("A", Closed), Cell("B", Closed)], StartSeconds, Running);
    assert OpenCell(0, s0).board == s1.board;
    QuietSettled(v, s1, 1);
    StepOfSettled(v, shuffle, s0, CellClick(0), s1);
  }

  /** A Running game with time left, a cell `k` not Done and at most one open
      cell triggers no reaction. */
  lemma QuietSettled(v: Version, s: State, k: nat)
    requires s.status == Running && s.secondsLeft > 0
    requires k < |s.board| && s.board[k].status != Done
    requires Count(IsOpen, s.board) < 2
    ensures Settled(v, s) && Settle(v, s) == s
  {
    NoOutcome(s, k);
    OpensExclusive(s.board);
    assert BoardUpdateOf(v, s) == Unchanged;
  }
}
