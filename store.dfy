/** The game store: the live game state, the guarded move transition, reset,
    mode selection and the AI's move. The store object is the class at the
    end; the transition it performs on each accepted move is the function
    ApplyMove, about which the rules of the game are proved. */
module Store {
  import opened Types
  import opened Winner
  import opened Search

  /** One entry of the move history. */
  datatype MoveRecord = MoveRecord(boardIndex: Idx, squareIndex: Idx, player: Player)

  /** Everything the store holds except the game mode. */
  datatype State = State(
    board: Board,
    currentPlayer: Player,
    nextBoardIndex: Option<Idx>,
    miniWinners: Grid,
    gameWinner: Entry,
    moveHistory: seq<MoveRecord>)

  /** createInitialBoard: nine empty sub-boards. */
  function CreateInitialBoard(): (b: Board)
    ensures forall i: Idx, j: Idx :: b[i][j] == Empty
  {
    seq(9, _ => EmptyGrid)
  }

  /** The state a new store starts in and a reset returns to. */
  function InitialState(): State {
    State(CreateInitialBoard(), X, None, EmptyGrid, Empty, [])
  }

  /** The guards of makeMove: the game is not over, the move is in the
      required sub-board (if any), the square is empty and the sub-board has
      no result yet. */
  predicate Accepts(st: State, b: Idx, s: Idx) {
    && st.gameWinner == Empty
    && (st.nextBoardIndex.None? || st.nextBoardIndex.value == b)
    && st.board[b][s] == Empty
    && st.miniWinners[b] == Empty
  }

  /** The number of set entries among the first k (`filter(Boolean).length`). */
  function DecidedUpTo(mw: Grid, k: nat): (n: nat)
    requires k <= 9
    ensures n <= k
  {
    if k == 0 then 0 else DecidedUpTo(mw, k - 1) + (if mw[k - 1] != Empty then 1 else 0)
  }

  function DecidedCount(mw: Grid): nat {
    DecidedUpTo(mw, 9)
  }

  /** The game result the store records: the meta-board's result, looked at
      only once at least five sub-boards (drawn ones included) have one. */
  function GatedWinner(mw: Grid): (w: Entry)
    ensures w != Empty ==> DecidedCount(mw) >= 5 && w == CalculateWinner(mw)
    ensures DecidedCount(mw) >= 5 ==> w == CalculateWinner(mw)
  {
    if DecidedCount(mw) >= 5 then CalculateWinner(mw) else Empty
  }

  /** makeMove as a transition: a move that fails a guard changes nothing;
      an accepted move changes exactly the target cell, records the played
      sub-board's result, sends the opponent to the sub-board matching the
      square, recomputes the game result, flips the player and appends one
      history entry. */
  function ApplyMove(st: State, b: Idx, s: Idx): State {
    if !Accepts(st, b, s) then st
    else
      var newBoard := Place(st.board, b, s, st.currentPlayer);
      var winner := CalculateWinner(newBoard[b]);
      var newMiniWinners := if st.miniWinners[b] == Empty && winner != Empty then st.miniWinners[b := winner] else st.miniWinners;
      var newNext: Option<Idx> := if newMiniWinners[s] != Empty || Full(st.board[s]) then None else Some(s);
      State(newBoard, Other(st.currentPlayer), newNext, newMiniWinners, GatedWinner(newMiniWinners),
            st.moveHistory + [MoveRecord(b, s, st.currentPlayer)])
  }

  /** A move that fails a guard leaves the whole state unchanged. */
  lemma RejectedMoveUnchanged(st: State, b: Idx, s: Idx)
    requires !Accepts(st, b, s)
    ensures ApplyMove(st, b, s) == st
  {
  }

  /** On an accepted move exactly one cell changes, to the mover's mark; the
      player flips; the history grows by exactly this move; only the played
      sub-board's result can change, to the result of its cells; and the game
      result is the gated meta-board result. */
  lemma AcceptedMoveEffects(st: State, b: Idx, s: Idx)
    requires Accepts(st, b, s)
    ensures var r := ApplyMove(st, b, s);
            && r.board[b][s] == Mark(st.currentPlayer)
            && (forall i: Idx, j: Idx :: (i, j) != (b, s) ==> r.board[i][j] == st.board[i][j])
            && r.currentPlayer == Other(st.currentPlayer)
            && r.moveHistory == st.moveHistory + [MoveRecord(b, s, st.currentPlayer)]
            && r.miniWinners[b] == CalculateWinner(r.board[b])
            && (forall i: Idx :: i != b ==> r.miniWinners[i] == st.miniWinners[i])
            && r.gameWinner == GatedWinner(r.miniWinners)
  {
  }

  /** A sub-board with a result never changes again, nor does its result. */
  lemma SettledSubBoardFrozen(st: State, b: Idx, s: Idx, i: Idx)
    requires st.miniWinners[i] != Empty
    ensures ApplyMove(st, b, s).miniWinners[i] == st.miniWinners[i]
    ensures ApplyMove(st, b, s).board[i] == st.board[i]
  {
  }

  /** X moves on even turns, O on odd ones. */
  function PlayerAt(n: nat): Player {
    if n % 2 == 0 then X else O
  }

  /** The board obtained by placing every recorded move in order. */
  function BoardOf(h: seq<MoveRecord>): Board {
    if |h| == 0 then CreateInitialBoard()
    else
      var last := h[|h| - 1];
      Place(BoardOf(h[..|h| - 1]), last.boardIndex, last.squareIndex, last.player)
  }

  /** The board is the replay of the history, whose players alternate
      starting from X, and the player to move is the next in that order. */
  ghost predicate HistoryConsistent(st: State) {
    && st.board == BoardOf(st.moveHistory)
    && (forall j | 0 <= j < |st.moveHistory| :: st.moveHistory[j].player == PlayerAt(j))
    && st.currentPlayer == PlayerAt(|st.moveHistory|)
  }

  /** Each recorded sub-board result is the result of that sub-board's cells. */
  ghost predicate ResultsConsistent(st: State) {
    forall i: Idx :: st.miniWinners[i] == CalculateWinner(st.board[i])
  }

  /** What holds of every state a game can reach: the above, the required
      sub-board (if any) can be played, and the game result is the gated
      meta-board result. */
  ghost predicate Inv(st: State) {
    && HistoryConsistent(st)
    && ResultsConsistent(st)
    && (st.nextBoardIndex.None? || Open(st.board, st.miniWinners, st.nextBoardIndex.value))
    && st.gameWinner == GatedWinner(st.miniWinners)
  }

  lemma EmptyGridUndecided()
    ensures CalculateWinner(EmptyGrid) == Empty
  {
    assert !Full(EmptyGrid) by { assert EmptyGrid[0] == Empty; }
    assert forall k | 0 <= k < 8 :: !LineWins(EmptyGrid, k);
  }

  lemma InitialInv()
    ensures Inv(InitialState())
  {
    var st := InitialState();
    EmptyGridUndecided();
    assert ResultsConsistent(st) by {
      forall i: Idx ensures st.miniWinners[i] == CalculateWinner(st.board[i]) {
        assert st.board[i] == EmptyGrid;
      }
    }
    DecidedNone(EmptyGrid, 9);
  }

  lemma {:induction false} DecidedNone(mw: Grid, k: nat)
    requires k <= 9 && forall i: Idx :: mw[i] == Empty
    ensures DecidedUpTo(mw, k) == 0
  {
    if k > 0 {
      DecidedNone(mw, k - 1);
    }
  }

  lemma HistoryKept(st: State, b: Idx, s: Idx)
    requires HistoryConsistent(st) && Accepts(st, b, s)
    ensures HistoryConsistent(ApplyMove(st, b, s))
  {
    var r := ApplyMove(st, b, s);
    assert r.moveHistory[..|r.moveHistory| - 1] == st.moveHistory;
    assert r.board == Place(st.board, b, s, st.currentPlayer);
  }

  lemma ResultsKept(st: State, b: Idx, s: Idx)
    requires ResultsConsistent(st) && Accepts(st, b, s)
    ensures ResultsConsistent(ApplyMove(st, b, s))
  {
    var r := ApplyMove(st, b, s);
    forall i: Idx ensures r.miniWinners[i] == CalculateWinner(r.board[i]) {
      if i != b {
        assert r.board[i] == st.board[i];
      }
    }
  }

  lemma NextOpenKept(st: State, b: Idx, s: Idx)
    requires ResultsConsistent(st) && Accepts(st, b, s)
    ensures var r := ApplyMove(st, b, s);
            r.nextBoardIndex.None? || Open(r.board, r.miniWinners, r.nextBoardIndex.value)
  {
    var r := ApplyMove(st, b, s);
    if r.nextBoardIndex.Some? {
      assert r.nextBoardIndex.value == s;
      if s == b {
        ResultsKept(st, b, s);
        UndecidedHasRoom(r.board[b]);
      } else {
        assert r.board[s] == st.board[s];
      }
    }
  }

  /** Every accepted or rejected move keeps the invariant. */
  lemma ApplyMoveKeepsInv(st: State, b: Idx, s: Idx)
    requires Inv(st)
    ensures Inv(ApplyMove(st, b, s))
  {
    if Accepts(st, b, s) {
      HistoryKept(st, b, s);
      ResultsKept(st, b, s);
      NextOpenKept(st, b, s);
    }
  }

  /** The send rule: after an accepted move at square k the opponent must
      play in sub-board k exactly when that sub-board can still be played,
      and may choose freely otherwise. The source tests fullness on the board
      from before the move; for every accepted move that agrees with the
      board after it, since a move that fills its own sub-board decides it. */
  lemma SendRule(st: State, b: Idx, s: Idx)
    requires Accepts(st, b, s)
    ensures var r := ApplyMove(st, b, s);
            r.nextBoardIndex == if Open(r.board, r.miniWinners, s) then Some(s) else None
  {
    var r := ApplyMove(st, b, s);
    if s == b {
      assert st.board[b][s] == Empty;
      if r.miniWinners[b] == Empty {
        UndecidedHasRoom(r.board[b]);
      }
    } else {
      assert r.board[s] == st.board[s];
    }
  }

  /** The state after playing a sequence of requested moves from a new game;
      rejected requests leave the state as it was. */
  function Replay(moves: seq<Move>): State {
    if |moves| == 0 then InitialState()
    else
      var last := moves[|moves| - 1];
      ApplyMove(Replay(moves[..|moves| - 1]), last.boardIndex, last.squareIndex)
  }

  /** How many of the requested moves were accepted. */
  function AcceptedCount(moves: seq<Move>): nat {
    if |moves| == 0 then 0
    else
      var last := moves[|moves| - 1];
      var before := moves[..|moves| - 1];
      AcceptedCount(before) + (if Accepts(Replay(before), last.boardIndex, last.squareIndex) then 1 else 0)
  }

  /** Every reachable state satisfies the invariant, its history has one
      entry per accepted move, and its player to move is X after an even
      number of accepted moves and O after an odd number. */
  lemma {:induction false} ReplayInv(moves: seq<Move>)
    ensures Inv(Replay(moves))
    ensures |Replay(moves).moveHistory| == AcceptedCount(moves)
    ensures Replay(moves).currentPlayer == PlayerAt(AcceptedCount(moves))
  {
    if |moves| == 0 {
      InitialInv();
    } else {
      var last := moves[|moves| - 1];
      ReplayInv(moves[..|moves| - 1]);
      ApplyMoveKeepsInv(Replay(moves[..|moves| - 1]), last.boardIndex, last.squareIndex);
    }
  }

  /** The history is append-only: the history after a prefix of the
      requests is a prefix of the history after all of them. */
  lemma {:induction false} HistoryAppendOnly(moves: seq<Move>, k: nat)
    requires k <= |moves|
    ensures Replay(moves[..k]).moveHistory <= Replay(moves).moveHistory
  {
    if k < |moves| {
      var before := moves[..|moves| - 1];
      assert before[..k] == moves[..k];
      HistoryAppendOnly(before, k);
    } else {
      assert moves[..k] == moves;
    }
  }

  /** A recorded game result implies at least five decided sub-boards: a
      drawn game in particular is never declared earlier. */
  lemma ResultNeedsFiveDecided(moves: seq<Move>)
    ensures var st := Replay(moves);
            st.gameWinner != Empty ==> DecidedCount(st.miniWinners) >= 5 && st.gameWinner == CalculateWinner(st.miniWinners)
  {
    ReplayInv(moves);
  }

  /** The AI's move passes every guard of makeMove in any state where the
      game is not over and the required sub-board, if any, is open. */
  lemma AiMoveAccepted(st: State, roll: real)
    requires 0.0 <= roll < 1.0
    requires st.gameWinner == Empty
    requires st.nextBoardIndex.None? || Open(st.board, st.miniWinners, st.nextBoardIndex.value)
    ensures var m := SelectedMove(st.board, st.nextBoardIndex, st.miniWinners, roll);
            m.Some? ==> Accepts(st, m.value.boardIndex, m.value.squareIndex)
    ensures SelectedMove(st.board, st.nextBoardIndex, st.miniWinners, roll).None? <==>
              forall i: Idx :: !Open(st.board, st.miniWinners, i)
  {
    SelectedIsLegal(st.board, st.nextBoardIndex, st.miniWinners, roll);
    SelectedNoneIff(st.board, st.nextBoardIndex, st.miniWinners, roll);
  }

  lemma {:induction false} DecidedAll(mw: Grid, k: nat)
    requires k <= 9 && forall i: Idx :: mw[i] != Empty
    ensures DecidedUpTo(mw, k) == k
  {
    if k > 0 {
      DecidedAll(mw, k - 1);
    }
  }

  /** A game that is not over always has an open sub-board: when all nine
      sub-boards are decided the meta-board is full, so the gated result is
      a win or a draw. */
  lemma LiveGameHasOpenBoard(st: State)
    requires Inv(st) && st.gameWinner == Empty
    ensures exists i: Idx :: Open(st.board, st.miniWinners, i)
  {
    if forall i: Idx :: st.miniWinners[i] != Empty {
      DecidedAll(st.miniWinners, 9);
      CalculateWinnerSpec(st.miniWinners);
      assert false;
    } else {
      var i: Idx :| st.miniWinners[i] == Empty;
      UndecidedHasRoom(st.board[i]);
      assert Open(st.board, st.miniWinners, i);
    }
  }

  /** In every reachable state of a game that is not over, the AI finds a
      move and that move passes every makeMove guard. */
  lemma AiAlwaysMoves(st: State, roll: real)
    requires 0.0 <= roll < 1.0
    requires Inv(st) && st.gameWinner == Empty
    ensures var m := SelectedMove(st.board, st.nextBoardIndex, st.miniWinners, roll);
            m.Some? && Accepts(st, m.value.boardIndex, m.value.squareIndex)
  {
    LiveGameHasOpenBoard(st);
    AiMoveAccepted(st, roll);
  }

  // ---- Scenarios ----

  /** X's opening move at the centre of the centre leaves that sub-board
      undecided and sends O to it. */
  lemma FirstMoveToCentre()
    ensures var s1 := ApplyMove(InitialState(), 4, 4);
            && Inv(s1) && s1.nextBoardIndex == Some(4) && s1.currentPlayer == O && |s1.moveHistory| == 1
            && s1.board[4][0] == Empty && s1.miniWinners[4] == Empty && s1.gameWinner == Empty
  {
    var s0 := InitialState();
    InitialInv();
    assert Accepts(s0, 4, 4);
    ApplyMoveKeepsInv(s0, 4, 4);
    AcceptedMoveEffects(s0, 4, 4);
    SendRule(s0, 4, 4);
    var s1 := ApplyMove(s0, 4, 4);
    var g := s1.board[4];
    assert g[0] == Empty && g[1] == Empty && g[2] == Empty && g[3] == Empty && g[5] == Empty;
    assert !Full(g);
    CalculateWinnerSpec(g);
    assert forall k | 0 <= k < 8 :: !LineWins(g, k);
  }

  /** Centre of the centre sends O to the centre board; O's move at square 0
      then sends X to board 0. */
  lemma ScenarioSendToMatchingBoard()
    ensures var s1 := ApplyMove(InitialState(), 4, 4);
            && s1.nextBoardIndex == Some(4) && s1.currentPlayer == O
            && var s2 := ApplyMove(s1, 4, 0);
               s2.nextBoardIndex == Some(0) && s2.currentPlayer == X && |s2.moveHistory| == 2
  {
    FirstMoveToCentre();
    var s1 := ApplyMove(InitialState(), 4, 4);
    assert Accepts(s1, 4, 0);
    AcceptedMoveEffects(s1, 4, 0);
    SendRule(s1, 4, 0);
    var s2 := ApplyMove(s1, 4, 0);
    assert s2.board[0] == s1.board[0] == InitialState().board[0];
    assert s2.board[0][1] == Empty;
  }

  /** A move outside the required sub-board is rejected and leaves the
      state unchanged. */
  lemma ScenarioWrongSubBoard()
    ensures var s1 := ApplyMove(InitialState(), 4, 4);
            ApplyMove(s1, 3, 0) == s1
  {
    FirstMoveToCentre();
    var s1 := ApplyMove(InitialState(), 4, 4);
    assert !Accepts(s1, 3, 0);
    RejectedMoveUnchanged(s1, 3, 0);
  }

  /** Three drawn sub-boards in a meta-line, with five results in all, end
      the game as a draw although other sub-boards are still open. */
  lemma DrawnLineEndsGame()
    ensures GatedWinner([Draw, Draw, Draw, Mark(X), Mark(O), Empty, Empty, Empty, Empty]) == Draw
  {
    var mw: Grid := [Draw, Draw, Draw, Mark(X), Mark(O), Empty, Empty, Empty, Empty];
    assert DecidedUpTo(mw, 5) == 5;
    assert DecidedCount(mw) == 5 by {
      assert DecidedUpTo(mw, 9) == DecidedUpTo(mw, 5);
    }
    assert LineWins(mw, 0);
  }

  /** The gate is not only an optimisation: three sub-boards of X in a row
      form a winning meta-line, yet with only those three decided the store
      records no result and play goes on. */
  lemma GateHidesEarlyWin()
    ensures var mw: Grid := [Mark(X), Mark(X), Mark(X), Empty, Empty, Empty, Empty, Empty, Empty];
            CalculateWinner(mw) == Mark(X) && GatedWinner(mw) == Empty
  {
    var mw: Grid := [Mark(X), Mark(X), Mark(X), Empty, Empty, Empty, Empty, Empty, Empty];
    assert DecidedUpTo(mw, 3) == 3;
    assert DecidedCount(mw) == 3 by {
      assert DecidedUpTo(mw, 9) == DecidedUpTo(mw, 3);
    }
    assert LineWins(mw, 0);
  }

  /** Three sub-boards of X in a meta-line and two of O win the game for X. */
  lemma ScenarioMetaWin()
    ensures GatedWinner([Mark(X), Mark(O), Empty, Mark(O), Mark(X), Empty, Empty, Empty, Mark(X)]) == Mark(X)
  {
    var mw: Grid := [Mark(X), Mark(O), Empty, Mark(O), Mark(X), Empty, Empty, Empty, Mark(X)];
    assert DecidedCount(mw) == 5;
    assert forall k | 0 <= k < 6 :: !LineWins(mw, k);
    assert LineWins(mw, 6);
  }

  /** The body of makeMove after its guards: the copied board with the
      move, the played sub-board's result, the next required sub-board, the
      gated game result and the extended history. */
  method AcceptedMove(st: State, boardIndex: Idx, squareIndex: Idx) returns (next: State)
    requires Accepts(st, boardIndex, squareIndex)
    ensures next == ApplyMove(st, boardIndex, squareIndex)
  {
    var newBoard := st.board[boardIndex := st.board[boardIndex][squareIndex := Mark(st.currentPlayer)]];

    var newMiniWinners := st.miniWinners;
    if st.miniWinners[boardIndex] == Empty {
      var winner := CalculateWinner(newBoard[boardIndex]);
      if winner != Empty {
        newMiniWinners := newMiniWinners[boardIndex := winner];
      }
    }

    var newNextBoardIndex: Option<Idx> := Some(squareIndex);
    if newMiniWinners[squareIndex] != Empty || Full(st.board[squareIndex]) {
      newNextBoardIndex := None;
    }

    var newGameWinner := Empty;
    if DecidedCount(newMiniWinners) >= 5 {
      newGameWinner := CalculateWinner(newMiniWinners);
    }

    var newMoveHistory := st.moveHistory + [MoveRecord(boardIndex, squareIndex, st.currentPlayer)];

    next := State(newBoard, if st.currentPlayer == X then O else X, newNextBoardIndex,
                  newMiniWinners, newGameWinner, newMoveHistory);
  }

  /** The store: the fields makeMove, resetGame and setGameMode overwrite. */
  class GameStore {
    var gameMode: Option<GameMode>
    var board: Board
    var currentPlayer: Player
    var nextBoardIndex: Option<Idx>
    var miniWinners: Grid
    var gameWinner: Entry
    var moveHistory: seq<MoveRecord>

    function Snapshot(): State
      reads this
    {
      State(board, currentPlayer, nextBoardIndex, miniWinners, gameWinner, moveHistory)
    }

    ghost predicate Valid()
      reads this
    {
      Inv(Snapshot())
    }

    constructor ()
      ensures Snapshot() == InitialState() && gameMode == None
      ensures Valid()
    {
      gameMode := None;
      board := CreateInitialBoard();
      currentPlayer := X;
      nextBoardIndex := None;
      miniWinners := EmptyGrid;
      gameWinner := Empty;
      moveHistory := [];
      InitialInv();
    }

    method SetGameMode(mode: GameMode)
      modifies this
      ensures gameMode == Some(mode)
      ensures Snapshot() == old(Snapshot())
    {
      gameMode := Some(mode);
    }

    /** makeMove: returns without change when a guard fails; otherwise
      writes the new board, player, required sub-board, results and history. */
    method MakeMove(boardIndex: Idx, squareIndex: Idx)
      modifies this
      ensures Snapshot() == ApplyMove(old(Snapshot()), boardIndex, squareIndex)
      ensures gameMode == old(gameMode)
      ensures old(Valid()) ==> Valid()
    {
      ghost var before := Snapshot();
      if Inv(before) {
        ApplyMoveKeepsInv(before, boardIndex, squareIndex);
      }
      if gameWinner != Empty || (nextBoardIndex.Some? && nextBoardIndex.value != boardIndex) {
        return;
      }
      if board[boardIndex][squareIndex] != Empty || miniWinners[boardIndex] != Empty {
        return;
      }
      var next := AcceptedMove(Snapshot(), boardIndex, squareIndex);
      board := next.board;
      currentPlayer := next.currentPlayer;
      nextBoardIndex := next.nextBoardIndex;
      miniWinners := next.miniWinners;
      gameWinner := next.gameWinner;
      moveHistory := next.moveHistory;
    }

    method ResetGame()
      modifies this
      ensures Snapshot() == InitialState()
      ensures gameMode == old(gameMode)
      ensures Valid()
    {
      board := CreateInitialBoard();
      currentPlayer := X;
      nextBoardIndex := None;
      miniWinners := EmptyGrid;
      gameWinner := Empty;
      moveHistory := [];
      InitialInv();
    }

    /** aiMove: runs the search on the current state with the draw `roll`
      and plays the move it returns through MakeMove. */
    method AiMove(roll: real)
      requires 0.0 <= roll < 1.0
      modifies this
      ensures var m := SelectedMove(old(board), old(nextBoardIndex), old(miniWinners), roll);
              Snapshot() == if m.Some? then ApplyMove(old(Snapshot()), m.value.boardIndex, m.value.squareIndex)
                            else old(Snapshot())
      ensures gameMode == old(gameMode)
      ensures old(Valid()) ==> Valid()
      ensures var m := SelectedMove(old(board), old(nextBoardIndex), old(miniWinners), roll);
              old(gameWinner == Empty && (nextBoardIndex.None? || Open(board, miniWinners, nextBoardIndex.value))) ==>
                && (m.Some? <==> old(exists i: Idx :: Open(board, miniWinners, i)))
                && (m.Some? ==> moveHistory == old(moveHistory) + [MoveRecord(m.value.boardIndex, m.value.squareIndex, old(currentPlayer))])
      ensures old(Valid() && gameWinner == Empty) ==> |moveHistory| == |old(moveHistory)| + 1
    {
      ghost var before := Snapshot();
      var move := FindBestMove(board, nextBoardIndex, miniWinners, roll);
      if before.gameWinner == Empty && (before.nextBoardIndex.None? || Open(before.board, before.miniWinners, before.nextBoardIndex.value)) {
        AiMoveAccepted(before, roll);
      }
      if Inv(before) && before.gameWinner == Empty {
        AiAlwaysMoves(before, roll);
      }
      if move.Some? {
        MakeMove(move.value.boardIndex, move.value.squareIndex);
        if Accepts(before, move.value.boardIndex, move.value.squareIndex) {
          AcceptedMoveEffects(before, move.value.boardIndex, move.value.squareIndex);
        }
      }
    }
  }
}
