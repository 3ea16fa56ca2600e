/** The AI's move search: a depth-bounded minimax over trial moves placed on
    copies of the board, scored by the static evaluation at the cutoff, and a
    root that ranks every legal move and picks among the best three. */
module Search {
  import opened Types
  import opened Winner
  import opened Heuristic

  datatype Move = Move(boardIndex: Idx, squareIndex: Idx)

  datatype ScoredMove = ScoredMove(boardIndex: Idx, squareIndex: Idx, score: int)

  /** The ply limit the root passes to the search. */
  const SearchDepth: nat := 3

  /** A sub-board can still be played: no result yet and an empty square. */
  predicate Open(board: Board, mw: Grid, i: Idx) {
    mw[i] == Empty && !Full(board[i])
  }

  /** The open sub-boards among 0..n-1, in increasing order. */
  function OpenBoardsUpTo(board: Board, mw: Grid, n: nat): (r: seq<Idx>)
    requires n <= 9
    ensures forall i: Idx :: i in r <==> i < n && Open(board, mw, i)
  {
    if n == 0 then []
    else OpenBoardsUpTo(board, mw, n - 1) + (if Open(board, mw, n - 1) then [n - 1] else [])
  }

  lemma OpenBoardsNoneIff(board: Board, mw: Grid)
    ensures |OpenBoardsUpTo(board, mw, 9)| == 0 <==> forall i: Idx :: !Open(board, mw, i)
  {
    var r := OpenBoardsUpTo(board, mw, 9);
    if |r| > 0 {
      assert r[0] in r;
    }
  }

  /** The boards the root may play in: the required board when it is open,
      otherwise every open board. */
  function RootBoards(board: Board, next: Option<Idx>, mw: Grid): (r: seq<Idx>)
    ensures forall j | 0 <= j < |r| :: Open(board, mw, r[j])
    ensures |r| == 0 <==> forall i: Idx :: !Open(board, mw, i)
    ensures next.Some? && Open(board, mw, next.value) ==> r == [next.value]
    ensures (next.None? || !Open(board, mw, next.value)) ==> forall i: Idx :: Open(board, mw, i) ==> i in r
  {
    OpenBoardsNoneIff(board, mw);
    if next.Some? && Open(board, mw, next.value) then [next.value]
    else OpenBoardsUpTo(board, mw, 9)
  }

  /** The boards a reply may be played in after a move at square `lastS`:
      board `lastS` unless it is decided or full, then every open board. */
  function ReplyBoards(board: Board, mw: Grid, lastS: Idx): (r: seq<Idx>)
    ensures forall j | 0 <= j < |r| :: Open(board, mw, r[j])
    ensures Open(board, mw, lastS) ==> r == [lastS]
    ensures !Open(board, mw, lastS) ==> forall i: Idx :: Open(board, mw, i) ==> i in r
  {
    var next: Option<Idx> := if mw[lastS] != Empty || Full(board[lastS]) then None else Some(lastS);
    if next.None? then OpenBoardsUpTo(board, mw, 9)
    else if mw[lastS] == Empty && !Full(board[lastS]) then [lastS]
    else []
  }

  lemma ReplyBoardsNoneIff(board: Board, mw: Grid, lastS: Idx)
    ensures |ReplyBoards(board, mw, lastS)| == 0 <==> forall i: Idx :: !Open(board, mw, i)
  {
    OpenBoardsNoneIff(board, mw);
    if Open(board, mw, lastS) {
      assert ReplyBoards(board, mw, lastS) == [lastS];
    }
  }

  /** The empty squares 0..n-1 of sub-board `b`, in increasing order. */
  function SquaresUpTo(board: Board, b: Idx, n: nat): (r: seq<Move>)
    requires n <= 9
    ensures forall m :: m in r <==> m.boardIndex == b && m.squareIndex < n && board[b][m.squareIndex] == Empty
  {
    if n == 0 then []
    else SquaresUpTo(board, b, n - 1) + (if board[b][n - 1] == Empty then [Move(b, n - 1)] else [])
  }

  /** Every empty square of the listed boards, board by board. */
  function CandidatesOf(board: Board, boards: seq<Idx>): (r: seq<Move>)
    ensures forall m :: m in r <==> m.boardIndex in boards && board[m.boardIndex][m.squareIndex] == Empty
  {
    if |boards| == 0 then []
    else CandidatesOf(board, boards[..|boards| - 1]) + SquaresUpTo(board, boards[|boards| - 1], 9)
  }

  lemma CandidatesExist(board: Board, mw: Grid, boards: seq<Idx>)
    requires |boards| > 0
    requires forall j | 0 <= j < |boards| :: Open(board, mw, boards[j])
    ensures |CandidatesOf(board, boards)| > 0
  {
    var b := boards[0];
    assert Open(board, mw, b) && b in boards;
    var s: Idx :| board[b][s] == Empty;
    assert Move(b, s) in CandidatesOf(board, boards);
  }

  /** The score of a decided game: +1000 when O (the AI) wins, -1000 when X
      wins, 0 for a drawn game. */
  function TerminalScore(w: Entry): int {
    if w == Mark(O) then 1000 else if w == Mark(X) then -1000 else 0
  }

  /** The sub-board results after the last move at sub-board `lastB`. */
  function ResultsAfter(board: Board, lastB: Idx, mw: Grid): (r: Grid)
    ensures forall i: Idx :: i != lastB ==> r[i] == mw[i]
  {
    if mw[lastB] == Empty && CalculateWinner(board[lastB]) != Empty
    then mw[lastB := CalculateWinner(board[lastB])]
    else mw
  }

  /** The last move decided its sub-board and the meta-board then has a
      result; unlike the store, no count of decided sub-boards gates this. */
  predicate DecidesGame(board: Board, lastB: Idx, mw: Grid) {
    mw[lastB] == Empty && CalculateWinner(board[lastB]) != Empty
    && CalculateWinner(ResultsAfter(board, lastB, mw)) != Empty
  }

  /** evaluateMove: `board` already holds the last move, at square `lastS` of
      sub-board `lastB`; `player` moves next. Every result is a terminal
      score or lies strictly between them. */
  function EvaluateMove(board: Board, lastB: Idx, lastS: Idx, mw: Grid, player: Player, depth: nat): (r: int)
    decreases depth, 2
    ensures r == 1000 || r == -1000 || -616 <= r <= 616
  {
    var newMW := ResultsAfter(board, lastB, mw);
    if DecidesGame(board, lastB, mw) then
      TerminalScore(CalculateWinner(newMW))
    else if depth == 0 then
      BoardScore(board, newMW)
    else
      var valid := ReplyBoards(board, newMW, lastS);
      if |valid| == 0 then
        BoardScore(board, newMW)
      else
        var moves := CandidatesOf(board, valid);
        CandidatesExist(board, newMW, valid);
        RunningBestIsBest(ChildScores(board, moves, newMW, player, depth), player);
        RunningBest(ChildScores(board, moves, newMW, player, depth), player)
  }

  /** The score of every trial reply in `moves`, in order. */
  function ChildScores(board: Board, moves: seq<Move>, mw: Grid, player: Player, depth: nat): (r: seq<int>)
    requires depth > 0
    decreases depth, 1
    ensures |r| == |moves|
    ensures forall j | 0 <= j < |r| :: r[j] == 1000 || r[j] == -1000 || -616 <= r[j] <= 616
  {
    seq(|moves|, j requires 0 <= j < |moves| => ReplyScore(board, moves[j], mw, player, depth))
  }

  /** The score of one trial reply: `m` placed for `player` on a copy of the
      board, with the opponent to move next. */
  function ReplyScore(board: Board, m: Move, mw: Grid, player: Player, depth: nat): (r: int)
    requires depth > 0
    decreases depth, 0
    ensures r == 1000 || r == -1000 || -616 <= r <= 616
  {
    EvaluateMove(Place(board, m.boardIndex, m.squareIndex, player), m.boardIndex, m.squareIndex, mw, Other(player), depth - 1)
  }

  /** The fold of the bestScore loop: the running maximum (O) or minimum
      (X) of the scores, in candidate order. */
  function RunningBest(scores: seq<int>, player: Player): int
    requires |scores| > 0
  {
    var score := scores[|scores| - 1];
    if |scores| == 1 then score
    else
      var best := RunningBest(scores[..|scores| - 1], player);
      if player == O then (if best < score then score else best)
      else (if score < best then score else best)
  }

  /** The running best is one of the scores, and no score beats it for the
      side to move: it is the maximum for O and the minimum for X. */
  lemma {:induction false} RunningBestIsBest(scores: seq<int>, player: Player)
    requires |scores| > 0
    ensures RunningBest(scores, player) in scores
    ensures forall j | 0 <= j < |scores| :: player == O ==> scores[j] <= RunningBest(scores, player)
    ensures forall j | 0 <= j < |scores| :: player == X ==> RunningBest(scores, player) <= scores[j]
  {
    if |scores| > 1 {
      var init := scores[..|scores| - 1];
      RunningBestIsBest(init, player);
      assert forall j | 0 <= j < |init| :: scores[j] == init[j];
    }
  }

  /** The terminal and cutoff cases of evaluateMove, and the minimax case:
      otherwise the value is the best reply for the side to move. */
  lemma EvaluateMoveCases(board: Board, lastB: Idx, lastS: Idx, mw: Grid, player: Player, depth: nat)
    ensures DecidesGame(board, lastB, mw) ==>
              var g := CalculateWinner(ResultsAfter(board, lastB, mw));
              EvaluateMove(board, lastB, lastS, mw, player, depth) == (if g == Mark(O) then 1000 else if g == Mark(X) then -1000 else 0)
    ensures !DecidesGame(board, lastB, mw) && (depth == 0 || forall i: Idx :: !Open(board, ResultsAfter(board, lastB, mw), i)) ==>
              EvaluateMove(board, lastB, lastS, mw, player, depth) == BoardScore(board, ResultsAfter(board, lastB, mw))
    ensures !DecidesGame(board, lastB, mw) && depth > 0 && (exists i: Idx :: Open(board, ResultsAfter(board, lastB, mw), i)) ==>
              var newMW := ResultsAfter(board, lastB, mw);
              var scores := ChildScores(board, CandidatesOf(board, ReplyBoards(board, newMW, lastS)), newMW, player, depth);
              && |scores| > 0
              && EvaluateMove(board, lastB, lastS, mw, player, depth) in scores
              && forall j | 0 <= j < |scores| ::
                   if player == O then scores[j] <= EvaluateMove(board, lastB, lastS, mw, player, depth)
                   else EvaluateMove(board, lastB, lastS, mw, player, depth) <= scores[j]
  {
    var newMW := ResultsAfter(board, lastB, mw);
    var valid := ReplyBoards(board, newMW, lastS);
    ReplyBoardsNoneIff(board, newMW, lastS);
    if |valid| > 0 && depth > 0 {
      CandidatesExist(board, newMW, valid);
      RunningBestIsBest(ChildScores(board, CandidatesOf(board, valid), newMW, player, depth), player);
    }
  }

  lemma ChildScoresAppend(board: Board, moves: seq<Move>, m: Move, mw: Grid, player: Player, depth: nat)
    requires depth > 0
    ensures ChildScores(board, moves + [m], mw, player, depth)
            == ChildScores(board, moves, mw, player, depth)
               + [ReplyScore(board, m, mw, player, depth)]
  {
    var lhs := ChildScores(board, moves + [m], mw, player, depth);
    var rhs := ChildScores(board, moves, mw, player, depth)
               + [ReplyScore(board, m, mw, player, depth)];
    assert |lhs| == |rhs|;
    forall j | 0 <= j < |lhs| ensures lhs[j] == rhs[j] {
      if j < |moves| {
        assert (moves + [m])[j] == moves[j];
      }
    }
  }

  /** One more score updates the running best by Math.max (O) or Math.min (X). */
  lemma RunningBestAppend(scores: seq<int>, s: int, player: Player)
    requires |scores| > 0
    ensures RunningBest(scores + [s], player)
            == if player == O then (if RunningBest(scores, player) < s then s else RunningBest(scores, player))
               else (if s < RunningBest(scores, player) then s else RunningBest(scores, player))
  {
    assert (scores + [s])[..|scores|] == scores;
  }

  /** evaluateMove as the source runs it: the recursive call inside the
      nested loop over the reply boards and their empty squares, keeping the
      running best score (`found` is false while the source's bestScore still
      holds its infinite seed). */
  method SearchMove(board: Board, lastBoardIndex: Idx, lastSquareIndex: Idx, miniWinners: Grid,
                    player: Player, depth: nat) returns (score: int)
    decreases depth, 3
    ensures score == EvaluateMove(board, lastBoardIndex, lastSquareIndex, miniWinners, player, depth)
  {
    var newMiniWinners := miniWinners;
    if miniWinners[lastBoardIndex] == Empty {
      var winner := CalculateWinner(board[lastBoardIndex]);
      if winner != Empty {
        newMiniWinners := newMiniWinners[lastBoardIndex := winner];
        var gameWinner := CalculateWinner(newMiniWinners);
        if gameWinner != Empty {
          return if gameWinner == Mark(O) then 1000 else if gameWinner == Mark(X) then -1000 else 0;
        }
      }
    }
    assert newMiniWinners == ResultsAfter(board, lastBoardIndex, miniWinners);
    assert !DecidesGame(board, lastBoardIndex, miniWinners);

    if depth == 0 {
      score := EvaluateBoard(board, newMiniWinners);
      return;
    }

    var nextBoardIndex: int := lastSquareIndex;
    if newMiniWinners[nextBoardIndex] != Empty || Full(board[nextBoardIndex]) {
      nextBoardIndex := -1;
    }
    var validBoards: seq<Idx> := [];
    if nextBoardIndex == -1 {
      validBoards := CollectOpenBoards(board, newMiniWinners);
    } else if newMiniWinners[nextBoardIndex] == Empty && !Full(board[nextBoardIndex]) {
      validBoards := [nextBoardIndex];
    }
    assert validBoards == ReplyBoards(board, newMiniWinners, lastSquareIndex);

    if |validBoards| == 0 {
      score := EvaluateBoard(board, newMiniWinners);
      return;
    }

    CandidatesExist(board, newMiniWinners, validBoards);
    score := BestReply(board, validBoards, newMiniWinners, player, depth);
  }

  /** The minimax loop of evaluateMove: every empty square of every valid
      board is tried for `player` on a copy of the board and scored by the
      recursive search; the result is the running maximum (O) or minimum (X).
      `found` is false while the source's bestScore still holds its infinite
      seed. */
  method BestReply(board: Board, validBoards: seq<Idx>, newMiniWinners: Grid, player: Player, depth: nat)
    returns (bestScore: int)
    requires depth > 0 && |CandidatesOf(board, validBoards)| > 0
    decreases depth, 2
    ensures bestScore == RunningBest(ChildScores(board, CandidatesOf(board, validBoards), newMiniWinners, player, depth), player)
  {
    bestScore := 0;
    var found := false;
    for k := 0 to |validBoards|
      invariant found <==> |CandidatesOf(board, validBoards[..k])| > 0
      invariant found ==> bestScore == RunningBest(ChildScores(board, CandidatesOf(board, validBoards[..k]), newMiniWinners, player, depth), player)
    {
      ghost var before := CandidatesOf(board, validBoards[..k]);
      found, bestScore := TryBoard(board, validBoards[k], newMiniWinners, player, depth, before, found, bestScore);
      ghost var upTo := validBoards[..k + 1];
      assert upTo[..|upTo| - 1] == validBoards[..k] && upTo[|upTo| - 1] == validBoards[k];
      assert CandidatesOf(board, upTo) == before + SquaresUpTo(board, validBoards[k], 9);
    }
    assert validBoards[..|validBoards|] == validBoards;
  }

  /** The inner loop of the minimax: the empty squares of one board, each
      tried and folded into the running best. The replies tried before this
      board are `before`. */
  method TryBoard(board: Board, boardIndex: Idx, newMiniWinners: Grid, player: Player, depth: nat,
                  ghost before: seq<Move>, found0: bool, best0: int)
    returns (found: bool, bestScore: int)
    requires depth > 0
    requires found0 <==> |before| > 0
    requires found0 ==> best0 == RunningBest(ChildScores(board, before, newMiniWinners, player, depth), player)
    decreases depth, 1
    ensures found <==> |before + SquaresUpTo(board, boardIndex, 9)| > 0
    ensures found ==> bestScore == RunningBest(ChildScores(board, before + SquaresUpTo(board, boardIndex, 9), newMiniWinners, player, depth), player)
  {
    found, bestScore := found0, best0;
    ghost var done := before;
    assert before + SquaresUpTo(board, boardIndex, 0) == before;
    for squareIndex := 0 to 9
      invariant done == before + SquaresUpTo(board, boardIndex, squareIndex)
      invariant found <==> |done| > 0
      invariant found ==> bestScore == RunningBest(ChildScores(board, done, newMiniWinners, player, depth), player)
    {
      if board[boardIndex][squareIndex] == Empty {
        ghost var m := Move(boardIndex, squareIndex);
        found, bestScore := TrySquare(board, boardIndex, squareIndex, newMiniWinners, player, depth, done, found, bestScore);
        assert SquaresUpTo(board, boardIndex, squareIndex + 1) == SquaresUpTo(board, boardIndex, squareIndex) + [m];
        assert done + [m] == before + (SquaresUpTo(board, boardIndex, squareIndex) + [m]);
        done := done + [m];
      } else {
        assert SquaresUpTo(board, boardIndex, squareIndex + 1) == SquaresUpTo(board, boardIndex, squareIndex);
      }
    }
  }

  /** One step of the minimax loop: the reply at square `squareIndex` of
      board `boardIndex` is placed on a copy of the board and scored by the
      recursive search, and the running best becomes the maximum (O) or
      minimum (X) of the scores so far. */
  method TrySquare(board: Board, boardIndex: Idx, squareIndex: Idx, newMiniWinners: Grid, player: Player, depth: nat,
                   ghost done: seq<Move>, found0: bool, best0: int)
    returns (found: bool, bestScore: int)
    requires depth > 0
    requires found0 <==> |done| > 0
    requires found0 ==> best0 == RunningBest(ChildScores(board, done, newMiniWinners, player, depth), player)
    decreases depth, 0
    ensures found
    ensures bestScore == RunningBest(ChildScores(board, done + [Move(boardIndex, squareIndex)], newMiniWinners, player, depth), player)
  {
    var nextPlayer := Other(player);
    var newBoard := Place(board, boardIndex, squareIndex, player);
    var s := SearchMove(newBoard, boardIndex, squareIndex, newMiniWinners, nextPlayer, depth - 1);
    assert s == ReplyScore(board, Move(boardIndex, squareIndex), newMiniWinners, player, depth);
    ghost var scores := ChildScores(board, done, newMiniWinners, player, depth);
    ChildScoresAppend(board, done, Move(boardIndex, squareIndex), newMiniWinners, player, depth);
    if found0 {
      RunningBestAppend(scores, s, player);
    }
    found, bestScore := found0, best0;
    if !found {
      bestScore := s;
      found := true;
    } else if player == O {
      bestScore := if bestScore < s then s else bestScore;
    } else {
      bestScore := if s < bestScore then s else bestScore;
    }
  }

  // ---- Ranking the root moves ----

  /** The root score of a candidate: O's mark placed, then evaluateMove with
      O again as the side to move, as the source passes it. */
  function RootScore(board: Board, mw: Grid, m: Move): (r: int)
    ensures r == 1000 || r == -1000 || -616 <= r <= 616
  {
    EvaluateMove(Place(board, m.boardIndex, m.squareIndex, O), m.boardIndex, m.squareIndex, mw, O, SearchDepth)
  }

  function ScoreMoves(board: Board, mw: Grid, moves: seq<Move>): (r: seq<ScoredMove>)
    ensures |r| == |moves|
    ensures forall j | 0 <= j < |r| :: r[j].score == 1000 || r[j].score == -1000 || -616 <= r[j].score <= 616
    ensures forall j | 0 <= j < |r| :: r[j] == ScoredMove(moves[j].boardIndex, moves[j].squareIndex, RootScore(board, mw, moves[j]))
  {
    seq(|moves|, j requires 0 <= j < |moves| =>
      ScoredMove(moves[j].boardIndex, moves[j].squareIndex, RootScore(board, mw, moves[j])))
  }

  lemma ScoreMovesAppend(board: Board, mw: Grid, moves: seq<Move>, m: Move)
    ensures ScoreMoves(board, mw, moves + [m])
            == ScoreMoves(board, mw, moves) + [ScoredMove(m.boardIndex, m.squareIndex, RootScore(board, mw, m))]
  {
    var lhs := ScoreMoves(board, mw, moves + [m]);
    var rhs := ScoreMoves(board, mw, moves) + [ScoredMove(m.boardIndex, m.squareIndex, RootScore(board, mw, m))];
    assert |lhs| == |rhs|;
    forall j | 0 <= j < |lhs| ensures lhs[j] == rhs[j] {
      if j < |moves| {
        assert (moves + [m])[j] == moves[j];
      }
    }
  }

  predicate SortedDesc(s: seq<ScoredMove>) {
    forall i, j | 0 <= i < j < |s| :: s[i].score >= s[j].score
  }

  /** Inserts `m` after every strictly better element and before the rest,
      so that equal scores keep their original order. */
  function Insert(m: ScoredMove, s: seq<ScoredMove>): (r: seq<ScoredMove>)
    ensures multiset(r) == multiset(s) + multiset{m}
    ensures |r| == |s| + 1 && (r[0] == m || (|s| > 0 && r[0] == s[0]))
  {
    if |s| == 0 || s[0].score <= m.score then [m] + s
    else
      assert s == [s[0]] + s[1..];
      [s[0]] + Insert(m, s[1..])
  }

  lemma {:induction false} InsertSorted(m: ScoredMove, s: seq<ScoredMove>)
    requires SortedDesc(s)
    ensures SortedDesc(Insert(m, s))
  {
    if |s| > 0 && s[0].score > m.score {
      var tail := s[1..];
      assert SortedDesc(tail) by {
        forall i, j | 0 <= i < j < |tail| ensures tail[i].score >= tail[j].score {
          assert tail[i] == s[i + 1] && tail[j] == s[j + 1];
        }
      }
      InsertSorted(m, tail);
      var rest := Insert(m, tail);
      var r := Insert(m, s);
      assert r == [s[0]] + rest;
      assert s[0].score >= rest[0].score;
      forall i, j | 0 <= i < j < |r| ensures r[i].score >= r[j].score {
        if i == 0 {
          assert r[j] == rest[j - 1];
          if j > 1 {
            assert rest[0].score >= rest[j - 1].score;
          }
        } else {
          assert r[i] == rest[i - 1] && r[j] == rest[j - 1];
        }
      }
    }
  }

  /** The descending score sort of `possibleMoves.sort`: a stable insertion
      sort, as the platform's sort is stable. */
  function SortDesc(s: seq<ScoredMove>): (r: seq<ScoredMove>)
    ensures multiset(r) == multiset(s)
    ensures SortedDesc(r)
  {
    if |s| == 0 then []
    else
      assert s == [s[0]] + s[1..];
      InsertSorted(s[0], SortDesc(s[1..]));
      Insert(s[0], SortDesc(s[1..]))
  }

  /** The moves scoring exactly `v`, in their order in `s`. */
  function Ties(s: seq<ScoredMove>, v: int): seq<ScoredMove> {
    if |s| == 0 then [] else (if s[0].score == v then [s[0]] else []) + Ties(s[1..], v)
  }

  /** Insertion puts `m` ahead of every move with an equal score. */
  lemma {:induction false} InsertTies(m: ScoredMove, s: seq<ScoredMove>, v: int)
    ensures Ties(Insert(m, s), v) == (if m.score == v then [m] else []) + Ties(s, v)
  {
    var r := Insert(m, s);
    if |s| > 0 && s[0].score > m.score {
      var rest := Insert(m, s[1..]);
      InsertTies(m, s[1..], v);
      assert r == [s[0]] + rest;
      assert r[1..] == rest;
      assert Ties(r, v) == (if s[0].score == v then [s[0]] else []) + Ties(rest, v);
      assert Ties(s, v) == (if s[0].score == v then [s[0]] else []) + Ties(s[1..], v);
      if s[0].score == v {
        assert m.score != v;
      }
    } else {
      assert r == [m] + s;
      assert r[1..] == s;
    }
  }

  /** The sort is stable: the moves of any one score keep their candidate
      order, so among equal scores the earlier candidate ranks higher. */
  lemma {:induction false} SortDescStable(s: seq<ScoredMove>, v: int)
    ensures Ties(SortDesc(s), v) == Ties(s, v)
  {
    if |s| > 0 {
      SortDescStable(s[1..], v);
      InsertTies(s[0], SortDesc(s[1..]), v);
    }
  }

  /** How many of the moves score strictly more than `v`. */
  function CountAbove(s: seq<ScoredMove>, v: int): (n: nat)
    ensures n <= |s|
  {
    if |s| == 0 then 0 else (if s[0].score > v then 1 else 0) + CountAbove(s[1..], v)
  }

  lemma {:induction false} CountAboveInsert(m: ScoredMove, s: seq<ScoredMove>, v: int)
    ensures CountAbove(Insert(m, s), v) == CountAbove(s, v) + (if m.score > v then 1 else 0)
  {
    if |s| > 0 && s[0].score > m.score {
      CountAboveInsert(m, s[1..], v);
      assert Insert(m, s)[1..] == Insert(m, s[1..]);
    } else {
      assert Insert(m, s)[1..] == s;
    }
  }

  lemma {:induction false} CountAboveSort(s: seq<ScoredMove>, v: int)
    ensures CountAbove(SortDesc(s), v) == CountAbove(s, v)
  {
    if |s| > 0 {
      CountAboveSort(s[1..], v);
      CountAboveInsert(s[0], SortDesc(s[1..]), v);
    }
  }

  /** In a descending sequence, at most `j` elements beat the one at `j`. */
  lemma {:induction false} CountAboveSorted(s: seq<ScoredMove>, j: nat)
    requires SortedDesc(s) && j < |s|
    ensures CountAbove(s, s[j].score) <= j
  {
    if j == 0 {
      CountAboveNone(s, s[0].score);
    } else {
      assert SortedDesc(s[1..]) && s[1..][j - 1] == s[j];
      CountAboveSorted(s[1..], j - 1);
    }
  }

  lemma {:induction false} CountAboveNone(s: seq<ScoredMove>, v: int)
    requires forall i | 0 <= i < |s| :: s[i].score <= v
    ensures CountAbove(s, v) == 0
  {
    if |s| > 0 {
      assert forall i | 0 <= i < |s| - 1 :: s[1..][i] == s[i + 1];
      CountAboveNone(s[1..], v);
    }
  }

  function Min(a: int, b: int): int {
    if a < b then a else b
  }

  /** Math.floor(Math.random() * n), with the random draw passed in as `roll`. */
  function PickIndex(roll: real, n: nat): (k: nat)
    requires 0.0 <= roll < 1.0 && n > 0
    ensures k < n
    ensures roll * (n as real) < 1.0 ==> k == 0
  {
    assert 0.0 <= roll * (n as real) < n as real;
    (roll * (n as real)).Floor
  }

  /** The slice-and-pick step: the move at the drawn position among the first
      min(3, n) of the descending sort. */
  function PickTop(possible: seq<ScoredMove>, roll: real): ScoredMove
    requires |possible| > 0 && 0.0 <= roll < 1.0
  {
    var sorted := SortDesc(possible);
    var top := sorted[..Min(3, |sorted|)];
    top[PickIndex(roll, |top|)]
  }

  /** The picked move is a candidate and fewer than three candidates score
      strictly higher; on a draw that lands on the first slot it has the
      highest score of all. */
  lemma PickTopRank(possible: seq<ScoredMove>, roll: real)
    requires |possible| > 0 && 0.0 <= roll < 1.0
    ensures PickTop(possible, roll) in possible
    ensures CountAbove(possible, PickTop(possible, roll).score) < 3
    ensures roll * 3.0 < 1.0 ==> forall c | c in possible :: c.score <= PickTop(possible, roll).score
  {
    var sorted := SortDesc(possible);
    var n := Min(3, |sorted|);
    var k := PickIndex(roll, n);
    var sm := sorted[k];
    assert PickTop(possible, roll) == sm;
    assert sm in multiset(possible);
    CountAboveSorted(sorted, k);
    CountAboveSort(possible, sm.score);
    if roll * 3.0 < 1.0 {
      FirstSlot(roll, n);
      forall c | c in possible ensures c.score <= sm.score {
        assert c in multiset(sorted);
      }
    }
  }

  /** A draw below one third lands on the first slot of any top list. */
  lemma FirstSlot(roll: real, n: nat)
    requires 0.0 <= roll && roll * 3.0 < 1.0 && 0 < n <= 3
    ensures PickIndex(roll, n) == 0
  {
    assert roll * (n as real) <= roll * 3.0;
  }

  /** The scored root candidates: every empty square of every board the root
      may play in, with its root score. */
  function RootCandidates(board: Board, next: Option<Idx>, mw: Grid): seq<ScoredMove> {
    ScoreMoves(board, mw, CandidatesOf(board, RootBoards(board, next, mw)))
  }

  /** The move findBestMove selects, with its root score; None when no
      sub-board is open. */
  function SelectedScored(board: Board, next: Option<Idx>, mw: Grid, roll: real): Option<ScoredMove>
    requires 0.0 <= roll < 1.0
  {
    var valid := RootBoards(board, next, mw);
    if |valid| == 0 then None
    else
      var possible := RootCandidates(board, next, mw);
      if |possible| == 0 then None
      else Some(PickTop(possible, roll))
  }

  function SelectedMove(board: Board, next: Option<Idx>, mw: Grid, roll: real): Option<Move>
    requires 0.0 <= roll < 1.0
  {
    match SelectedScored(board, next, mw, roll)
    case None => None
    case Some(sm) => Some(Move(sm.boardIndex, sm.squareIndex))
  }

  /** Every scored root candidate targets an empty square of a board the root
      may play in and carries that move's root score. */
  lemma RootCandidatesSound(board: Board, next: Option<Idx>, mw: Grid, c: ScoredMove)
    requires c in RootCandidates(board, next, mw)
    ensures Open(board, mw, c.boardIndex)
    ensures board[c.boardIndex][c.squareIndex] == Empty
    ensures next.Some? && Open(board, mw, next.value) ==> c.boardIndex == next.value
    ensures c.score == RootScore(board, mw, Move(c.boardIndex, c.squareIndex))
  {
    var valid := RootBoards(board, next, mw);
    var moves := CandidatesOf(board, valid);
    var possible := ScoreMoves(board, mw, moves);
    var j :| 0 <= j < |possible| && possible[j] == c;
    assert moves[j] in moves;
    var k :| 0 <= k < |valid| && valid[k] == c.boardIndex;
  }

  /** Conversely, every empty square of an open sub-board, in the required
      sub-board when that one is open, is a scored root candidate. */
  lemma RootCandidatesComplete(board: Board, next: Option<Idx>, mw: Grid, m: Move)
    requires Open(board, mw, m.boardIndex) && board[m.boardIndex][m.squareIndex] == Empty
    requires next.None? || !Open(board, mw, next.value) || m.boardIndex == next.value
    ensures ScoredMove(m.boardIndex, m.squareIndex, RootScore(board, mw, m)) in RootCandidates(board, next, mw)
  {
    var moves := CandidatesOf(board, RootBoards(board, next, mw));
    assert m in moves;
    var j :| 0 <= j < |moves| && moves[j] == m;
    assert ScoreMoves(board, mw, moves)[j] == ScoredMove(m.boardIndex, m.squareIndex, RootScore(board, mw, m));
  }

  /** findBestMove gives no move exactly when no sub-board is open. */
  lemma SelectedNoneIff(board: Board, next: Option<Idx>, mw: Grid, roll: real)
    requires 0.0 <= roll < 1.0
    ensures SelectedMove(board, next, mw, roll) == None <==> forall i: Idx :: !Open(board, mw, i)
  {
    var valid := RootBoards(board, next, mw);
    if |valid| > 0 {
      CandidatesExist(board, mw, valid);
    }
  }

  /** Every move findBestMove gives targets an empty square of an open
      sub-board, and that sub-board is the required one when the required
      one is open. */
  lemma SelectedIsLegal(board: Board, next: Option<Idx>, mw: Grid, roll: real)
    requires 0.0 <= roll < 1.0
    ensures SelectedMove(board, next, mw, roll).Some? ==>
              var m := SelectedMove(board, next, mw, roll).value;
              && Open(board, mw, m.boardIndex)
              && board[m.boardIndex][m.squareIndex] == Empty
              && (next.Some? && Open(board, mw, next.value) ==> m.boardIndex == next.value)
  {
    var possible := RootCandidates(board, next, mw);
    if |RootBoards(board, next, mw)| > 0 && |possible| > 0 {
      PickTopRank(possible, roll);
      RootCandidatesSound(board, next, mw, PickTop(possible, roll));
    }
  }

  /** The selected move is one of the scored candidates, carries its own root
      score, and fewer than three candidates score strictly higher. When the
      draw lands on the first of the top moves, no candidate scores higher. */
  lemma SelectedRank(board: Board, next: Option<Idx>, mw: Grid, roll: real)
    requires 0.0 <= roll < 1.0
    ensures SelectedScored(board, next, mw, roll).Some? ==>
              var sm := SelectedScored(board, next, mw, roll).value;
              && sm in RootCandidates(board, next, mw)
              && sm.score == RootScore(board, mw, Move(sm.boardIndex, sm.squareIndex))
              && CountAbove(RootCandidates(board, next, mw), sm.score) < 3
              && (roll * 3.0 < 1.0 ==> forall c | c in RootCandidates(board, next, mw) :: c.score <= sm.score)
  {
    var possible := RootCandidates(board, next, mw);
    if |RootBoards(board, next, mw)| > 0 && |possible| > 0 {
      PickTopRank(possible, roll);
      RootCandidatesSound(board, next, mw, PickTop(possible, roll));
    }
  }

  /** The loop findBestMove runs twice: every open board, in order. */
  method CollectOpenBoards(board: Board, miniWinners: Grid) returns (validBoards: seq<Idx>)
    ensures validBoards == OpenBoardsUpTo(board, miniWinners, 9)
  {
    validBoards := [];
    for i := 0 to 9
      invariant validBoards == OpenBoardsUpTo(board, miniWinners, i)
    {
      if miniWinners[i] == Empty && !Full(board[i]) {
        validBoards := validBoards + [i];
      }
    }
  }

  /** The nested loop of findBestMove: every empty square of every valid
      board, tried as O's move on a copy of the board and scored. */
  method ScoreCandidates(board: Board, miniWinners: Grid, validBoards: seq<Idx>)
    returns (possibleMoves: seq<ScoredMove>)
    ensures possibleMoves == ScoreMoves(board, miniWinners, CandidatesOf(board, validBoards))
  {
    possibleMoves := [];
    for k := 0 to |validBoards|
      invariant possibleMoves == ScoreMoves(board, miniWinners, CandidatesOf(board, validBoards[..k]))
    {
      var boardIndex := validBoards[k];
      ghost var before := CandidatesOf(board, validBoards[..k]);
      for squareIndex := 0 to 9
        invariant possibleMoves == ScoreMoves(board, miniWinners, before + SquaresUpTo(board, boardIndex, squareIndex))
      {
        if board[boardIndex][squareIndex] == Empty {
          var newBoard := Place(board, boardIndex, squareIndex, O);
          var score := SearchMove(newBoard, boardIndex, squareIndex, miniWinners, O, SearchDepth);
          ghost var m := Move(boardIndex, squareIndex);
          ghost var done := before + SquaresUpTo(board, boardIndex, squareIndex);
          ghost var prior := SquaresUpTo(board, boardIndex, squareIndex);
          assert SquaresUpTo(board, boardIndex, squareIndex + 1) == prior + [m];
          assert before + (prior + [m]) == done + [m];
          ScoreMovesAppend(board, miniWinners, done, m);
          possibleMoves := possibleMoves + [ScoredMove(boardIndex, squareIndex, score)];
        }
      }
      ghost var upTo := validBoards[..k + 1];
      assert upTo[..|upTo| - 1] == validBoards[..k] && upTo[|upTo| - 1] == boardIndex;
      assert CandidatesOf(board, upTo) == before + SquaresUpTo(board, boardIndex, 9);
    }
    assert validBoards[..|validBoards|] == validBoards;
  }

  /** The first phase of findBestMove: the required board when it is open,
      otherwise every open board. */
  method ValidBoards(board: Board, nextBoardIndex: Option<Idx>, miniWinners: Grid) returns (validBoards: seq<Idx>)
    ensures validBoards == RootBoards(board, nextBoardIndex, miniWinners)
  {
    if nextBoardIndex.Some? {
      var b := nextBoardIndex.value;
      if miniWinners[b] == Empty && !Full(board[b]) {
        validBoards := [b];
      } else {
        validBoards := CollectOpenBoards(board, miniWinners);
      }
    } else {
      validBoards := CollectOpenBoards(board, miniWinners);
    }
  }

  /** findBestMove: the valid boards, the scored candidates, the descending
      sort and the pick among the first three with the injected draw `roll`. */
  method FindBestMove(board: Board, nextBoardIndex: Option<Idx>, miniWinners: Grid, roll: real)
    returns (r: Option<Move>)
    requires 0.0 <= roll < 1.0
    ensures r == SelectedMove(board, nextBoardIndex, miniWinners, roll)
  {
    var validBoards := ValidBoards(board, nextBoardIndex, miniWinners);
    if |validBoards| == 0 {
      return None;
    }

    var possibleMoves := ScoreCandidates(board, miniWinners, validBoards);
    assert possibleMoves == RootCandidates(board, nextBoardIndex, miniWinners);
    if |possibleMoves| == 0 {
      return None;
    }

    var sorted := SortDesc(possibleMoves);
    var topMoves := sorted[..Min(3, |sorted|)];
    var selected := topMoves[PickIndex(roll, |topMoves|)];
    assert selected == PickTop(possibleMoves, roll);
    r := Some(Move(selected.boardIndex, selected.squareIndex));
  }
}
