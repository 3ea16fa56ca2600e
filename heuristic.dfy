/** The static evaluation the search falls back on: line potentials inside
    each undecided sub-board, and sub-board results on the meta-board, scored
    from O's side (O is the AI). */
module Heuristic {
  import opened Types

  /** How many of the three entries of line `k` equal `e`. */
  function CountOnLine(g: Grid, k: nat, e: Entry): (n: nat)
    requires k < 8
    ensures n <= 3
  {
    var (a, b, c) := Lines[k];
    (if g[a] == e then 1 else 0) + (if g[b] == e then 1 else 0) + (if g[c] == e then 1 else 0)
  }

  /** What line `k` of a sub-board is worth to `p`: 3 for two of `p`'s marks
      and none of the opponent's, 1 for one mark and none of the opponent's. */
  function LineValue(g: Grid, p: Player, k: nat): (v: nat)
    requires k < 8
  {
    var own := CountOnLine(g, k, Mark(p));
    var opp := CountOnLine(g, k, Mark(Other(p)));
    (if own == 2 && opp == 0 then 3 else 0) + (if own == 1 && opp == 0 then 1 else 0)
  }

  /** The sum of LineValue over the first `k` lines. */
  function MiniScoreUpTo(g: Grid, p: Player, k: nat): (v: int)
    requires k <= 8
    ensures 0 <= v <= 3 * k
  {
    if k == 0 then 0 else MiniScoreUpTo(g, p, k - 1) + LineValue(g, p, k - 1)
  }

  /** The score evaluateMiniBoard computes for `p`: it lies in [0, 24]. */
  function MiniBoardScore(g: Grid, p: Player): (v: int)
    ensures 0 <= v <= 24
  {
    MiniScoreUpTo(g, p, 8)
  }

  /** What sub-board `i` contributes: +10 if O has won it, -10 if X has, and
      otherwise (undecided or drawn) O's line potential minus X's. */
  function SubBoardTerm(board: Board, mw: Grid, i: Idx): (v: int)
    ensures -24 <= v <= 24
  {
    if mw[i] == Mark(O) then 10
    else if mw[i] == Mark(X) then -10
    else MiniBoardScore(board[i], O) - MiniBoardScore(board[i], X)
  }

  function SubBoardsUpTo(board: Board, mw: Grid, n: nat): (v: int)
    requires n <= 9
    ensures -24 * n <= v <= 24 * n
  {
    if n == 0 then 0 else SubBoardsUpTo(board, mw, n - 1) + SubBoardTerm(board, mw, n - 1)
  }

  /** What meta-line `k` contributes: +50/-50 for two sub-boards of O/X and
      none of the other, +5/-5 for one and none of the other. */
  function MetaLineValue(mw: Grid, k: nat): (v: int)
    requires k < 8
    ensures -50 <= v <= 50
  {
    var o := CountOnLine(mw, k, Mark(O));
    var x := CountOnLine(mw, k, Mark(X));
    (if o == 2 && x == 0 then 50 else 0) + (if x == 2 && o == 0 then -50 else 0)
    + (if o == 1 && x == 0 then 5 else 0) + (if x == 1 && o == 0 then -5 else 0)
  }

  function MetaUpTo(mw: Grid, k: nat): (v: int)
    requires k <= 8
    ensures -50 * k <= v <= 50 * k
  {
    if k == 0 then 0 else MetaUpTo(mw, k - 1) + MetaLineValue(mw, k - 1)
  }

  /** The score evaluateBoard computes. Its magnitude is at most
      9 * 24 + 8 * 50 = 616, strictly inside the terminal scores of +-1000. */
  function BoardScore(board: Board, mw: Grid): (v: int)
    ensures -616 <= v <= 616
  {
    SubBoardsUpTo(board, mw, 9) + MetaUpTo(mw, 8)
  }

  /** evaluateMiniBoard: the line loop with its two counters per line. */
  method EvaluateMiniBoard(squares: Grid, player: Player) returns (score: int)
    ensures score == MiniBoardScore(squares, player)
    ensures 0 <= score <= 24
  {
    var opponent := if player == X then O else X;
    score := 0;
    for k := 0 to 8
      invariant score == MiniScoreUpTo(squares, player, k)
    {
      var (a, b, c) := Lines[k];
      var playerCount, opponentCount := 0, 0;
      if squares[a] == Mark(player) { playerCount := playerCount + 1; }
      if squares[b] == Mark(player) { playerCount := playerCount + 1; }
      if squares[c] == Mark(player) { playerCount := playerCount + 1; }
      if squares[a] == Mark(opponent) { opponentCount := opponentCount + 1; }
      if squares[b] == Mark(opponent) { opponentCount := opponentCount + 1; }
      if squares[c] == Mark(opponent) { opponentCount := opponentCount + 1; }
      if playerCount == 2 && opponentCount == 0 { score := score + 3; }
      if playerCount == 1 && opponentCount == 0 { score := score + 1; }
    }
  }

  /** evaluateBoard: the loop over sub-boards, then the loop over meta-lines. */
  method EvaluateBoard(board: Board, miniWinners: Grid) returns (score: int)
    ensures score == BoardScore(board, miniWinners)
    ensures -616 <= score <= 616
  {
    score := 0;
    for i := 0 to 9
      invariant score == SubBoardsUpTo(board, miniWinners, i)
    {
      if miniWinners[i] == Mark(O) {
        score := score + 10;
      } else if miniWinners[i] == Mark(X) {
        score := score - 10;
      } else {
        var forO := EvaluateMiniBoard(board[i], O);
        var forX := EvaluateMiniBoard(board[i], X);
        score := score + forO - forX;
      }
    }
    ghost var subTotal := score;
    for k := 0 to 8
      invariant score == subTotal + MetaUpTo(miniWinners, k)
    {
      var (a, b, c) := Lines[k];
      var oCount, xCount := 0, 0;
      if miniWinners[a] == Mark(O) { oCount := oCount + 1; }
      if miniWinners[b] == Mark(O) { oCount := oCount + 1; }
      if miniWinners[c] == Mark(O) { oCount := oCount + 1; }
      if miniWinners[a] == Mark(X) { xCount := xCount + 1; }
      if miniWinners[b] == Mark(X) { xCount := xCount + 1; }
      if miniWinners[c] == Mark(X) { xCount := xCount + 1; }
      if oCount == 2 && xCount == 0 { score := score + 50; }
      if xCount == 2 && oCount == 0 { score := score - 50; }
      if oCount == 1 && xCount == 0 { score := score + 5; }
      if xCount == 1 && oCount == 0 { score := score - 5; }
    }
  }

  // ---- Antisymmetry: exchanging X and O negates the evaluation ----

  function SwapEntry(e: Entry): Entry {
    match e
    case Mark(p) => Mark(Other(p))
    case _ => e
  }

  function SwapGrid(g: Grid): (h: Grid)
    ensures forall i: Idx :: h[i] == SwapEntry(g[i])
  {
    seq(9, i requires 0 <= i < 9 => SwapEntry(g[i]))
  }

  function SwapBoard(board: Board): (r: Board)
    ensures forall i: Idx :: r[i] == SwapGrid(board[i])
  {
    seq(9, i requires 0 <= i < 9 => SwapGrid(board[i]))
  }

  lemma SwapCount(g: Grid, k: nat, p: Player)
    requires k < 8
    ensures CountOnLine(SwapGrid(g), k, Mark(p)) == CountOnLine(g, k, Mark(Other(p)))
  {
    var (a, b, c) := Lines[k];
    assert SwapGrid(g)[a] == Mark(p) <==> g[a] == Mark(Other(p));
    assert SwapGrid(g)[b] == Mark(p) <==> g[b] == Mark(Other(p));
    assert SwapGrid(g)[c] == Mark(p) <==> g[c] == Mark(Other(p));
  }

  /** In a swapped sub-board, `p` sees exactly what the other player saw. */
  lemma {:induction false} MiniScoreSwap(g: Grid, p: Player, k: nat)
    requires k <= 8
    ensures MiniScoreUpTo(SwapGrid(g), p, k) == MiniScoreUpTo(g, Other(p), k)
  {
    if k > 0 {
      MiniScoreSwap(g, p, k - 1);
      SwapCount(g, k - 1, p);
      SwapCount(g, k - 1, Other(p));
      assert Other(Other(p)) == p;
    }
  }

  lemma {:induction false} SubBoardsSwap(board: Board, mw: Grid, n: nat)
    requires n <= 9
    ensures SubBoardsUpTo(SwapBoard(board), SwapGrid(mw), n) == -SubBoardsUpTo(board, mw, n)
  {
    if n > 0 {
      SubBoardsSwap(board, mw, n - 1);
      MiniScoreSwap(board[n - 1], O, 8);
      MiniScoreSwap(board[n - 1], X, 8);
    }
  }

  lemma {:induction false} MetaSwap(mw: Grid, k: nat)
    requires k <= 8
    ensures MetaUpTo(SwapGrid(mw), k) == -MetaUpTo(mw, k)
  {
    if k > 0 {
      MetaSwap(mw, k - 1);
      SwapCount(mw, k - 1, O);
      SwapCount(mw, k - 1, X);
    }
  }

  /** evaluateBoard is antisymmetric: exchanging X and O in every cell and
      every sub-board result (Draw stays Draw) negates the score. */
  lemma BoardScoreAntisymmetric(board: Board, mw: Grid)
    ensures BoardScore(SwapBoard(board), SwapGrid(mw)) == -BoardScore(board, mw)
  {
    SubBoardsSwap(board, mw, 9);
    MetaSwap(mw, 8);
  }
}
