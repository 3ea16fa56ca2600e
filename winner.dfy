/** The result of a 3x3 grid: the same scan decides a sub-board (cells hold
    marks) and the whole game (entries are sub-board results). */
module Winner {
  import opened Types

  /** Line `k` holds three equal, set entries. Any set value counts, so on
      the meta-board a line of three drawn sub-boards is a line too. */
  predicate LineWins(g: Grid, k: nat)
    requires k < 8
  {
    var (a, b, c) := Lines[k];
    g[a] != Empty && g[a] == g[b] && g[a] == g[c]
  }

  /** The entry at the first cell of line `k`. */
  function LineOwner(g: Grid, k: nat): Entry
    requires k < 8
  {
    g[Lines[k].0]
  }

  /** The scan of lines k..7 in order, falling back to the draw test. */
  function WinnerFrom(g: Grid, k: nat): Entry
    requires k <= 8
    decreases 8 - k
  {
    if k == 8 then
      if Full(g) then Draw else Empty
    else if LineWins(g, k) then
      LineOwner(g, k)
    else
      WinnerFrom(g, k + 1)
  }

  /** The source's calculateWinner, for both levels. */
  function CalculateWinner(g: Grid): Entry {
    WinnerFrom(g, 0)
  }

  /** The scan from line k returns the owner of the first winning line at or
      after k, and otherwise the draw test's answer. */
  lemma {:induction false} WinnerFromSpec(g: Grid, k: nat)
    requires k <= 8
    decreases 8 - k
    ensures forall i | k <= i < 8 ::
              LineWins(g, i) && (forall j | k <= j < i :: !LineWins(g, j)) ==> WinnerFrom(g, k) == LineOwner(g, i)
    ensures (forall i | k <= i < 8 :: !LineWins(g, i)) ==> WinnerFrom(g, k) == (if Full(g) then Draw else Empty)
    ensures (exists i | k <= i < 8 :: LineWins(g, i)) ==>
              exists i | k <= i < 8 :: LineWins(g, i) && WinnerFrom(g, k) == LineOwner(g, i)
  {
    if k < 8 && !LineWins(g, k) {
      WinnerFromSpec(g, k + 1);
    }
  }

  /** calculateWinner returns the owner of the first winning line, in the
      order rows, columns, diagonals; otherwise Draw when every entry is set;
      otherwise Empty (the source's null). The first two clauses determine the
      result for every grid. */
  lemma CalculateWinnerSpec(g: Grid)
    ensures forall i | 0 <= i < 8 ::
              LineWins(g, i) && (forall j | 0 <= j < i :: !LineWins(g, j)) ==> CalculateWinner(g) == LineOwner(g, i)
    ensures (forall i | 0 <= i < 8 :: !LineWins(g, i)) ==> CalculateWinner(g) == (if Full(g) then Draw else Empty)
    ensures (exists i | 0 <= i < 8 :: LineWins(g, i)) ==>
              exists i | 0 <= i < 8 :: LineWins(g, i) && CalculateWinner(g) == LineOwner(g, i)
  {
    WinnerFromSpec(g, 0);
  }

  /** An undecided grid still has an empty entry: this is why a full
      sub-board always gets a result. */
  lemma UndecidedHasRoom(g: Grid)
    requires CalculateWinner(g) == Empty
    ensures !Full(g)
    ensures forall i | 0 <= i < 8 :: !LineWins(g, i)
  {
    CalculateWinnerSpec(g);
  }

  /** A grid holding only marks is decided as Mark(p) only by a line of
      three `p`, and as Draw exactly when it is full with no line. */
  lemma SubBoardResult(g: Grid)
    requires forall i: Idx :: g[i] != Draw
    ensures CalculateWinner(g).Mark? <==> exists i | 0 <= i < 8 :: LineWins(g, i)
    ensures CalculateWinner(g) == Draw <==> Full(g) && forall i | 0 <= i < 8 :: !LineWins(g, i)
    ensures CalculateWinner(g) == Empty <==> !Full(g) && forall i | 0 <= i < 8 :: !LineWins(g, i)
  {
    var r := CalculateWinner(g);
    CalculateWinnerSpec(g);
    if exists i | 0 <= i < 8 :: LineWins(g, i) {
      var i :| 0 <= i < 8 && LineWins(g, i) && r == LineOwner(g, i);
      assert g[Lines[i].0] != Draw;
    }
  }
}
