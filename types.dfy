/** The values the rules engine works on: players, the entries of a 3x3 grid
    (a cell of a sub-board or a sub-board result of the meta-board), and the
    9x9 composite board. */
module Types {

  datatype Option<+T> = None | Some(value: T)

  /** The two marks; X always moves first. */
  datatype Player = X | O

  function Other(p: Player): (q: Player)
    ensures q != p
  {
    if p == X then O else X
  }

  /** One entry of a 3x3 grid. Board cells only ever hold Empty or a Mark;
      sub-board results (the meta-board) may also hold Draw. Empty stands for
      the source's null. */
  datatype Entry = Empty | Mark(player: Player) | Draw

  /** The two game modes a store can be switched to. */
  datatype GameMode = Local | Ai

  /** A cell or sub-board index, 0..8 in row-major order. */
  type Idx = i: int | 0 <= i < 9

  /** Nine entries: one sub-board, or the nine sub-board results. */
  type Grid = s: seq<Entry> | |s| == 9 witness [Empty, Empty, Empty, Empty, Empty, Empty, Empty, Empty, Empty]

  /** Nine sub-boards. */
  type Board = b: seq<Grid> | |b| == 9 witness seq(9, _ => EmptyGrid)

  const EmptyGrid: Grid := [Empty, Empty, Empty, Empty, Empty, Empty, Empty, Empty, Empty]

  /** The eight canonical lines, in the order every scan uses:
      three rows, three columns, two diagonals. */
  const Lines: seq<(Idx, Idx, Idx)> :=
    [(0, 1, 2), (3, 4, 5), (6, 7, 8),
     (0, 3, 6), (1, 4, 7), (2, 5, 8),
     (0, 4, 8), (2, 4, 6)]

  /** Every entry of the grid is set (the source's `every(square !== null)`). */
  predicate Full(g: Grid) {
    forall i: Idx :: g[i] != Empty
  }

  /** The board with `p`'s mark placed at square `s` of sub-board `b`:
      the source's copy-then-assign of a trial or real move. */
  function Place(board: Board, b: Idx, s: Idx, p: Player): (r: Board)
    ensures r[b][s] == Mark(p)
    ensures forall i: Idx, j: Idx :: (i, j) != (b, s) ==> r[i][j] == board[i][j]
  {
    board[b := board[b][s := Mark(p)]]
  }
}
