# Ultimate tic-tac-toe: rules engine, AI search and game store

This project models the core of an ultimate tic-tac-toe game and proves properties of that model in Dafny. Nine 3x3 sub-boards form a 9x9 board. Each sub-board gets a result: a winner, a draw, or none yet. Those nine results form a meta-board, and the same line scan decides the game from it.

A move at square k of a sub-board sends the opponent to sub-board k, unless that sub-board is decided or full; then the opponent may play anywhere. The AI plays O. It uses a depth-3 minimax with a static line-potential evaluation, sorts the root moves by score and picks among the best three with a random draw.

The model has five modules:

- `Types` (`types.dfy`): players, grid entries (`Empty | Mark(p) | Draw`, used both for cells and for sub-board results), the index, grid and board types, and the eight lines.
- `Winner` (`winner.dfy`): `calculateWinner` as a scan of the eight lines, used for sub-boards and for the meta-board.
- `Heuristic` (`heuristic.dfy`): `evaluateMiniBoard` and `evaluateBoard`. Each is a loop method proved equal to a recursive specification function. Bounds and X/O antisymmetry are proved on those functions.
- `Search` (`search.dfy`):
  - `evaluateMove` is a recursive specification function, `EvaluateMove`.
  - The source's loops are the methods `SearchMove`, `BestReply`, `TryBoard` and `TrySquare`, proved equal to `EvaluateMove`.
  - `findBestMove` is the method `FindBestMove`, proved equal to the specification function `SelectedMove`. Legality, the no-move case and the rank of the pick are proved about `SelectedMove`.
- `Store` (`store.dfy`):
  - The store is the class `GameStore`. It has the source's fields and the methods `SetGameMode`, `MakeMove`, `ResetGame` and `AiMove`.
  - Each method is proved against the transition function `ApplyMove` on the value type `State`.
  - The reachable-state invariant `Inv` is proved about `ApplyMove` and about replays of any sequence of move requests.

Behaviour kept exactly as the code has it:

- `makeMove` decides whether the next sub-board is full using the board from before the move (`lib/store.ts:71`). `SendRule` proves this agrees with the board after the move for every accepted move.
- The store looks at the meta-board only once at least five sub-boards, draws included, have a result (`lib/store.ts:77`). This is more than an optimisation: a winning meta-line of three sub-boards goes unrecorded while fewer than five are decided (`GateHidesEarlyWin`). The search has no such gate (`lib/game-utils.ts:120`).
- Any three equal non-empty entries form a line, so three drawn sub-boards in a meta-line end the game as a draw (`DrawnLineEndsGame`).
- The search places O's root move and then calls `evaluateMove` with O to move again, so the first simulated reply is also O's (`RootScore`, `TrySquare`).
- `Math.random()` becomes a parameter `roll` in [0, 1). The pick is `Floor(roll * n)`.
- The running best of the minimax starts at an infinity in the source. In the model a flag records whether a score has been seen yet. The specification `RunningBest` folds a non-empty list, and `CandidatesExist` proves it is never empty.

## Model

| member | source | states |
|---|---|---|
| Types.Place | lib/store.ts:53-56 | the copied board holds the mover's mark at the target square and every other cell of every sub-board is unchanged |
| Winner.WinnerFromSpec | lib/game-utils.ts:16-27 | scanning from line k returns the owner of the first winning line at or after k, otherwise Draw when every entry is set, otherwise Empty; proved by induction on the remaining lines |
| Winner.CalculateWinner | lib/game-utils.ts:4-28 | no ensures; the line scan of `calculateWinner`, characterised by CalculateWinnerSpec |
| Winner.CalculateWinnerSpec | lib/game-utils.ts:4-28 | the result is the entry of the first winning line in the order rows, columns, diagonals; with no winning line it is Draw exactly when all nine entries are set, else Empty |
| Winner.UndecidedHasRoom | lib/game-utils.ts:22-27 | a grid without a result has an empty entry and no winning line |
| Winner.SubBoardResult | lib/game-utils.ts:4-28 | for a sub-board of marks: a Mark result iff some line is three equal marks; Draw iff full with no line; Empty iff not full and no line |
| Heuristic.MiniBoardScore | lib/game-utils.ts:239-274 | the mini-board score lies in [0, 24] |
| Heuristic.EvaluateMiniBoard | lib/game-utils.ts:239-274 | the loop over the eight lines with its two counters returns the sum of 3 per line with two own marks and no opponent mark plus 1 per line with one own mark and none of the opponent's; it lies in [0, 24] |
| Heuristic.SubBoardTerm | lib/game-utils.ts:191-200 | each sub-board contributes +10 (O won), -10 (X won) or O's potential minus X's, always within [-24, 24] |
| Heuristic.MetaLineValue | lib/game-utils.ts:214-233 | each meta-line contributes within [-50, 50] |
| Heuristic.BoardScore | lib/game-utils.ts:187-236 | the static evaluation lies in [-616, 616], strictly inside the terminal scores of plus or minus 1000 |
| Heuristic.EvaluateBoard | lib/game-utils.ts:187-236 | the two loops (sub-boards, then meta-lines) compute exactly BoardScore, hence a value in [-616, 616] |
| Heuristic.MiniScoreSwap | lib/game-utils.ts:254-271 | in a sub-board with X and O exchanged, a player's line potential equals the other player's potential in the original |
| Heuristic.BoardScoreAntisymmetric | lib/game-utils.ts:187-236 | exchanging X and O in every cell and every sub-board result (Draw unchanged) negates the evaluation |
| Search.OpenBoardsUpTo | lib/game-utils.ts:45-49 | the collected list holds exactly the sub-boards below n with no result and an empty square |
| Search.RootBoards | lib/game-utils.ts:37-58 | every listed board is open; the list is empty iff no board is open; it is just the required board when that board is open; otherwise every open board is listed |
| Search.ReplyBoards | lib/game-utils.ts:132-151 | every board a reply may be played in is open; it is just the sub-board named by the last square when that one is open, and otherwise every open board is listed |
| Search.ReplyBoardsNoneIff | lib/game-utils.ts:132-156 | a reply has no board to play in exactly when no sub-board is open |
| Search.CandidatesOf | lib/game-utils.ts:65-67 | the candidate moves are exactly the empty squares of the listed boards |
| Search.CandidatesExist | lib/game-utils.ts:153-164 | a non-empty list of open boards yields at least one candidate move, so the running best is always replaced by a real score |
| Search.EvaluateMove | lib/game-utils.ts:102-184 | every search value is 1000, -1000 or lies in [-616, 616]; the recursion terminates on the depth |
| Search.EvaluateMoveCases | lib/game-utils.ts:110-183 | a move that decides its sub-board and then the meta-board scores 1000 / -1000 / 0 for O / X / draw; at depth 0 or with no open board the value is the static evaluation; otherwise it is one of the reply scores and the maximum of them for O, the minimum for X |
| Search.ChildScores | lib/game-utils.ts:162-171 | one score per candidate reply, each a terminal score or within [-616, 616] |
| Search.ReplyScore | lib/game-utils.ts:166-171 | the score of one reply placed on a copy of the board, with the other player to move, is a terminal score or within [-616, 616] |
| Search.RunningBest | lib/game-utils.ts:159-183 | no ensures; the running Math.max (O) or Math.min (X) fold, characterised by RunningBestIsBest and RunningBestAppend |
| Search.RunningBestIsBest | lib/game-utils.ts:159-183 | the fold of Math.max / Math.min is one of the scores and no score exceeds it (O) or falls below it (X) |
| Search.RunningBestAppend | lib/game-utils.ts:174-178 | one more score updates the running best by Math.max for O and Math.min for X |
| Search.SearchMove | lib/game-utils.ts:102-184 | the imperative evaluateMove (result check, depth cutoff, sentinel -1 for free choice, valid boards, minimax loop) returns exactly EvaluateMove |
| Search.BestReply | lib/game-utils.ts:158-183 | the loop over valid boards returns the running best of the scores of all candidate replies in candidate order |
| Search.TryBoard | lib/game-utils.ts:163-180 | the loop over one board's squares folds the score of each empty square into the running best |
| Search.TrySquare | lib/game-utils.ts:164-178 | one trial reply is scored by the recursive search and the running best becomes the fold of all scores so far |
| Search.RootScore | lib/game-utils.ts:69-81 | the score of O's root move, searched to depth 3 with O to move again, is a terminal 1000 / -1000 or a static evaluation in [-616, 616] |
| Search.ScoreMoves | lib/game-utils.ts:74-83 | one scored move per candidate, in candidate order, each a terminal 1000 / -1000 or within [-616, 616] |
| Search.Insert | lib/game-utils.ts:91 | inserting a move adds exactly that move (as a multiset) and puts it first or keeps the old head |
| Search.InsertSorted | lib/game-utils.ts:91 | inserting into a descending list keeps it descending |
| Search.SortDesc | lib/game-utils.ts:91 | the sort is a permutation of the candidates and is descending by score |
| Search.InsertTies | lib/game-utils.ts:91 | inserting a move puts it ahead of every entry of its own score and leaves the order of the other entries of that score alone |
| Search.SortDescStable | lib/game-utils.ts:91 | the sort is stable: for every score, the moves with that score keep their original relative order |
| Search.CountAboveSort | lib/game-utils.ts:91 | sorting does not change how many candidates score above any value |
| Search.CountAboveSorted | lib/game-utils.ts:91-95 | in a descending list at most j entries beat the entry at position j |
| Search.PickIndex | lib/game-utils.ts:96 | Floor(roll * n) is a valid position below n, and is 0 when roll * n < 1 |
| Search.FirstSlot | lib/game-utils.ts:95-96 | a draw below one third always selects the first of the top moves |
| Search.PickTop | lib/game-utils.ts:91-96 | no ensures; sorts, takes the first min(3, n) and picks Floor(roll * n) of them, characterised by PickTopRank |
| Search.PickTopRank | lib/game-utils.ts:91-96 | the picked move is a candidate, fewer than three candidates score strictly more, and on the first slot none scores more |
| Search.RootCandidatesSound | lib/game-utils.ts:62-86 | every scored root candidate is an empty square of an open board, in the required board when that one is open, and carries its own root score |
| Search.RootCandidatesComplete | lib/game-utils.ts:37-86 | conversely, every empty square of an open board (of the required board when that one is open) is a scored root candidate with its own root score |
| Search.SelectedScored | lib/game-utils.ts:31-99 | no ensures; findBestMove's pick as a scored move, characterised by SelectedNoneIff, SelectedIsLegal and SelectedRank |
| Search.SelectedMove | lib/game-utils.ts:31-99 | no ensures; findBestMove's result without its score, characterised by SelectedNoneIff, SelectedIsLegal and SelectedRank and implemented by FindBestMove |
| Search.SelectedNoneIff | lib/game-utils.ts:36-89 | findBestMove returns no move exactly when no sub-board is open |
| Search.SelectedIsLegal | lib/game-utils.ts:39-67 | a returned move targets an empty square of an open sub-board, and the required sub-board whenever that one is open |
| Search.SelectedRank | lib/game-utils.ts:88-98 | the returned move is a scored candidate with its own root score, fewer than three candidates score strictly higher, and with a draw below one third none scores higher |
| Search.CollectOpenBoards | lib/game-utils.ts:53-57 | the loop collects exactly the open sub-boards in increasing order |
| Search.ValidBoards | lib/game-utils.ts:37-58 | the first phase of findBestMove yields exactly RootBoards |
| Search.ScoreCandidates | lib/game-utils.ts:62-86 | the nested loop yields exactly the scored candidates, board by board and square by square |
| Search.FindBestMove | lib/game-utils.ts:31-99 | the method returns exactly SelectedMove for the same state and draw |
| Store.InitialState | lib/store.ts:27-34 | no ensures; the store's initial values, characterised by InitialInv |
| Store.Accepts | lib/store.ts:43-51 | no ensures; the four makeMove guards, characterised by RejectedMoveUnchanged and AcceptedMoveEffects |
| Store.CreateInitialBoard | lib/store.ts:21-25 | every cell of the new board is empty |
| Store.ApplyMove | lib/store.ts:40-93 | no ensures; makeMove as a transition on states, characterised by RejectedMoveUnchanged, AcceptedMoveEffects and ApplyMoveKeepsInv |
| Store.GatedWinner | lib/store.ts:75-79 | a recorded game result implies at least five decided sub-boards and equals the meta-board's result; with five or more it is the meta-board's result |
| Store.RejectedMoveUnchanged | lib/store.ts:43-51 | a move on a finished game, outside the required sub-board, on an occupied square or in a decided sub-board leaves the whole state unchanged |
| Store.AcceptedMoveEffects | lib/store.ts:53-92 | an accepted move sets exactly the target cell to the mover's mark, flips the player, appends exactly this move to the history, sets only the played sub-board's result (to its calculated result) and records the gated game result |
| Store.SettledSubBoardFrozen | lib/store.ts:49-65 | a sub-board with a result never changes, nor does its result |
| Store.AcceptedMove | lib/store.ts:53-91 | the body of makeMove after its guards computes exactly the accepted transition |
| Store.InitialInv | lib/store.ts:27-34 | the initial state satisfies the reachable-state invariant |
| Store.ApplyMoveKeepsInv | lib/store.ts:40-93 | every move request keeps the invariant: board is the replay of the history, players alternate from X, each recorded result is the sub-board's calculated result, the required sub-board is open, the game result is the gated one |
| Store.SendRule | lib/store.ts:67-73 | after an accepted move at square k the opponent is sent to sub-board k exactly when it is open, and has free choice otherwise |
| Store.ReplayInv | lib/store.ts:40-93 | after any sequence of requests from a new game the invariant holds, the history has one entry per accepted move, and X is to move after an even number of them |
| Store.HistoryAppendOnly | lib/store.ts:81-82 | the history after a prefix of the requests is a prefix of the history after all of them |
| Store.ResultNeedsFiveDecided | lib/store.ts:75-79 | in every reachable state a recorded game result has at least five decided sub-boards and equals the meta-board's result |
| Store.AiMoveAccepted | lib/store.ts:106-115 | when the game is not over and the required sub-board is open or absent, the AI's move passes every makeMove guard, and there is no AI move exactly when no sub-board is open |
| Store.LiveGameHasOpenBoard | lib/store.ts:65-79 | in every reachable state of a game that is not over, some sub-board is open: nine decided sub-boards fill the meta-board, which then has a result |
| Store.AiAlwaysMoves | lib/store.ts:106-115 | in every reachable state of a game that is not over, findBestMove returns a move and makeMove accepts it |
| Store.FirstMoveToCentre | lib/store.ts:67-73 | X's opening move at the centre of the centre sends O to the centre board |
| Store.ScenarioSendToMatchingBoard | lib/store.ts:67-73 | after that, O's move at square 0 sends X to board 0, with two history entries |
| Store.ScenarioWrongSubBoard | lib/store.ts:43-46 | a move outside the required sub-board is rejected and changes nothing |
| Store.GateHidesEarlyWin | lib/store.ts:76-79 | three sub-boards of X in a line win the meta-board, but with only three decided the store records no result |
| Store.DrawnLineEndsGame | lib/store.ts:76-79 | three drawn sub-boards in a meta-line with five results end the game as a draw |
| Store.ScenarioMetaWin | lib/store.ts:76-79 | a diagonal of X sub-boards with five results wins the game for X |
| Store.GameStore.constructor | lib/store.ts:27-34 | a new store holds the initial state, no game mode, and satisfies the invariant |
| Store.GameStore.SetGameMode | lib/store.ts:36-38 | sets the game mode and nothing else |
| Store.GameStore.MakeMove | lib/store.ts:40-93 | the new state is ApplyMove of the old one, the game mode is unchanged, and the invariant is preserved |
| Store.GameStore.ResetGame | lib/store.ts:95-104 | restores the initial state and keeps the game mode |
| Store.GameStore.AiMove | lib/store.ts:106-115 | applies findBestMove's move through makeMove (or changes nothing when there is none) and keeps the invariant; when the game is on and the required board is open or absent, a move exists iff some sub-board is open, and the history then grows by exactly that move by the player to move; from a reachable state of a game that is not over the history always grows by one |

## Left out

- lib/multiplayer-service.ts is not part of this model. It is a simulated network layer built on timers, local storage and random fake moves, with no rules logic.
- The networked turn authority that some components expect is not defined in lib/store.ts and is not modelled.
- React components, pages, hooks, animation, sound, the service worker and styling are not part of this model.
- Randomness: `Math.random()` is the parameter `roll`. Floating-point products are modelled with Dafny reals, not IEEE doubles.
- `Array.prototype.sort` is modelled as a stable insertion sort, since the platform's sort is stable (`SortDescStable`). Its comparator subtracts integer scores, so floating-point rounding plays no part.
- Indices are the type `Idx` (0..8). The source never range-checks `boardIndex` or `squareIndex`. Out-of-range requests, which the UI never sends, are not modelled.
- The copies the source makes before writing (`[...board]`) are modelled by value semantics. So "the search never modifies its arguments" holds by construction and is not a separate lemma.
- Search.ReplyBoards keeps the source's unreachable empty branch (`lib/game-utils.ts:149-151`) as written; its contract shows that branch never yields anything but an empty list when no board is open (ReplyBoardsNoneIff).
- Store.GameStore.AiMove does not require the UI's calling condition (`components/game-board.tsx:28`). It is specified for every state.
- The store's subscription and re-render machinery (zustand `create`, `set`, `get`) is replaced by direct field updates on the class.
