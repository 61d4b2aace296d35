# Tic-tac-toe game-state engine

A Dafny model of the game-state engine of a browser tic-tac-toe game
(`gameState` in `assets/javascript/tictactoe.js`), with the two players it works
on and the guard the page's click handler puts in front of every move.

The engine keeps a nine-cell row-major board, the two registered players in
turn order, the current player, a move counter, a win flag, a draw flag and a
status line. A move (`setSquare`) writes a token, counts the move, and then
runs a fixed pipeline: the win check, the draw check only without a win, and
the turn switch only when the game is not over. `reset` starts a new game with
the same players; `swapPlayers` starts one with the players exchanged, the new
first player holding X.

Files:

- `board.dfy` (module `Board`): markers and tokens, the engine's string test
  for a won line (`HasThree`, the joined cells read "XXX" or "OOO"), the
  index filter the win loops use, the reference definition of a win over the
  eight lines (`Wins`, `HasWin`), and the count of occupied cells (`Occupied`),
  with the lemmas that connect them.
- `players.dfy` (module `Players`): `GamePlayer`, an immutable `name` and a
  mutable `token`. Players are objects and are compared by identity, as the
  engine's `===` does.
- `engine.dfy` (module `Engine`): the class `GameState`, whose fields are the
  engine's closure variables. The board is an `array<Marker>` updated in place
  and cleared by a loop, as in the source; the win checks are `for` loops with
  `break`. `Consistent()` is the invariant guarded play keeps. `Play` is the
  click handler's guard: no move once the game is won or drawn, and a move only
  on a cell `ValidMove` accepts. `ValidMove(i)` is `validMove`: cell `i` is on
  the board and empty (an index off the board reads `undefined` in the
  source, which is not the empty string).

Two things the code leaves unchecked shape the model:

- `setSquare` does not check the cell it writes, and nothing checks that the
  players are set before play. The model gives `SetSquare` a precondition
  (cell on the board and empty) and every gameplay method the precondition
  that the players are set, and models the click handler's check as `Play`'s
  `Rejected` outcome.
- Nothing in the engine keeps the two tokens distinct. `swapPlayers` assigns
  X and O by position (tictactoe.js:152-154), and `setPlayers` takes whatever
  tokens it is given. The page always gives X to the first player and O to
  the second.

## Model

| member | source | states |
|---|---|---|
| `Players.GamePlayer.constructor` | assets/javascript/tictactoe.js:4-13 | a game player keeps the name and the token it was built with |
| `Players.GamePlayer.SetToken` | assets/javascript/tictactoe.js:11 | the token is overwritten; the name cannot change |
| `Board.JoinThree` | assets/javascript/tictactoe.js:31 | joining three cells concatenates their glyphs, an empty cell contributing nothing |
| `Board.HasThreeIff` | assets/javascript/tictactoe.js:30-33 | the joined-string test passes on a three-cell line exactly when all three cells hold the same non-empty marker |
| `Board.FilterThree` | assets/javascript/tictactoe.js:40-41 | filtering the board by an index predicate that keeps exactly x < y < z yields the cells at x, y, z in that order |
| `Board.ColumnLoopFinds` | assets/javascript/tictactoe.js:35-47 | the column loop's test succeeds exactly when one of the three columns is full |
| `Board.RowLoopFinds` | assets/javascript/tictactoe.js:49-60 | the row loop's test succeeds exactly when one of the three rows is full |
| `Board.DiagonalLoopFinds` | assets/javascript/tictactoe.js:62-73 | the diagonal loop's test succeeds exactly when a diagonal or the middle column (its middle pass) is full |
| `Board.LoopChecksFindEveryLine` | assets/javascript/tictactoe.js:75-76 | the three loops together report a win exactly when one of the eight lines (3 rows, 3 columns, 2 diagonals) holds one token three times |
| `Board.MoverOwnsTheWin` | assets/javascript/tictactoe.js:77 | a move that creates a win on a board without one is won by the token just placed and not by the other, so naming the mover in the status is right |
| `Board.OccupiedAfterPlace` | assets/javascript/tictactoe.js:95-97 | placing a token on an empty cell occupies exactly one more cell, matching the counter's increment |
| `Board.OccupiedAtMost` | assets/javascript/tictactoe.js:97 | the number of occupied cells never exceeds the number of cells |
| `Board.OccupiedNone` | assets/javascript/tictactoe.js:141-142 | a board whose cells are all empty has no occupied cell, matching the counter's reset to 0 |
| `Board.OccupiedAllIff` | assets/javascript/tictactoe.js:84-87 | all cells are occupied exactly when the occupied count equals the board size |
| `Engine.GameState.constructor` | assets/javascript/tictactoe.js:20-27 | a new engine has nine empty cells, no players, no current player, counter 0, both flags false and an empty status |
| `Engine.GameState.VertWin` | assets/javascript/tictactoe.js:35-47 | the loop over columns with break returns true exactly when some column's filtered cells pass the joined-string test |
| `Engine.GameState.HorizWin` | assets/javascript/tictactoe.js:49-60 | the loop over rows with break returns true exactly when some row's filtered cells pass the joined-string test |
| `Engine.GameState.DiagWin` | assets/javascript/tictactoe.js:62-73 | the loop over cells i, 4, 8-i with break returns true exactly when one of those three lines passes the test |
| `Engine.GameState.CheckForWin` | assets/javascript/tictactoe.js:75-78 | the win flag becomes "the board has a full line"; on a win the status is "<current player's name> is the winner!", otherwise it is unchanged |
| `Engine.GameState.CheckForDraw` | assets/javascript/tictactoe.js:84-87 | the draw flag becomes "nine moves made"; on a draw the status is "The game is a draw.", otherwise it is unchanged |
| `Engine.GameState.SetCurrPlayer` | assets/javascript/tictactoe.js:112-115 | the given player becomes current and the status is "<name>, your turn." |
| `Engine.GameState.SetPlayers` | assets/javascript/tictactoe.js:121-124 | the pair is registered in order, the first becomes current with its turn announced, and a cleared engine becomes consistent |
| `Engine.GameState.SwitchPlayers` | assets/javascript/tictactoe.js:130-136 | the current player becomes the other registered player (by identity) and its turn is announced |
| `Engine.GameState.SetSquare` | assets/javascript/tictactoe.js:95-101 | cell i gets the token and no other cell changes; the counter rises by one; win iff a line is full; draw checked only without a win; the turn passes only when neither flag is set; the status matches; players and tokens unchanged |
| `Engine.GameState.Reset` | assets/javascript/tictactoe.js:140-146 | all nine cells empty and all valid moves, counter 0, both flags false, first player current, player order and tokens unchanged, and the engine consistent |
| `Engine.GameState.SwapPlayers` | assets/javascript/tictactoe.js:148-156 | a reset, with the players exchanged, the new first player holding X and the second O, and the new first player current |
| `Engine.GameState.Play` | assets/javascript/tictactoe.js:293-308 | a click is ignored after a win or draw, rejected on a cell that is not a valid move, and placed otherwise; guarded play keeps counter = occupied cells <= 9, never both win and draw, the current player one of the two and unchanged after a winning or drawing move, the winner the mover, and a draw only on a full board |
| `Engine.MoveLeftIffUnderNine` | assets/javascript/tictactoe.js:84-87 | in a consistent game a valid move exists exactly when fewer than nine moves were made, so the ninth-move draw means a full board |
| `Engine.SwapTwice` | assets/javascript/tictactoe.js:148-156 | swapping twice restores the player order with the first player current and, starting from X for the first player and O for the second, the tokens (after the first swap the former first player holds O, by `SwapPlayers`) |

## Left out

- `boardDisplayController` (tictactoe.js:165-212): writes to page elements and enables or disables buttons; presentation only.
- Hover highlighting and event-listener wiring (tictactoe.js:217-288): browser event plumbing. The "play again" and "swap sides" handlers reduce to `Reset` and `SwapPlayers`.
- `prompt`, `alert` and `ready` (tictactoe.js:306, 318-352): user input and page start-up. The alert's branch is `Play`'s `Rejected` outcome.
- `getSquare` (tictactoe.js:311-315): the mapping of element ids "s1".."s9" to cells 0..8 relies on string-to-number coercion; `Play` takes the cell index directly.
- The getters (`isWinner`, `isDraw`, `getStatus`, `getCurrPlayer`, `getPlayers`, `getName`, `getToken`) are reads of the class fields and have no members of their own.
- `Object.assign` composition of a player and a token holder: one class with a name and a token field has the same behaviour.
- The engine's `players` array is the same array object as its caller's, so `swapPlayers` reorders the caller's array too; the model keeps the pair as a sequence value and does not model that aliasing.
- `Engine.GameState.SetPlayers`: requires the two players to be distinct objects, which the page always passes; the source does not check it.
- `Engine.GameState.SetSquare`: requires the cell to be on the board and empty, as `validMove` ensures for the page's calls; the source writes `board[square]` for any value it is given, and an index of 9 or more grows the array.
- Whole games played move by move (a top-row win after five moves, a draw after nine) are not replayed as proofs; the per-move contracts of `Play` cover each step.
