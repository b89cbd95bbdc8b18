# Connect Four rules engine

A Dafny model of the rules engine of a browser Connect Four game (the `Game`
class of `connect4.js`). Two players take turns dropping pieces into the
columns of a `height` by `width` grid. A piece falls to the lowest empty cell
of its column. The first player to get four pieces in a row (horizontally,
vertically or diagonally) wins. A board with every cell filled is a tie.

The model is functional. The board is an immutable value and each click is a
pure function from one game state to the next.

- `grid.dfy`, module `Grid`: players, cells, the board (`rows[y][x]`, with
  row 0 at the top), `makeBoard`, and writing one piece (`Place`).
- `gravity.dfy`, module `Gravity`: `findSpotForPiece` (`FindSpot`), the
  column shape gravity maintains (`Settled`), and the pieces stacked in a
  column.
- `wincheck.dfy`, module `WinCheck`: the `win` test on a list of cells, the
  row-major scan of `checkForWinner`, and its existential meaning (`HasFour`).
- `counting.dfy`, module `Counting`: the number of pieces each player has.
- `engine.dfy`, module `Engine`: the game state, the board and turn logic of
  `handleGameClick` (`Move`), a run of clicks (`Play`), and the invariant
  every reachable game satisfies (`Consistent`).
- `scenarios.dfy`, module `Scenarios`: two concrete positions. In a
  consistent 4 by 4 position, the tie test wins over four in a row. In a game
  played from the start on the default 6 by 7 board, a vertical line wins.

Facts about the code that shape the model:

- The constructor stores any `height` and `width` it is given, defaulting to
  6 and 7 (connect4.js:9-11). `NewGame` takes them as `nat`, with the same
  defaults.
- The column index is read from the clicked element and never range-checked
  (connect4.js:105-106). `Move` requires `0 <= x < width`.
- `endGame` removes the click handler (connect4.js:96-100), so later clicks
  do nothing. `Move` on a `Won` or `Tied` game returns it unchanged.
- `checkForWinner` returns `true` or falls off the end and yields
  `undefined` (connect4.js:135-182). The model returns `false` for the
  second case.
- The game's `gameOver` flag is set only on a win (connect4.js:120-123); a
  tie leaves it `false`. The model keeps it as a field, and
  `ReachableIsConsistent` proves it holds exactly when the status is `Won`.

## Model

| member | source | states |
|---|---|---|
| `Grid.MakeBoard` | connect4.js:24-29 | a new board has exactly `height` rows of `width` cells, all empty |
| `Grid.Place` | connect4.js:113 | writing a piece sets the one target cell to the mover's piece; every other cell keeps its content |
| `Grid.Opponent` | connect4.js:127-130 | the player switch always yields the other of the two players |
| `Grid.PlaceExtends` | connect4.js:113 | a drop into an empty cell keeps every existing piece and really adds one |
| `Gravity.ScanUp` | connect4.js:70-73 | the bottom-up scan returns the first empty row below the limit, with every row beneath it occupied, and nothing exactly when all those rows are occupied |
| `Gravity.FindSpot` | connect4.js:69-74 | the landing row is the largest empty row of the column; it is absent exactly when every cell of the column is occupied |
| `Gravity.LandingRowFromCount` | connect4.js:69-74 | on a settled board the landing row is `height-1` minus the pieces already in the column, and it is absent exactly when the column holds `height` pieces |
| `Gravity.MakeBoardSettled` | connect4.js:24-29 | a new board satisfies the gravity invariant |
| `Gravity.MakeBoardStacksNothing` | connect4.js:24-29 | every column of a new board holds no piece |
| `Gravity.PlaceAtSpotKeepsSettled` | connect4.js:109-113 | dropping at the landing row keeps every column a contiguous block resting on the bottom row |
| `Gravity.PlaceAtSpotStacksOne` | connect4.js:109-113 | dropping at the landing row adds exactly one piece to that column |
| `WinCheck.LineAtIsRun` | connect4.js:138-146 | the `win` test on a listed line holds exactly when all four cells along its step are on the board and hold the player's pieces |
| `WinCheck.WinFrom` | connect4.js:148-181 | the scan from an origin onward reports a line exactly when some origin at or after it in row-major order starts a winning line in one of the four directions |
| `WinCheck.CheckForWinner` | connect4.js:135-182 | the winner check is true exactly when some origin on the board and some direction give four cells, all on the board and all the current player's |
| `WinCheck.HasFourIffAligned` | connect4.js:151-177 | the four tested directions miss nothing: four in a row in any of the eight directions, read from either end, is found |
| `WinCheck.ExtendsKeepsFour` | connect4.js:113 | a line once made is never lost, because pieces are never removed |
| `WinCheck.PlaceKeepsOthersLines` | connect4.js:113 | a drop never creates a line for the player who did not drop |
| `WinCheck.NoFourOnEmpty` | connect4.js:24-29 | nobody has a line on a board without pieces |
| `Counting.PlaceCounts` | connect4.js:113 | a drop gives the mover one more piece and leaves the other player's count unchanged |
| `Counting.MakeBoardCountsZero` | connect4.js:24-29 | a new board holds no piece of either player |
| `Engine.NewGame` | connect4.js:9-16 | a new game has an empty board of the given size (6 by 7 when none is given), the first player to move, status in progress and `gameOver` false |
| `Engine.Move` | connect4.js:104-131 | a click on a full column or a finished game changes nothing; an accepted click fills only the landing cell, with the mover's piece; an accepted click is a tie exactly when it fills the board, even with four in a row; otherwise a line wins for the mover and sets `gameOver`; the turn passes exactly when the game goes on |
| `Engine.NewGameConsistent` | connect4.js:9-16 | a new game satisfies the game invariant |
| `Engine.MoveKeepsSettled` | connect4.js:109-113 | every click keeps each column a contiguous block of pieces resting on the bottom row |
| `Engine.MoveKeepsTurnBalance` | connect4.js:113-130 | turns alternate: with the first player never behind and never more than one piece ahead before a click, the same holds after it |
| `Engine.MoveKeepsStatusAgreeing` | connect4.js:116-130 | every click keeps `gameOver` exactly on a win, the winner holding a line and the other player none, a tie only on a full board, and a running game free of lines for both players |
| `Engine.MoveKeepsConsistent` | connect4.js:104-131 | every click keeps the whole game invariant (settled columns, agreeing status, alternating turns) |
| `Engine.Play` | connect4.js:104-131 | any run of clicks keeps the board's shape: the same number of rows and columns |
| `Engine.PlayAppend` | connect4.js:104-131 | playing one run of clicks and then another is the same as playing them joined |
| `Engine.PlayKeepsConsistent` | connect4.js:104-131 | any run of clicks keeps the game invariant |
| `Engine.ReachableIsConsistent` | connect4.js:104-131 | every game reached from a new one by clicks is consistent, and the two players never both have four in a row |
| `Engine.PlayNeverClears` | connect4.js:113 | over any run of clicks no piece is removed or changes owner |
| `Engine.FinishedGameIsFinal` | connect4.js:96-100 | once the game is won or tied, no sequence of clicks changes it |
| `Scenarios.TieReportedOverFour` | connect4.js:116-124 | in a consistent 4 by 4 position, the drop that fills the board and completes four in a row for the mover is reported as a tie, and the winner check for the other player finds nothing |
| `Scenarios.OneShortStackNoFour` | connect4.js:138-181 | a player whose pieces are fewer than four, all stacked in one column, has no line |
| `Scenarios.VerticalWinOnDefaultBoard` | connect4.js:104-131 | on the default 6 by 7 board, the clicks 0, 6, 0, 6, 0, 6, 0 end with the first player winning on its fourth drop into column 0 |

## Left out

- The HTML table, the piece animation and its CSS classes (`makeBoardHtml`, `placeInTable`): presentation only.
- `endGame`'s `alert` and the removal of the click listener: modelled only by their effect, the terminal status.
- The `start-game` button handler and the creation of the two players: DOM wiring.
- Reading the column from the clicked element's `id`: `Move` requires `0 <= x < width`. The game never checks the range, and an out-of-range index is a JavaScript quirk, not game behaviour.
- The players' colours: players are the two values `P1` (`players[0]`) and `P2` (`players[1]`); colours only appear in messages.
- Two `Player` objects that are the same object: the model's players are always distinct.
