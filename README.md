# Four-in-a-Row in Dafny

A model of `fourinarow.py`, a two-player Connect Four game for the
console. Two players, X and O, take turns dropping counters into the
columns of a board 7 cells wide and 6 cells tall. A counter falls to the
lowest empty cell of its column. The player who just moved wins with four
of their counters in a line: vertical, horizontal or diagonal. If nobody
has won and the top row is full, the game is a draw. QUIT or EXIT at the
move prompt ends the game.

The board is an `array2<Cell>` addressed as `board[x, y]`. Column `x`
comes first and `y = 0` is the top row, as in the source's `board[x][y]`.
`newBoard` allocates it, `placeCounter` changes it in place, and the
other operations only read it. For the proofs, `Board.ToGrid` views the
board as a value of type `Grid`, a sequence of columns. The lemmas are
stated about that value.

Modules, one per part of the program:

- `Board` (board.dfy): the data model, `newBoard`, `placeCounter`, the
  gravity invariant and counter counts.
- `Input` (input.dfy): what `getPlayerMove` decides about one line of
  input, that is `.upper().strip()` followed by the checks for quit, a
  valid column number and a full column.
- `Rules` (rules.dfy): `checkForEnd` and `declareWinner`. The four scans,
  then the draw test on the top row.
- `Game` (game.dfy): `main`'s turn loop. One turn (`Turn`), the loop
  (`PlayTurns`) and a whole game over a finite list of input lines
  (`PlayGame`). `Step` and `Play` state on board values what one turn
  and a whole game do; the methods are proved equal to them.
- `Scenarios` (scenarios.dfy): whole games played through `Turn` on a
  real board. `VerticalWinInColumnOne` has X drop into column 1 four
  times while O answers in column 7, and X's fourth drop ends the game
  with Win(X). `RefusedResponses` shows that "8" and "abc" are refused
  without using up X's turn. `QuitLeavesBoard` shows that "  quit " ends
  the game and leaves the board as it was.

Each `sys.exit()` in the source becomes a returned `Outcome`: `Quit`,
`Win(player)` or `Draw`. `Ongoing` means the loop goes on. An invalid
response or a full column makes the source ask again without using up the
turn. In the model such a response uses up one input line and changes
nothing else.

`FourInARow` is the reference meaning of a win: four of a player's
counters in a line in any of the eight compass directions, starting
anywhere. The source checks only four directions, from the start
positions its loop bounds allow. `Rules.ScanFindsEveryLine` proves that
those scans find exactly the wins `FourInARow` describes.

Only the exact strings "1" to "7" name a column (fourinarow.py:97-99).
Responses such as "01" or "+3" are invalid moves.

Every index the scans read is in bounds. Dafny checks each array access
in `ScanVertical`, `ScanHorizontal` and `ScanDiagonals`.

## Model

| member | source | states |
|---|---|---|
| `Board.NewBoard` | fourinarow.py:47-53 | returns a fresh 7 by 6 board whose every cell is empty, so gravity holds and no counter is on it; its value is `Blank()` |
| `Board.Blank` | fourinarow.py:47-53 | the value of a new board: seven columns of six cells, all empty |
| `Board.LowestEmpty` | fourinarow.py:117-119 | the cell found is empty and every cell below it in the column is occupied; no cell is found exactly when the column is full |
| `Board.PlaceCounter` | fourinarow.py:113-120 | the board after the call is the old board with the player's counter dropped into column x (`Drop`) |
| `Board.DropPlacesLowest` | fourinarow.py:113-120 | if the column has an empty cell, the empty cell with the largest y gets the player's counter and every other cell of every column keeps its value |
| `Board.DropFullColumn` | fourinarow.py:117-120 | dropping into a full column leaves the board unchanged |
| `Board.DropKeepsGravity` | fourinarow.py:113-120 | if the counters in every column rest on the bottom without gaps before a drop, they still do after it |
| `Board.RoomIffTopEmpty` | fourinarow.py:106-119 | under gravity, column x has an empty cell exactly when its top cell `board[x][0]` is empty (the test `getPlayerMove` applies) |
| `Board.DropAddsOneCounter` | fourinarow.py:29-32 | a drop into a column with room adds one counter of the mover, none of the other player, and removes one empty cell |
| `Board.NoEmptyMeansFilled` | fourinarow.py:172-173 | a board with no empty cell holds 42 counters |
| `Board.Other` | fourinarow.py:40-44 | the switch gives the other player: O after X and X after O |
| `Board.OtherInvolutive` | fourinarow.py:40-44 | switching twice gives back the same player, so turns strictly alternate |
| `Input.UpperFacts` | fourinarow.py:90 | `Upper`, the ASCII model of `.upper()`, keeps the length, leaves no lower-case ASCII letter, keeps whitespace as whitespace, and applying it twice is the same as once |
| `Input.LeadingSpacesFacts` | fourinarow.py:90 | the characters `LeadingSpaces` counts at the start of the text are all whitespace, and the next character is not |
| `Input.TrailingStartFacts` | fourinarow.py:90 | everything from `TrailingStart` on is whitespace, and the character before it is not |
| `Input.StripFacts` | fourinarow.py:90 | `.strip()` returns a slice of its input, removes only whitespace on either side, and returns text that neither starts nor ends with whitespace |
| `Input.StripKeepsTrimmed` | fourinarow.py:90 | text that neither starts nor ends with whitespace is returned unchanged |
| `Input.NormaliseWord` | fourinarow.py:90-92 | a word typed in any case with whitespace around it normalises to the word in upper case, so " quit " is taken as QUIT |
| `Input.ValidMovesAreColumnNumbers` | fourinarow.py:97-99 | the list `validMoves` holds exactly the one-character strings "1" to "7" |
| `Input.Classify` | fourinarow.py:90-110 | QUIT or EXIT gives Quit; anything else that is not "1".."7" gives Invalid; a column whose top cell is occupied gives Full; otherwise the result is a column index c - 1 in [0, 7) whose top cell is empty. Each of these holds in both directions. The result is `MoveOn` of the board's value, the same decision stated on a `Grid` |
| `Rules.ScanVertical` | fourinarow.py:126-134 | reports a find exactly when some column has four of the player's counters in a row going down, starting in rows 0 to 2 |
| `Rules.ScanHorizontal` | fourinarow.py:136-144 | reports a find exactly when some row has four of the player's counters going right, starting in columns 0 to 3 |
| `Rules.ScanDiagonals` | fourinarow.py:146-163 | reports a find exactly when some down-right run from (x, y), or some down-left run from (x + 3, y), with x in 0..3 and y in 0..2, is four of the player's counters |
| `Rules.ScanRunIsLine` | fourinarow.py:126-163 | every run a scan finds is a four-in-a-row |
| `Rules.LineIsScanned` | fourinarow.py:126-163 | every four-in-a-row, in any of the eight directions, is found by one of the four scans |
| `Rules.ScanFindsEveryLine` | fourinarow.py:126-163 | the scans find a run exactly when the player has a four-in-a-row |
| `Rules.CheckForEnd` | fourinarow.py:123-181 | the result for the mover is Win(mover) exactly when the mover has a four-in-a-row; otherwise Draw exactly when every top cell is occupied; otherwise Ongoing. The other player is never declared the winner |
| `Rules.DrawMeansBoardFull` | fourinarow.py:165-175 | under gravity, a draw is declared only when nobody has won and all 42 cells hold counters |
| `Rules.OngoingLeavesRoom` | fourinarow.py:165-172 | when the game goes on, the mover has no four-in-a-row and some column still has room |
| `Rules.DropKeepsOtherLines` | fourinarow.py:37-38 | a drop by one player never gives the other player a four-in-a-row, so checking only the mover misses no win |
| `Game.StartIsConsistent` | fourinarow.py:23-24 | the empty board with X to move is a consistent state with no counters |
| `Game.MoveKeepsConsistent` | fourinarow.py:29-44 | an accepted move keeps the game consistent. Gravity still holds, and X has as many counters as O, or one more exactly when O is to move. The outcome tells the truth about the lines: after a win only the winner has one, and after a draw nobody has one and the board is full |
| `Game.Turn` | fourinarow.py:27-44 | the response is classified on the board as it was. Quit, Invalid and Full leave the board and the player to move unchanged, and Quit ends the game. A column is dropped into and judged for the mover, which adds exactly one counter, and then the other player is to move. The new board, outcome and player are `Step` of the old board on the normalised line |
| `Game.ResponsesAt` | fourinarow.py:90 | response i of a game is line i upper-cased and stripped |
| `Game.PlayStops` | fourinarow.py:27-44 | a game reads no response beyond the input, ends with an outcome other than Ongoing unless the input ran out, and once the outcome is not Ongoing accepts no further move |
| `Game.StepKeepsConsistent` | fourinarow.py:29-44 | one turn on a consistent ongoing game gives a consistent state and adds at most one counter |
| `Game.PlayKeepsConsistent` | fourinarow.py:27-44 | every state reached by playing on from a consistent state is consistent, with at most one counter per line read |
| `Game.TakeTurn` | fourinarow.py:29-44 | one pass of the loop on line `used`: the new board, outcome and player to move are `Step` of the old board and player on that line, normalised, so playing on from the state after it is playing on from the state before it |
| `Game.PlayTurns` | fourinarow.py:27-44 | the loop ends in exactly the state `Play` reaches from its starting state, taking one turn per line while the outcome is Ongoing |
| `Game.PlayGame` | fourinarow.py:12-44 | the final board, outcome, player to move and number of lines read are those of `Play` from the empty board with X to move: each line is played as one turn, and play stops at the first outcome that is not Ongoing or when the input runs out. It ends in a consistent state with at most one counter per line read |
| `Scenarios.DropX` | fourinarow.py:113-120 | X's counter dropped into column 1 lands on top of X's stack there, and nothing else changes |
| `Scenarios.DropO` | fourinarow.py:113-120 | O's counter dropped into column 7 lands on top of O's stack there, and nothing else changes |
| `Scenarios.ShortStacksGoOn` | fourinarow.py:165-175 | with at most three counters each in columns 1 and 7, the end check says Ongoing for either player |
| `Scenarios.FourthDropWins` | fourinarow.py:126-134 | X's fourth counter in column 1 is a vertical four-in-a-row, and the end check declares X the winner |
| `Scenarios.NormaliseQuit` | fourinarow.py:90-92 | the typed line "  quit " normalises to "QUIT" |
| `Scenarios.NormaliseRefused` | fourinarow.py:90-101 | "8" and "abc" normalise to "8" and "ABC", and neither names a column |
| `Scenarios.NormaliseDigit` | fourinarow.py:90 | a column number is left unchanged by normalising |

## Left out

- `drawBoard` (fourinarow.py:56-78) and every other `print`: console output, with no result or state to model.
- `input()` and the re-prompt loop of `getPlayerMove`: each line of input is a parameter (`Turn`) or an element of a finite list (`PlayGame`).
- `sys.exit()`: replaced by returned `Outcome` values. The process is not modelled.
- The unbounded `while True` of `main`: `PlayGame` stops when the input list is exhausted, with the outcome still `Ongoing`. The program itself would then stop with an uncaught `EOFError` from `input()` (fourinarow.py:90), which the model does not represent.
- Input.Upper: upper-cases only the ASCII letters. Python's `str.upper()` also converts other letters, including ones that become two letters, such as 'ß' to "SS".
- Python's `int()` in `getPlayerMove` is modelled only on the strings it can receive there, "1" to "7".
