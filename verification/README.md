# Connect-Four board engine in Dafny

This project models the `Board` class of a terminal Connect-Four game
(`lib/board.rb`). The board is a fixed grid of 7 columns by 6 levels. Each
cell holds an integer: `BLANK_COLOR = 30` marks an empty cell and the tokens
31 to 37 are legal discs. `drop_disc(color_code, col_plus)` first runs a
series of guards in a fixed order: the board is locked, the token is illegal,
the 1-based column is out of range, the column is full. It then writes the
disc into the lowest blank cell of the column. Last, it decides whether the
game is over. It looks for a run of four or more through the new disc on the
horizontal, vertical, forward-diagonal and backward-diagonal axes, and if
there is one it locks the board and records the winner. Failing that, it
locks the board without a winner when the top cell of every column is filled.

Files and modules:

- `wrappers.dfy` (`Wrappers`): `Option`, `Result` and `Outcome`.
- `grid.dfy` (`Grid`): dimensions, blank and legal values, `OutOfBounds`,
  and column notions: the lowest blank cell (`find_index`), gravity, height,
  and the top-row and whole-board fullness tests.
- `streaks.dfy` (`Streaks`): `streak` as the pure function `Run`, the axis
  totals as `AxisRun`, and the win test `IsWin`. It proves that an axis total
  is the length of the maximal line through the placed disc. It also proves
  that the win test holds exactly when four in a row pass through that disc.
- `rules.dfy` (`Rules`): the board state and `drop_disc` as a pure transition
  `Drop`, with lemmas on rejection order, placement, stacking, the reachable
  invariant and how the game ends.
- `board.dfy` (`BoardEngine`): the `Board` class. It has an `array2<int>` grid
  updated in place and the `locked` and `winner` fields. `DropDisc` is proved
  to make exactly the transition `Rules.Drop` describes. `Streak` and
  `TryLock` are the source's loops, with their invariants.
- `scenarios.dfy` (`Scenarios`): the `drop_disc` cases of
  `spec/board_spec.rb` restated as lemmas about `Rules.Drop` (the
  `out_of_bounds?` cases are `Grid.OutOfBoundsEdges`).

The win check only looks at lines through the disc just placed, as the
source does; nothing scans the whole board.

## Model

| member | source | states |
|---|---|---|
| `Grid.NewGrid` | lib/board.rb:11 | the initial grid has 7 columns of 6 cells, every one blank |
| `Grid.IsColor` | lib/board.rb:5-6 | a legal token is one of 31..37, so `BLANK_COLOR` is never a legal token |
| `Grid.OutOfBounds` | lib/board.rb:55-57 | a coordinate is out of bounds exactly when it is not in columns 0..6 and levels 0..5 |
| `Grid.OutOfBoundsEdges` | spec/board_spec.rb:148-161 | (-1,0), (7,0), (0,-1) and (0,6) are out of bounds; (6,5) is in |
| `Grid.FirstBlank` | lib/board.rb:24 | `find_index(BLANK_COLOR)` finds something exactly when the column has a blank, and what it finds is the lowest blank cell |
| `Grid.FirstBlankIsHeight` | lib/board.rb:23-28 | in a column filled bottom-up the first blank sits at the column's height (number of discs), and there is none when the height is 6 |
| `Grid.TopRowFilled` | lib/board.rb:72-74 | the top-cell test of `try_lock?`; a board with no blank cell passes it |
| `Grid.TopRowFilledIffFull` | lib/board.rb:71-78 | when columns fill bottom-up, the top-cell test of `try_lock?` holds exactly when no cell is blank |
| `Streaks.RunWithinBounds` | lib/board.rb:115-127 | a streak never exceeds the number of on-board cells on its ray |
| `Streaks.RunIsMaximal` | lib/board.rb:115-127 | the first n cells of the ray hold the token and the next is off the board or differs, so the count is the maximal run from the start cell |
| `Streaks.ForwardRun` | lib/board.rb:95-113 | the walk started at the anchor's neighbour covers offsets 1..n from the anchor and stops at n+1 |
| `Streaks.BackwardRun` | lib/board.rb:95-113 | the walk started at the anchor against the axis covers offsets 1-n..0 and stops at -n |
| `Streaks.AxisRunIsMaximalLine` | lib/board.rb:95-113 | when the anchor holds the token, each axis total is the length of a maximal line through the anchor, counting the anchor once |
| `Streaks.AxisRunIsLineLength` | lib/board.rb:95-113 | every maximal line through the anchor on an axis has exactly the length the axis total reports |
| `Streaks.AxisWinGivesFour` | lib/board.rb:80-93 | an axis total of 4 or more means four same-token cells in a row on that axis through the anchor |
| `Streaks.FourGivesAxisWin` | lib/board.rb:80-93 | four same-token cells in a row through the anchor make that axis total reach 4 |
| `Streaks.WinIffFourInARow` | lib/board.rb:80-93 | the anchored test of `try_record_winner?` holds exactly when four in a row on some axis pass through the placed disc |
| `Rules.Initial` | lib/board.rb:10-14 | a new board is all blank, unlocked, without a winner, and well-formed |
| `Rules.PreDropCheck` | lib/board.rb:61-69 | no error exactly when the board is unlocked, the token is legal and the column is within 1..7; a locked board always yields `BoardLocked` first (the full order is `Rules.RejectionOrder`) |
| `Rules.Drop` | lib/board.rb:20-32 | an accepted drop comes from an unlocked board, a legal token and a column within 1..7, and leaves a 7x6 grid; its other properties are `Rules.RejectionOrder`, `Rules.DropPlacesAtLowestBlank`, `Rules.DropEndsGame` and `Rules.DropPreservesWellFormed` |
| `Rules.Settle` | lib/board.rb:29-31 | keeps the landed grid, never unlocks; locks an unlocked board only on a win through the new disc or a filled top row, and changes the winner only on such a win, to the dropped token |
| `Rules.RejectionOrder` | lib/board.rb:61-69 | each error kind is returned exactly under its guard with all earlier guards passed: locked, then illegal token (30 included), then column outside 1..7, then no blank cell in the column (line 26); the drop is accepted exactly when all four pass |
| `Rules.DropPlacesAtLowestBlank` | lib/board.rb:23-28 | an accepted drop writes the token into the lowest blank cell of column `col_plus - 1` and changes no other cell |
| `Rules.DropStacksOnHeight` | lib/board.rb:23-28 | on a well-formed board a column of h discs takes the new disc at level h, and a column of 6 is rejected as full |
| `Rules.DropPreservesWellFormed` | lib/board.rb:20-32 | accepted drops keep every cell blank or a legal token, keep columns filled bottom-up, and only record a legal winner on a locked board |
| `Rules.DropEndsGame` | lib/board.rb:29-31 | after an accepted drop the board is locked exactly when four in a row pass through the new disc or no cell is blank; the winner is the dropped token exactly when four in a row pass through it, and stays unset otherwise (a draw) |
| `Rules.LockedIsFinal` | lib/board.rb:62-63 | a locked board rejects every drop as locked |
| `BoardEngine.Board.constructor` | lib/board.rb:10-14 | a new board's state is `Rules.Initial`, on a freshly allocated grid |
| `BoardEngine.Board.ClonedGrid` | lib/board.rb:16-18 | the copy has 7 columns of 6 cells, each equal to the board's cell |
| `BoardEngine.Board.Streak` | lib/board.rb:115-127 | the `while` loop returns exactly `Streaks.Run` of the current grid |
| `BoardEngine.Board.AxisStreak` | lib/board.rb:95-113 | the two walks add up to `Streaks.AxisRun` of the current grid |
| `BoardEngine.Board.TryRecordWinner` | lib/board.rb:80-93 | reports `Streaks.IsWin` of the current grid; on a win sets `locked` and `winner` to the token, otherwise changes nothing |
| `BoardEngine.Board.TryLock` | lib/board.rb:71-78 | reports whether every column's top cell is filled and locks the board exactly then |
| `BoardEngine.Board.Settle` | lib/board.rb:29-31 | `try_record_winner? \|\| try_lock?` makes exactly the state change of `Rules.Settle` and leaves the grid alone |
| `BoardEngine.Board.Column` | lib/board.rb:24 | `@grid[col]` read out equals that column of the current grid |
| `BoardEngine.Board.DropDisc` | lib/board.rb:20-32 | makes exactly the transition `Rules.Drop`; a rejected call returns its error kind and leaves grid, `locked` and `winner` unchanged; `locked` never goes back to false |
| `Scenarios.DropIntoEmptyColumn` | spec/board_spec.rb:26-31 | a first disc in column 1 lands at (0,0), and the board stays unlocked with no winner (also the case at lines 73-77) |
| `Scenarios.DropOntoPartialColumn` | spec/board_spec.rb:33-42 | a disc dropped onto one disc lands at level 1 |
| `Scenarios.RejectedInputs` | spec/board_spec.rb:44-71 | the blank token, columns 0 and 8, and a locked board are rejected with their kinds |
| `Scenarios.FullColumnRejected` | spec/board_spec.rb:53-58 | a column of six discs is rejected as full |
| `Scenarios.FullBoardRejected` | spec/board_spec.rb:60-65 | on a board whose every cell holds a disc, a drop into column 1 is rejected as full |
| `Scenarios.HorizontalConnectFour` | spec/board_spec.rb:80-89 | three discs on level 0 plus a fourth in column 4 lock the board with that winner |
| `Scenarios.VerticalConnectFour` | spec/board_spec.rb:91-100 | three stacked discs plus a fourth on top win |
| `Scenarios.ForwardDiagonalConnectFour` | spec/board_spec.rb:103-115 | the forward-diagonal case from the tests wins |
| `Scenarios.BackwardDiagonalConnectFour` | spec/board_spec.rb:117-126 | the backward-diagonal case from the tests wins |
| `Scenarios.FullBoardDraw` | spec/board_spec.rb:129-144 | filling the last blank cell without a line of four locks the board with no winner |

## Left out

- `pretty_print` and its helpers (lib/board.rb:34-53, 129-167) only write box-drawing characters and colours to the terminal. `lib/string.rb` (`String#colorize`) is not part of this model.
- `lib/game_manager.rb` is left out. Its turn loop, prompt and winner announcement are console I/O around `drop_disc`.
- `CustomError` carries a message string. The model returns only the error kind (`Rules.DropError`). `lib/custom_error.rb` is not part of this model.
- Arguments are integers. Ruby would also accept other objects as `color_code` or `col_plus`; those are not modelled.
- No winning-line coordinates are recorded. The source only counts streak lengths and never stores which cells won.
- `BoardEngine.Board.ClonedGrid`: the copy is returned as a value (`seq<seq<int>>`), not as a fresh mutable nested array. No caller can reach the board's `array2` through it, so the copy is unaliased by construction. Mutating the copy is not modelled.
- Cells may hold any integer, since the source's tests inject grids with other values. `Grid.FirstBlankIsHeight` and `Grid.TopRowFilledIffFull` assume that columns fill bottom-up (`Grid.ColumnGravity`, `Grid.Gravity`). `Rules.DropStacksOnHeight` and `Rules.DropEndsGame` assume `Rules.WellFormed`, which includes that property; `Rules.Initial` and `Rules.DropPreservesWellFormed` show it holds on every board built through `drop_disc`.
- `BoardEngine.Board.DropDisc`: returns `Pass` on every accepted drop. The source returns `nil` after a win (line 29) and otherwise the boolean of `try_lock?` (line 31). The model computes that boolean in `BoardEngine.Board.Settle` and drops it; on an accepted drop without a win it equals the new `locked`, as `Rules.DropEndsGame` states.
- `Streaks.Run`, `Streaks.AxisRun`, `Streaks.IsWin`: these functions carry no contract of their own. Their properties are the lemmas `Streaks.RunWithinBounds` and `Streaks.RunIsMaximal` (for `streak`, lib/board.rb:115-127), `Streaks.AxisRunIsMaximalLine` and `Streaks.AxisRunIsLineLength` (for the axis totals, lib/board.rb:95-113), and `Streaks.WinIffFourInARow` (for `try_record_winner?`, lib/board.rb:80-93).
