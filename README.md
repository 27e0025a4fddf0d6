# Tic-tac-toe game kernel in Dafny

A model of the game-state kernel of the `Game` component in `tic-tac-toe.tsx`:
the win detector `calculateWinner`, the move rule of `Board.handleClick` with the
tie test of the board status, and the history/cursor state of `Game`
(`history`, `currentMove`, `xIsNext`, `currentSquares`, `handlePlay`, `jumpTo`,
`resetGame`).

Modules, one per part of the component:

- `Wrappers` (`wrappers.dfy`): `Option`, standing for the component's `null`.
- `Winner` (`winner.dfy`): `Cell` (`Empty` is the `null` square, `X` and `O` the
  two marks), `Board` (nine cells), the eight `Lines` in scan order, the
  recursive scan `ScanFrom`/`WinnerOf` with its characterisation lemmas, and
  `CalculateWinner`, the source's `for` loop with early return, proved equal to
  `WinnerOf`. A returned line is a `Triple` of indices, the source's `[a, b, c]`.
- `BoardRules` (`board_rules.dfy`): `HandleClick`, which copies the board into a
  fresh array and writes one square, as `slice()` and the index assignment do;
  `IsFull` (`squares.every(...)`) and `StatusOf` (winner, then tie, then turn).
- `GameHistory` (`game.dfy`): class `Game` with the fields `history` and
  `currentMove`, methods `HandlePlay`, `JumpTo`, `ResetGame` and `Click` (a click
  on the displayed board: `handleClick` with `onPlay` bound to `handlePlay`).
  `Played(h)` says that a history is made of accepted clicks; the lemmas about it
  count the marks of each snapshot and bound the history length.
- `Scenarios` (`scenarios.dfy`): whole games played through `Game`.

## Model

| member | source | states |
|---|---|---|
| `Winner.ScanFrom` | tic-tac-toe.tsx:256-262 | the scan from line `i` returns a null winner exactly when it returns a null line, and a returned line is complete with the winner in its first square |
| `Winner.ScanFromSpec` | tic-tac-toe.tsx:256-262 | the scan from `i` returns no line exactly when no line from `i` on is complete; a returned line is one of the lines from `i` on; the first complete line from `i` is the one returned |
| `Winner.WinnerOf` | tic-tac-toe.tsx:244-263 | winner and line are both null or both non-null; a returned winner is a mark and fills all three squares of the returned line |
| `Winner.WinnerOfSpec` | tic-tac-toe.tsx:245-262 | the line is null exactly when none of the eight lines is complete; a returned line is one of the eight; when several lines are complete the first in scan order is returned |
| `Winner.Complete` | tic-tac-toe.tsx:258 | the test the scan applies to each line: its first square is set and the other two hold the same mark; `Winner.WinnerOfSpec` states what the scan makes of it |
| `Winner.CalculateWinner` | tic-tac-toe.tsx:244-263 | the loop with early return computes exactly `WinnerOf` |
| `BoardRules.MarkFor` | tic-tac-toe.tsx:48-52 | the mark written is never empty, and it is X exactly when `xIsNext` |
| `BoardRules.Accepts` | tic-tac-toe.tsx:44-46 | the negation of the reject test: no winner and square `i` empty; `BoardRules.HandleClick` and `GameHistory.Game.Click` accept exactly the clicks it admits |
| `BoardRules.HandleClick` | tic-tac-toe.tsx:43-54 | a click is rejected (no board for `onPlay`) exactly when the board has a winner or the square is occupied; otherwise the new board equals the old one except at square `i`, which goes from empty to X when `xIsNext` and to O otherwise |
| `BoardRules.IsFull` | tic-tac-toe.tsx:63 | `squares.every(...)`: every square is set; `BoardRules.StatusTie` uses it for the tie |
| `BoardRules.StatusOf` | tic-tac-toe.tsx:56-71 | the status chain: win, then tie, then turn; `BoardRules.StatusWon`, `BoardRules.StatusTie` and `BoardRules.MoveAvailable` state when each case holds |
| `BoardRules.StatusWon` | tic-tac-toe.tsx:56-62 | the status is a win exactly when some line is complete, and the winning mark fills such a line |
| `BoardRules.StatusTie` | tic-tac-toe.tsx:60-65 | the status is a tie exactly when no line is complete and every square is set |
| `BoardRules.MoveAvailable` | tic-tac-toe.tsx:43-71 | some click is accepted exactly when the status is neither a win nor a tie |
| `GameHistory.PlayedExtend` | tic-tac-toe.tsx:93-97 | cutting a played history after the cursor and appending an accepted click's board keeps it played |
| `GameHistory.PlayedCounts` | tic-tac-toe.tsx:47-53 | in a played history snapshot `k` carries `(k + 1) / 2` X marks and `k / 2` O marks |
| `GameHistory.PlayedLength` | tic-tac-toe.tsx:93-97 | a played history has at most ten snapshots |
| `GameHistory.TurnByCounts` | tic-tac-toe.tsx:90 | in a played history X is to move (even cursor) exactly when both marks are equally many on the current snapshot |
| `GameHistory.PlayedNoEarlyWinner` | tic-tac-toe.tsx:44-46 | no snapshot of a played history before the last has a winner |
| `GameHistory.Game.XIsNext` | tic-tac-toe.tsx:90 | `xIsNext`, the parity of the cursor; `GameHistory.Game.JumpTo` and `GameHistory.TurnByCounts` state what it follows |
| `GameHistory.Game.CurrentSquares` | tic-tac-toe.tsx:91 | `currentSquares`, the snapshot under the cursor; `GameHistory.Game.HandlePlay` and `GameHistory.Game.JumpTo` state what it is after each |
| `GameHistory.Game.constructor` | tic-tac-toe.tsx:88-89 | the initial state is the single empty board with the cursor at 0 |
| `GameHistory.Game.HandlePlay` | tic-tac-toe.tsx:93-97 | history becomes `history[0..currentMove+1] + [next]`, of length `currentMove + 2`; the cursor is its last index; snapshots up to the old cursor are unchanged |
| `GameHistory.Game.JumpTo` | tic-tac-toe.tsx:99-101 | only the cursor moves; X is next exactly when the new cursor is even |
| `GameHistory.Game.ResetGame` | tic-tac-toe.tsx:103-106 | the history is the single empty board and the cursor 0 |
| `GameHistory.Game.Click` | tic-tac-toe.tsx:43-54 | a rejected click changes nothing; an accepted one cuts the history after the cursor and appends the current board with square `i` marked for the player to move; a played history stays played |
| `Scenarios.TieGame` | tic-tac-toe.tsx:63-65 | X 0, O 2, X 1, O 3, X 5, O 4, X 6, O 7, X 8 ends in a tie |
| `Scenarios.DiagonalWin` | tic-tac-toe.tsx:44-46 | X 0, O 3, X 4, O 1, X 8 is won by X on 0, 4, 8, and a later click adds no move |
| `Scenarios.NoWinAfterFive` | tic-tac-toe.tsx:256-262 | X 0, O 4, X 1, O 3, X 8 completes no line and O is to move |
| `Scenarios.DoubleLineWin` | tic-tac-toe.tsx:256-260 | a last move completing the top row and the left column together reports the row |
| `Scenarios.BranchFromPast` | tic-tac-toe.tsx:93-101 | three moves, a jump to move 1 and a new move leave three snapshots, the old second move gone |
| `Scenarios.ResetAfterPlay` | tic-tac-toe.tsx:103-106 | a reset after moves gives one empty snapshot with X to move |

## Observations about the code

X 0, O 4, X 1, O 3, X 8 completes no line, because square 4 is O's
(`Scenarios.NoWinAfterFive`); X 0, O 3, X 4, O 1, X 8 is won on the diagonal
0, 4, 8 (`Scenarios.DiagonalWin`). One legal move can complete two lines at
once, and the scan order then decides which line the board highlights: the
row, scanned first (`Scenarios.DoubleLineWin`).

## Left out

- Rendering: `Square`, the JSX of `Board` and `Game`, CSS classes, emoji, status and label strings, the `moves` list; they carry no game logic.
- The "Total Moves" figure shows `currentMove`, and "Game Status" shows "Finished" only on a win, not on a tie; both are display only.
- The imported UI libraries (`@/components/ui/button`, `@/components/ui/card`, `lucide-react`) are not part of this model.
- React `useState`: the setters are modelled as immediate field assignments, without batching or re-rendering.
- `BoardRules.HandleClick`: requires `i < 9`; the component binds click handlers only to the nine squares, and an index outside them is not modelled.
- `GameHistory.Game.JumpTo`: requires an index of the history; the component passes only indices from `history.map`, and does not check them.
- `GameHistory.Game.HandlePlay`: takes any nine-square board, as the source does; only `Click`, the one caller in the component, keeps `Played`.
- Boards are values (`seq`), so the fact that `handleClick` leaves the displayed board intact holds by construction; the copy itself is modelled by the fresh array in `HandleClick`.
