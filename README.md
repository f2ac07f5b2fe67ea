# Sudoku board state machine

This is a Dafny model of the board reducer of a Sudoku app. Its module is
`src/components/sudoku-board/sudoku-board-reducer.js`. The state has these parts:

- a 9×9 `board` of cells, where 0 means empty;
- two 9×9 boolean overlays, `errorCells` and `solvedCells`;
- two flags, `isValid` and `isSolved`.

The module has five operations:

- `updateCell` writes one entered value;
- `clearBoardErrors` re-evaluates the error overlay;
- `solveBoard` runs the solver and records which cells it filled;
- `resetSolution` empties the solver-filled cells;
- `reset` goes back to the initial state.

The operations change the state by dispatching actions. `updateCell` and `solveBoard`
also write into the state's own arrays in place. When the solver fails, nothing is
dispatched, but its writes stay in the board. The reducer handles four action kinds
and returns every unrecognised action's state unchanged.

Files:

- `grids.dfy`, module `Grids`: the `Cell` type, grids, and cell-wise helpers. A cell is
  `Num(int)` or `NaN`, the two outcomes of `parseInt`.
- `board.dfy`, module `SudokuBoard`: the state as a datatype, `getInitialState`, and
  the reducer (`Reduce`, defaulting a missing state to the initial one). It also holds
  the grids built by nested `.map` (`ClearErrors`, `EmptyCells`, `EraseSolved`). Each
  operation is a function that applies the actions it dispatches, written with
  `Dispatch`. `SolveBoard` first applies the solver's in-place writes to the board, and
  dispatches only when the solver succeeds. `UpdateCell`'s in-place writes reach the
  state through the arrays that it then dispatches.
- `properties.dfy`, module `SudokuBoardProperties`: lemmas that relate several
  operations. These cover idempotence, the solve / reset-solution round trip, and the
  state invariant.
- `store.dfy`, module `SudokuStore`: the store's state as a class over `array2`s.
  - `UpdateCell` writes the store's own board and overlay in place.
  - `SolveBoard` lets the solver write the store's own board in place.
  - `ClearBoardErrors`, `ResetSolution` and `Reset` allocate new arrays, as the source
    builds new arrays.
  - Each method ensures that the new state equals the matching `SudokuBoard` function
    applied to the old state.

The app's validator and solver live in modules that are not part of this model:
`./utilities/sudoku-board-validator` and `./utilities/sudoku-AI`. They appear as
function-typed parameters:

- `validateCell: (int, int, Grid<Cell>) -> bool`;
- `validateErrorCells: Grid<bool> -> bool`;
- `solve: Grid<Cell> -> SolverRun`. A `SolverRun` holds what the solver returned and
  what it left in the board it was handed.

Facts about these three are stated as named predicates and used only as `requires` of
lemmas. Each one is an assumption, not a proved fact:

- `AcceptsOnlyDigits`: the validator accepts only cells that hold 0 to 9;
- `OnlyFillsEmpties`: the solver keeps the board 9×9 and writes only cells that held 0;
- `NoEmptyCells`: a successful solve leaves no 0;
- `LeavesDigitsOnly`: the solver leaves a 9×9 board of digits 0 to 9, whatever it
  returns.

Where the lemmas need a concrete `validateErrorCells`, they use `NoneSet`, which means
"no overlay entry is set". The store's `SolveBoard` assumes that the solver keeps the
board 9×9.

Where the code differs from the app's intended behaviour, the model follows the code:

- **Coercion comes after validation.** Intended: out-of-range input is
  clamped to 0 before validation. Code: it writes the raw parsed value, including NaN
  or 12, and `validateCell` judges the board holding it. Coercion to 0 happens only
  when the entry is rejected (lines 55-64). So an entry that the validator accepts is
  stored as parsed.
- **A failed solve can change the board.** Intended: the state is unchanged when the
  solver fails. Code: the solver works on the same board object that the state
  holds (line 88). So its writes stay in the state even when no action is dispatched.
  `SudokuBoard.SolveBoard` therefore sets the board to what the solver left, whatever
  the solver returned.
- **A rejected entry flags only its own cell.** Intended: both cells of a conflict
  are flagged, for example (0,0) and (0,1) after two 5s in row 0. Code: it
  flags only `errorCells[y][x]` (line 61), and `clearBoardErrors` can only clear flags.
  So the cell that the new entry conflicts with stays unflagged, whatever the validator
  says. The overlay is not recomputed from the board.
- **`updateCell` never changes `isSolved`.** Intended: `isSolved` holds until a reset or
  until a solved cell is cleared. Code: only `resetSolution` and
  `reset` set it back to false.

## Model

| member | source | states |
|---|---|---|
| SudokuBoard.InitialState | src/components/sudoku-board/sudoku-board-reducer.js:12-49 | the initial board is all 0 and both overlays are all false, each 9×9; `isValid` is true and `isSolved` is false |
| SudokuBoard.Reduce | src/components/sudoku-board/sudoku-board-reducer.js:148-171 | a missing state becomes the initial state; `UPDATE_BOARD` replaces only `board`; `UPDATE_ERROR_CELLS` replaces only `errorCells` and `isValid`; `UPDATE_SOLVED_CELLS` replaces only `solvedCells` and `isSolved`; `RESET` yields the initial state; any other action returns the state unchanged |
| SudokuBoard.ClearErrors | src/components/sudoku-board/sudoku-board-reducer.js:74-81 | the result is 9×9 and never flags an entry that was not flagged; a flagged entry is cleared exactly when its cell is 0 or `validateCell` accepts it |
| SudokuBoard.EmptyCells | src/components/sudoku-board/sudoku-board-reducer.js:89-93 | the snapshot is 9×9 and marks exactly the cells that hold 0 |
| SudokuBoard.EraseSolved | src/components/sudoku-board/sudoku-board-reducer.js:108-115 | the result is 9×9; every cell marked in `solvedCells` becomes 0 and every other cell is kept |
| SudokuBoard.UpdateCell | src/components/sudoku-board/sudoku-board-reducer.js:52-69 | only `board[y][x]` and `errorCells[y][x]` can change; `solvedCells` and `isSolved` are kept. If `validateCell` accepts the board holding the parsed value, the value is stored, the entry is cleared and `isValid` is `validateErrorCells` of the new overlay. Otherwise the entry is flagged, `isValid` is false, and the cell holds 0 when the value is NaN or outside 1..9, else the value |
| SudokuBoard.ClearBoardErrors | src/components/sudoku-board/sudoku-board-reducer.js:71-84 | the board and the solved overlay are untouched; the overlay only loses flags and is `ClearErrors` of the old state; `isValid` is `validateErrorCells` of the new overlay |
| SudokuBoard.SolveBoard | src/components/sudoku-board/sudoku-board-reducer.js:86-99 | the board is whatever the solver left in it; errors and `isValid` are untouched. On success, `isSolved` is true and `solvedCells` marks exactly the cells that were 0 before solving. On failure, `solvedCells` and `isSolved` are untouched |
| SudokuBoard.ResetSolution | src/components/sudoku-board/sudoku-board-reducer.js:105-119 | every solver-filled cell becomes 0 and every other cell is kept; `solvedCells` is all false and `isSolved` is false; errors are untouched |
| SudokuBoard.Reset | src/components/sudoku-board/sudoku-board-reducer.js:101-103 | from any state, the result is the initial state |
| SudokuBoardProperties.ResetIdempotent | src/components/sudoku-board/sudoku-board-reducer.js:167-168 | applying `RESET` twice gives the same state as applying it once |
| SudokuBoardProperties.InitialConsistent | src/components/sudoku-board/sudoku-board-reducer.js:12-49 | the initial state satisfies the state invariant `Consistent` |
| SudokuBoardProperties.ResetConsistent | src/components/sudoku-board/sudoku-board-reducer.js:101-103 | reset yields a state satisfying `Consistent` |
| SudokuBoardProperties.ClearErrorsIdempotent | src/components/sudoku-board/sudoku-board-reducer.js:74-81 | a second re-evaluation pass on the same board yields the same overlay |
| SudokuBoardProperties.ClearBoardErrorsIdempotent | src/components/sudoku-board/sudoku-board-reducer.js:71-84 | calling `clearBoardErrors` twice gives the same state as calling it once |
| SudokuBoardProperties.ClearBoardErrorsConsistent | src/components/sudoku-board/sudoku-board-reducer.js:71-84 | `clearBoardErrors` keeps `Consistent` when `validateErrorCells` is "no entry set" |
| SudokuBoardProperties.AcceptedEntryKeepsBoardValid | src/components/sudoku-board/sudoku-board-reducer.js:55-59 | on an error-free board, an accepted entry is stored as written, and the overlay stays empty with `isValid` true |
| SudokuBoardProperties.ConflictingCellStaysUnflagged | src/components/sudoku-board/sudoku-board-reducer.js:55-66 | after 5 is accepted at (0,0) and 5 is then entered at (0,1), the entry at (0,0) keeps its 5 and stays unflagged, whatever the validator decides about the second entry |
| SudokuBoardProperties.UpdateCellConsistent | src/components/sudoku-board/sudoku-board-reducer.js:52-69 | under `AcceptsOnlyDigits`, `updateCell` keeps `Consistent`: 9×9 grids, digits 0 to 9 only, `isValid` agreeing with the overlay, and no solved cells while unsolved |
| SudokuBoardProperties.SolvedCellsMarkSolverWrites | src/components/sudoku-board/sudoku-board-reducer.js:86-99 | when the solver succeeds, writes only empty cells and leaves none empty, `solvedCells` marks exactly the cells whose value changed |
| SudokuBoardProperties.ResetSolutionUndoesSolve | src/components/sudoku-board/sudoku-board-reducer.js:86-118 | when the solver succeeds and writes only empty cells, `resetSolution` after `solveBoard` restores the board, errors and `isValid`, and clears `isSolved`. A state that was unsolved with no solved cells comes back exactly |
| SudokuBoardProperties.SolveBoardConsistent | src/components/sudoku-board/sudoku-board-reducer.js:86-99 | when the solver leaves a 9×9 board of digits, `solveBoard` keeps `Consistent` |
| SudokuBoardProperties.ResetSolutionConsistent | src/components/sudoku-board/sudoku-board-reducer.js:105-119 | `resetSolution` keeps `Consistent` |
| SudokuStore.Store.constructor | src/components/sudoku-board/sudoku-board-reducer.js:12-49 | a new store holds the initial state in 9×9 arrays |
| SudokuStore.Store.UpdateCell | src/components/sudoku-board/sudoku-board-reducer.js:52-69 | writes the store's own arrays in place; the new state is `SudokuBoard.UpdateCell` of the old state |
| SudokuStore.Store.ClearBoardErrors | src/components/sudoku-board/sudoku-board-reducer.js:71-84 | installs a fresh error overlay; the new state is `SudokuBoard.ClearBoardErrors` of the old state |
| SudokuStore.Store.SolveBoard | src/components/sudoku-board/sudoku-board-reducer.js:86-99 | the solver's result is written into the store's own board; the new state is `SudokuBoard.SolveBoard` of the old state |
| SudokuStore.Store.ResetSolution | src/components/sudoku-board/sudoku-board-reducer.js:105-119 | installs a fresh board and a fresh solved overlay; the new state is `SudokuBoard.ResetSolution` of the old state |
| SudokuStore.Store.Reset | src/components/sudoku-board/sudoku-board-reducer.js:101-103 | installs fresh arrays holding the initial state |

## Left out

- Redux plumbing is left out: thunk wrappers, action creators, `buildActionName` and the
  action-type strings. Each operation is the sequence of actions it dispatches, applied
  to the current state. Its `Action` constructors stand for the four action types.
- `parseInt` string rules are left out. Only its outcome is modelled, an integer or NaN
  (`Cell`).
- The bodies of `validateCell`, `validateErrorCells` and `solve` are left out. Their
  modules are not part of this model, so they are parameters. The behaviour described
  for them (the row, column and box duplicate check; backtracking search) is not
  modelled. So the scenarios that depend on it are not stated: that the second of two
  5s in one row is rejected, and that a board with one empty cell gets its one legal
  digit. The other half of the two-5s scenario, that the first 5 stays unflagged, does
  not depend on the validator. `ConflictingCellStaysUnflagged` proves it.
- What a failed solve leaves on the board is not constrained. The model stores whatever
  the solver left and claims no rollback on failure.
- `SudokuStore.Store.SolveBoard` requires that the solver keep the board 9×9. It cannot
  store a result of another shape in a 9×9 array.
- Indices outside 0..8 for `updateCell` are excluded by `requires`. The user interface
  only sends cell coordinates. In JavaScript an out-of-range row would throw. An
  out-of-range column does not throw (line 55). A column of 9 or more lengthens the
  row, and a negative column adds a non-index property to the row array. The model
  captures neither case.
- UI components, store wiring, solver latency and cancellation are left out.
