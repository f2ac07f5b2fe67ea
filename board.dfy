/**
 * The Sudoku board state machine as values: the state record, the reducer
 * over its four action kinds, and each board operation (thunk) as the
 * actions it dispatches; `SolveBoard` first applies the solver's in-place
 * writes to the board, which stay even when nothing is dispatched.
 *
 * The three collaborators whose code is not part of this model are
 * parameters: `validateCell` decides whether one cell of a board is
 * acceptable, `validateErrorCells` decides whether an error overlay means
 * "valid", and `solve` is the solver's outcome on a board.
 */
module SudokuBoard {
  import opened Grids

  datatype BoardState = BoardState(
    board: Grid<Cell>,
    errorCells: Grid<bool>,
    solvedCells: Grid<bool>,
    isValid: bool,
    isSolved: bool)

  /** The store passes `None` (JavaScript `undefined`) before the first state exists. */
  datatype Option<T> = None | Some(value: T)

  datatype Action =
    | UpdateBoard(board: Grid<Cell>)
    | UpdateErrorCells(errorCells: Grid<bool>, isValid: bool)
    | UpdateSolvedCells(solvedCells: Grid<bool>, isSolved: bool)
    | ResetBoard
    | Unrecognised  // any other action type the store sends

  /** `validateCell(row, col, board)`. */
  type Validator = (int, int, Grid<Cell>) -> bool

  /** `validateErrorCells(errorCells)`. */
  type ErrorCheck = Grid<bool> -> bool

  /**
   * One run of `solve(board)`: what it returned, and what it left in the
   * board it was handed (it writes into that board in place).
   */
  datatype SolverRun = SolverRun(solved: bool, board: Grid<Cell>)

  type Solver = Grid<Cell> -> SolverRun

  predicate WellFormed(s: BoardState)
  {
    Is9x9(s.board) && Is9x9(s.errorCells) && Is9x9(s.solvedCells)
  }

  // ---------------------------------------------------------------------
  // Initial state and reducer

  /** `getInitialState`: an empty board, no errors, nothing solved. */
  function InitialState(): (s: BoardState)
    ensures WellFormed(s)
    ensures forall r, c :: InRange(r, c) ==>
      s.board[r][c] == Num(0) && !s.errorCells[r][c] && !s.solvedCells[r][c]
    ensures s.isValid && !s.isSolved
  {
    BoardState(Filled(Num(0)), Filled(false), Filled(false), true, false)
  }

  /** The default-exported reducer; a missing state defaults to the initial one. */
  function Reduce(state: Option<BoardState>, action: Action): (r: BoardState)
    ensures var s := if state.Some? then state.value else InitialState();
      match action
      case UpdateBoard(b) =>
        r.board == b && r.errorCells == s.errorCells && r.solvedCells == s.solvedCells
        && r.isValid == s.isValid && r.isSolved == s.isSolved
      case UpdateErrorCells(e, v) =>
        r.errorCells == e && r.isValid == v
        && r.board == s.board && r.solvedCells == s.solvedCells && r.isSolved == s.isSolved
      case UpdateSolvedCells(sc, v) =>
        r.solvedCells == sc && r.isSolved == v
        && r.board == s.board && r.errorCells == s.errorCells && r.isValid == s.isValid
      case ResetBoard => r == InitialState()
      case Unrecognised => r == s
  {
    var s := if state.Some? then state.value else InitialState();
    match action
    case UpdateBoard(b) => s.(board := b)
    case UpdateErrorCells(e, v) => s.(errorCells := e, isValid := v)
    case UpdateSolvedCells(sc, v) => s.(solvedCells := sc, isSolved := v)
    case ResetBoard => InitialState()
    case Unrecognised => s
  }

  /** `dispatch(action)` on a store whose current state is `s`. */
  function Dispatch(s: BoardState, action: Action): (r: BoardState)
  {
    Reduce(Some(s), action)
  }

  // ---------------------------------------------------------------------
  // Grids built by mapping over a whole grid

  /**
   * The re-evaluated error overlay of `clearBoardErrors`: a flagged entry
   * is cleared when its cell is empty or passes `validateCell`; nothing is
   * ever newly flagged.
   */
  function ClearErrors(board: Grid<Cell>, errorCells: Grid<bool>, validateCell: Validator): (e: Grid<bool>)
    requires Is9x9(board) && Is9x9(errorCells)
    ensures Is9x9(e)
    ensures forall r, c :: InRange(r, c) && e[r][c] ==> errorCells[r][c]
    ensures forall r, c :: InRange(r, c) && errorCells[r][c] ==>
      (!e[r][c] <==> board[r][c] == Num(0) || validateCell(r, c, board))
  {
    seq(Size, r requires 0 <= r < Size =>
      seq(Size, c requires 0 <= c < Size =>
        if (errorCells[r][c] && board[r][c] == Num(0)) || validateCell(r, c, board) then false
        else errorCells[r][c]))
  }

  /** The overlay `solveBoard` takes before solving: exactly the empty cells. */
  function EmptyCells(board: Grid<Cell>): (solvedCells: Grid<bool>)
    requires Is9x9(board)
    ensures Is9x9(solvedCells)
    ensures forall r, c :: InRange(r, c) ==> (solvedCells[r][c] <==> board[r][c] == Num(0))
  {
    seq(Size, r requires 0 <= r < Size =>
      seq(Size, c requires 0 <= c < Size => board[r][c] == Num(0)))
  }

  /** The board `resetSolution` builds: every solver-filled cell emptied. */
  function EraseSolved(board: Grid<Cell>, solvedCells: Grid<bool>): (b: Grid<Cell>)
    requires Is9x9(board) && Is9x9(solvedCells)
    ensures Is9x9(b)
    ensures forall r, c :: InRange(r, c) ==>
      b[r][c] == (if solvedCells[r][c] then Num(0) else board[r][c])
  {
    seq(Size, r requires 0 <= r < Size =>
      seq(Size, c requires 0 <= c < Size => if solvedCells[r][c] then Num(0) else board[r][c]))
  }

  // ---------------------------------------------------------------------
  // Board operations

  /**
   * The test `!v || v < 1 || v > 9` applied to a rejected entry: NaN and 0
   * are falsy, and anything outside 1 to 9 is coerced to 0 as well.
   */
  predicate Coerced(v: Cell)
  {
    v == NaN || v == Num(0) || (v.Num? && (v.value < 1 || v.value > 9))
  }

  /**
   * `updateCell(y, x, value)` where `value` is what `parseInt` made of the
   * entered text. The parsed value is written first and `validateCell`
   * judges the board holding it; a rejected entry is flagged and, when it
   * is not a digit 1 to 9, replaced by 0.
   */
  function UpdateCell(s: BoardState, y: int, x: int, value: Cell,
                      validateCell: Validator, validateErrorCells: ErrorCheck): (r: BoardState)
    requires WellFormed(s) && InRange(y, x)
    ensures WellFormed(r)
    ensures r.solvedCells == s.solvedCells && r.isSolved == s.isSolved
    ensures forall i, j :: InRange(i, j) && (i, j) != (y, x) ==>
      r.board[i][j] == s.board[i][j] && r.errorCells[i][j] == s.errorCells[i][j]
    ensures validateCell(y, x, SetCell(s.board, y, x, value)) ==>
      r.board[y][x] == value && !r.errorCells[y][x] && r.isValid == validateErrorCells(r.errorCells)
    ensures !validateCell(y, x, SetCell(s.board, y, x, value)) ==>
      r.board[y][x] == (if Coerced(value) then Num(0) else value) && r.errorCells[y][x] && !r.isValid
  {
    var board := SetCell(s.board, y, x, value);
    if validateCell(y, x, board) then
      var errorCells := SetCell(s.errorCells, y, x, false);
      Dispatch(Dispatch(s, UpdateBoard(board)), UpdateErrorCells(errorCells, validateErrorCells(errorCells)))
    else
      var errorCells := SetCell(s.errorCells, y, x, true);
      var board' := if Coerced(board[y][x]) then SetCell(board, y, x, Num(0)) else board;
      Dispatch(Dispatch(s, UpdateBoard(board')), UpdateErrorCells(errorCells, false))
  }

  /** `clearBoardErrors`: one re-evaluation pass over the error overlay. */
  function ClearBoardErrors(s: BoardState, validateCell: Validator, validateErrorCells: ErrorCheck): (r: BoardState)
    requires WellFormed(s)
    ensures WellFormed(r)
    ensures r.board == s.board && r.solvedCells == s.solvedCells && r.isSolved == s.isSolved
    ensures forall i, j :: InRange(i, j) && r.errorCells[i][j] ==> s.errorCells[i][j]
    ensures r.errorCells == ClearErrors(s.board, s.errorCells, validateCell)
    ensures r.isValid == validateErrorCells(r.errorCells)
  {
    var errorCells := ClearErrors(s.board, s.errorCells, validateCell);
    Dispatch(s, UpdateErrorCells(errorCells, validateErrorCells(errorCells)))
  }

  /**
   * `solveBoard`: snapshot the empty cells, run the solver on the store's
   * own board, and commit the snapshot only when the solver succeeds. The
   * solver's writes reach the state whatever it returns, because it works
   * on the very board the state holds.
   */
  function SolveBoard(s: BoardState, solve: Solver): (r: BoardState)
    requires WellFormed(s)
    ensures Is9x9(solve(s.board).board) ==> WellFormed(r)
    ensures r.board == solve(s.board).board
    ensures r.errorCells == s.errorCells && r.isValid == s.isValid
    ensures solve(s.board).solved ==> r.isSolved && r.solvedCells == EmptyCells(s.board)
    ensures !solve(s.board).solved ==> r.solvedCells == s.solvedCells && r.isSolved == s.isSolved
  {
    var solvedCells := EmptyCells(s.board);
    var run := solve(s.board);
    var s' := s.(board := run.board);
    if run.solved then
      Dispatch(Dispatch(s', UpdateBoard(run.board)), UpdateSolvedCells(solvedCells, true))
    else
      s'
  }

  /** `resetSolution`: empty every solver-filled cell and forget the solution. */
  function ResetSolution(s: BoardState): (r: BoardState)
    requires WellFormed(s)
    ensures WellFormed(r)
    ensures forall i, j :: InRange(i, j) ==>
      r.board[i][j] == (if s.solvedCells[i][j] then Num(0) else s.board[i][j])
    ensures NoneSet(r.solvedCells) && !r.isSolved
    ensures r.errorCells == s.errorCells && r.isValid == s.isValid
  {
    var board := EraseSolved(s.board, s.solvedCells);
    Dispatch(Dispatch(s, UpdateBoard(board)), UpdateSolvedCells(InitialState().solvedCells, false))
  }

  /** `reset`: dispatch the reset action. */
  function Reset(s: BoardState): (r: BoardState)
    ensures r == InitialState()
  {
    Dispatch(s, ResetBoard)
  }
}
