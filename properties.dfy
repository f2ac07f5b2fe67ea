/**
 * Properties relating several board operations: idempotence of reset and
 * of error clearing, the solve/reset-solution round trip, and the state
 * invariant that every operation keeps.
 *
 * Facts about `validateCell`, `validateErrorCells` and `solve` whose code
 * is not part of this model are stated as named predicates and used only
 * as `requires` of the lemmas that rely on them; each is an ASSUMPTION
 * about that collaborator, not something proved here.
 */
module SudokuBoardProperties {
  import opened Grids
  import opened SudokuBoard

  // ---------------------------------------------------------------------
  // Assumptions about the collaborators

  /**
   * ASSUMPTION about `validateCell`: it accepts a cell only when the cell
   * holds 0 or a digit 1 to 9 (never NaN, never an out-of-range number).
   */
  ghost predicate AcceptsOnlyDigits(validateCell: Validator)
  {
    forall y, x, b :: InRange(y, x) && Is9x9(b) && validateCell(y, x, b) ==> IsDigit(b[y][x])
  }

  /**
   * ASSUMPTION about `solve`: it keeps the board nine by nine and writes
   * only into cells that held 0.
   */
  ghost predicate OnlyFillsEmpties(before: Grid<Cell>, after: Grid<Cell>)
    requires Is9x9(before)
  {
    Is9x9(after) && forall r, c :: InRange(r, c) && before[r][c] != Num(0) ==> after[r][c] == before[r][c]
  }

  /** ASSUMPTION about a successful `solve`: no cell is left at 0. */
  ghost predicate NoEmptyCells(b: Grid<Cell>)
    requires Is9x9(b)
  {
    forall r, c :: InRange(r, c) ==> b[r][c] != Num(0)
  }

  /**
   * ASSUMPTION about `solve`: whatever it returns, it leaves a nine-by-nine
   * board holding digits 0 to 9 only.
   */
  ghost predicate LeavesDigitsOnly(after: Grid<Cell>)
  {
    DigitsOnly(after)
  }

  /**
   * The invariant of the board state when `validateErrorCells` is "no
   * entry of the overlay is set": the grids are nine by nine, the board
   * holds digits only, `isValid` agrees with the overlay, and an unsolved
   * board has no solver-filled cells.
   */
  ghost predicate Consistent(s: BoardState)
  {
    WellFormed(s) && DigitsOnly(s.board)
    && s.isValid == NoneSet(s.errorCells)
    && (!s.isSolved ==> NoneSet(s.solvedCells))
  }

  // ---------------------------------------------------------------------
  // Reset

  /** Resetting twice is resetting once. */
  lemma ResetIdempotent(s: BoardState)
    ensures Reset(Reset(s)) == Reset(s)
    ensures Reduce(Some(Reduce(Some(s), ResetBoard)), ResetBoard) == Reduce(Some(s), ResetBoard)
  {
  }

  lemma InitialConsistent()
    ensures Consistent(InitialState())
  {
  }

  lemma ResetConsistent(s: BoardState)
    ensures Consistent(Reset(s))
  {
  }

  // ---------------------------------------------------------------------
  // Error clearing

  /** A second re-evaluation pass over the same board changes nothing. */
  lemma {:induction false} ClearErrorsIdempotent(board: Grid<Cell>, errorCells: Grid<bool>, validateCell: Validator)
    requires Is9x9(board) && Is9x9(errorCells)
    ensures var once := ClearErrors(board, errorCells, validateCell);
      ClearErrors(board, once, validateCell) == once
  {
    var once := ClearErrors(board, errorCells, validateCell);
    var twice := ClearErrors(board, once, validateCell);
    forall r, c | InRange(r, c)
      ensures twice[r][c] == once[r][c]
    {
      if once[r][c] {
        assert errorCells[r][c];
      }
    }
    SameGrid(twice, once);
  }

  /** `clearBoardErrors` is idempotent on the whole state. */
  lemma ClearBoardErrorsIdempotent(s: BoardState, validateCell: Validator, validateErrorCells: ErrorCheck)
    requires WellFormed(s)
    ensures var once := ClearBoardErrors(s, validateCell, validateErrorCells);
      ClearBoardErrors(once, validateCell, validateErrorCells) == once
  {
    ClearErrorsIdempotent(s.board, s.errorCells, validateCell);
  }

  lemma ClearBoardErrorsConsistent(s: BoardState, validateCell: Validator)
    requires Consistent(s)
    ensures Consistent(ClearBoardErrors(s, validateCell, NoneSet))
  {
  }

  // ---------------------------------------------------------------------
  // Cell updates

  /**
   * An accepted entry on a board without errors keeps the board valid and
   * error free, when `validateErrorCells` is "no entry set".
   */
  lemma AcceptedEntryKeepsBoardValid(s: BoardState, y: int, x: int, value: Cell, validateCell: Validator)
    requires WellFormed(s) && InRange(y, x) && NoneSet(s.errorCells)
    requires validateCell(y, x, SetCell(s.board, y, x, value))
    ensures var r := UpdateCell(s, y, x, value, validateCell, NoneSet);
      r.isValid && NoneSet(r.errorCells) && r.board == SetCell(s.board, y, x, value)
  {
  }

  /**
   * A rejected entry flags only its own cell: after 5 is accepted at (0, 0)
   * and 5 is then entered at (0, 1), the entry at (0, 0) stays unflagged
   * whatever the validator says about the second entry.
   */
  lemma ConflictingCellStaysUnflagged(validateCell: Validator, validateErrorCells: ErrorCheck)
    requires validateCell(0, 0, SetCell(InitialState().board, 0, 0, Num(5)))
    ensures var first := UpdateCell(InitialState(), 0, 0, Num(5), validateCell, validateErrorCells);
      var second := UpdateCell(first, 0, 1, Num(5), validateCell, validateErrorCells);
      second.board[0][0] == Num(5) && !second.errorCells[0][0]
  {
  }

  lemma UpdateCellConsistent(s: BoardState, y: int, x: int, value: Cell, validateCell: Validator)
    requires Consistent(s) && InRange(y, x)
    requires AcceptsOnlyDigits(validateCell)
    ensures Consistent(UpdateCell(s, y, x, value, validateCell, NoneSet))
  {
  }

  // ---------------------------------------------------------------------
  // Solving and undoing a solution

  /**
   * After a successful solve that only filled empty cells and left none,
   * `solvedCells` marks exactly the cells the solver changed.
   */
  lemma SolvedCellsMarkSolverWrites(s: BoardState, solve: Solver)
    requires WellFormed(s) && solve(s.board).solved
    requires OnlyFillsEmpties(s.board, solve(s.board).board)
    requires NoEmptyCells(solve(s.board).board)
    ensures var r := SolveBoard(s, solve);
      forall i, j :: InRange(i, j) ==> (r.solvedCells[i][j] <==> r.board[i][j] != s.board[i][j])
  {
  }

  /**
   * `resetSolution` after a successful `solveBoard` gives back the board
   * as it was before solving; an unsolved state comes back entirely.
   */
  lemma {:induction false} ResetSolutionUndoesSolve(s: BoardState, solve: Solver)
    requires WellFormed(s) && solve(s.board).solved
    requires OnlyFillsEmpties(s.board, solve(s.board).board)
    ensures var r := ResetSolution(SolveBoard(s, solve));
      r.board == s.board && r.errorCells == s.errorCells && r.isValid == s.isValid && !r.isSolved
    ensures !s.isSolved && NoneSet(s.solvedCells) ==> ResetSolution(SolveBoard(s, solve)) == s
  {
    var solved := SolveBoard(s, solve);
    var r := ResetSolution(solved);
    forall i, j | InRange(i, j)
      ensures r.board[i][j] == s.board[i][j]
    {
      assert solved.solvedCells[i][j] <==> s.board[i][j] == Num(0);
    }
    SameGrid(r.board, s.board);
    if !s.isSolved && NoneSet(s.solvedCells) {
      SameGrid(r.solvedCells, s.solvedCells);
    }
  }

  lemma SolveBoardConsistent(s: BoardState, solve: Solver)
    requires Consistent(s)
    requires LeavesDigitsOnly(solve(s.board).board)
    ensures Consistent(SolveBoard(s, solve))
  {
  }

  lemma ResetSolutionConsistent(s: BoardState)
    requires Consistent(s)
    ensures Consistent(ResetSolution(s))
  {
  }
}
