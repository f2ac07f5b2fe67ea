/**
 * The store's board state as mutable objects. `updateCell` writes into the
 * store's own board and error overlay, and `solveBoard` hands the store's
 * own board to the solver, which fills it in place; the other operations
 * build new grids and replace the old ones. Each method's effect is the
 * corresponding operation of `SudokuBoard` applied to the state before it.
 */
module SudokuStore {
  import opened Grids
  import opened SudokuBoard

  /** The contents of a two-dimensional array, row by row. */
  function Rows<T>(a: array2<T>): (g: Grid<T>)
    reads a
    ensures |g| == a.Length0
    ensures forall r :: 0 <= r < |g| ==> |g[r]| == a.Length1
    ensures forall r, c :: 0 <= r < a.Length0 && 0 <= c < a.Length1 ==> g[r][c] == a[r, c]
  {
    seq(a.Length0, r requires 0 <= r < a.Length0 reads a =>
      seq(a.Length1, c requires 0 <= c < a.Length1 reads a => a[r, c]))
  }

  /** A new nine-by-nine array holding `g`. */
  method NewArray<T>(g: Grid<T>) returns (a: array2<T>)
    requires Is9x9(g)
    ensures fresh(a) && a.Length0 == Size && a.Length1 == Size
    ensures Rows(a) == g
  {
    a := new T[Size, Size]((r, c) requires InRange(r, c) => g[r][c]);
    SameGrid(Rows(a), g);
  }

  class Store {
    var board: array2<Cell>
    var errorCells: array2<bool>
    var solvedCells: array2<bool>
    var isValid: bool
    var isSolved: bool

    ghost predicate Valid()
      reads this
    {
      board.Length0 == Size && board.Length1 == Size
      && errorCells.Length0 == Size && errorCells.Length1 == Size
      && solvedCells.Length0 == Size && solvedCells.Length1 == Size
      && errorCells != solvedCells
    }

    /** The state the store holds. */
    ghost function State(): (s: BoardState)
      reads this, board, errorCells, solvedCells
      ensures Valid() ==> WellFormed(s)
    {
      BoardState(Rows(board), Rows(errorCells), Rows(solvedCells), isValid, isSolved)
    }

    /** A store created with `getInitialState`. */
    constructor ()
      ensures Valid() && State() == InitialState()
    {
      var s := InitialState();
      var b := NewArray(s.board);
      var e := NewArray(s.errorCells);
      var sc := NewArray(s.solvedCells);
      board, errorCells, solvedCells := b, e, sc;
      isValid, isSolved := s.isValid, s.isSolved;
    }

    /** `updateCell(y, x, value)`, with `value` already parsed. */
    method UpdateCell(y: int, x: int, value: Cell, validateCell: Validator, validateErrorCells: ErrorCheck)
      requires Valid() && InRange(y, x)
      modifies board, errorCells, this`isValid
      ensures Valid()
      ensures State() == SudokuBoard.UpdateCell(old(State()), y, x, value, validateCell, validateErrorCells)
    {
      ghost var before := State();
      board[y, x] := value;
      SameGrid(Rows(board), SetCell(before.board, y, x, value));
      if validateCell(y, x, Rows(board)) {
        errorCells[y, x] := false;
        SameGrid(Rows(errorCells), SetCell(before.errorCells, y, x, false));
        isValid := validateErrorCells(Rows(errorCells));
      } else {
        errorCells[y, x] := true;
        SameGrid(Rows(errorCells), SetCell(before.errorCells, y, x, true));
        if Coerced(board[y, x]) {
          ghost var written := Rows(board);
          board[y, x] := Num(0);
          SameGrid(Rows(board), SetCell(written, y, x, Num(0)));
        }
        isValid := false;
      }
    }

    /** `clearBoardErrors`: a new error overlay replaces the old one. */
    method ClearBoardErrors(validateCell: Validator, validateErrorCells: ErrorCheck)
      requires Valid()
      modifies this`errorCells, this`isValid
      ensures Valid() && fresh(errorCells)
      ensures State() == SudokuBoard.ClearBoardErrors(old(State()), validateCell, validateErrorCells)
    {
      var cleared := ClearErrors(Rows(board), Rows(errorCells), validateCell);
      errorCells := NewArray(cleared);
      isValid := validateErrorCells(cleared);
    }

    /**
     * `solveBoard`. The solver's writes into the store's board are the
     * aggregate assignment below; `solve` gives what it leaves there.
     */
    method SolveBoard(solve: Solver)
      requires Valid()
      requires Is9x9(solve(Rows(board)).board)  // ASSUMPTION: the solver keeps the board nine by nine
      modifies board, this`solvedCells, this`isSolved
      ensures Valid()
      ensures State() == SudokuBoard.SolveBoard(old(State()), solve)
    {
      var snapshot := EmptyCells(Rows(board));
      var run := solve(Rows(board));
      forall r, c | 0 <= r < Size && 0 <= c < Size {
        board[r, c] := run.board[r][c];
      }
      SameGrid(Rows(board), run.board);
      if run.solved {
        solvedCells := NewArray(snapshot);
        isSolved := true;
      }
    }

    /** `resetSolution`: a new board and a new, empty solved overlay. */
    method ResetSolution()
      requires Valid()
      modifies this`board, this`solvedCells, this`isSolved
      ensures Valid() && fresh(board) && fresh(solvedCells)
      ensures State() == SudokuBoard.ResetSolution(old(State()))
    {
      var erased := EraseSolved(Rows(board), Rows(solvedCells));
      board := NewArray(erased);
      solvedCells := NewArray(InitialState().solvedCells);
      isSolved := false;
    }

    /** `reset`: the store takes a freshly built initial state. */
    method Reset()
      requires Valid()
      modifies this
      ensures Valid() && fresh(board) && fresh(errorCells) && fresh(solvedCells)
      ensures State() == SudokuBoard.Reset(old(State()))
    {
      var s := InitialState();
      board := NewArray(s.board);
      errorCells := NewArray(s.errorCells);
      solvedCells := NewArray(s.solvedCells);
      isValid, isSolved := s.isValid, s.isSolved;
    }
  }
}
