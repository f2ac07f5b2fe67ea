/**
 * The nine-by-nine grids that make up a Sudoku board state: the board of
 * cells and the boolean overlays laid over it.
 */
module Grids {

  /**
   * What `parseInt` leaves in a board cell: an integer, or NaN when the
   * entered text does not start with a number. The initial board holds
   * `Num(0)` everywhere; 0 means an empty cell.
   */
  datatype Cell = Num(value: int) | NaN

  /** Row-major grid: `g[row][col]`. */
  type Grid<T> = seq<seq<T>>

  const Size: nat := 9

  predicate Is9x9<T>(g: Grid<T>)
  {
    |g| == Size && forall r :: 0 <= r < |g| ==> |g[r]| == Size
  }

  predicate InRange(r: int, c: int)
  {
    0 <= r < Size && 0 <= c < Size
  }

  /** A grid holding `v` in every cell. */
  function Filled<T>(v: T): (g: Grid<T>)
    ensures Is9x9(g)
    ensures forall r, c :: InRange(r, c) ==> g[r][c] == v
  {
    seq(Size, _ => seq(Size, _ => v))
  }

  /** In-place assignment `g[r][c] = v`, seen as a value. */
  function SetCell<T>(g: Grid<T>, r: int, c: int, v: T): (g': Grid<T>)
    requires Is9x9(g) && InRange(r, c)
    ensures Is9x9(g')
    ensures g'[r][c] == v
    ensures forall i, j :: InRange(i, j) && (i, j) != (r, c) ==> g'[i][j] == g[i][j]
  {
    g[r := g[r][c := v]]
  }

  /** No entry of the overlay is set. */
  predicate NoneSet(g: Grid<bool>)
  {
    forall r, c :: 0 <= r < |g| && 0 <= c < |g[r]| ==> !g[r][c]
  }

  /** A cell value the data model admits: 0 (empty) or a digit 1 to 9. */
  predicate IsDigit(v: Cell)
  {
    v.Num? && 0 <= v.value <= 9
  }

  /** A nine-by-nine board holding only digits 0 to 9. */
  ghost predicate DigitsOnly(g: Grid<Cell>)
  {
    Is9x9(g) && forall r, c :: InRange(r, c) ==> IsDigit(g[r][c])
  }

  /** Two nine-by-nine grids that agree on every cell are equal. */
  lemma SameGrid<T>(a: Grid<T>, b: Grid<T>)
    requires Is9x9(a) && Is9x9(b)
    requires forall r, c :: InRange(r, c) ==> a[r][c] == b[r][c]
    ensures a == b
  {
    forall r | 0 <= r < Size
      ensures a[r] == b[r]
    {
      assert forall c :: 0 <= c < Size ==> a[r][c] == b[r][c];
    }
  }
}
