/**
 * The subplot grid of `data_dist`: `num_cols = ceil(sqrt(n))` and
 * `num_rows = ceil(n / num_cols)` for n features, n >= 1.
 */
module Grid {

  /** ceil(sqrt(n)): the least c >= 1 whose square reaches n. */
  function CeilSqrt(n: nat): (c: nat)
    requires n >= 1
    ensures c >= 1 && n <= c * c && (c - 1) * (c - 1) < n
  {
    SearchFrom(n, 1)
  }

  /** The least c' >= c whose square reaches n, given that c - 1 falls short. */
  function SearchFrom(n: nat, c: nat): (r: nat)
    requires 1 <= c && (c - 1) * (c - 1) < n
    ensures r >= c && n <= r * r && (r - 1) * (r - 1) < n
    decreases n - c
  {
    if n <= c * c then c
    else
      assert c <= c * c;
      SearchFrom(n, c + 1)
  }

  /** Any c >= 1 whose square reaches n is at least CeilSqrt(n). */
  lemma CeilSqrtLeast(n: nat, c: nat)
    requires n >= 1 && c >= 1 && n <= c * c
    ensures CeilSqrt(n) <= c
  {
    var k := CeilSqrt(n);
    if c < k {
      assert c * c <= (k - 1) * (k - 1) by { Square(c, k - 1); }
    }
  }

  lemma Square(a: nat, b: nat)
    requires a <= b
    ensures a * a <= b * b
  {
  }

  /** `num_cols = ceil(sqrt(n))`: the fewest columns of a square grid that holds n cells. */
  function GridCols(n: nat): (cols: nat)
    requires n >= 1
    ensures cols >= 1
    ensures n <= cols * cols && (cols - 1) * (cols - 1) < n
  {
    CeilSqrt(n)
  }

  /** `num_rows = ceil(n / num_cols)`: the fewest rows of `cols` cells that hold n cells. */
  function GridRows(n: nat): (rows: nat)
    requires n >= 1
    ensures n <= rows * GridCols(n) && (rows - 1) * GridCols(n) < n
  {
    var cols := GridCols(n);
    var rows := (n + cols - 1) / cols;
    DivBounds(n + cols - 1, cols);
    rows
  }

  lemma DivBounds(m: nat, d: nat)
    requires d >= 1
    ensures m - d < (m / d) * d <= m
  {
  }

  /**
   * The grid is as square as the count allows: it holds all n cells, leaves fewer
   * than one row's worth of cells unused, and has cols - 1 or cols rows.
   */
  lemma {:induction false} GridShape(n: nat)
    requires n >= 1
    ensures var rows, cols := GridRows(n), GridCols(n);
      && 1 <= rows
      && n <= rows * cols
      && rows * cols - n < cols
      && cols - 1 <= rows <= cols
  {
    var rows, cols := GridRows(n), GridCols(n);
    RowBounds(n, rows, cols);
  }

  /** The bounds of `GridShape` for any row count that is the ceiling of n / cols. */
  lemma RowBounds(n: int, rows: int, cols: int)
    requires 1 <= n && 1 <= cols && 0 <= rows
    requires n <= cols * cols && (cols - 1) * (cols - 1) < n
    requires n <= rows * cols && (rows - 1) * cols < n
    ensures 1 <= rows && rows * cols - n < cols && cols - 1 <= rows <= cols
  {
    LessTimes(0, rows, cols);
    assert (rows - 1) * cols == rows * cols - cols;
    LessTimes(rows - 1, cols, cols);
    assert (cols - 1) * (cols - 1) == (cols - 2) * cols + 1;
    LessTimes(cols - 2, rows, cols);
  }

  /** Cancelling a positive factor. */
  lemma LessTimes(a: int, b: int, c: int)
    requires c > 0 && a * c < b * c
    ensures a < b
  {
  }

  /** The grids of 1, 5, 9 and 10 features. */
  lemma GridExamples()
    ensures GridCols(1) == 1 && GridRows(1) == 1
    ensures GridCols(5) == 3 && GridRows(5) == 2
    ensures GridCols(9) == 3 && GridRows(9) == 3
    ensures GridCols(10) == 4 && GridRows(10) == 3
  {
  }
}
