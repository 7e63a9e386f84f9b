/** The thumbnail grid of the variant gallery: up to four thumbnails per row. */
module Gallery {

  /** Thumbnails per row: the smaller of four and the image count. */
  function ColumnsPerRow(n: nat): (c: nat)
    ensures c <= 4 && c <= n
    ensures c == 4 || c == n
    ensures 0 < n ==> 0 < c
  {
    if n < 4 then n else 4
  }

  /** Rows needed for `n` thumbnails: the ceiling of `n` over the row width. */
  function Rows(n: nat): nat
    requires 0 < n
  {
    (n + ColumnsPerRow(n) - 1) / ColumnsPerRow(n)
  }

  /** The rows are just enough: every thumbnail fits and the last row is not empty. */
  lemma RowsTight(n: nat)
    requires 0 < n
    ensures (Rows(n) - 1) * ColumnsPerRow(n) < n <= Rows(n) * ColumnsPerRow(n)
  {
    var c := ColumnsPerRow(n);
    if c == 4 {
      assert Rows(n) == (n + 3) / 4;
    } else if c == 3 {
      assert Rows(n) == 1;
    } else if c == 2 {
      assert Rows(n) == 1;
    } else {
      assert Rows(n) == 1;
    }
  }

  datatype Cell = Cell(row: nat, col: nat)

  /** Row-major position arithmetic for a row width of one to four. */
  lemma RowMajor(row: nat, col: nat, c: nat)
    requires 0 < c <= 4 && col < c
    ensures (row * c + col) / c == row && (row * c + col) % c == col
  {
    if c == 1 {
    } else if c == 2 {
    } else if c == 3 {
    } else {
    }
  }

  /** The position of a cell's thumbnail in the variant list. */
  function IndexOf(cell: Cell, c: nat): nat {
    cell.row * c + cell.col
  }

  /** The grid invariant: every placed thumbnail's cell leads back to its position, within `rows` rows of width `c`. */
  ghost predicate Placed(cells: seq<Cell>, c: nat, rows: nat) {
    forall k :: 0 <= k < |cells| ==>
      IndexOf(cells[k], c) == k && cells[k].row < rows && cells[k].col < c
  }

  /** The inner loop: the cells of one row, up to the last thumbnail. */
  method FillRow(cells: seq<Cell>, row: nat, rowStart: nat, c: nat, n: nat) returns (out: seq<Cell>)
    requires rowStart == row * c
    requires |cells| == if rowStart < n then rowStart else n
    requires Placed(cells, c, row)
    ensures |out| == if rowStart + c < n then rowStart + c else n
    ensures Placed(out, c, row + 1)
  {
    out := cells;
    var col := 0;
    while col < c
      invariant 0 <= col <= c
      invariant |out| == if rowStart + col < n then rowStart + col else n
      invariant Placed(out, c, row + 1)
    {
      if rowStart + col < n {
        out := out + [Cell(row, col)];
      }
      col := col + 1;
    }
  }

  /**
   * The nested loop that fills the grid, row by row and column by column,
   * skipping the cells past the last thumbnail. It yields thumbnail `k` at
   * row `k / c`, column `k % c`, inside the grid, and the position of each
   * cell leads back to its thumbnail.
   */
  method Layout(n: nat) returns (cells: seq<Cell>)
    requires 0 < n
    ensures |cells| == n
    ensures forall k :: 0 <= k < n ==>
      cells[k] == Cell(k / ColumnsPerRow(n), k % ColumnsPerRow(n))
    ensures forall k :: 0 <= k < n ==>
      cells[k].row < Rows(n) && cells[k].col < ColumnsPerRow(n) && IndexOf(cells[k], ColumnsPerRow(n)) == k
  {
    var c := ColumnsPerRow(n);
    var rows := Rows(n);
    RowsTight(n);
    cells := [];
    var row := 0;
    var rowStart := 0;
    while row < rows
      invariant 0 <= row <= rows && rowStart == row * c
      invariant |cells| == if rowStart < n then rowStart else n
      invariant Placed(cells, c, row)
    {
      cells := FillRow(cells, row, rowStart, c, n);
      row := row + 1;
      rowStart := rowStart + c;
    }
    forall k | 0 <= k < n
      ensures cells[k] == Cell(k / c, k % c)
    {
      RowMajor(cells[k].row, cells[k].col, c);
    }
  }
}
