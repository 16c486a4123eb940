/** Row-major layout of a `rows x cols` grid stored in one flat buffer.

    Cell `(x, y)` (row `x`, column `y`) lives at flat position `x * cols + y`;
    the stream reader walks the flat positions `i` and decodes them back as
    `(i / cols, i % cols)`. `Chunk` is the abstraction of the flat buffer as a
    sequence of rows: `rows` consecutive slices of length `cols`.
 */
module RowMajor {

  /** Flat position of cell `(x, y)` in a grid with `cols` columns; an
      in-range column lands inside the block of row `x`. */
  function Flat(x: nat, y: nat, cols: nat): (i: nat)
    ensures y < cols ==> x * cols <= i < (x + 1) * cols
  {
    assert (x + 1) * cols == x * cols + cols;
    x * cols + y
  }

  /** Cell addressed by flat position `i` when reading row by row: its column
      is in range and encoding it gives `i` back. */
  function Unflat(i: nat, cols: nat): (p: (nat, nat))
    requires cols > 0
    ensures p.1 < cols && Flat(p.0, p.1, cols) == i
  {
    (i / cols, i % cols)
  }

  /** `a <= b` scales: `a * c <= b * c`. */
  lemma MulLeq(a: nat, b: nat, c: nat)
    requires a <= b
    ensures a * c <= b * c
  {
  }

  /** An in-range cell has an in-range flat position. */
  lemma FlatInRange(x: nat, y: nat, rows: nat, cols: nat)
    requires x < rows && y < cols
    ensures Flat(x, y, cols) < rows * cols
  {
    MulLeq(x + 1, rows, cols);
    assert (x + 1) * cols == x * cols + cols;
  }

  /** Distinct in-range cells have distinct flat positions. */
  lemma FlatInjective(x1: nat, y1: nat, x2: nat, y2: nat, cols: nat)
    requires y1 < cols && y2 < cols
    requires Flat(x1, y1, cols) == Flat(x2, y2, cols)
    ensures x1 == x2 && y1 == y2
  {
    if x1 < x2 {
      MulLeq(x1 + 1, x2, cols);
      assert false;
    } else if x2 < x1 {
      MulLeq(x2 + 1, x1, cols);
      assert false;
    }
  }

  /** Decoding a flat position in `[0, rows * cols)` yields an in-range cell
      whose flat position is the one decoded. */
  lemma UnflatInverse(i: nat, rows: nat, cols: nat)
    requires i < rows * cols
    ensures cols > 0
    ensures Unflat(i, cols).0 < rows && Unflat(i, cols).1 < cols
    ensures Flat(Unflat(i, cols).0, Unflat(i, cols).1, cols) == i
  {
  }

  /** Encoding an in-range cell and decoding the result gives the cell back. */
  lemma FlatUnflat(x: nat, y: nat, rows: nat, cols: nat)
    requires x < rows && y < cols
    ensures Unflat(Flat(x, y, cols), cols) == (x, y)
  {
    var i := Flat(x, y, cols);
    FlatInRange(x, y, rows, cols);
    UnflatInverse(i, rows, cols);
    var p := Unflat(i, cols);
    FlatInjective(p.0, p.1, x, y, cols);
  }

  /** Walking the flat positions `0 .. rows * cols - 1` row by row visits every
      cell of the grid exactly once: the decoding is injective on the range and
      reaches every in-range cell, at its flat position `Flat(x, y, cols)`.
      With no columns the grid has no cells and the walk is empty. */
  lemma RowMajorVisitsEachCellOnce(rows: nat, cols: nat)
    ensures cols > 0 ==> forall i: nat, j: nat :: i < rows * cols && j < rows * cols && Unflat(i, cols) == Unflat(j, cols) ==> i == j
    ensures forall x: nat, y: nat :: x < rows && y < cols ==>
      Flat(x, y, cols) < rows * cols && Unflat(Flat(x, y, cols), cols) == (x, y)
  {
    forall i: nat, j: nat | cols > 0 && i < rows * cols && j < rows * cols && Unflat(i, cols) == Unflat(j, cols)
      ensures i == j
    {
      UnflatInverse(i, rows, cols);
      UnflatInverse(j, rows, cols);
    }
    forall x: nat, y: nat | x < rows && y < cols
      ensures Flat(x, y, cols) < rows * cols && Unflat(Flat(x, y, cols), cols) == (x, y)
    {
      FlatInRange(x, y, rows, cols);
      FlatUnflat(x, y, rows, cols);
    }
  }

  /** The grid as a sequence of rows: `rows` consecutive slices of `cols` cells. */
  function Chunk<T>(cells: seq<T>, rows: nat, cols: nat): (m: seq<seq<T>>)
    requires |cells| == rows * cols
    ensures |m| == rows
    ensures forall x :: 0 <= x < rows ==> |m[x]| == cols
    decreases rows
  {
    if rows == 0 then []
    else
      assert rows * cols == (rows - 1) * cols + cols;
      [cells[..cols]] + Chunk(cells[cols..], rows - 1, cols)
  }

  /** A `rows x cols` matrix with every entry equal to `v`. */
  function Constant<T>(rows: nat, cols: nat, v: T): (m: seq<seq<T>>)
  {
    seq(rows, _ => seq(cols, _ => v))
  }

  /** Entry `(x, y)` of the row view is the flat cell at `Flat(x, y, cols)`. */
  lemma {:induction false} ChunkAt<T>(cells: seq<T>, rows: nat, cols: nat, x: nat, y: nat)
    requires |cells| == rows * cols
    requires x < rows && y < cols
    ensures Flat(x, y, cols) < |cells|
    ensures Chunk(cells, rows, cols)[x][y] == cells[Flat(x, y, cols)]
  {
    FlatInRange(x, y, rows, cols);
    assert rows * cols == (rows - 1) * cols + cols;
    if x > 0 {
      ChunkAt(cells[cols..], rows - 1, cols, x - 1, y);
      assert (x - 1) * cols + cols == x * cols;
    }
  }

  /** Two matrices of the same shape with the same entries are equal. */
  lemma MatrixExt<T>(a: seq<seq<T>>, b: seq<seq<T>>, rows: nat, cols: nat)
    requires |a| == rows && |b| == rows
    requires forall x :: 0 <= x < rows ==> |a[x]| == cols && |b[x]| == cols
    requires forall x, y :: 0 <= x < rows && 0 <= y < cols ==> a[x][y] == b[x][y]
    ensures a == b
  {
    forall x | 0 <= x < rows
      ensures a[x] == b[x]
    {
      assert forall y :: 0 <= y < cols ==> a[x][y] == b[x][y];
    }
  }

  /** Cutting a buffer of `rows * cols` copies of `v` gives the constant matrix. */
  lemma ChunkConstant<T>(cells: seq<T>, rows: nat, cols: nat, v: T)
    requires |cells| == rows * cols
    requires forall i :: 0 <= i < |cells| ==> cells[i] == v
    ensures Chunk(cells, rows, cols) == Constant(rows, cols, v)
  {
    var m := Chunk(cells, rows, cols);
    forall x, y | 0 <= x < rows && 0 <= y < cols
      ensures m[x][y] == Constant(rows, cols, v)[x][y]
    {
      ChunkAt(cells, rows, cols, x, y);
    }
    MatrixExt(m, Constant(rows, cols, v), rows, cols);
  }

  /** Overwriting the flat cell of `(x, y)` changes exactly entry `(x, y)` of
      the row view. */
  lemma ChunkUpdate<T>(cells: seq<T>, rows: nat, cols: nat, x: nat, y: nat, v: T)
    requires |cells| == rows * cols
    requires x < rows && y < cols
    ensures Flat(x, y, cols) < |cells|
    ensures Chunk(cells[Flat(x, y, cols) := v], rows, cols)
         == Chunk(cells, rows, cols)[x := Chunk(cells, rows, cols)[x][y := v]]
  {
    FlatInRange(x, y, rows, cols);
    var k := Flat(x, y, cols);
    var before := Chunk(cells, rows, cols);
    var after := Chunk(cells[k := v], rows, cols);
    var expected := before[x := before[x][y := v]];
    forall i, j | 0 <= i < rows && 0 <= j < cols
      ensures after[i][j] == expected[i][j]
    {
      ChunkAt(cells, rows, cols, i, j);
      ChunkAt(cells[k := v], rows, cols, i, j);
      if Flat(i, j, cols) == k {
        FlatInjective(i, j, x, y, cols);
      }
    }
    MatrixExt(after, expected, rows, cols);
  }
}
