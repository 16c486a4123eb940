/** A dense two-dimensional grid of integers, `xSize` rows by `ySize` columns,
    stored flat in row-major order in one heap array that the grid owns.

    The abstract value of a grid is `Matrix()`, the flat buffer cut into rows;
    every operation is specified on it, and the row-major lemmas connect it to
    the flat addressing `x * ySize + y` the operations use.
 */
module Grids {
  import opened RowMajor

  class Grid {
    var memory: array<int>
    var xSize: nat
    var ySize: nat

    /** The buffer holds exactly one cell per (row, column) pair. */
    ghost predicate Valid()
      reads this
    {
      memory.Length == xSize * ySize
    }

    /** The grid as a sequence of `xSize` rows of `ySize` cells each. */
    ghost function Matrix(): (m: seq<seq<int>>)
      reads this, memory
      requires Valid()
    {
      Chunk(memory[..], xSize, ySize)
    }

    /** A fresh `x` by `y` grid with every cell zero. */
    constructor (x: nat, y: nat)
      ensures Valid() && fresh(memory)
      ensures xSize == x && ySize == y && memory.Length == x * y
      ensures Matrix() == Constant(x, y, 0)
    {
      var m := new int[x * y];
      for i := 0 to x * y
        invariant forall k :: 0 <= k < i ==> m[k] == 0
      {
        m[i] := 0;
      }
      xSize, ySize, memory := x, y, m;
      new;
      ChunkConstant(memory[..], x, y, 0);
    }

    /** A deep copy of `ref`: same dimensions and cells, in new storage, so that
        later writes to either grid leave the other alone. */
    constructor Copy(ref: Grid)
      requires ref.Valid()
      ensures Valid() && fresh(memory)
      ensures xSize == ref.xSize && ySize == ref.ySize
      ensures memory[..] == ref.memory[..]
      ensures Matrix() == ref.Matrix()
    {
      var n := ref.xSize * ref.ySize;
      var m := new int[n];
      for i := 0 to n
        invariant forall k :: 0 <= k < i ==> m[k] == ref.memory[k]
      {
        m[i] := ref.memory[i];
      }
      xSize, ySize, memory := ref.xSize, ref.ySize, m;
    }

    /** Copy assignment. Assigning a grid to itself changes nothing; otherwise
        this grid takes the dimensions and cells of `ref` in new storage, and
        `ref` is left as it was. */
    method Assign(ref: Grid)
      requires Valid() && ref.Valid()
      modifies this
      ensures Valid()
      ensures ref == this ==> unchanged(this)
      ensures ref != this ==> fresh(memory)
      ensures xSize == ref.xSize && ySize == ref.ySize
      ensures memory[..] == ref.memory[..]
      ensures Matrix() == old(ref.Matrix())
      ensures unchanged(ref) && unchanged(ref.memory)
    {
      if ref == this {
        return;
      }
      var newX, newY := ref.XSize(), ref.YSize();
      var n := newX * newY;
      var m := new int[n];
      for i := 0 to n
        invariant forall k :: 0 <= k < i ==> m[k] == ref.memory[k]
      {
        m[i] := ref.memory[i];
      }
      xSize, ySize, memory := newX, newY, m;
    }

    /** Read-only access to cell `(x, y)`: entry `(x, y)` of the matrix. */
    function At(x: nat, y: nat): (r: int)
      reads this, memory
      requires Valid() && x < xSize && y < ySize
      ensures r == Matrix()[x][y]
    {
      ChunkAt(memory[..], xSize, ySize, x, y);
      memory[Flat(x, y, ySize)]
    }

    /** Write through the mutable access to cell `(x, y)`: that entry becomes
        `v`, every other cell and both dimensions stay as they were. */
    method SetAt(x: nat, y: nat, v: int)
      requires Valid() && x < xSize && y < ySize
      modifies memory
      ensures Valid()
      ensures xSize == old(xSize) && ySize == old(ySize) && memory == old(memory)
      ensures Matrix() == old(Matrix())[x := old(Matrix())[x][y := v]]
      ensures At(x, y) == v
      ensures forall i, j :: 0 <= i < xSize && 0 <= j < ySize && (i != x || j != y) ==>
        At(i, j) == old(At(i, j))
    {
      ChunkUpdate(memory[..], xSize, ySize, x, y, v);
      memory[Flat(x, y, ySize)] := v;
    }

    /** Number of rows; together with the column count it gives the cell count. */
    function XSize(): (r: nat)
      reads this
      requires Valid()
      ensures r * ySize == memory.Length
    {
      xSize
    }

    /** Number of columns; together with the row count it gives the cell count. */
    function YSize(): (r: nat)
      reads this
      requires Valid()
      ensures xSize * r == memory.Length
    {
      ySize
    }

    /** Broadcast assignment of one value: every cell becomes `value` and the
        dimensions stay as they were. */
    method Fill(value: int)
      requires Valid()
      modifies memory
      ensures Valid()
      ensures xSize == old(xSize) && ySize == old(ySize) && memory == old(memory)
      ensures Matrix() == Constant(xSize, ySize, value)
    {
      for i := 0 to xSize * ySize
        invariant forall k :: 0 <= k < i ==> memory[k] == value
      {
        memory[i] := value;
      }
      ChunkConstant(memory[..], xSize, ySize, value);
    }
  }

  /** Copying `g` and then writing into `g` leaves the copy with the contents
      `g` had before the write. */
  method CopyThenWrite(g: Grid, x: nat, y: nat, v: int) returns (c: Grid)
    requires g.Valid() && x < g.xSize && y < g.ySize
    modifies g.memory
    ensures fresh(c) && fresh(c.memory) && c.Valid()
    ensures c.xSize == g.xSize && c.ySize == g.ySize
    ensures c.Matrix() == old(g.Matrix())
    ensures g.Matrix() == old(g.Matrix())[x := old(g.Matrix())[x][y := v]]
  {
    c := new Grid.Copy(g);
    g.SetAt(x, y, v);
  }
}
