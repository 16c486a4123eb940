# GridProject containers in Dafny

This project models the two containers of `GridProject/GridProject.cpp` and proves what they promise.

- **`Any`** holds at most one value, erasing its static type. It is either empty or owns one handler, which pairs the value with its concrete type. `replace` throws away the old handler and installs a new one. `as<T>()` is a checked downcast to `TipicalHandler<std::decay_t<T>>`. It gives back the stored value only when `T`, with references and cv-qualifiers stripped (`std::decay_t`, which also turns arrays and functions into pointers), equals the handler's type. Otherwise the `dynamic_cast` fails (`std::bad_cast`) and no value comes back under the wrong type.
  The model is the class `Dynamic.Any<V>`. Its field `data` is an `Option` of a `Handler(tag, value)`, and `tag` is the type's name. `As(t)` returns a `CastResult`: `Cast(value)`, `Failed(BadCast)` or `Failed(EmptyHolder)`.
  - The tag passed to the constructor or to `Replace` names the handler's type argument `T`.
  - The tag passed to `As` names `std::decay_t<T>` of the requested type.
  - So on `Any num(36)`, both `as<const int>()` and `as<int&>()` are `As("int")`. A value stored by `replace<int&>(x)` gets the tag `"int&"`, which no call to `as` can ever produce, so it cannot be read back.
- **`Grid<T>`** is a dense 2D array of `x_size` rows by `y_size` columns. It is stored flat in row-major order in a heap buffer that the grid owns, and cell `(x, y)` sits at `memory[x * y_size + y]`.
  The model is the class `Grids.Grid`. It has the real fields `memory: array<int>`, `xSize` and `ySize`, and `Valid()` says `memory.Length == xSize * ySize`.
  - The constructor, the copy constructor, copy assignment and broadcast assignment all fill the buffer in `for` loops, as the source does.
  - Each operation is specified on an abstract value, `Matrix()`. This is the flat buffer cut into `xSize` rows of `ySize` cells each (`RowMajor.Chunk`).
  - The lemmas of module `RowMajor` link that row view to the flat formula `x * ySize + y` that the code uses. They also show that the decoding `i -> (i / ySize, i % ySize)` used by the stream reader inverts the formula.

## Model

| member | source | states |
|---|---|---|
| `RowMajor.Flat` | GridProject/GridProject.cpp:104-110 | the encoding `x * cols + y` used by both accessors; for an in-range column it lies in row `x`'s block `[x * cols, (x + 1) * cols)` |
| `RowMajor.Unflat` | GridProject/GridProject.cpp:135-138 | the reader's decoding `(i / cols, i % cols)`; its column is in range and encoding it gives `i` back |
| `RowMajor.FlatInRange` | GridProject/GridProject.cpp:104-110 | for `x < rows` and `y < cols` the flat index `x * cols + y` lies in `[0, rows * cols)` |
| `RowMajor.FlatInjective` | GridProject/GridProject.cpp:104-110 | two in-range cells with the same flat index are the same cell |
| `RowMajor.UnflatInverse` | GridProject/GridProject.cpp:135-138 | for `i < rows * cols`, `(i / cols, i % cols)` is an in-range cell whose flat index is `i` (so `cols > 0`) |
| `RowMajor.FlatUnflat` | GridProject/GridProject.cpp:135-138 | decoding the flat index of an in-range cell `(x, y)` gives back `(x, y)` |
| `RowMajor.RowMajorVisitsEachCellOnce` | GridProject/GridProject.cpp:135-138 | for any grid size, the reader's loop over `0 .. rows*cols-1` reaches each in-range cell, at its flat index, and reaches no cell twice |
| `RowMajor.Chunk` | GridProject/GridProject.cpp:128-130 | the row view of a buffer of `rows * cols` cells has `rows` rows of `cols` cells each |
| `RowMajor.ChunkAt` | GridProject/GridProject.cpp:104-110 | entry `(x, y)` of the row view is the flat cell `x * cols + y` |
| `RowMajor.ChunkConstant` | GridProject/GridProject.cpp:120-126 | a buffer whose every cell is `v` is the constant matrix of `v` |
| `RowMajor.ChunkUpdate` | GridProject/GridProject.cpp:108-110 | overwriting flat cell `x * cols + y` changes entry `(x, y)` of the row view and no other entry |
| `Grids.Grid.constructor` | GridProject/GridProject.cpp:67-73 | new storage of exactly `x * y` cells; the sizes are `x` and `y`; every cell is 0 |
| `Grids.Grid.Copy` | GridProject/GridProject.cpp:75-81 | the same sizes and cells as the source grid, in fresh storage that is not shared with it |
| `Grids.Grid.Assign` | GridProject/GridProject.cpp:87-102 | from itself nothing changes; from another grid, the sizes and cells become the source's, in fresh storage, and the source is not modified |
| `Grids.Grid.At` | GridProject/GridProject.cpp:104-106 | the const access returns entry `(x, y)` of the matrix |
| `Grids.Grid.SetAt` | GridProject/GridProject.cpp:108-110 | a write through the mutable access changes only cell `(x, y)`, to `v`; all other cells and both sizes stay the same |
| `Grids.Grid.XSize` | GridProject/GridProject.cpp:112-114 | the row count; times the column count it gives the number of cells |
| `Grids.Grid.YSize` | GridProject/GridProject.cpp:116-118 | the column count; the row count times it gives the number of cells |
| `Grids.Grid.Fill` | GridProject/GridProject.cpp:120-126 | broadcast assignment sets every cell to `value` and keeps both sizes |
| `Grids.CopyThenWrite` | GridProject/GridProject.cpp:75-81 | after a copy, a write to the original leaves the copy holding the original's earlier contents |
| `Dynamic.Any.Empty` | GridProject/GridProject.cpp:31-32 | an empty holder, so every cast fails as empty |
| `Dynamic.Any.constructor` | GridProject/GridProject.cpp:34-36 | a holder with `value` stored as `tag`; casting to `tag` yields `value`, casting to any other type fails |
| `Dynamic.Any.Replace` | GridProject/GridProject.cpp:42-46 | the old handler is dropped; afterwards casting to the new tag yields the new value and every other type fails |
| `Dynamic.Any.As` | GridProject/GridProject.cpp:48-58 | the cast succeeds exactly when a value is stored and the handler's tag equals the requested tag (the decayed requested type), and then it returns that value; otherwise it fails and returns no value |
| `Dynamic.StoreThenRead` | GridProject/GridProject.cpp:34-58 | storing then casting to the same type gives the value back; a different type fails; after `Replace` the new value comes back |

## Left out

- `Grids.Grid`: the element type is fixed to `int`, and the template's zero `T{0}` is the integer 0. The `double` grids appear only in commented-out demo code, and floating point is not modelled.
- `Grids.Grid`: sizes are unbounded naturals. The 64-bit `size_t` wrap-around of `x_size * y_size` when the product exceeds 2^64 - 1 is not modelled.
- `Grids.Grid.Assign`: a failed allocation is not modelled, because Dafny's `new` cannot fail. At lines 92-96 the source frees the old buffer and sets the new sizes before it allocates. If `new T[...]` then throws `std::bad_alloc`, the grid keeps the freed pointer together with the new sizes, and its destructor frees that buffer a second time. The model only covers the path where allocation succeeds.
- `Grids.Grid.constructor`, `Grids.Grid.Copy`, `Dynamic.Any.constructor`, `Dynamic.Any.Replace`: these also allocate (lines 68, 76, 35 and 45), and `std::bad_alloc` is not modelled for them either. In `replace`, the old handler has already been deleted at line 44 when the allocation at line 45 runs. If that allocation throws, `data_` is left dangling.
- `Grids.Grid.At`, `Grids.Grid.SetAt`: indices must be in range, as they are at every call site (lines 137 and 148). The source does no bounds check. A pair whose flat position `x * y_size + y` lies past the buffer is undefined behaviour. A pair with `y >= y_size` whose flat position lies inside the buffer silently reaches a different cell; for example, `(0, y_size)` is cell `(1, 0)`. The model excludes both.
- `Dynamic.Any.As`: on an empty holder the source dereferences a null pointer, which is undefined behaviour. The model returns `Failed(EmptyHolder)` instead.
- `Dynamic.Any.As`: in the source, `auto w = dynamic_cast<...&>(*data_)` copies the handler into a local variable. Both overloads then return a reference into that local copy, which dangles once `as` returns. The model gives the intended meaning: the stored value is returned. Writing through the reference returned by the mutable overload is not modelled.
- `Dynamic.Any`: a payload is one generic type `V` paired with a type name. Values of unrelated C++ types in one program are not modelled as separate Dafny types.
- `Dynamic.Any`: there is no user-defined copy of `Any`. The implicit member-wise copy would share the handler pointer, and that copy is not modelled.
- Destructors, raw `new`/`delete`, the `void*` casts and the virtual `Handler`/`TipicalHandler` hierarchy are memory management. Ownership is modelled by fresh arrays and by the datatype tag.
- The stream operators `operator>>` and `operator<<` (lines 133-154) do console I/O. Only the index mapping of `operator>>` is kept, as the `RowMajor` lemmas.
- `Grids.Grid.Assign`: the returned `*this`, which lets assignments chain, is not modelled. The same goes for broadcast assignment (`Fill`).
- The demo class `foo` and `main` (lines 156-203) are console demonstration code.
