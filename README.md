# contig: a verified model of the layout-and-view engine

`contig` packs a typed value into one flat buffer of uniform scalar elements
and hands out zero-copy views into it. This project models that engine in
Dafny and proves its index arithmetic and its views correct.

The engine has these parts:

- **`TakeCursor`** (`cursor.dfy`) is a linear allocator whose index only moves forward. `take_range(n)` hands out
  `[idx, idx + n)` and `finish()` reports the total. The class keeps the
  cursor's `idx` as real state. It also keeps the granted sizes as ghost
  state, so the handed-out ranges can be stated as the pure function
  `Carve(0, sizes)`. Lemmas about `Carve` prove the ranges are
  dense, ordered, disjoint and gapless.
- **The `Contig` contract** (`contig.dfy`) covers every packable type:
  scalars, `Vec3`, `Dyn<[T]>` of any packable element, dense vectors and
  matrices, and records.
  - A `Config` names the type and its runtime sizing.
  - `ComputeLayout` is the trait's `layout`; `Len` is its `len`.
  - A `Dyn` layout computes the element layout once and caches `elem_len`.
  - A record is laid out by one cursor pass over its fields in declaration
    order, as the generated `from_config` does.
  - `Record.FromConfig` (`record.dfy`) runs that pass imperatively against a
    real `TakeCursor` object. It is proved to compute exactly
    `ComputeLayout`.
- **Views** (`views.dfy`, `vec3.dfy`) are `(buffer, offset, layout)` triples.
  - A read-only view reads a snapshot of the buffer.
  - A mutable view holds the buffer array itself, and `Place` models a `&mut F`.
  - The accessors are the scalar `&buf[0]`, `Vec3`'s `x`/`y`/`z`/`set`, the
    dynamic array's `len`/`get`/`get_mut`, and a generated record's field
    accessors.
- **Paths** (`paths.dfy`) describe nested access. A chain of accessors such as
  `rows().get_mut(r).get_mut(c)` is a path.
  - `Resolve` gives the offset and layout a path leads to.
  - Two paths that branch apart lead to separate regions.
  - A store through one path reads back through the same path and leaves
    every branching path unchanged.
  - The nested 2×3 array and the robot of the integration tests are worked
    out concretely.

Integers are unbounded in Dafny. A `usize` is a `nat` bounded by
`USIZE_MAX` = 2^64 - 1, and the only place its width matters is overflow.

The model follows the source code, with the two exceptions below and the record sizing listed under "## Left out":

- `take_range` aborts the process on overflow through `checked_add(..).expect`.
  Dafny has no process abort, so the model returns `Err(Overflow)` and leaves
  the cursor unchanged. That is the `LayoutError::Overflow` variant the crate
  declares (`contig-core/src/lib.rs:19`). See "## Left out".
- `ComputeLayout` refuses a dynamic array or a matrix whose true footprint
  passes `USIZE_MAX` with `Overflow`. The source's `layout` never fails there,
  and its `len` wraps. `ComputeLayout` is the corrected `layout` of the two
  "## Findings" rows. `LayoutAsWritten` and `LenAsWritten` model the source
  as written, and the two agree whenever the footprint fits.

A view requires its buffer to hold *at least* the layout's footprint, as the
source's `debug_assert!(buf.len() >= len)` checks, and not exactly the
footprint.

`Len` is the trait's `len` for every adapter (`contig-core/src/lib.rs:93-95`,
`182-184`, `311-313`, `375-377`, `425-427`, and `contig-demo/src/vec3.rs:79-81`).
`Contig.Footprint` and the adapter lemmas state its value for each adapter.
`ElemStart` is `i * self.elem_len` in `get` and `get_mut`
(`contig-core/src/lib.rs:252`, `270`, `277`). `Contig.ElemInside`,
`Contig.ElemSeparate` and `Contig.ElemCovers` state where those entries lie.

`Vec3` and its views appear twice in the source, in
`contig-demo/src/vec3.rs` and as an identical copy at
`contig-core/src/lib.rs:113-197`. The `Vec3` members below model both copies.
The rows cite the demo copy.

## Model

| member | source | states |
|---|---|---|
| Cursor.SumSnoc | contig-core/src/lib.rs:41-43 | granting one more request of `n` raises the reported total by exactly `n` |
| Cursor.CarveSnoc | contig-core/src/lib.rs:34-40 | one more `take_range(n)` appends exactly one range, `[previous total, previous total + n)`, to the ranges already handed out |
| Cursor.CarveDense | contig-core/src/lib.rs:26-40 | every handed-out range has the requested length; consecutive ranges are adjacent; the first starts at the cursor's start; the last ends at start + total |
| Cursor.CarveBounds | contig-core/src/lib.rs:26-40 | every range lies within `[start, start + total]` |
| Cursor.CarveOrdered | contig-core/src/lib.rs:26-40 | an earlier range ends at or before the start of every later range, so ranges are ordered and never overlap |
| Cursor.CarveCovers | contig-core/src/lib.rs:26-43 | every index below the total belongs to some handed-out range (no gaps) |
| Cursor.TakeCursor.constructor | contig-core/src/lib.rs:31-33 | a new cursor stands at 0 with nothing handed out |
| Cursor.TakeCursor.TakeRange | contig-core/src/lib.rs:34-40 | returns `[old idx, old idx + n)`, advances `idx` by `n` and appends that range to the handed-out ranges; when `idx + n` would pass `USIZE_MAX` it fails with `Overflow` and nothing changes |
| Cursor.TakeCursor.Finish | contig-core/src/lib.rs:41-43 | consumes the cursor and returns its index, which equals the sum of all granted sizes |
| Contig.ComputeLayout | contig-core/src/lib.rs:301-313 | the corrected `layout` of "## Findings": every layout it produces has a footprint that fits in a `usize` |
| Contig.FieldsFrom | contig-derive/src/lib.rs:306-315 | a successful cursor pass over the remaining fields ends at or after its start and within `USIZE_MAX` |
| Contig.LayoutWellFormed | contig-core/src/lib.rs:301-309 | every produced layout is well formed: a `Dyn`'s cached `elem_len` equals its element layout's `len`, record ranges are the cursor's ranges over the field footprints, and every total fits |
| Contig.FieldsOwn | contig-derive/src/lib.rs:270-272 | a successful pass holds one layout per remaining field, in declaration order, each equal to that field's own layout |
| Contig.ScalarAdapter | contig-core/src/lib.rs:89-95 | a scalar's `layout` always succeeds and its `len` is 1 |
| Contig.VectorFootprint | contig-core/src/lib.rs:371-377 | a dense vector's `layout` always succeeds and its `len` is the configured length |
| Contig.MatrixFootprint | contig-core/src/lib.rs:418-427 | a matrix lays out exactly when `rows * cols` fits in a `usize`; then its `len` is `rows * cols`; otherwise the error is `Overflow` |
| Contig.MatrixSample | contig-core/tests/nalgebra_integration.rs:8-10 | the 2 × 3 matrix has `len` 6 |
| Contig.DynLayoutSpec | contig-core/src/lib.rs:301-313 | an element error comes back unchanged; otherwise the element layout and its `len` are cached, and the array's `len` is `count * elem_len` (refused with `Overflow` when that passes `USIZE_MAX`) |
| Contig.DynZeroCount | contig-core/src/lib.rs:301-313 | a zero-count array has `len` 0, yet still fails exactly when its element's layout fails |
| Contig.FieldsFromSpec | contig-derive/src/lib.rs:306-315 | when all fields lay out, the pass from field `i` yields the cursor's ranges over the remaining footprints and ends at start + their sum, or `Overflow` when that sum passes `USIZE_MAX` |
| Contig.RecordFootprint | contig-derive/src/lib.rs:306-315 | a record's `len` is the sum of its field footprints, field `k` sits at the `k`-th cursor range, and it is refused with `Overflow` exactly when the sum passes `USIZE_MAX` |
| Contig.RecordFieldFails | contig-core/src/lib.rs:66 | layout is all-or-nothing: a record with any failing field has no layout |
| Contig.ElemInside | contig-core/src/lib.rs:250-280 | entry `i < count`, which `get(i)` and `get_mut(i)` of both views address at `i * elem_len` (lib.rs:252, 270, 277), occupies `[i * elem_len, i * elem_len + elem_len)`, which lies inside `[0, len)` |
| Contig.ElemSeparate | contig-core/src/lib.rs:250-255 | the sub-ranges of two distinct entries are disjoint |
| Contig.ElemCovers | contig-core/src/lib.rs:311-313 | every position of an array's footprint belongs to some entry `i < count` |
| Contig.Footprint | contig-core/src/lib.rs:66-68 | the trait's `len` of every layout `layout` produces is, adapter by adapter: 1 for a scalar (lib.rs:93-95), 3 for `Vec3` (lib.rs:182-184), the count times the element's own `len` for a dynamic array (lib.rs:311-313), the configured length for a vector (lib.rs:375-377), `rows * cols` for a matrix (lib.rs:425-427), and for a record the sum of its field footprints, one field layout per field |
| Contig.WrappingMul | contig-core/src/lib.rs:311-313 | the unchecked `usize` product, taken modulo 2^64, equals the true product whenever that product fits |
| Contig.LenAsWritten | contig-core/src/lib.rs:311-313 | `len` with the unchecked products agrees with the true footprint whenever the true footprint fits |
| Contig.LayoutAsWritten | contig-core/src/lib.rs:301-309 | the source's `Dyn` `layout` never fails on size and caches the unchecked element `len`, and its matrix `layout` (lib.rs:418-423) always succeeds with the configured `rows` and `cols`; wherever the corrected `layout` succeeds, the two are equal |
| Contig.LenAsWrittenWraps | contig-core/src/lib.rs:311-313 | the source's own `layout` accepts 2^63 two-element entries and a 2^32 × 2^32 matrix, and the unchecked products then give `len` 0 where the true footprint is 2^64 |
| Contig.OverflowReported | contig-core/src/lib.rs:301-313 | the corrected `layout` refuses those same two configurations with `Overflow` |
| Record.PlaceField | contig-derive/src/lib.rs:270-272 | one field's step computes the field's layout and takes a range of its footprint. A field error leaves the cursor's index and granted sizes unchanged, and so does an overflow. Otherwise the cursor advances by the footprint, the footprint is appended to the granted sizes, and the returned range is appended to the ranges the cursor has handed out |
| Record.FromConfig | contig-derive/src/lib.rs:306-315 | running a real `TakeCursor` over the fields in declaration order and finishing it yields the same record layout, or the same error, as `ComputeLayout`; the record's ranges are exactly the ranges the cursor handed out |
| Record.LinkFootprint | tests/integration.rs:5-9 | `Link { mass, pos }` lays out as `mass` at `[0, 1)` and `pos` at `[1, 4)`, with `len` 1 + 3 |
| Record.LinkArrayFootprint | tests/integration.rs:28-34 | two links in a `Dyn` occupy 2 × 4 elements |
| Record.RobotFootprint | tests/integration.rs:38-41 | the robot's `len` equals the sum of the two arrays' lengths, 8 + 4; the links occupy `[0, 8)` and the scalars `[8, 12)` |
| Record.SampleFootprint | contig-derive/tests/ui/basic.rs:12-17 | `Sample { dyns(len 2), scalar }` has `len` 3 |
| Record.OuterFootprint | contig-derive/tests/ui/nested.rs:15-23 | `Outer` with two `Inner { value }` has `len` 2 |
| Record.NestedFootprint | tests/integration.rs:86-96 | the nested 2 × 3 array record has `len` 6 |
| Views.Store | tests/integration.rs:50 | writing through a `&mut F` changes that one slot and nothing else in the buffer |
| Views.View | contig-core/src/lib.rs:70 | `view` over a slice that holds the footprint covers exactly the layout's footprint at that offset |
| Views.ViewMut | contig-core/src/lib.rs:72 | `view_mut` holds the caller's own buffer, fits in it, and covers exactly the layout's footprint at that offset |
| Views.ViewMutAgrees | contig-core/src/lib.rs:70-72 | `view_mut` and `view` over the same buffer cover the same region: the read-only view of the mutable view is the view of the buffer as it stands |
| Views.ScalarGet | contig-core/src/lib.rs:97-100 | a scalar's read-only view is the single element it covers |
| Views.ScalarGetMut | contig-core/src/lib.rs:102-105 | a scalar's mutable view is the first slot of its region, inside the buffer |
| Views.ScalarWriteRead | contig-core/src/lib.rs:97-105 | writing through `view_mut` then reading through `view` returns the value written; only that slot changes |
| Views.DynLen | contig-core/src/lib.rs:246-248 | the read-only array view's `len()` is the entry count; that many entries of `elem_len` elements make up the array's footprint, which is exactly what the view covers |
| Views.DynLenMut | contig-core/src/lib.rs:264-266 | the mutable array view's `len()` is the count the read-only view of the same region reports, and its entries fit in the buffer from the view's offset |
| Views.DynLenMutOfConfig | contig-core/src/lib.rs:326-335 | a mutable view over a freshly computed array layout reports the configured count |
| Views.DynLenOfConfig | contig-core/src/lib.rs:315-324 | a view over a freshly computed array layout reports the configured count |
| Views.DynGet | contig-core/src/lib.rs:250-255 | `get(i)` is the element view at `i * elem_len`. Its elements are exactly that sub-slice of the array's region, and it stays inside the array's footprint |
| Views.DynGetMut | contig-core/src/lib.rs:268-273 | `get_mut(i)` is the writable element view on the same buffer at `i * elem_len`, inside the array's footprint |
| Views.DynGetOfMut | contig-core/src/lib.rs:275-280 | `get(i)` on the mutable view reads the sub-slice that `get_mut(i)` writes, as the buffer currently stands |
| Views.DynOthersUnchanged | contig-core/src/lib.rs:268-280 | changing only element `i`'s sub-range leaves what `get(j)` reads unchanged for every `j != i` |
| Views.FieldGet | contig-derive/src/lib.rs:278-282 | a field accessor is the field's view at the field's range of the record's region |
| Views.FieldGetMut | contig-derive/src/lib.rs:273-277 | a mutable field accessor writes the same buffer at the field's range |
| Views.FieldInside | contig-derive/src/lib.rs:270-272 | in a well-formed record, field `f`'s range holds exactly its footprint and ends within the record's footprint |
| Vec3.Vec3Adapter | contig-demo/src/vec3.rs:75-81 | `layout` always succeeds with the marker layout and `len` is 3 |
| Vec3.ViewCoversThree | contig-demo/src/vec3.rs:83-93 | a view needs three elements from its offset on and covers exactly those three |
| Vec3.X | contig-demo/src/vec3.rs:22-24 | `x()` reads slot 0 of the view's three elements |
| Vec3.Y | contig-demo/src/vec3.rs:26-28 | `y()` reads slot 1 |
| Vec3.Z | contig-demo/src/vec3.rs:30-32 | `z()` reads slot 2 |
| Vec3.MutX | contig-demo/src/vec3.rs:37-39 | the mutable `x()` is the writable slot at the view's offset |
| Vec3.MutY | contig-demo/src/vec3.rs:41-43 | the mutable `y()` is the writable slot at offset + 1 |
| Vec3.MutZ | contig-demo/src/vec3.rs:45-47 | the mutable `z()` is the writable slot at offset + 2 |
| Vec3.SlotsDistinct | contig-demo/src/vec3.rs:37-47 | the three mutable accessors address three different slots |
| Vec3.Written | contig-demo/src/vec3.rs:49-56 | after `set(x, y, z)` the three slots hold `x`, `y`, `z`, and every position outside them, including every position at offset + 3 or beyond, is as before |
| Vec3.Set | contig-demo/src/vec3.rs:49-56 | `set` writes slots 0, 1 and 2, turning the buffer into `Written` of the old buffer |
| Vec3.SetThenRead | contig-demo/src/vec3.rs:20-57 | after `set(a, b, c)`, `x()`, `y()` and `z()` read back `a`, `b` and `c` |
| Vec3.WriteX | contig-demo/src/vec3.rs:37-39 | writing through the mutable `x()` sets `x` and leaves `y`, `z` and every other position unchanged |
| Vec3.WriteY | contig-demo/src/vec3.rs:41-43 | writing through the mutable `y()` sets `y` and leaves `x`, `z` and every other position unchanged |
| Vec3.WriteZ | contig-demo/src/vec3.rs:45-47 | writing through the mutable `z()` sets `z` and leaves `x`, `y` and every other position unchanged |
| Vec3.Component | contig-demo/src/vec3.rs:22-32 | slot `k` as a scalar view reads what `x()`, `y()` or `z()` reads |
| Vec3.ComponentMut | contig-demo/src/vec3.rs:37-47 | slot `k` as a writable scalar view is the slot the mutable `x()`, `y()` or `z()` addresses |
| Paths.ChildInside | contig-core/src/lib.rs:250-255 | an array entry, a record field or a `Vec3` slot of a well-formed layout is well formed and inside its parent's footprint |
| Paths.ChildSeparate | contig-core/src/lib.rs:250-255 | two different accessors of one layout lead to separate regions |
| Paths.PathInside | contig-core/src/lib.rs:268-273 | whatever a chain of accessors reaches lies inside the outer layout's footprint |
| Paths.PathsDisjoint | contig-core/src/lib.rs:268-273 | two chains of accessors that share a prefix and then differ lead to separate regions, at any depth |
| Paths.ReadAt | contig-core/src/lib.rs:250-255 | reading through a chain of `get`/field/`x` accessors yields the view at the resolved offset and layout, and succeeds exactly when the path resolves |
| Paths.StoreAt | contig-core/src/lib.rs:268-273 | writing through a chain of `get_mut`/field/`x` accessors that ends at a scalar changes exactly the one resolved slot of the buffer |
| Paths.StoreThenRead | tests/integration.rs:99-117 | after a store through a path, reading back through the same path returns the stored value |
| Paths.StoreLeavesOthers | contig-core/src/lib.rs:268-280 | after a store through one path, every view reached by a path that branches off it reads what it read before |
| Paths.NestedCells | tests/integration.rs:86-96 | the nested 2 × 3 array has `len` 6 and cell `(r, c)` sits at `r * 3 + c` |
| Paths.NestedRoundTrip | tests/integration.rs:99-117 | storing at cell `(r, c)` of the nest reads back at `(r, c)` and leaves every other cell unchanged |
| Paths.LinkCells | tests/integration.rs:5-9 | a link's `mass` sits at 0 and slot `k` of its `pos` at `1 + k` |
| Paths.LinksCells | tests/integration.rs:47-56 | in the array of links, link `i`'s `mass` sits at `4 * i` and slot `k` of its `pos` at `4 * i + 1 + k` |
| Paths.RobotCells | tests/integration.rs:43-83 | in the robot, the positions the test writes and reads are link `i`'s `mass` at `4 * i`, its `pos` slot `k` at `4 * i + 1 + k`, and scalar `j` at `8 + j` |

## Left out

- Cursor.TakeCursor.TakeRange: the source aborts the process on overflow (`checked_add(..).expect`). The model returns `Err(Overflow)` and leaves the cursor unchanged; process termination is not modelled.
- Record.FromConfig: the generated `from_config` sizes each field through `contig_core::Spec`/`DynSpec` (`STATIC_LEN`, `dyn_len`). Those are not part of this model, and the shown core does not define them. The model sizes each field with the core's own `layout` and `len`, so a field's layout error propagates. The generated code returns `Ok` unless the cursor aborts. The generated `<Type>Layout` keeps only an `off_<field>` range per field, plus the node configuration for a dynamic field (contig-derive/src/lib.rs:145-150, 266-269, 301-304), and its accessors rebuild each field's view from those on every access (contig-derive/src/lib.rs:251-264, 273-282). The model's `RecordLayout` instead caches every field's computed `Layout` next to its range.
- Contig.LayoutAsWritten: a record is laid out by the corrected cursor pass, so a record holding a field whose unchecked footprint wraps is not modelled as written.
- `LayoutError::InvalidSize` is declared, but no adapter in the source ever returns it, so no operation of the model produces it.
- The nalgebra vector and matrix views (`DVectorView::from_slice`, `DMatrixView::from_slice_generic`) and their column-major indexing are foreign calls. Only the adapters' `layout` and `len` arithmetic is modelled.
- Rust lifetimes, borrow scoping, generic associated view types and `PhantomData` are not modelled. A view is a `(buffer, offset, layout)` triple, and a read-only view reads a snapshot of the buffer.
- Element values are an abstract type parameter `F`, so floating-point arithmetic on them is not modelled.
- The debug-only checks `debug_assert!` and the generated `assert!` are both modelled as preconditions, so the model does not distinguish release from debug builds for them.
- The index product `i * elem_len` in `get`/`get_mut` is unchecked in the source. The model uses unbounded products. For `i < count` the product is at most the array's footprint, which the corrected `layout` bounds by `USIZE_MAX`.
- Proc-macro token generation (`syn`/`quote`), the demo binary, the trybuild UI harness and concurrency are not modelled.

## Findings

| source | as written | input that shows it | evidently intended | confidence | as-written member | corrected member |
|---|---|---|---|---|---|---|
| contig-core/src/lib.rs:301-313 | `Dyn<[T]>::layout` never fails on size, and `len` is the unchecked `layout.len * layout.elem_len`, which wraps modulo 2^64 in a build without overflow checks | 2^63 entries of a two-element array: the true footprint is 2^64, reported as `len` 0 | `layout` reports `LayoutError::Overflow` when the footprint exceeds the largest index | high that it wraps in release builds, not executed | Contig.LenAsWrittenWraps | Contig.OverflowReported |
| contig-core/src/lib.rs:418-427 | `NaDMatrix::layout` never fails, and `len` is the unchecked `rows * cols` | a 2^32 × 2^32 matrix: the true footprint is 2^64, reported as `len` 0 | `layout` reports `LayoutError::Overflow` when `rows * cols` exceeds the largest index | high that it wraps in release builds, not executed | Contig.LenAsWrittenWraps | Contig.MatrixFootprint |
