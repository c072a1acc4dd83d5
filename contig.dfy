/** The `Contig` contract: every packable type maps a configuration to a
    layout (`ComputeLayout`, the trait's `layout`) and a layout to its
    footprint in buffer elements (`Len`, the trait's `len`).

    The packable types form one recursive family: scalars, the fixed
    three-element group `Vec3`, dynamic arrays `Dyn<[T]>` of any packable
    element, dense vectors and matrices, and records whose fields are laid out
    one after another by a `TakeCursor` pass in declaration order. A `Config`
    names the packable type together with its runtime sizing input; a
    `Layout` is the immutable metadata computed from it. */
module Contig {
  import opened Base
  import opened Cursor

  datatype Config =
    | ScalarCfg                              // `()` for `f32` / `f64`
    | Vec3Cfg                                // `()` for `Vec3<F>`
    | DynCfg(count: Usize, elem: Config)     // `DynArrayConfig { len, elem }`
    | VectorCfg(len: Usize)                  // `DynVectorConfig { len }`
    | MatrixCfg(rows: Usize, cols: Usize)    // `DynMatrixConfig { rows, cols }`
    | RecordCfg(fields: seq<Config>)         // one configuration per field, in declaration order

  datatype Layout =
    | ScalarLayout
    | Vec3Layout
      /** `DynArrayLayout { len, elem_layout, elem_len }`: the element layout is
          computed once and its footprint cached in `elemLen`. */
    | DynLayout(count: nat, elemLayout: Layout, elemLen: nat)
    | VectorLayout(len: nat)
    | MatrixLayout(rows: nat, cols: nat)
      /** A record: each field's range and layout, plus the total length. */
    | RecordLayout(ranges: seq<Range>, fields: seq<Layout>, len: nat)

  /** The fields laid out so far by a record's cursor pass. */
  datatype Fields = Fields(ranges: seq<Range>, layouts: seq<Layout>, end: nat)

  /** Total element footprint of a layout; composite layouts read their
      cached sizes and never recompute a sub-layout. */
  function Len(l: Layout): nat {
    match l
    case ScalarLayout => 1
    case Vec3Layout => 3
    case DynLayout(count, _, elemLen) => count * elemLen
    case VectorLayout(n) => n
    case MatrixLayout(rows, cols) => rows * cols
    case RecordLayout(_, _, n) => n
  }

  /** The footprints of a sequence of layouts. */
  function Lens(ls: seq<Layout>): (r: seq<nat>)
    ensures |r| == |ls|
    ensures forall k :: 0 <= k < |ls| ==> r[k] == Len(ls[k])
  {
    if ls == [] then [] else [Len(ls[0])] + Lens(ls[1..])
  }

  /** What every layout produced by `ComputeLayout` satisfies: cached
      element sizes agree with the element layouts, record ranges are the
      cursor's ranges over the field footprints, and every footprint fits in
      a `usize`. */
  predicate WellFormed(l: Layout) {
    match l
    case ScalarLayout => true
    case Vec3Layout => true
    case DynLayout(count, elemLayout, elemLen) =>
      WellFormed(elemLayout) && elemLen == Len(elemLayout) && count * elemLen <= USIZE_MAX
    case VectorLayout(n) => n <= USIZE_MAX
    case MatrixLayout(rows, cols) => rows * cols <= USIZE_MAX
    case RecordLayout(ranges, fields, n) =>
      && (forall k :: 0 <= k < |fields| ==> WellFormed(fields[k]))
      && ranges == Carve(0, Lens(fields))
      && n == Sum(Lens(fields))
      && n <= USIZE_MAX
  }

  /** The trait's `layout`: computes the layout of a configuration, or the
      error of the first part that fails. A dynamic array computes its
      element layout exactly once, even for a count of zero, and propagates
      the element's error unchanged. A product footprint beyond `USIZE_MAX`
      is reported as `Overflow`. */
  function ComputeLayout(c: Config): (r: Result<Layout>)
    ensures r.Ok? ==> Len(r.value) <= USIZE_MAX
    decreases c, 1
  {
    match c
    case ScalarCfg => Ok(ScalarLayout)
    case Vec3Cfg => Ok(Vec3Layout)
    case DynCfg(count, elem) =>
      var elemLayout :- ComputeLayout(elem);
      var elemLen := Len(elemLayout);
      if count * elemLen > USIZE_MAX then Err(Overflow)
      else Ok(DynLayout(count, elemLayout, elemLen))
    case VectorCfg(n) => Ok(VectorLayout(n))
    case MatrixCfg(rows, cols) =>
      if rows * cols > USIZE_MAX then Err(Overflow) else Ok(MatrixLayout(rows, cols))
    case RecordCfg(fields) =>
      var laid :- FieldsFrom(c, 0, 0);
      Ok(RecordLayout(laid.ranges, laid.layouts, laid.end))
  }

  /** The record's cursor pass from field `i` on, with the cursor at
      `start`: each field's layout is computed and then its range taken, in
      declaration order, stopping at the first failure. */
  function FieldsFrom(c: Config, i: nat, start: Usize): (r: Result<Fields>)
    requires c.RecordCfg? && i <= |c.fields|
    ensures r.Ok? ==> start <= r.value.end <= USIZE_MAX
    decreases c, 0, |c.fields| - i
  {
    if i == |c.fields| then Ok(Fields([], [], start))
    else
      var l :- ComputeLayout(c.fields[i]);
      var n := Len(l);
      if start + n > USIZE_MAX then Err(Overflow)
      else
        var rest :- FieldsFrom(c, i + 1, start + n);
        Ok(Fields([Range(start, start + n)] + rest.ranges, [l] + rest.layouts, rest.end))
  }

  // ---------- Adapter footprints ----------

  /** A scalar always lays out, occupies one element. */
  lemma ScalarAdapter()
    ensures ComputeLayout(ScalarCfg) == Ok(ScalarLayout)
    ensures Len(ScalarLayout) == 1
  {
  }

  /** A dense vector occupies `len` elements. */
  lemma VectorFootprint(n: Usize)
    ensures ComputeLayout(VectorCfg(n)).Ok?
    ensures Len(ComputeLayout(VectorCfg(n)).value) == n
  {
  }

  /** A dense matrix occupies `rows * cols` elements, and a shape whose
      product does not fit in a `usize` is refused. */
  lemma MatrixFootprint(rows: Usize, cols: Usize)
    ensures ComputeLayout(MatrixCfg(rows, cols)).Ok? <==> rows * cols <= USIZE_MAX
    ensures ComputeLayout(MatrixCfg(rows, cols)).Ok? ==>
      Len(ComputeLayout(MatrixCfg(rows, cols)).value) == rows * cols
    ensures ComputeLayout(MatrixCfg(rows, cols)).Err? ==>
      ComputeLayout(MatrixCfg(rows, cols)).error == Overflow
  {
  }

  /** The 2 x 3 matrix of the adapter's test occupies 6 elements. */
  lemma MatrixSample()
    ensures ComputeLayout(MatrixCfg(2, 3)) == Ok(MatrixLayout(2, 3))
    ensures Len(MatrixLayout(2, 3)) == 6
  {
    MatrixFootprint(2, 3);
  }

  /** The dynamic array's layout: an element error comes back unchanged;
      otherwise the element layout is cached with its footprint, and the
      total is `count * elemLen` whenever that fits. */
  lemma DynLayoutSpec(count: Usize, elem: Config)
    ensures ComputeLayout(elem).Err? ==>
      ComputeLayout(DynCfg(count, elem)) == Err(ComputeLayout(elem).error)
    ensures ComputeLayout(elem).Ok? ==>
      var el := ComputeLayout(elem).value;
      ComputeLayout(DynCfg(count, elem))
        == if count * Len(el) <= USIZE_MAX then Ok(DynLayout(count, el, Len(el))) else Err(Overflow)
    ensures ComputeLayout(DynCfg(count, elem)).Ok? ==>
      var l := ComputeLayout(DynCfg(count, elem)).value;
      && l.count == count
      && l.elemLayout == ComputeLayout(elem).value
      && l.elemLen == Len(l.elemLayout)
      && Len(l) == count * l.elemLen
  {
  }

  /** A zero-count array occupies nothing, but its element layout is still
      computed, so it fails exactly when its element fails. */
  lemma DynZeroCount(elem: Config)
    ensures ComputeLayout(DynCfg(0, elem)).Ok? <==> ComputeLayout(elem).Ok?
    ensures ComputeLayout(DynCfg(0, elem)).Ok? ==> Len(ComputeLayout(DynCfg(0, elem)).value) == 0
  {
  }

  // ---------- Record footprint ----------

  /** When every field lays out, the record's cursor pass yields the cursor's
      ranges over the field footprints from `start`, or `Overflow` when
      their sum would pass `USIZE_MAX`. */
  lemma {:induction false} FieldsFromSpec(c: Config, i: nat, start: Usize, layouts: seq<Layout>)
    requires c.RecordCfg? && i <= |c.fields| && |layouts| == |c.fields|
    requires forall k :: 0 <= k < |layouts| ==> ComputeLayout(c.fields[k]) == Ok(layouts[k])
    ensures FieldsFrom(c, i, start)
         == if start + Sum(Lens(layouts[i..])) <= USIZE_MAX
            then Ok(Fields(Carve(start, Lens(layouts[i..])), layouts[i..],
                           start + Sum(Lens(layouts[i..]))))
            else Err(Overflow)
    decreases |c.fields| - i
  {
    if i == |c.fields| {
      assert layouts[i..] == [];
    } else {
      var tail := layouts[i + 1..];
      assert layouts[i..] == [layouts[i]] + tail;
      assert Lens(layouts[i..]) == [Len(layouts[i])] + Lens(tail);
      var n := Len(layouts[i]);
      var sizes := Lens(layouts[i..]);
      assert sizes[0] == n && sizes[1..] == Lens(tail);
      assert Sum(sizes) == n + Sum(Lens(tail));
      if start + n <= USIZE_MAX {
        assert Carve(start, sizes) == [Range(start, start + n)] + Carve(start + n, Lens(tail));
        FieldsFromSpec(c, i + 1, start + n, layouts);
      }
    }
  }

  /** A record whose fields all lay out has footprint equal to the sum of the
      field footprints, with field `k` at the `k`-th cursor range; it is
      refused with `Overflow` exactly when that sum passes `USIZE_MAX`. */
  lemma RecordFootprint(fields: seq<Config>, layouts: seq<Layout>)
    requires |layouts| == |fields|
    requires forall k :: 0 <= k < |layouts| ==> ComputeLayout(fields[k]) == Ok(layouts[k])
    ensures ComputeLayout(RecordCfg(fields))
         == if Sum(Lens(layouts)) <= USIZE_MAX
            then Ok(RecordLayout(Carve(0, Lens(layouts)), layouts, Sum(Lens(layouts))))
            else Err(Overflow)
  {
    FieldsFromSpec(RecordCfg(fields), 0, 0, layouts);
    assert layouts[0..] == layouts;
  }

  /** Failure is all-or-nothing: a record with a field that fails to lay out
      has no layout. */
  lemma {:induction false} RecordFieldFails(c: Config, i: nat, start: Usize, k: nat)
    requires c.RecordCfg? && i <= k < |c.fields|
    requires ComputeLayout(c.fields[k]).Err?
    ensures FieldsFrom(c, i, start).Err?
    decreases |c.fields| - i
  {
    if i < k {
      var l := ComputeLayout(c.fields[i]);
      if l.Ok? && start + Len(l.value) <= USIZE_MAX {
        RecordFieldFails(c, i + 1, start + Len(l.value), k);
      }
    }
  }

  /** Every layout that `ComputeLayout` produces is well formed. */
  lemma {:induction false} LayoutWellFormed(c: Config)
    ensures ComputeLayout(c).Ok? ==> WellFormed(ComputeLayout(c).value)
    decreases c
  {
    match c
    case DynCfg(_, elem) =>
      LayoutWellFormed(elem);
    case RecordCfg(fields) =>
      var pass := FieldsFrom(c, 0, 0);
      if pass.Ok? {
        var layouts := pass.value.layouts;
        FieldsOwn(c, 0, 0);
        forall k | 0 <= k < |layouts|
          ensures WellFormed(layouts[k])
        {
          LayoutWellFormed(fields[k]);
        }
        RecordFootprint(fields, layouts);
      }
    case _ =>
  }

  /** A successful pass from field `i` holds each remaining field's own
      layout, in declaration order. */
  lemma {:induction false} FieldsOwn(c: Config, i: nat, start: Usize)
    requires c.RecordCfg? && i <= |c.fields|
    ensures FieldsFrom(c, i, start).Ok? ==>
      && |FieldsFrom(c, i, start).value.layouts| == |c.fields| - i
      && forall k :: 0 <= k < |c.fields| - i ==>
           ComputeLayout(c.fields[i + k]) == Ok(FieldsFrom(c, i, start).value.layouts[k])
    decreases |c.fields| - i
  {
    if i < |c.fields| {
      var l := ComputeLayout(c.fields[i]);
      if l.Ok? && start + Len(l.value) <= USIZE_MAX {
        FieldsOwn(c, i + 1, start + Len(l.value));
      }
    }
  }

  /** The trait's `len` of every produced layout, adapter by adapter: 1 for
      a scalar, 3 for `Vec3`, `count * elem_len` for a dynamic array with the
      element's own `len` as `elem_len`, the configured length for a vector,
      `rows * cols` for a matrix, and the sum of the field footprints, one
      field layout per field, for a record. */
  lemma Footprint(c: Config)
    requires ComputeLayout(c).Ok?
    ensures c.ScalarCfg? ==> Len(ComputeLayout(c).value) == 1
    ensures c.Vec3Cfg? ==> Len(ComputeLayout(c).value) == 3
    ensures c.DynCfg? ==>
      && ComputeLayout(c.elem).Ok?
      && Len(ComputeLayout(c).value) == c.count * Len(ComputeLayout(c.elem).value)
    ensures c.VectorCfg? ==> Len(ComputeLayout(c).value) == c.len
    ensures c.MatrixCfg? ==> Len(ComputeLayout(c).value) == c.rows * c.cols
    ensures c.RecordCfg? ==> var l := ComputeLayout(c).value;
      && |l.fields| == |c.fields|
      && (forall k :: 0 <= k < |c.fields| ==> ComputeLayout(c.fields[k]) == Ok(l.fields[k]))
      && Len(l) == Sum(Lens(l.fields))
  {
    if c.DynCfg? {
      DynLayoutSpec(c.count, c.elem);
    } else if c.RecordCfg? {
      FieldsOwn(c, 0, 0);
      LayoutWellFormed(c);
    }
  }

  // ---------- Dynamic-array index math ----------

  /** First element of entry `i` of a dynamic array, relative to the
      array's own start: `i * elem_len`. */
  function ElemStart(l: Layout, i: nat): nat
    requires l.DynLayout?
  {
    i * l.elemLen
  }

  /** Entry `i < count` lies inside the array's footprint. */
  lemma ElemInside(l: Layout, i: nat)
    requires l.DynLayout? && i < l.count
    ensures ElemStart(l, i) + l.elemLen <= Len(l)
  {
    MulMono(i + 1, l.count, l.elemLen);
  }

  /** Distinct entries occupy separate ranges. */
  lemma ElemSeparate(l: Layout, i: nat, j: nat)
    requires l.DynLayout? && i != j
    ensures Separate(ElemStart(l, i), l.elemLen, ElemStart(l, j), l.elemLen)
  {
    if i < j {
      MulMono(i + 1, j, l.elemLen);
    } else {
      MulMono(j + 1, i, l.elemLen);
    }
  }

  /** No gaps: every position of the array's footprint belongs to some entry. */
  lemma ElemCovers(l: Layout, x: nat) returns (i: nat)
    requires l.DynLayout? && x < Len(l)
    ensures i < l.count && ElemStart(l, i) <= x < ElemStart(l, i) + l.elemLen
  {
    var e := l.elemLen;
    assert e > 0;
    i := x / e;
    assert i * e <= x < i * e + e;
    if i >= l.count {
      MulMono(l.count, i, e);
      assert false;
    }
  }

  lemma {:induction false} MulMono(a: nat, b: nat, e: nat)
    requires a <= b
    ensures a * e <= b * e
  {
    if a < b {
      MulMono(a, b - 1, e);
      assert (b - 1) * e + e == b * e;
    }
  }

  // ---------- As written: unchecked products ----------

  /** `a * b` as an unchecked `usize` multiplication yields it in a build
      without overflow checks: the product modulo 2^64. */
  function WrappingMul(a: nat, b: nat): (r: Usize)
    ensures a * b <= USIZE_MAX ==> r == a * b
  {
    (a * b) % (USIZE_MAX + 1)
  }

  /** `len` for dynamic arrays and matrices exactly as written, with the
      unchecked multiplication. */
  function LenAsWritten(l: Layout): (r: nat)
    ensures Len(l) <= USIZE_MAX ==> r == Len(l)
  {
    match l
    case DynLayout(count, _, elemLen) => WrappingMul(count, elemLen)
    case MatrixLayout(rows, cols) => WrappingMul(rows, cols)
    case _ => Len(l)
  }

  /** `layout` for dynamic arrays and matrices exactly as written: it never
      fails on size, and a dynamic array caches the unchecked `len` of its
      element layout. Wherever the corrected `layout` succeeds, the two agree.
      Records are laid out by the corrected pass. */
  function LayoutAsWritten(c: Config): (r: Result<Layout>)
    ensures ComputeLayout(c).Ok? ==> r == ComputeLayout(c)
    ensures c.MatrixCfg? ==> r == Ok(MatrixLayout(c.rows, c.cols))
  {
    match c
    case DynCfg(count, elem) =>
      var elemLayout :- LayoutAsWritten(elem);
      Ok(DynLayout(count, elemLayout, LenAsWritten(elemLayout)))
    case MatrixCfg(rows, cols) => Ok(MatrixLayout(rows, cols))
    case _ => ComputeLayout(c)
  }

  /** The source's own `layout` accepts an array of 2^63 two-element entries
      and a 2^32 x 2^32 matrix, and the unchecked products then report a
      footprint of 0 where the true footprint is 2^64. */
  lemma LenAsWrittenWraps()
    ensures var l := DynLayout(0x8000_0000_0000_0000, DynLayout(2, ScalarLayout, 1), 2);
      && LayoutAsWritten(DynCfg(0x8000_0000_0000_0000, DynCfg(2, ScalarCfg))) == Ok(l)
      && Len(l) == USIZE_MAX + 1 && LenAsWritten(l) == 0
    ensures var m := MatrixLayout(0x1_0000_0000, 0x1_0000_0000);
      && LayoutAsWritten(MatrixCfg(0x1_0000_0000, 0x1_0000_0000)) == Ok(m)
      && Len(m) == USIZE_MAX + 1 && LenAsWritten(m) == 0
  {
  }

  /** The same configurations are refused with `Overflow` here. */
  lemma OverflowReported()
    ensures ComputeLayout(DynCfg(0x8000_0000_0000_0000, DynCfg(2, ScalarCfg))) == Err(Overflow)
    ensures ComputeLayout(MatrixCfg(0x1_0000_0000, 0x1_0000_0000)) == Err(Overflow)
  {
  }
}
