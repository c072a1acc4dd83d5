/** Views: a layout placed at an offset of one flat buffer of elements `F`.
    The read-only view reads a snapshot of the buffer; the mutable view holds
    the buffer itself, so every view derived from it writes the same array. */
module Views {
  import opened Base
  import opened Cursor
  import opened Contig

  /** A read-only view: `layout` placed at `off` in `buf`. */
  datatype ConstView<F> = ConstView(buf: seq<F>, off: nat, layout: Layout) {
    /** The buffer holds the whole footprint from `off` on (`buf.len() >= len`). */
    predicate Fits() {
      off + Len(layout) <= |buf|
    }

    /** The elements the view covers. */
    function Contents(): seq<F>
      requires Fits()
    {
      buf[off .. off + Len(layout)]
    }
  }

  /** A mutable view: `layout` placed at `off` in the array `buf`. */
  datatype MutView<F> = MutView(buf: array<F>, off: nat, layout: Layout) {
    predicate Fits() {
      off + Len(layout) <= buf.Length
    }

    /** The read-only view of the same region, over the buffer as it is now. */
    function Frozen(): (v: ConstView<F>)
      reads buf
      ensures v.Fits() <==> Fits()
      ensures v.Fits() ==> v.Contents() == buf[off .. off + Len(layout)]
    {
      ConstView(buf[..], off, layout)
    }
  }

  /** `&mut F`: one writable slot of the buffer. */
  datatype Place<F> = Place(buf: array<F>, index: nat)

  /** Writes `x` through a `&mut F`: that one slot changes and nothing else. */
  method Store<F>(p: Place<F>, x: F)
    requires p.index < p.buf.Length
    modifies p.buf
    ensures p.buf[..] == old(p.buf[..])[p.index := x]
  {
    p.buf[p.index] := x;
  }

  // ---------- The trait's `view` and `view_mut` ----------

  /** `view(layout, buf)` on the slice starting at `off`: the view covers
      exactly the layout's footprint there. */
  function View<F>(l: Layout, buf: seq<F>, off: nat): (v: ConstView<F>)
    requires off + Len(l) <= |buf|
    ensures v.Fits() && v.layout == l && v.off == off
    ensures v.Contents() == buf[off .. off + Len(l)]
  {
    ConstView(buf, off, l)
  }

  /** `view_mut(layout, buf)` on the slice starting at `off`: the view writes
      the caller's own buffer at the layout's footprint there. */
  function ViewMut<F>(l: Layout, buf: array<F>, off: nat): (v: MutView<F>)
    requires off + Len(l) <= buf.Length
    reads buf
    ensures v.buf == buf && v.Fits()
    ensures v.Frozen().Contents() == buf[off .. off + Len(l)]
  {
    MutView(buf, off, l)
  }

  /** `view_mut` and `view` over the same buffer cover the same region: the
      read-only view of the mutable view is the view of the buffer as it
      stands, so whatever is written through one is read through the other. */
  lemma ViewMutAgrees<F>(l: Layout, buf: array<F>, off: nat)
    requires off + Len(l) <= buf.Length
    ensures ViewMut(l, buf, off).Frozen() == View(l, buf[..], off)
  {
  }

  // ---------- Scalars ----------

  /** A scalar's `view` is `&buf[0]`: the single element it covers. */
  function ScalarGet<F>(v: ConstView<F>): (r: F)
    requires v.layout == ScalarLayout && v.Fits()
    ensures [r] == v.Contents()
  {
    v.buf[v.off]
  }

  /** A scalar's `view_mut` is `&mut buf[0]`: the first slot of its region. */
  function ScalarGetMut<F>(v: MutView<F>): (p: Place<F>)
    requires v.layout == ScalarLayout && v.Fits()
    ensures p.buf == v.buf && p.index == v.off && p.index < v.buf.Length
  {
    Place(v.buf, v.off)
  }

  /** Writing through `view_mut` and reading through `view` returns the
      value written; nothing outside the scalar's slot changes. */
  method ScalarWriteRead<F>(v: MutView<F>, x: F) returns (r: F)
    requires v.layout == ScalarLayout && v.Fits()
    modifies v.buf
    ensures r == x
    ensures v.buf[..] == old(v.buf[..])[v.off := x]
  {
    Store(ScalarGetMut(v), x);
    r := ScalarGet(v.Frozen());
  }

  // ---------- Dynamic arrays ----------

  /** The view's `len()`: the number of entries, each `elem_len` elements
      long, that together make up the array's footprint. */
  function DynLen<F>(v: ConstView<F>): (n: nat)
    requires v.layout.DynLayout?
    ensures n == v.layout.count
    ensures n * v.layout.elemLen == Len(v.layout)
    ensures v.Fits() ==> n * v.layout.elemLen == |v.Contents()|
  {
    v.layout.count
  }

  /** The mutable view's `len()`: the same entry count, whose entries fill
      the region of the buffer the view writes. */
  function DynLenMut<F>(v: MutView<F>): (n: nat)
    requires v.layout.DynLayout?
    reads v.buf
    ensures n == DynLen(v.Frozen())
    ensures v.Fits() ==> v.off + n * v.layout.elemLen <= v.buf.Length
  {
    v.layout.count
  }

  /** A view over a freshly computed array layout reports the configured count. */
  lemma DynLenOfConfig<F>(count: Usize, elem: Config, buf: seq<F>, off: nat)
    requires ComputeLayout(DynCfg(count, elem)).Ok?
    ensures DynLen(ConstView(buf, off, ComputeLayout(DynCfg(count, elem)).value)) == count
  {
    DynLayoutSpec(count, elem);
  }

  /** A mutable view over a freshly computed array layout reports the
      configured count too. */
  lemma DynLenMutOfConfig<F>(count: Usize, elem: Config, buf: array<F>, off: nat)
    requires ComputeLayout(DynCfg(count, elem)).Ok?
    ensures DynLenMut(MutView(buf, off, ComputeLayout(DynCfg(count, elem)).value)) == count
  {
    DynLayoutSpec(count, elem);
  }

  /** `get(i)`: the element view over `[i * elem_len, i * elem_len + elem_len)`
      of the array's region, which lies inside the array's footprint. The
      element's own view needs its footprint to fit in that sub-slice. */
  function DynGet<F>(v: ConstView<F>, i: nat): (e: ConstView<F>)
    requires v.layout.DynLayout? && v.Fits() && i < v.layout.count
    requires Len(v.layout.elemLayout) <= v.layout.elemLen
    ensures e.buf == v.buf && e.layout == v.layout.elemLayout && e.Fits()
    ensures e.off == v.off + ElemStart(v.layout, i)
    ensures e.off + v.layout.elemLen <= v.off + Len(v.layout)
    ensures e.Contents()
         == v.Contents()[ElemStart(v.layout, i) .. ElemStart(v.layout, i) + Len(e.layout)]
  {
    ElemInside(v.layout, i);
    SliceOfSlice(v.buf, v.off, v.off + Len(v.layout),
      ElemStart(v.layout, i), ElemStart(v.layout, i) + Len(v.layout.elemLayout));
    ConstView(v.buf, v.off + ElemStart(v.layout, i), v.layout.elemLayout)
  }

  /** `get_mut(i)`: the writable element view over the same sub-range of the
      same buffer. */
  function DynGetMut<F>(v: MutView<F>, i: nat): (e: MutView<F>)
    requires v.layout.DynLayout? && v.Fits() && i < v.layout.count
    requires Len(v.layout.elemLayout) <= v.layout.elemLen
    ensures e.buf == v.buf && e.layout == v.layout.elemLayout && e.Fits()
    ensures e.off == v.off + ElemStart(v.layout, i)
    ensures e.off + v.layout.elemLen <= v.off + Len(v.layout)
  {
    ElemInside(v.layout, i);
    MutView(v.buf, v.off + ElemStart(v.layout, i), v.layout.elemLayout)
  }

  /** `get(i)` on a mutable view reads the same element `get(i)` reads on a
      read-only view of the buffer as it stands. */
  function DynGetOfMut<F>(v: MutView<F>, i: nat): (e: ConstView<F>)
    requires v.layout.DynLayout? && v.Fits() && i < v.layout.count
    requires Len(v.layout.elemLayout) <= v.layout.elemLen
    reads v.buf
    ensures e.layout == v.layout.elemLayout && e.Fits()
    ensures e.off == DynGetMut(v, i).off
    ensures e.Contents() == v.buf[e.off .. e.off + Len(e.layout)]
  {
    DynGet(v.Frozen(), i)
  }

  /** Changing element `i`'s sub-range leaves every other element's view
      reading what it read before. */
  lemma DynOthersUnchanged<F>(v: ConstView<F>, w: ConstView<F>, i: nat, j: nat)
    requires v.layout.DynLayout? && v.Fits() && i < v.layout.count && j < v.layout.count && i != j
    requires Len(v.layout.elemLayout) <= v.layout.elemLen
    requires w.off == v.off && w.layout == v.layout && |w.buf| == |v.buf|
    requires forall k :: 0 <= k < |v.buf| && w.buf[k] != v.buf[k] ==>
      v.off + ElemStart(v.layout, i) <= k < v.off + ElemStart(v.layout, i) + v.layout.elemLen
    ensures DynGet(w, j).Contents() == DynGet(v, j).Contents()
  {
    ElemSeparate(v.layout, i, j);
    var a := DynGet(v, j);
    var b := DynGet(w, j);
    forall k | 0 <= k < Len(a.layout)
      ensures b.Contents()[k] == a.Contents()[k]
    {
      assert b.Contents()[k] == w.buf[a.off + k];
      assert a.Contents()[k] == v.buf[a.off + k];
    }
  }

  /** A slice of a slice is the slice of the whole at the shifted bounds. */
  lemma SliceOfSlice<F>(s: seq<F>, lo: nat, hi: nat, i: nat, j: nat)
    requires lo <= hi <= |s| && i <= j <= hi - lo
    ensures s[lo .. hi][i .. j] == s[lo + i .. lo + j]
  {
    forall k | 0 <= k < j - i
      ensures s[lo .. hi][i .. j][k] == s[lo + i .. lo + j][k]
    {
      assert s[lo .. hi][i .. j][k] == s[lo + i + k];
    }
  }

  // ---------- Record fields ----------

  /** A record field's accessor: the field's view over the field's range,
      `&base[layout.range]`, of the record's region. The range must lie
      inside the buffer and hold the field's footprint. */
  function FieldGet<F>(v: ConstView<F>, f: nat): (e: ConstView<F>)
    requires v.layout.RecordLayout? && f < |v.layout.ranges| && f < |v.layout.fields|
    requires v.layout.ranges[f].start + Len(v.layout.fields[f]) <= v.layout.ranges[f].end
    requires v.off + v.layout.ranges[f].end <= |v.buf|
    ensures e.buf == v.buf && e.layout == v.layout.fields[f] && e.Fits()
    ensures e.off == v.off + v.layout.ranges[f].start
    ensures e.Contents() == v.buf[e.off .. e.off + Len(e.layout)]
  {
    ConstView(v.buf, v.off + v.layout.ranges[f].start, v.layout.fields[f])
  }

  /** The mutable accessor of a record field: the same range, writable. */
  function FieldGetMut<F>(v: MutView<F>, f: nat): (e: MutView<F>)
    requires v.layout.RecordLayout? && f < |v.layout.ranges| && f < |v.layout.fields|
    requires v.layout.ranges[f].start + Len(v.layout.fields[f]) <= v.layout.ranges[f].end
    requires v.off + v.layout.ranges[f].end <= v.buf.Length
    ensures e.buf == v.buf && e.layout == v.layout.fields[f] && e.Fits()
    ensures e.off == v.off + v.layout.ranges[f].start
  {
    MutView(v.buf, v.off + v.layout.ranges[f].start, v.layout.fields[f])
  }

  /** In a well-formed record every field's range holds exactly its
      footprint and lies inside the record's footprint, so the field
      accessors apply to every field of a view that fits. */
  lemma FieldInside(l: Layout, f: nat)
    requires l.RecordLayout? && WellFormed(l) && f < |l.fields|
    ensures f < |l.ranges|
    ensures l.ranges[f].start + Len(l.fields[f]) == l.ranges[f].end <= Len(l)
  {
    CarveDense(0, Lens(l.fields));
    CarveBounds(0, Lens(l.fields));
  }
}
