/** The `Vec3` adapter: three consecutive elements read and written as
    `x`, `y` and `z`. */
module Vec3 {
  import opened Base
  import opened Contig
  import opened Views

  /** `Vec3::layout` always succeeds with the marker layout, and its
      footprint is the constant 3. */
  lemma Vec3Adapter()
    ensures ComputeLayout(Vec3Cfg) == Ok(Vec3Layout)
    ensures Len(Vec3Layout) == 3
  {
  }

  /** `view` and `view_mut` need three elements from `off` on and restrict
      the view to exactly those three. */
  lemma ViewCoversThree<F>(buf: seq<F>, off: nat)
    requires off + 3 <= |buf|
    ensures View(Vec3Layout, buf, off).Contents() == buf[off .. off + 3]
    ensures |View(Vec3Layout, buf, off).Contents()| == 3
  {
  }

  /** `x()`, `y()` and `z()` of the read-only view: slots 0, 1 and 2 of its
      three-element slice. */
  function X<F>(v: ConstView<F>): (r: F)
    requires v.layout == Vec3Layout && v.Fits()
    ensures r == v.Contents()[0]
  {
    v.buf[v.off]
  }

  function Y<F>(v: ConstView<F>): (r: F)
    requires v.layout == Vec3Layout && v.Fits()
    ensures r == v.Contents()[1]
  {
    v.buf[v.off + 1]
  }

  function Z<F>(v: ConstView<F>): (r: F)
    requires v.layout == Vec3Layout && v.Fits()
    ensures r == v.Contents()[2]
  {
    v.buf[v.off + 2]
  }

  /** `x()`, `y()` and `z()` of the mutable view: the writable slots 0, 1
      and 2 of its slice, inside the buffer. */
  function MutX<F>(v: MutView<F>): (p: Place<F>)
    requires v.layout == Vec3Layout && v.Fits()
    ensures p.buf == v.buf && p.index == v.off && p.index < v.buf.Length
  {
    Place(v.buf, v.off)
  }

  function MutY<F>(v: MutView<F>): (p: Place<F>)
    requires v.layout == Vec3Layout && v.Fits()
    ensures p.buf == v.buf && p.index == v.off + 1 && p.index < v.buf.Length
  {
    Place(v.buf, v.off + 1)
  }

  function MutZ<F>(v: MutView<F>): (p: Place<F>)
    requires v.layout == Vec3Layout && v.Fits()
    ensures p.buf == v.buf && p.index == v.off + 2 && p.index < v.buf.Length
  {
    Place(v.buf, v.off + 2)
  }

  /** The three mutable accessors address three different slots. */
  lemma SlotsDistinct<F>(v: MutView<F>)
    requires v.layout == Vec3Layout && v.Fits()
    ensures MutX(v).index != MutY(v).index
    ensures MutX(v).index != MutZ(v).index
    ensures MutY(v).index != MutZ(v).index
  {
  }

  /** The buffer after `set(x, y, z)` on the view at `off`: the three slots
      hold the new values and every other position is as before. */
  function Written<F>(s: seq<F>, off: nat, x: F, y: F, z: F): (r: seq<F>)
    requires off + 3 <= |s|
    ensures |r| == |s|
    ensures r[off] == x && r[off + 1] == y && r[off + 2] == z
    ensures forall k :: 0 <= k < |s| && (k < off || off + 3 <= k) ==> r[k] == s[k]
  {
    s[off := x][off + 1 := y][off + 2 := z]
  }

  /** `set(x, y, z)`: writes slot 0, then 1, then 2 of the view's slice. */
  method Set<F>(v: MutView<F>, x: F, y: F, z: F)
    requires v.layout == Vec3Layout && v.Fits()
    modifies v.buf
    ensures v.buf[..] == Written(old(v.buf[..]), v.off, x, y, z)
  {
    Store(MutX(v), x);
    Store(MutY(v), y);
    Store(MutZ(v), z);
  }

  /** After `set(a, b, c)` the accessors read back `a`, `b` and `c`. */
  lemma SetThenRead<F>(s: seq<F>, off: nat, a: F, b: F, c: F)
    requires off + 3 <= |s|
    ensures var v := ConstView(Written(s, off, a, b, c), off, Vec3Layout);
      X(v) == a && Y(v) == b && Z(v) == c
  {
  }

  /** Writing through one mutable accessor changes its own slot and leaves
      the other two slots, and everything outside the three, as they were. */
  method WriteX<F>(v: MutView<F>, a: F)
    requires v.layout == Vec3Layout && v.Fits()
    modifies v.buf
    ensures X(v.Frozen()) == a
    ensures Y(v.Frozen()) == old(Y(v.Frozen())) && Z(v.Frozen()) == old(Z(v.Frozen()))
    ensures forall k :: 0 <= k < v.buf.Length && k != v.off ==> v.buf[k] == old(v.buf[k])
  {
    Store(MutX(v), a);
  }

  method WriteY<F>(v: MutView<F>, b: F)
    requires v.layout == Vec3Layout && v.Fits()
    modifies v.buf
    ensures Y(v.Frozen()) == b
    ensures X(v.Frozen()) == old(X(v.Frozen())) && Z(v.Frozen()) == old(Z(v.Frozen()))
    ensures forall k :: 0 <= k < v.buf.Length && k != v.off + 1 ==> v.buf[k] == old(v.buf[k])
  {
    Store(MutY(v), b);
  }

  method WriteZ<F>(v: MutView<F>, c: F)
    requires v.layout == Vec3Layout && v.Fits()
    modifies v.buf
    ensures Z(v.Frozen()) == c
    ensures X(v.Frozen()) == old(X(v.Frozen())) && Y(v.Frozen()) == old(Y(v.Frozen()))
    ensures forall k :: 0 <= k < v.buf.Length && k != v.off + 2 ==> v.buf[k] == old(v.buf[k])
  {
    Store(MutZ(v), c);
  }

  /** Slot `k` of the view as a scalar view: what `x()` (k = 0), `y()`
      (k = 1) and `z()` (k = 2) point at. */
  function Component<F>(v: ConstView<F>, k: nat): (e: ConstView<F>)
    requires v.layout == Vec3Layout && v.Fits() && k < 3
    ensures e.buf == v.buf && e.off == v.off + k && e.layout == ScalarLayout && e.Fits()
    ensures ScalarGet(e) == v.Contents()[k]
    ensures k == 0 ==> ScalarGet(e) == X(v)
    ensures k == 1 ==> ScalarGet(e) == Y(v)
    ensures k == 2 ==> ScalarGet(e) == Z(v)
  {
    ConstView(v.buf, v.off + k, ScalarLayout)
  }

  /** The writable slot `k` as a scalar view over the same buffer. */
  function ComponentMut<F>(v: MutView<F>, k: nat): (e: MutView<F>)
    requires v.layout == Vec3Layout && v.Fits() && k < 3
    ensures e.buf == v.buf && e.off == v.off + k && e.layout == ScalarLayout && e.Fits()
    ensures k == 0 ==> ScalarGetMut(e) == MutX(v)
    ensures k == 1 ==> ScalarGetMut(e) == MutY(v)
    ensures k == 2 ==> ScalarGetMut(e) == MutZ(v)
  {
    MutView(v.buf, v.off + k, ScalarLayout)
  }
}
