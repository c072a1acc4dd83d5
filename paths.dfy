/** Nested addressing. Views compose: an array entry, a record field or a
    `Vec3` slot is itself a view, so any position of a packed value is
    reached by a chain of accessors such as `rows().get_mut(r).get_mut(c)`.
    A path names such a chain and `Resolve` gives where it leads. */
module Paths {
  import opened Base
  import opened Cursor
  import opened Contig
  import opened Views
  import opened Vec3
  import opened Record

  /** One accessor: entry `i` of a dynamic array (`get` / `get_mut`), field
      `f` of a record (the generated field accessor), or slot `k` of a
      `Vec3` (`x`, `y`, `z`). */
  datatype Step = Elem(i: nat) | Field(f: nat) | Comp(k: nat)

  /** Where one accessor leads from a layout: the child's offset from the
      parent's start and the child's layout, or `None` when the accessor
      does not apply. */
  function Child(l: Layout, s: Step): Option<(nat, Layout)> {
    match s
    case Elem(i) =>
      if l.DynLayout? && i < l.count then Some((ElemStart(l, i), l.elemLayout)) else None
    case Field(f) =>
      if l.RecordLayout? && f < |l.ranges| && f < |l.fields|
      then Some((l.ranges[f].start, l.fields[f])) else None
    case Comp(k) =>
      if l == Vec3Layout && k < 3 then Some((k, ScalarLayout)) else None
  }

  /** Where a chain of accessors leads: the offset from the outer layout's
      start and the innermost layout. */
  function Resolve(l: Layout, p: seq<Step>): Option<(nat, Layout)>
    decreases p
  {
    if p == [] then Some((0, l))
    else
      match Child(l, p[0])
      case None => None
      case Some((o, c)) =>
        match Resolve(c, p[1..])
        case None => None
        case Some((o', leaf)) => Some((o + o', leaf))
  }

  /** A child of a well-formed layout is well formed and lies inside its
      parent's footprint. */
  lemma ChildInside(l: Layout, s: Step)
    requires WellFormed(l) && Child(l, s).Some?
    ensures WellFormed(Child(l, s).value.1)
    ensures Child(l, s).value.0 + Len(Child(l, s).value.1) <= Len(l)
  {
    match s
    case Elem(i) => ElemInside(l, i);
    case Field(f) => FieldInside(l, f);
    case Comp(k) =>
  }

  /** Two different accessors applied to one well-formed layout lead to
      separate regions. */
  lemma ChildSeparate(l: Layout, s: Step, t: Step)
    requires WellFormed(l) && s != t && Child(l, s).Some? && Child(l, t).Some?
    ensures Separate(Child(l, s).value.0, Len(Child(l, s).value.1),
                     Child(l, t).value.0, Len(Child(l, t).value.1))
  {
    if s.Elem? && t.Elem? {
      ElemSeparate(l, s.i, t.i);
    } else if s.Field? && t.Field? {
      FieldInside(l, s.f);
      FieldInside(l, t.f);
      if s.f < t.f {
        CarveOrdered(0, Lens(l.fields), s.f, t.f);
      } else {
        CarveOrdered(0, Lens(l.fields), t.f, s.f);
      }
    }
  }

  /** Whatever a path leads to inside a well-formed layout is well formed
      and lies inside the layout's footprint. */
  lemma {:induction false} PathInside(l: Layout, p: seq<Step>)
    requires WellFormed(l) && Resolve(l, p).Some?
    ensures WellFormed(Resolve(l, p).value.1)
    ensures Resolve(l, p).value.0 + Len(Resolve(l, p).value.1) <= Len(l)
    decreases p
  {
    if p != [] {
      ChildInside(l, p[0]);
      var c := Child(l, p[0]).value.1;
      PathInside(c, p[1..]);
    }
  }

  /** Two paths that agree on their first `k` accessors and differ at the
      next one lead to separate regions: neither is inside the other. */
  lemma {:induction false} PathsDisjoint(l: Layout, p: seq<Step>, q: seq<Step>, k: nat)
    requires WellFormed(l) && k < |p| && k < |q| && p[..k] == q[..k] && p[k] != q[k]
    requires Resolve(l, p).Some? && Resolve(l, q).Some?
    ensures Separate(Resolve(l, p).value.0, Len(Resolve(l, p).value.1),
                     Resolve(l, q).value.0, Len(Resolve(l, q).value.1))
    decreases k
  {
    var (o, c) := Child(l, p[0]).value;
    var (o', c') := Child(l, q[0]).value;
    ChildInside(l, p[0]);
    ChildInside(l, q[0]);
    if k == 0 {
      ChildSeparate(l, p[0], q[0]);
      PathInside(c, p[1..]);
      PathInside(c', q[1..]);
    } else {
      assert p[0] == p[..k][0] && q[0] == q[..k][0];
      assert p[1..][..k - 1] == p[..k][1..] && q[1..][..k - 1] == q[..k][1..];
      PathsDisjoint(c, p[1..], q[1..], k - 1);
    }
  }

  /** A path that resolves takes its first accessor, then resolves the rest
      from there, adding the offsets. */
  lemma ResolveCons(l: Layout, p: seq<Step>)
    requires p != [] && Resolve(l, p).Some?
    ensures Child(l, p[0]).Some? && Resolve(Child(l, p[0]).value.1, p[1..]).Some?
    ensures Resolve(l, p).value
         == (Child(l, p[0]).value.0 + Resolve(Child(l, p[0]).value.1, p[1..]).value.0,
             Resolve(Child(l, p[0]).value.1, p[1..]).value.1)
  {
  }

  /** Reading through a chain of accessors of a read-only view: the view
      of the resolved layout at the resolved offset, or `None` where an
      accessor does not apply. */
  function ReadAt<F>(v: ConstView<F>, p: seq<Step>): (r: Option<ConstView<F>>)
    requires v.Fits() && WellFormed(v.layout)
    ensures r.Some? <==> Resolve(v.layout, p).Some?
    ensures r.Some? ==>
      && r.value.buf == v.buf
      && r.value.off == v.off + Resolve(v.layout, p).value.0
      && r.value.layout == Resolve(v.layout, p).value.1
      && r.value.Fits()
      && WellFormed(r.value.layout)
    decreases p
  {
    if p == [] then Some(v)
    else if Child(v.layout, p[0]).None? then None
    else
      ChildInside(v.layout, p[0]);
      match p[0]
      case Elem(i) => ReadAt(DynGet(v, i), p[1..])
      case Field(f) => FieldInside(v.layout, f); ReadAt(FieldGet(v, f), p[1..])
      case Comp(k) => ReadAt(Component(v, k), p[1..])
  }

  /** The buffer once `x` is stored at the scalar a path leads to. */
  function AfterStore<F>(v: ConstView<F>, p: seq<Step>, x: F): (w: ConstView<F>)
    requires v.Fits() && WellFormed(v.layout)
    requires Resolve(v.layout, p).Some? && Resolve(v.layout, p).value.1 == ScalarLayout
    ensures v.off + Resolve(v.layout, p).value.0 < |v.buf|
    ensures w == ConstView(v.buf[v.off + Resolve(v.layout, p).value.0 := x], v.off, v.layout)
  {
    PathInside(v.layout, p);
    ConstView(v.buf[v.off + Resolve(v.layout, p).value.0 := x], v.off, v.layout)
  }

  /** Writing `x` through a chain of mutable accessors that ends at a
      scalar: exactly the one resolved slot of the buffer changes. */
  method StoreAt<F>(v: MutView<F>, p: seq<Step>, x: F)
    requires v.Fits() && WellFormed(v.layout)
    requires Resolve(v.layout, p).Some? && Resolve(v.layout, p).value.1 == ScalarLayout
    modifies v.buf
    ensures v.buf[..] == AfterStore(old(v.Frozen()), p, x).buf
    decreases p
  {
    if p == [] {
      Store(ScalarGetMut(v), x);
    } else {
      ResolveCons(v.layout, p);
      ChildInside(v.layout, p[0]);
      var e: MutView<F>;
      match p[0] {
        case Elem(i) =>
          e := DynGetMut(v, i);
        case Field(f) =>
          FieldInside(v.layout, f);
          e := FieldGetMut(v, f);
        case Comp(k) =>
          e := ComponentMut(v, k);
      }
      assert e.off == v.off + Child(v.layout, p[0]).value.0 && e.layout == Child(v.layout, p[0]).value.1;
      StoreAt(e, p[1..], x);
    }
  }

  /** Reading back through the same path returns the value stored. */
  lemma StoreThenRead<F>(v: ConstView<F>, p: seq<Step>, x: F)
    requires v.Fits() && WellFormed(v.layout)
    requires Resolve(v.layout, p).Some? && Resolve(v.layout, p).value.1 == ScalarLayout
    ensures ReadAt(AfterStore(v, p, x), p).Some?
    ensures ScalarGet(ReadAt(AfterStore(v, p, x), p).value) == x
  {
    var r := ReadAt(AfterStore(v, p, x), p).value;
    assert r.Contents() == [r.buf[r.off]];
  }

  /** A store through one path leaves every view reached by a path that
      branches off it reading exactly what it read before. */
  lemma StoreLeavesOthers<F>(v: ConstView<F>, p: seq<Step>, q: seq<Step>, k: nat, x: F)
    requires v.Fits() && WellFormed(v.layout)
    requires Resolve(v.layout, p).Some? && Resolve(v.layout, p).value.1 == ScalarLayout
    requires Resolve(v.layout, q).Some?
    requires k < |p| && k < |q| && p[..k] == q[..k] && p[k] != q[k]
    ensures ReadAt(AfterStore(v, p, x), q).Some?
    ensures ReadAt(AfterStore(v, p, x), q).value.Contents() == ReadAt(v, q).value.Contents()
  {
    var o := Resolve(v.layout, p).value.0;
    var (o', l') := Resolve(v.layout, q).value;
    assert Separate(o, 1, o', Len(l')) by {
      PathsDisjoint(v.layout, p, q, k);
    }
    assert v.off + o < |v.buf| by {
      PathInside(v.layout, p);
    }
    var w := AfterStore(v, p, x);
    ReadAtContents(v, q);
    ReadAtContents(w, q);
    UpdateOutside(v.buf, v.off + o, x, v.off + o', Len(l'));
  }

  /** What a path reads is the resolved layout's footprint at the resolved
      offset of the buffer. */
  lemma ReadAtContents<F>(v: ConstView<F>, q: seq<Step>)
    requires v.Fits() && WellFormed(v.layout) && Resolve(v.layout, q).Some?
    ensures ReadAt(v, q).Some?
    ensures var (o, l) := Resolve(v.layout, q).value;
      ReadAt(v, q).value.Contents() == v.buf[v.off + o .. v.off + o + Len(l)]
  {
  }

  /** Updating one position leaves a slice that does not contain it as it was. */
  lemma UpdateOutside<F>(s: seq<F>, i: nat, x: F, start: nat, n: nat)
    requires i < |s| && start + n <= |s| && (i < start || start + n <= i)
    ensures s[i := x][start .. start + n] == s[start .. start + n]
  {
    var before := s[start .. start + n];
    var after := s[i := x][start .. start + n];
    forall j | 0 <= j < n
      ensures after[j] == before[j]
    {
      assert after[j] == s[i := x][start + j];
    }
  }

  // ---------- The nested array of the integration test ----------

  /** `Dyn<[Dyn<[f64]>]>` configured as 2 rows of 3. */
  const NestedCfg := DynCfg(2, DynCfg(3, ScalarCfg))

  /** Its layout occupies 2 * 3 elements, and cell `(r, c)` sits at
      `r * 3 + c`, so the six cells are six different elements. */
  lemma NestedCells(r: nat, c: nat)
    requires r < 2 && c < 3
    ensures ComputeLayout(NestedCfg).Ok?
    ensures Len(ComputeLayout(NestedCfg).value) == 6
    ensures Resolve(ComputeLayout(NestedCfg).value, [Elem(r), Elem(c)]) == Some((r * 3 + c, ScalarLayout))
  {
    var row := DynLayout(3, ScalarLayout, 1);
    var l := DynLayout(2, row, 3);
    assert ComputeLayout(NestedCfg) == Ok(l);
    assert Resolve(row, [Elem(c)]) == Some((c, ScalarLayout)) by {
      assert [Elem(c)][1..] == [];
    }
    assert [Elem(r), Elem(c)][1..] == [Elem(c)];
    assert Child(l, Elem(r)) == Some((r * 3, row));
  }

  /** Every cell of the nest round-trips: after storing `x` at `(r, c)`,
      cell `(r, c)` reads `x` and every other cell reads what it held. */
  lemma NestedRoundTrip<F>(buf: seq<F>, r: nat, c: nat, r': nat, c': nat, x: F)
    requires |buf| >= 6 && r < 2 && c < 3 && r' < 2 && c' < 3 && (r, c) != (r', c')
    ensures ComputeLayout(NestedCfg).Ok? && WellFormed(ComputeLayout(NestedCfg).value)
    ensures Resolve(ComputeLayout(NestedCfg).value, [Elem(r), Elem(c)]) == Some((r * 3 + c, ScalarLayout))
    ensures Resolve(ComputeLayout(NestedCfg).value, [Elem(r'), Elem(c')]) == Some((r' * 3 + c', ScalarLayout))
    ensures var v := ConstView(buf, 0, ComputeLayout(NestedCfg).value);
      && ReadAt(AfterStore(v, [Elem(r), Elem(c)], x), [Elem(r), Elem(c)]).Some?
      && ScalarGet(ReadAt(AfterStore(v, [Elem(r), Elem(c)], x), [Elem(r), Elem(c)]).value) == x
      && ReadAt(AfterStore(v, [Elem(r), Elem(c)], x), [Elem(r'), Elem(c')]).Some?
      && ReadAt(AfterStore(v, [Elem(r), Elem(c)], x), [Elem(r'), Elem(c')]).value.Contents()
         == ReadAt(v, [Elem(r'), Elem(c')]).value.Contents()
  {
    NestedCells(r, c);
    NestedCells(r', c');
    LayoutWellFormed(NestedCfg);
    var v := ConstView(buf, 0, ComputeLayout(NestedCfg).value);
    var p := [Elem(r), Elem(c)];
    var q := [Elem(r'), Elem(c')];
    StoreThenRead(v, p, x);
    var k := if r != r' then 0 else 1;
    assert p[..k] == q[..k];
    StoreLeavesOthers(v, p, q, k, x);
  }

  // ---------- The robot of the integration test ----------

  /** In a link, `mass` sits at 0 and slot `k` of `pos` at `1 + k`. */
  lemma LinkCells(k: nat)
    requires k < 3
    ensures Resolve(LinkLayout, [Field(0)]) == Some((0, ScalarLayout))
    ensures Resolve(LinkLayout, [Field(1), Comp(k)]) == Some((1 + k, ScalarLayout))
  {
    assert [Field(0)][1..] == [];
    assert Resolve(Vec3Layout, [Comp(k)]) == Some((k, ScalarLayout)) by {
      assert [Comp(k)][1..] == [];
    }
    assert [Field(1), Comp(k)][1..] == [Comp(k)];
  }

  /** In the robot's array of links, link `i`'s `mass` sits at `4 * i` and
      slot `k` of its `pos` at `4 * i + 1 + k`. */
  lemma LinksCells(i: nat, k: nat)
    requires i < 2 && k < 3
    ensures Resolve(DynLayout(2, LinkLayout, 4), [Elem(i), Field(0)]) == Some((4 * i, ScalarLayout))
    ensures Resolve(DynLayout(2, LinkLayout, 4), [Elem(i), Field(1), Comp(k)])
         == Some((4 * i + 1 + k, ScalarLayout))
  {
    LinkCells(k);
    assert [Elem(i), Field(0)][1..] == [Field(0)];
    assert [Elem(i), Field(1), Comp(k)][1..] == [Field(1), Comp(k)];
  }

  /** In the robot, link `i`'s `mass` sits at `4 * i`, slot `k` of its
      `pos` at `4 * i + 1 + k`, and scalar `j` at `8 + j`: the positions
      the integration test writes and reads back. */
  lemma RobotCells(i: nat, k: nat, j: nat)
    requires i < 2 && k < 3 && j < 4
    ensures ComputeLayout(RobotCfg) == Ok(RobotLayout)
    ensures Resolve(RobotLayout, [Field(0), Elem(i), Field(0)]) == Some((4 * i, ScalarLayout))
    ensures Resolve(RobotLayout, [Field(0), Elem(i), Field(1), Comp(k)])
         == Some((4 * i + 1 + k, ScalarLayout))
    ensures Resolve(RobotLayout, [Field(1), Elem(j)]) == Some((8 + j, ScalarLayout))
  {
    RobotFootprint();
    LinksCells(i, k);
    assert Resolve(DynLayout(4, ScalarLayout, 1), [Elem(j)]) == Some((j, ScalarLayout)) by {
      assert [Elem(j)][1..] == [];
    }
    assert [Field(1), Elem(j)][1..] == [Elem(j)];
    assert [Field(0), Elem(i), Field(0)][1..] == [Elem(i), Field(0)];
    assert [Field(0), Elem(i), Field(1), Comp(k)][1..] == [Elem(i), Field(1), Comp(k)];
  }
}
