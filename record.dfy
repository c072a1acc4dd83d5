/** Records: the layout that the `#[contig]` attribute generates for a struct.
    Its `from_config` runs one `TakeCursor` over the fields in declaration
    order, takes one range per field of that field's footprint, and finishes
    the cursor to obtain the record's length. */
module Record {
  import opened Base
  import opened Cursor
  import opened Contig

  /** The record's layout so far: the ranges and layouts of the fields
      already placed, in front of what the remaining pass yields. */
  function Joined(ranges: seq<Range>, layouts: seq<Layout>, rest: Result<Fields>): Result<Fields> {
    match rest
    case Err(e) => Err(e)
    case Ok(f) => Ok(Fields(ranges + f.ranges, layouts + f.layouts, f.end))
  }

  /** The record layout built from the outcome of a complete pass. */
  function AsRecord(pass: Result<Fields>): Result<Layout> {
    match pass
    case Err(e) => Err(e)
    case Ok(f) => Ok(RecordLayout(f.ranges, f.layouts, f.end))
  }

  /** Placing field `i` moves it from the remaining pass to the placed prefix. */
  lemma JoinedStep(c: Config, i: nat, start: Usize, l: Layout, ranges: seq<Range>, layouts: seq<Layout>)
    requires c.RecordCfg? && i < |c.fields|
    requires ComputeLayout(c.fields[i]) == Ok(l) && start + Len(l) <= USIZE_MAX
    ensures Joined(ranges, layouts, FieldsFrom(c, i, start))
         == Joined(ranges + [Range(start, start + Len(l))], layouts + [l],
                   FieldsFrom(c, i + 1, start + Len(l)))
  {
    var rest := FieldsFrom(c, i + 1, start + Len(l));
    if rest.Ok? {
      assert ranges + ([Range(start, start + Len(l))] + rest.value.ranges)
          == (ranges + [Range(start, start + Len(l))]) + rest.value.ranges;
      assert layouts + ([l] + rest.value.layouts) == (layouts + [l]) + rest.value.layouts;
    }
  }

  /** A field that fails, or a range that would overflow, ends the pass
      with that error. */
  lemma JoinedStops(c: Config, i: nat, start: Usize, ranges: seq<Range>, layouts: seq<Layout>)
    requires c.RecordCfg? && i < |c.fields|
    ensures ComputeLayout(c.fields[i]).Err? ==>
      Joined(ranges, layouts, FieldsFrom(c, i, start)) == Err(ComputeLayout(c.fields[i]).error)
    ensures ComputeLayout(c.fields[i]).Ok? && start + Len(ComputeLayout(c.fields[i]).value) > USIZE_MAX ==>
      Joined(ranges, layouts, FieldsFrom(c, i, start)) == Err(Overflow)
  {
  }

  /** Past the last field the pass has placed everything. */
  lemma JoinedEnd(c: Config, start: Usize, ranges: seq<Range>, layouts: seq<Layout>)
    requires c.RecordCfg?
    ensures Joined(ranges, layouts, FieldsFrom(c, |c.fields|, start)) == Ok(Fields(ranges, layouts, start))
  {
    assert ranges + [] == ranges && layouts + [] == layouts;
  }

  /** The record layout is the whole pass, placed after nothing. */
  lemma JoinedWhole(fields: seq<Config>)
    ensures ComputeLayout(RecordCfg(fields)) == AsRecord(Joined([], [], FieldsFrom(RecordCfg(fields), 0, 0)))
  {
    var whole := FieldsFrom(RecordCfg(fields), 0, 0);
    if whole.Ok? {
      assert [] + whole.value.ranges == whole.value.ranges;
      assert [] + whole.value.layouts == whole.value.layouts;
    }
  }

  /** After the first `i` fields are placed, finishing the pass from the
      cursor's position yields the record's layout. */
  ghost predicate Progress(c: Config, i: nat, idx: Usize, ranges: seq<Range>, layouts: seq<Layout>) {
    && c.RecordCfg? && i <= |c.fields|
    && ComputeLayout(c) == AsRecord(Joined(ranges, layouts, FieldsFrom(c, i, idx)))
  }

  /** One field's step of the generated pass: compute the field's layout,
      then take a range of its footprint from the cursor. */
  method PlaceField(cursor: TakeCursor, field: Config) returns (r: Result<(Range, Layout)>)
    requires cursor.Valid() && !cursor.consumed
    modifies cursor`idx, cursor`sizes
    ensures cursor.Valid() && !cursor.consumed
    ensures ComputeLayout(field).Err? ==>
      r == Err(ComputeLayout(field).error)
    ensures ComputeLayout(field).Ok? ==>
      var l := ComputeLayout(field).value;
      if old(cursor.idx) + Len(l) > USIZE_MAX
      then r == Err(Overflow)
      else r == Ok((Range(old(cursor.idx), old(cursor.idx) + Len(l)), l))
           && cursor.idx == old(cursor.idx) + Len(l)
    ensures r.Err? ==> cursor.idx == old(cursor.idx) && cursor.sizes == old(cursor.sizes)
    ensures r.Ok? ==>
      && cursor.sizes == old(cursor.sizes) + [Len(r.value.1)]
      && cursor.Taken() == old(cursor.Taken()) + [r.value.0]
  {
    var l :- ComputeLayout(field);
    var range :- cursor.TakeRange(Len(l));
    r := Ok((range, l));
  }

  /** The generated `from_config`, driving a real `TakeCursor`: it yields
      exactly the record layout that `ComputeLayout` specifies. */
  method FromConfig(fields: seq<Config>) returns (r: Result<Layout>)
    ensures r == ComputeLayout(RecordCfg(fields))
  {
    var c := RecordCfg(fields);
    var cursor := new TakeCursor();
    var ranges: seq<Range> := [];
    var layouts: seq<Layout> := [];
    var i := 0;
    assert Progress(c, 0, 0, [], []) by { JoinedWhole(fields); }
    while i < |fields|
      invariant 0 <= i <= |fields|
      invariant cursor.Valid() && !cursor.consumed
      invariant Progress(c, i, cursor.idx, ranges, layouts)
      invariant cursor.Taken() == ranges
    {
      ghost var start := cursor.idx;
      var placed := PlaceField(cursor, fields[i]);
      if placed.Err? {
        assert ComputeLayout(c) == Err(placed.error) by {
          JoinedStops(c, i, start, ranges, layouts);
        }
        return Err(placed.error);
      }
      var (range, field) := placed.value;
      assert Progress(c, i + 1, cursor.idx, ranges + [range], layouts + [field]) by {
        JoinedStep(c, i, start, field, ranges, layouts);
      }
      ranges := ranges + [range];
      layouts := layouts + [field];
      i := i + 1;
    }
    assert ComputeLayout(c) == Ok(RecordLayout(ranges, layouts, cursor.idx)) by {
      JoinedEnd(c, cursor.idx, ranges, layouts);
    }
    var total := cursor.Finish();
    r := Ok(RecordLayout(ranges, layouts, total));
  }

  // ---------- The records of the integration and UI tests ----------

  /** `Link { mass: f64, pos: Vec3<f64> }`. */
  const LinkCfg := RecordCfg([ScalarCfg, Vec3Cfg])

  const LinkLayout := RecordLayout([Range(0, 1), Range(1, 4)], [ScalarLayout, Vec3Layout], 4)

  /** `Link` occupies 1 + 3 elements: `mass` at [0, 1) and `pos` at [1, 4). */
  lemma LinkFootprint()
    ensures ComputeLayout(LinkCfg) == Ok(LinkLayout)
  {
    var sizes := Lens([ScalarLayout, Vec3Layout]);
    assert sizes == [1, 3];
    assert Sum(sizes) == 4 by { assert sizes[1..] == [3]; }
    assert Carve(0, sizes) == [Range(0, 1), Range(1, 4)] by {
      assert sizes[1..] == [3];
      assert Carve(1, [3]) == [Range(1, 4)];
    }
    RecordFootprint(LinkCfg.fields, [ScalarLayout, Vec3Layout]);
  }

  /** Two links in a dynamic array occupy 2 * (1 + 3) elements. */
  lemma LinkArrayFootprint()
    ensures ComputeLayout(DynCfg(2, LinkCfg)).Ok?
    ensures Len(ComputeLayout(DynCfg(2, LinkCfg)).value) == 8
  {
    LinkFootprint();
  }

  /** `Robot { links: Dyn<[Link]>, scalars: Dyn<[f64]> }` with 2 links and 4
      scalars. */
  const RobotCfg := RecordCfg([DynCfg(2, LinkCfg), DynCfg(4, ScalarCfg)])

  const RobotLayout :=
    RecordLayout([Range(0, 8), Range(8, 12)], [DynLayout(2, LinkLayout, 4), DynLayout(4, ScalarLayout, 1)], 12)

  /** The robot's length is the sum of the two arrays' lengths, 8 + 4: the
      links at [0, 8) and the scalars at [8, 12). */
  lemma RobotFootprint()
    ensures ComputeLayout(RobotCfg).Ok?
    ensures Len(ComputeLayout(RobotCfg).value)
         == Len(ComputeLayout(DynCfg(2, LinkCfg)).value) + Len(ComputeLayout(DynCfg(4, ScalarCfg)).value)
         == 12
    ensures ComputeLayout(RobotCfg) == Ok(RobotLayout)
  {
    LinkFootprint();
    var links := DynLayout(2, LinkLayout, 4);
    var scalars := DynLayout(4, ScalarLayout, 1);
    assert ComputeLayout(DynCfg(2, LinkCfg)) == Ok(links);
    assert ComputeLayout(DynCfg(4, ScalarCfg)) == Ok(scalars);
    var sizes := Lens([links, scalars]);
    assert sizes == [8, 4];
    assert Sum(sizes) == 12 by {
      assert sizes[1..] == [4];
      assert Sum([4]) == 4 by { assert [4][1..] == []; }
    }
    assert Carve(0, sizes) == [Range(0, 8), Range(8, 12)] by {
      assert sizes[1..] == [4];
      assert Carve(8, [4]) == [Range(8, 12)];
    }
    RecordFootprint(RobotCfg.fields, [links, scalars]);
  }

  /** `Sample { dyns: Dyn<[f64]> (len 2), scalar: f64 }` occupies 2 + 1. */
  lemma SampleFootprint()
    ensures ComputeLayout(RecordCfg([DynCfg(2, ScalarCfg), ScalarCfg])).Ok?
    ensures Len(ComputeLayout(RecordCfg([DynCfg(2, ScalarCfg), ScalarCfg])).value) == 3
  {
    RecordFootprint([DynCfg(2, ScalarCfg), ScalarCfg], [DynLayout(2, ScalarLayout, 1), ScalarLayout]);
  }

  /** `Outer { inners: Dyn<[Inner]> }` with two `Inner { value: f64 }`
      occupies 2. */
  lemma OuterFootprint()
    ensures ComputeLayout(RecordCfg([DynCfg(2, RecordCfg([ScalarCfg]))])).Ok?
    ensures Len(ComputeLayout(RecordCfg([DynCfg(2, RecordCfg([ScalarCfg]))])).value) == 2
  {
    RecordFootprint([ScalarCfg], [ScalarLayout]);
    assert Lens([ScalarLayout]) == [1];
    assert Carve(0, [1]) == [Range(0, 1)];
    var inner := RecordLayout([Range(0, 1)], [ScalarLayout], 1);
    assert ComputeLayout(RecordCfg([ScalarCfg])) == Ok(inner);
    RecordFootprint([DynCfg(2, RecordCfg([ScalarCfg]))], [DynLayout(2, inner, 1)]);
  }

  /** `Nested { rows: Dyn<[Dyn<[f64]>]> }` with 2 rows of 3 occupies 2 * 3. */
  lemma NestedFootprint()
    ensures ComputeLayout(RecordCfg([DynCfg(2, DynCfg(3, ScalarCfg))])).Ok?
    ensures Len(ComputeLayout(RecordCfg([DynCfg(2, DynCfg(3, ScalarCfg))])).value) == 6
  {
    var rows := DynLayout(2, DynLayout(3, ScalarLayout, 1), 3);
    RecordFootprint([DynCfg(2, DynCfg(3, ScalarCfg))], [rows]);
  }
}
