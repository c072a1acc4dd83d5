/** The linear allocator that carves consecutive, disjoint index ranges out of
    one growing index space, and the pure description of what a sequence of
    requests receives. */
module Cursor {
  import opened Base

  /** Total of the requested sizes. */
  function Sum(sizes: seq<nat>): nat {
    if sizes == [] then 0 else sizes[0] + Sum(sizes[1..])
  }

  /** The ranges handed out, in order, to requests of `sizes` made against a
      cursor that stands at `start`. */
  function Carve(start: nat, sizes: seq<nat>): (r: seq<Range>)
    ensures |r| == |sizes|
    decreases sizes
  {
    if sizes == [] then []
    else [Range(start, start + sizes[0])] + Carve(start + sizes[0], sizes[1..])
  }

  lemma {:induction false} SumSnoc(sizes: seq<nat>, n: nat)
    ensures Sum(sizes + [n]) == Sum(sizes) + n
  {
    if sizes == [] {
      assert sizes + [n] == [n];
    } else {
      assert (sizes + [n])[1..] == sizes[1..] + [n];
      SumSnoc(sizes[1..], n);
    }
  }

  /** One more request extends the handed-out ranges by exactly one range,
      which starts where all earlier requests ended. */
  lemma {:induction false} CarveSnoc(start: nat, sizes: seq<nat>, n: nat)
    ensures Carve(start, sizes + [n])
         == Carve(start, sizes) + [Range(start + Sum(sizes), start + Sum(sizes) + n)]
    decreases sizes
  {
    if sizes == [] {
      assert sizes + [n] == [n];
    } else {
      assert (sizes + [n])[0] == sizes[0];
      assert (sizes + [n])[1..] == sizes[1..] + [n];
      CarveSnoc(start + sizes[0], sizes[1..], n);
    }
  }

  /** Every range has exactly the requested length. Ranges are adjacent, the
      first begins at the cursor's start and the last ends at start + Sum. */
  lemma {:induction false} CarveDense(start: nat, sizes: seq<nat>)
    ensures forall k :: 0 <= k < |sizes| ==>
      Carve(start, sizes)[k].end == Carve(start, sizes)[k].start + sizes[k]
    ensures forall k :: 0 <= k < |sizes| - 1 ==>
      Carve(start, sizes)[k].end == Carve(start, sizes)[k + 1].start
    ensures |sizes| > 0 ==> Carve(start, sizes)[0].start == start
    ensures |sizes| > 0 ==> Carve(start, sizes)[|sizes| - 1].end == start + Sum(sizes)
    decreases sizes
  {
    if sizes != [] {
      var tail := Carve(start + sizes[0], sizes[1..]);
      CarveDense(start + sizes[0], sizes[1..]);
      assert Carve(start, sizes) == [Range(start, start + sizes[0])] + tail;
    }
  }

  /** Every range lies inside `[start, start + Sum(sizes))`. */
  lemma {:induction false} CarveBounds(start: nat, sizes: seq<nat>)
    ensures forall k :: 0 <= k < |sizes| ==>
      start <= Carve(start, sizes)[k].start <= Carve(start, sizes)[k].end <= start + Sum(sizes)
    decreases sizes
  {
    if sizes != [] {
      CarveBounds(start + sizes[0], sizes[1..]);
      assert Carve(start, sizes)
          == [Range(start, start + sizes[0])] + Carve(start + sizes[0], sizes[1..]);
    }
  }

  /** Ranges follow request order and never overlap: an earlier range ends
      at or before the start of every later one. */
  lemma {:induction false} CarveOrdered(start: nat, sizes: seq<nat>, i: nat, j: nat)
    requires i < j < |sizes|
    ensures Carve(start, sizes)[i].end <= Carve(start, sizes)[j].start
    decreases sizes
  {
    var tail := Carve(start + sizes[0], sizes[1..]);
    assert Carve(start, sizes) == [Range(start, start + sizes[0])] + tail;
    if i == 0 {
      CarveBounds(start + sizes[0], sizes[1..]);
      assert tail[j - 1].start >= start + sizes[0];
    } else {
      CarveOrdered(start + sizes[0], sizes[1..], i - 1, j - 1);
    }
  }

  /** No gaps: every index in `[start, start + Sum(sizes))` belongs to one of
      the handed-out ranges. */
  lemma {:induction false} CarveCovers(start: nat, sizes: seq<nat>, x: nat) returns (k: nat)
    requires start <= x < start + Sum(sizes)
    ensures k < |sizes| && Carve(start, sizes)[k].Contains(x)
    decreases sizes
  {
    var tail := Carve(start + sizes[0], sizes[1..]);
    assert Carve(start, sizes) == [Range(start, start + sizes[0])] + tail;
    if x < start + sizes[0] {
      k := 0;
    } else {
      var k' := CarveCovers(start + sizes[0], sizes[1..], x);
      k := k' + 1;
    }
  }

  /** The `TakeCursor` of the engine: an index that only moves forward.
      `sizes` records every successful request, and `consumed` becomes true
      once `Finish` has taken the cursor. */
  class TakeCursor {
    var idx: Usize
    ghost var sizes: seq<nat>
    ghost var consumed: bool

    /** The cursor stands exactly at the end of everything handed out. */
    ghost predicate Valid()
      reads this
    {
      idx == Sum(sizes)
    }

    /** The ranges handed out so far, in order. */
    ghost function Taken(): seq<Range>
      reads this
    {
      Carve(0, sizes)
    }

    constructor ()
      ensures Valid() && !consumed
      ensures idx == 0 && sizes == [] && Taken() == []
    {
      idx := 0;
      sizes := [];
      consumed := false;
    }

    /** Hands out `[idx, idx + n)` and advances by `n`. A request that would
        carry the index past `USIZE_MAX` is refused with `Overflow` and
        leaves the cursor where it was. */
    method TakeRange(n: Usize) returns (r: Result<Range>)
      requires Valid() && !consumed
      modifies this`idx, this`sizes
      ensures Valid()
      ensures old(idx) + n > USIZE_MAX ==>
        r == Err(Overflow) && idx == old(idx) && sizes == old(sizes)
      ensures old(idx) + n <= USIZE_MAX ==>
        && r == Ok(Range(old(idx), old(idx) + n))
        && idx == old(idx) + n
        && sizes == old(sizes) + [n]
        && Taken() == old(Taken()) + [r.value]
    {
      var start := idx;
      if start + n > USIZE_MAX {
        return Err(Overflow);
      }
      idx := start + n;
      SumSnoc(sizes, n);
      CarveSnoc(0, sizes, n);
      sizes := sizes + [n];
      r := Ok(Range(start, idx));
    }

    /** Consumes the cursor and reports the total number of elements
        allocated, which is the sum of all granted requests. */
    method Finish() returns (total: Usize)
      requires Valid() && !consumed
      modifies this`consumed
      ensures consumed
      ensures total == Sum(sizes) == idx
    {
      consumed := true;
      total := idx;
    }
  }
}
