/**
 The check that builds a frame from buffers and plane descriptors: every plane must lie in its
 buffer, every stride must cover a line, and planes of one buffer must not overlap. Only neighbours
 in sorted order are compared.
 */
module PlaneCheck {

  datatype PlaneDescriptor = PlaneDescriptor(buffer: nat, offset: nat, stride: nat)

  /** `Panic` stands for an index out of bounds. */
  datatype Outcome = Built | BufferOutOfRange | BufferTooSmall | InvalidStride | BufferAlias | Panic

  datatype Range = Range(buffer: nat, start: nat, end: nat)

  /** The lexicographic order of the triples. */
  predicate Leq(a: Range, b: Range) {
    a.buffer < b.buffer || (a.buffer == b.buffer && (a.start < b.start || (a.start == b.start && a.end <= b.end)))
  }

  predicate Sorted(rs: seq<Range>) {
    forall i, j :: 0 <= i < j < |rs| ==> Leq(rs[i], rs[j])
  }

  predicate Proper(rs: seq<Range>) {
    forall i :: 0 <= i < |rs| ==> rs[i].start <= rs[i].end
  }

  /** The ranges do not overlap: other buffers, or one ends before the other begins. */
  predicate Apart(a: Range, b: Range) {
    a.buffer != b.buffer || a.end <= b.start || b.end <= a.start
  }

  predicate AllApart(rs: seq<Range>) {
    forall i, j :: 0 <= i < j < |rs| ==> Apart(rs[i], rs[j])
  }

  predicate ApartFrom(x: Range, rs: seq<Range>) {
    forall i :: 0 <= i < |rs| ==> Apart(x, rs[i])
  }

  // ----- sorting

  function Insert(x: Range, rs: seq<Range>): (r: seq<Range>) {
    if rs == [] then [x]
    else if Leq(x, rs[0]) then [x] + rs
    else [rs[0]] + Insert(x, rs[1..])
  }

  function Sort(rs: seq<Range>): (r: seq<Range>) {
    if rs == [] then [] else Insert(rs[0], Sort(rs[1..]))
  }

  lemma {:induction false} InsertElements(x: Range, rs: seq<Range>)
    ensures multiset(Insert(x, rs)) == multiset(rs) + multiset{x}
  {
    if rs != [] && !Leq(x, rs[0]) {
      InsertElements(x, rs[1..]);
      assert rs == [rs[0]] + rs[1..];
    }
  }

  lemma {:induction false} InsertSorted(x: Range, rs: seq<Range>)
    requires Sorted(rs)
    ensures Sorted(Insert(x, rs))
  {
    if rs != [] && !Leq(x, rs[0]) {
      InsertSorted(x, rs[1..]);
      var tail := Insert(x, rs[1..]);
      InsertElements(x, rs[1..]);
      forall j | 0 <= j < |tail|
        ensures Leq(rs[0], tail[j])
      {
        assert tail[j] in multiset(tail);
        if tail[j] != x {
          assert tail[j] in rs[1..];
        }
      }
    }
  }

  lemma {:induction false} SortSorts(rs: seq<Range>)
    ensures Sorted(Sort(rs)) && multiset(Sort(rs)) == multiset(rs)
  {
    if rs != [] {
      SortSorts(rs[1..]);
      InsertSorted(rs[0], Sort(rs[1..]));
      InsertElements(rs[0], Sort(rs[1..]));
      assert rs == [rs[0]] + rs[1..];
    }
  }

  lemma {:induction false} InsertApartFrom(y: Range, x: Range, rs: seq<Range>)
    ensures ApartFrom(y, Insert(x, rs)) <==> Apart(y, x) && ApartFrom(y, rs)
  {
    if rs == [] {
      assert Insert(x, rs)[0] == x;
    } else if Leq(x, rs[0]) {
      assert ([x] + rs)[0] == x;
      assert forall i :: 0 <= i < |rs| ==> ([x] + rs)[i + 1] == rs[i];
    } else {
      InsertApartFrom(y, x, rs[1..]);
      ApartFromCons(y, rs[0], Insert(x, rs[1..]));
      ApartFromCons(y, rs[0], rs[1..]);
      assert [rs[0]] + rs[1..] == rs;
    }
  }

  lemma ApartFromCons(y: Range, z: Range, rs: seq<Range>)
    ensures ApartFrom(y, [z] + rs) <==> Apart(y, z) && ApartFrom(y, rs)
  {
    assert ([z] + rs)[0] == z;
    assert forall i :: 0 <= i < |rs| ==> ([z] + rs)[i + 1] == rs[i];
  }

  lemma AllApartCons(z: Range, rs: seq<Range>)
    ensures AllApart([z] + rs) <==> ApartFrom(z, rs) && AllApart(rs)
  {
    var all := [z] + rs;
    assert forall i :: 0 <= i < |rs| ==> all[i + 1] == rs[i];
    if AllApart(all) {
      forall i | 0 <= i < |rs|
        ensures Apart(z, rs[i])
      {
        assert Apart(all[0], all[i + 1]);
      }
      forall i, j | 0 <= i < j < |rs|
        ensures Apart(rs[i], rs[j])
      {
        assert Apart(all[i + 1], all[j + 1]);
      }
    }
  }

  lemma {:induction false} InsertAllApart(x: Range, rs: seq<Range>)
    ensures AllApart(Insert(x, rs)) <==> ApartFrom(x, rs) && AllApart(rs)
  {
    if rs == [] {
    } else if Leq(x, rs[0]) {
      AllApartCons(x, rs);
    } else {
      InsertAllApart(x, rs[1..]);
      AllApartCons(rs[0], Insert(x, rs[1..]));
      InsertApartFrom(rs[0], x, rs[1..]);
      AllApartCons(rs[0], rs[1..]);
      ApartFromCons(x, rs[0], rs[1..]);
      assert [rs[0]] + rs[1..] == rs;
    }
  }

  lemma {:induction false} SortApartFrom(y: Range, rs: seq<Range>)
    ensures ApartFrom(y, Sort(rs)) <==> ApartFrom(y, rs)
  {
    if rs != [] {
      SortApartFrom(y, rs[1..]);
      InsertApartFrom(y, rs[0], Sort(rs[1..]));
      ApartFromCons(y, rs[0], rs[1..]);
      assert [rs[0]] + rs[1..] == rs;
    }
  }

  /** Sorting does not change whether ranges overlap. */
  lemma {:induction false} SortAllApart(rs: seq<Range>)
    ensures AllApart(Sort(rs)) <==> AllApart(rs)
  {
    if rs != [] {
      SortAllApart(rs[1..]);
      InsertAllApart(rs[0], Sort(rs[1..]));
      SortApartFrom(rs[0], rs[1..]);
      AllApartCons(rs[0], rs[1..]);
      assert [rs[0]] + rs[1..] == rs;
    }
  }

  // ----- neighbours suffice

  predicate NeighboursApart(rs: seq<Range>) {
    forall i :: 0 <= i < |rs| - 1 ==> rs[i].buffer != rs[i + 1].buffer || rs[i].end <= rs[i + 1].start
  }

  /** In sorted order, comparing each range with the next one decides the question for all pairs. */
  lemma NeighboursDecide(rs: seq<Range>)
    requires Sorted(rs) && Proper(rs)
    ensures NeighboursApart(rs) <==> AllApart(rs)
  {
    if NeighboursApart(rs) {
      forall i, j | 0 <= i < j < |rs|
        ensures Apart(rs[i], rs[j])
      {
        EndsBefore(rs, i, j);
      }
    }
    if AllApart(rs) {
      forall i | 0 <= i < |rs| - 1
        ensures rs[i].buffer != rs[i + 1].buffer || rs[i].end <= rs[i + 1].start
      {
        assert Apart(rs[i], rs[i + 1]) && Leq(rs[i], rs[i + 1]);
      }
    }
  }

  lemma {:induction false} EndsBefore(rs: seq<Range>, i: nat, j: nat)
    requires Sorted(rs) && Proper(rs) && NeighboursApart(rs) && i < j < |rs|
    ensures rs[i].buffer == rs[j].buffer ==> rs[i].end <= rs[j].start
    decreases j - i
  {
    if i + 1 < j {
      EndsBefore(rs, i + 1, j);
      assert Leq(rs[i], rs[i + 1]) && Leq(rs[i + 1], rs[j]);
    }
  }

  // ----- the check

  /** The tests made on one plane, in order. */
  function CheckPlane(buffers: seq<nat>, sizes: seq<nat>, lines: seq<nat>, p: PlaneDescriptor, i: nat): (r: Outcome)
    requires i < |lines|
  {
    if p.buffer > |buffers| then BufferOutOfRange
    else if i >= |sizes| || p.buffer == |buffers| then Panic
    else if p.offset + sizes[i] > buffers[p.buffer] then BufferTooSmall
    else if p.stride < lines[i] then InvalidStride
    else Built
  }

  /** The range of a plane that passed its tests. */
  function RangeOf(sizes: seq<nat>, p: PlaneDescriptor, i: nat): (r: Range)
    requires i < |sizes|
  {
    Range(p.buffer, p.offset, p.offset + sizes[i])
  }

  function RangesOf(sizes: seq<nat>, planes: seq<PlaneDescriptor>): (r: seq<Range>)
    requires |planes| <= |sizes|
    ensures |r| == |planes| && forall i :: 0 <= i < |planes| ==> r[i] == RangeOf(sizes, planes[i], i)
  {
    seq(|planes|, i requires 0 <= i < |planes| => RangeOf(sizes, planes[i], i))
  }

  /** The plane lies in its buffer, and its stride covers a line. */
  predicate Fits(buffers: seq<nat>, sizes: seq<nat>, lines: seq<nat>, p: PlaneDescriptor, i: nat)
    requires i < |lines|
  {
    && p.buffer < |buffers| && i < |sizes|
    && p.offset + sizes[i] <= buffers[p.buffer]
    && lines[i] <= p.stride
  }

  /** Of any two planes in one buffer, one ends before the other begins. */
  predicate PlanesApart(sizes: seq<nat>, planes: seq<PlaneDescriptor>)
    requires |planes| <= |sizes|
  {
    forall i, j :: 0 <= i < j < |planes| ==>
      || planes[i].buffer != planes[j].buffer
      || planes[i].offset + sizes[i] <= planes[j].offset
      || planes[j].offset + sizes[j] <= planes[i].offset
  }

  predicate AllFit(buffers: seq<nat>, sizes: seq<nat>, lines: seq<nat>, planes: seq<PlaneDescriptor>)
    requires |planes| <= |lines|
  {
    forall i :: 0 <= i < |planes| ==> Fits(buffers, sizes, lines, planes[i], i)
  }

  /** Plane `i` is the first that does not fit. */
  predicate FirstUnfit(buffers: seq<nat>, sizes: seq<nat>, lines: seq<nat>, planes: seq<PlaneDescriptor>, i: nat)
    requires |planes| <= |lines|
  {
    && i < |planes| && !Fits(buffers, sizes, lines, planes[i], i)
    && forall j :: 0 <= j < i ==> Fits(buffers, sizes, lines, planes[j], j)
  }

  /**
   `build_owned`, given the sizes of the buffers and, per plane, its size and the length of a line. It
   succeeds exactly when every plane fits and no two overlap. Otherwise the first plane that does not
   fit decides: its index is too large, or is the number of buffers, or it has no size, or it ends
   after its buffer, or its stride is too short; and if all fit, the overlap is reported.
   */
  method BuildOwned(buffers: seq<nat>, sizes: seq<nat>, lines: seq<nat>, planes: seq<PlaneDescriptor>)
    returns (r: Outcome)
    requires |planes| <= |lines|
    ensures r == Built || r == BufferAlias ==> |planes| <= |sizes| && AllFit(buffers, sizes, lines, planes)
    ensures |planes| <= |sizes| && AllFit(buffers, sizes, lines, planes) ==>
              r == if PlanesApart(sizes, planes) then Built else BufferAlias
    ensures r == BufferOutOfRange <==>
              exists i: nat :: FirstUnfit(buffers, sizes, lines, planes, i) && planes[i].buffer > |buffers|
    ensures r == Panic <==>
              exists i: nat ::
                && FirstUnfit(buffers, sizes, lines, planes, i)
                && (planes[i].buffer == |buffers| || (planes[i].buffer < |buffers| && i >= |sizes|))
    ensures r == BufferTooSmall <==>
              exists i: nat ::
                && FirstUnfit(buffers, sizes, lines, planes, i)
                && planes[i].buffer < |buffers| && i < |sizes|
                && planes[i].offset + sizes[i] > buffers[planes[i].buffer]
    ensures r == InvalidStride <==>
              exists i: nat ::
                && FirstUnfit(buffers, sizes, lines, planes, i)
                && planes[i].buffer < |buffers| && i < |sizes|
                && planes[i].offset + sizes[i] <= buffers[planes[i].buffer]
                && planes[i].stride < lines[i]
  {
    var ranges := [];
    for i := 0 to |planes|
      invariant i <= |sizes| && |ranges| == i
      invariant forall j :: 0 <= j < i ==> Fits(buffers, sizes, lines, planes[j], j)
      invariant forall k :: 0 <= k < i ==> ranges[k] == RangeOf(sizes, planes[k], k)
    {
      var check := CheckPlane(buffers, sizes, lines, planes[i], i);
      if check != Built {
        assert FirstUnfit(buffers, sizes, lines, planes, i);
        assert forall k: nat :: FirstUnfit(buffers, sizes, lines, planes, k) ==> k == i;
        return check;
      }
      ranges := ranges + [RangeOf(sizes, planes[i], i)];
    }
    assert ranges == RangesOf(sizes, planes);
    RangesApart(sizes, planes);
    var overlap := Overlaps(ranges);
    r := if overlap then BufferAlias else Built;
  }

  lemma RangesApart(sizes: seq<nat>, planes: seq<PlaneDescriptor>)
    requires |planes| <= |sizes|
    ensures AllApart(RangesOf(sizes, planes)) <==> PlanesApart(sizes, planes)
  {
    var rs := RangesOf(sizes, planes);
    if AllApart(rs) {
      assert forall i, j :: 0 <= i < j < |planes| ==> Apart(rs[i], rs[j]);
    }
  }

  /** The smallest index that the range test should refuse goes through it, for any buffers and any frame. */
  method IndexOfNoBuffer(buffers: seq<nat>, size: nat, line: nat, offset: nat, stride: nat) returns (r: Outcome)
    ensures r == Panic
  {
    var planes := [PlaneDescriptor(|buffers|, offset, stride)];
    assert FirstUnfit(buffers, [size], [line], planes, 0);
    r := BuildOwned(buffers, [size], [line], planes);
  }

  /** Sort the ranges and compare neighbours. */
  method Overlaps(ranges: seq<Range>) returns (overlap: bool)
    requires Proper(ranges)
    ensures overlap <==> !AllApart(ranges)
  {
    var sorted := Sort(ranges);
    SortSorts(ranges);
    SortAllApart(ranges);
    SortProper(ranges);
    NeighboursDecide(sorted);
    var i := 0;
    while i + 1 < |sorted|
      invariant forall k :: 0 <= k < i && k + 1 < |sorted| ==>
                sorted[k].buffer != sorted[k + 1].buffer || sorted[k].end <= sorted[k + 1].start
    {
      if sorted[i].buffer == sorted[i + 1].buffer && sorted[i + 1].start < sorted[i].end {
        return true;
      }
      i := i + 1;
    }
    overlap := false;
  }

  lemma SortProper(rs: seq<Range>)
    requires Proper(rs)
    ensures Proper(Sort(rs))
  {
    SortSorts(rs);
    forall i | 0 <= i < |Sort(rs)|
      ensures Sort(rs)[i].start <= Sort(rs)[i].end
    {
      assert Sort(rs)[i] in multiset(Sort(rs));
      assert Sort(rs)[i] in rs;
    }
  }
}
