/**
 The two ioctl payloads that point to user memory. The driver's layout and the device's parser are
 written independently; parsing what the driver laid out gives back the structure, its array and,
 for every element with user memory, the scatter-gather list of that element.
 */
module IoctlPayload {
  import opened Prelude
  import opened WireFormat

  // ----- arrays of structures

  function Flatten(parts: seq<Bytes>): (bs: Bytes) {
    if parts == [] then [] else parts[0] + Flatten(parts[1..])
  }

  function ReadArray(input: Bytes, count: nat, size: nat): (r: Option<(seq<Bytes>, Bytes)>)
    ensures r.Some? ==> |r.value.0| == count && forall i :: 0 <= i < count ==> |r.value.0[i]| == size
    decreases count
  {
    if count == 0 then Some(([], input))
    else
      var (x, rest) :- ReadObj(input, size);
      var (xs, rest') :- ReadArray(rest, count - 1, size);
      Some(([x] + xs, rest'))
  }

  lemma {:induction false} ArrayRoundTrip(parts: seq<Bytes>, size: nat, rest: Bytes)
    requires forall i :: 0 <= i < |parts| ==> |parts[i]| == size
    ensures ReadArray(Flatten(parts) + rest, |parts|, size) == Some((parts, rest))
    decreases |parts|
  {
    if parts == [] {
      assert Flatten(parts) + rest == rest;
    } else {
      var tail := Flatten(parts[1..]) + rest;
      assert Flatten(parts) + rest == parts[0] + tail;
      ReadBack(parts[0], tail);
      ArrayRoundTrip(parts[1..], size, rest);
      assert [parts[0]] + parts[1..] == parts;
    }
  }

  // ----- the scatter-gather lists that follow a payload

  /** One list per non-zero length, in order; its entries are non-empty and add up to the length. */
  predicate Backs(lengths: seq<nat>, lists: seq<seq<SgEntry>>) {
    if lengths == [] then lists == []
    else if lengths[0] == 0 then Backs(lengths[1..], lists)
    else lists != [] && ListOk(lists[0], lengths[0]) && Backs(lengths[1..], lists[1..])
  }

  predicate ListOk(es: seq<SgEntry>, length: nat) {
    TotalLen(es) == length && forall i :: 0 <= i < |es| ==> es[i].len > 0 && SgFits(es[i])
  }

  function LayoutLists(lists: seq<seq<SgEntry>>): (bs: Bytes) {
    if lists == [] then [] else EncodeSgs(lists[0]) + LayoutLists(lists[1..])
  }

  function ParseLists(input: Bytes, lengths: seq<nat>): (r: Option<(seq<seq<SgEntry>>, Bytes)>)
    decreases |lengths|
  {
    if lengths == [] then Some(([], input))
    else if lengths[0] == 0 then ParseLists(input, lengths[1..])
    else
      var (es, rest) :- UserptrRegions(input, 0, lengths[0]);
      var (ess, rest') :- ParseLists(rest, lengths[1..]);
      Some(([es] + ess, rest'))
  }

  lemma {:induction false} ListsRoundTrip(lengths: seq<nat>, lists: seq<seq<SgEntry>>, rest: Bytes)
    requires Backs(lengths, lists)
    ensures ParseLists(LayoutLists(lists) + rest, lengths) == Some((lists, rest))
    decreases |lengths|
  {
    if lengths == [] {
      assert LayoutLists(lists) + rest == rest;
    } else if lengths[0] == 0 {
      ListsRoundTrip(lengths[1..], lists, rest);
    } else {
      var tail := LayoutLists(lists[1..]) + rest;
      assert LayoutLists(lists) + rest == EncodeSgs(lists[0]) + tail;
      ExactListsDelimit(lists[0], 0, lengths[0]);
      RegionsRoundTrip(lists[0], 0, lengths[0], tail);
      ListsRoundTrip(lengths[1..], lists[1..], rest);
      assert [lists[0]] + lists[1..] == lists;
    }
  }

  // ----- v4l2_buffer

  /** The driver's fixup: a NULL user pointer has no length. */
  function FixedBuffer(b: RawBuffer): (r: RawBuffer) {
    if !IsMultiplanar(TypeOf(b)) && MemoryOf(b) == MEMORY_USERPTR && UserptrOf(b) == 0
    then SetField(b, 72, 4, 0) else b
  }

  function FixedPlane(b: RawBuffer, p: RawPlane): (r: RawPlane) {
    if MemoryOf(b) == MEMORY_USERPTR && PlaneUserptr(p) == 0 then SetField(p, 4, 4, 0) else p
  }

  function FixedPlanes(b: RawBuffer, planes: seq<RawPlane>): (r: seq<RawPlane>)
    ensures |r| == |planes|
    ensures forall i :: 0 <= i < |planes| ==> r[i] == FixedPlane(b, planes[i])
  {
    seq(|planes|, i requires 0 <= i < |planes| => FixedPlane(b, planes[i]))
  }

  /** The fixup of the planes, in place, as the driver does it before it sends them. */
  method FixupPlanes(b: RawBuffer, planes: array<RawPlane>)
    modifies planes
    ensures planes[..] == FixedPlanes(b, old(planes[..]))
    ensures forall i :: 0 <= i < planes.Length ==> PlaneSent(b, old(planes[i]), planes[i])
  {
    if MemoryOf(b) == MEMORY_USERPTR {
      for i := 0 to planes.Length
        invariant forall k :: 0 <= k < planes.Length ==>
                  planes[k] == if k < i then FixedPlane(b, old(planes[k])) else old(planes[k])
      {
        if PlaneUserptr(planes[i]) == 0 {
          planes[i] := SetField(planes[i], 4, 4, 0);
        }
      }
    }
    forall i | 0 <= i < planes.Length
      ensures PlaneSent(b, old(planes[i]), planes[i])
    {
      FixupIsExact(b, old(planes[i]));
      assert planes[i] == FixedPlane(b, old(planes[i]));
    }
  }

  /** A single-planar buffer has no plane array; a multiplanar one has as many planes as it says. */
  predicate PlanesMatch(b: RawBuffer, planes: seq<RawPlane>) {
    if IsMultiplanar(TypeOf(b)) then |planes| == LengthOf(b) else planes == []
  }

  function LayoutBuffer(b: RawBuffer, planes: seq<RawPlane>): (bs: Bytes) {
    FixedBuffer(b) + Flatten(FixedPlanes(b, planes))
  }

  /** The lengths of the user memory that a fixed-up buffer refers to. */
  function UserLengths(b: RawBuffer, planes: seq<Bytes>): (r: seq<nat>)
    requires forall i :: 0 <= i < |planes| ==> |planes[i]| == PLANE_SIZE
  {
    if MemoryOf(b) != MEMORY_USERPTR then []
    else if IsMultiplanar(TypeOf(b)) then seq(|planes|, i requires 0 <= i < |planes| => PlaneLength(planes[i]))
    else [LengthOf(b)]
  }

  /** What the device makes of a buffer: the structure, its planes, and the lists of its user memory. */
  datatype ParsedBuffer = ParsedBuffer(b: RawBuffer, planes: seq<Bytes>, lists: seq<seq<SgEntry>>)

  function ParseBuffer(input: Bytes): (r: Option<(ParsedBuffer, Bytes)>) {
    var (b, rest) :- ReadObj(input, BUFFER_SIZE);
    if !IsQueue(TypeOf(b)) then None
    else if IsMultiplanar(TypeOf(b)) && LengthOf(b) > VIDEO_MAX_PLANES then None
    else
      var count := if IsMultiplanar(TypeOf(b)) then LengthOf(b) else 0;
      var (planes, rest') :- ReadArray(rest, count, PLANE_SIZE);
      var (lists, rest'') :- ParseLists(rest', UserLengths(b, planes));
      Some((ParsedBuffer(b, planes, lists), rest''))
  }

  lemma FixupKeepsFields(b: RawBuffer)
    ensures TypeOf(FixedBuffer(b)) == TypeOf(b) && MemoryOf(FixedBuffer(b)) == MemoryOf(b)
    ensures IsMultiplanar(TypeOf(b)) ==> FixedBuffer(b) == b
  {
    var b' := FixedBuffer(b);
    assert b'[4..8] == b[4..8];
    assert b'[60..64] == b[60..64];
  }

  /** A single-planar buffer in user memory at NULL. */
  predicate NullBuffer(b: RawBuffer) {
    !IsMultiplanar(TypeOf(b)) && MemoryOf(b) == MEMORY_USERPTR && UserptrOf(b) == 0
  }

  /** A plane of `b` in user memory at NULL. */
  predicate NullPlane(b: RawBuffer, p: RawPlane) {
    MemoryOf(b) == MEMORY_USERPTR && PlaneUserptr(p) == 0
  }

  /** `sent` is the buffer as it was given, except that a NULL user pointer has no length. */
  predicate BufferSent(given: RawBuffer, sent: RawBuffer) {
    && (!NullBuffer(given) ==> sent == given)
    && (LengthOf(sent) == 0 <==> LengthOf(given) == 0 || NullBuffer(given))
    && sent[..72] == given[..72] && sent[76..] == given[76..]
  }

  predicate PlaneSent(b: RawBuffer, given: RawPlane, sent: RawPlane) {
    && (!NullPlane(b, given) ==> sent == given)
    && (PlaneLength(sent) == 0 <==> PlaneLength(given) == 0 || NullPlane(b, given))
    && sent[..4] == given[..4] && sent[8..] == given[8..]
  }

  /**
   The fixup, exactly: a length is sent as zero if and only if it was zero or belongs to a NULL user
   pointer; in any other case the bytes sent are the bytes given, and in every case the bytes around
   the length are.
   */
  lemma FixupIsExact(b: RawBuffer, p: RawPlane)
    ensures BufferSent(b, FixedBuffer(b)) && PlaneSent(b, p, FixedPlane(b, p))
  {
    PowersOfTwo();
    FieldAfterSet(b, 72, 4, 0);
    FieldAfterSet(p, 4, 4, 0);
    SetFieldAround(b, 72, 4, 0);
    SetFieldAround(p, 4, 4, 0);
  }

  lemma SetFieldAround(s: Bytes, at: nat, width: nat, n: nat)
    requires at + width <= |s|
    ensures var r := SetField(s, at, width, n); r[..at] == s[..at] && r[at + width..] == s[at + width..]
  {
  }

  /** The lengths of the user memory that a buffer refers to, as it was given. */
  function DueLengths(b: RawBuffer, planes: seq<RawPlane>): (r: seq<nat>) {
    if MemoryOf(b) != MEMORY_USERPTR then []
    else if IsMultiplanar(TypeOf(b)) then
      seq(|planes|, i requires 0 <= i < |planes| => if PlaneUserptr(planes[i]) == 0 then 0 else PlaneLength(planes[i]))
    else [if UserptrOf(b) == 0 then 0 else LengthOf(b)]
  }

  lemma DueLengthsSent(b: RawBuffer, planes: seq<RawPlane>)
    ensures UserLengths(FixedBuffer(b), FixedPlanes(b, planes)) == DueLengths(b, planes)
  {
    FixupKeepsFields(b);
    FixupIsExact(b, seq(PLANE_SIZE, _ => 0));
    forall i | 0 <= i < |planes|
      ensures MemoryOf(b) == MEMORY_USERPTR ==>
                var sent := PlaneLength(FixedPlane(b, planes[i]));
                sent == if PlaneUserptr(planes[i]) == 0 then 0 else PlaneLength(planes[i])
    {
      FixupIsExact(b, planes[i]);
    }
  }

  /** The device has the buffer and its planes as they were given, and exactly the lists of its user memory. */
  predicate Receives(b: RawBuffer, planes: seq<RawPlane>, lists: seq<seq<SgEntry>>, parsed: ParsedBuffer) {
    && BufferSent(b, parsed.b)
    && |parsed.planes| == |planes|
    && (forall i :: 0 <= i < |planes| ==>
          |parsed.planes[i]| == PLANE_SIZE && PlaneSent(b, planes[i], parsed.planes[i]))
    && parsed.lists == lists
  }

  /**
   Build/parse round trip: for every queue and every buffer with at most eight planes, the device
   reads back the structure and planes that were given, with the length of NULL user pointers zeroed,
   exactly the list of each plane with user memory, and stops where the buffer ends.
   */
  lemma BufferRoundTrip(b: RawBuffer, planes: seq<RawPlane>, lists: seq<seq<SgEntry>>, rest: Bytes)
    requires IsQueue(TypeOf(b)) && PlanesMatch(b, planes) && |planes| <= VIDEO_MAX_PLANES
    requires Backs(DueLengths(b, planes), lists)
    ensures var r := ParseBuffer(LayoutBuffer(b, planes) + LayoutLists(lists) + rest);
            r.Some? && r.value.1 == rest && Receives(b, planes, lists, r.value.0)
  {
    var b', planes' := FixedBuffer(b), FixedPlanes(b, planes);
    LaidOut(b, planes, lists, rest);
    FixupKeepsFields(b);
    DueLengthsSent(b, planes);
    BufferParsed(b', planes', lists, rest);
    FixupIsExact(b, seq(PLANE_SIZE, _ => 0));
    forall i | 0 <= i < |planes|
      ensures PlaneSent(b, planes[i], planes'[i])
    {
      FixupIsExact(b, planes[i]);
    }
  }

  lemma LaidOut(b: RawBuffer, planes: seq<RawPlane>, lists: seq<seq<SgEntry>>, rest: Bytes)
    ensures LayoutBuffer(b, planes) + LayoutLists(lists) + rest
         == FixedBuffer(b) + (Flatten(FixedPlanes(b, planes)) + (LayoutLists(lists) + rest))
  {
  }

  /** The parser finds the parts one after the other. */
  lemma BufferParsed(b: RawBuffer, planes: seq<RawPlane>, lists: seq<seq<SgEntry>>, rest: Bytes)
    requires IsQueue(TypeOf(b)) && PlanesMatch(b, planes) && |planes| <= VIDEO_MAX_PLANES
    requires Backs(UserLengths(b, planes), lists)
    ensures ParseBuffer(b + (Flatten(planes) + (LayoutLists(lists) + rest)))
         == Some((ParsedBuffer(b, planes, lists), rest))
  {
    var tail := LayoutLists(lists) + rest;
    ReadBack(b, Flatten(planes) + tail);
    ArrayRoundTrip(planes, PLANE_SIZE, tail);
    ListsRoundTrip(UserLengths(b, planes), lists, rest);
  }

  /** The device refuses a queue type it does not know and more planes than the interface allows. */
  lemma BufferRefused(b: RawBuffer, rest: Bytes)
    requires !IsQueue(TypeOf(b)) || (IsMultiplanar(TypeOf(b)) && LengthOf(b) > VIDEO_MAX_PLANES)
    ensures ParseBuffer(b + rest) == None
  {
    ReadBack(b, rest);
  }

  // ----- v4l2_ext_controls

  type RawControls = s: Bytes | |s| == CONTROLS_SIZE witness seq(CONTROLS_SIZE, _ => 0)

  type RawControl = s: Bytes | |s| == CONTROL_SIZE witness seq(CONTROL_SIZE, _ => 0)

  function CountOf(c: RawControls): (n: nat) { Field(c, 4, 4) }

  function SizeOf(c: RawControl): (n: nat) { Field(c, 4, 4) }

  function LayoutControls(c: RawControls, items: seq<RawControl>): (bs: Bytes) {
    c + Flatten(items)
  }

  function ControlLengths(items: seq<Bytes>): (r: seq<nat>)
    requires forall i :: 0 <= i < |items| ==> |items[i]| == CONTROL_SIZE
  {
    seq(|items|, i requires 0 <= i < |items| => SizeOf(items[i]))
  }

  datatype ParsedControls = ParsedControls(c: RawControls, items: seq<Bytes>, lists: seq<seq<SgEntry>>)

  function ParseControls(input: Bytes): (r: Option<(ParsedControls, Bytes)>) {
    var (c, rest) :- ReadObj(input, CONTROLS_SIZE);
    var (xs, rest') :- ReadArray(rest, CountOf(c), CONTROL_SIZE);
    var (lists, rest'') :- ParseLists(rest', ControlLengths(xs));
    Some((ParsedControls(c, xs, lists), rest''))
  }

  /** The same round trip for extended controls, of which there may be any number. */
  lemma ControlsRoundTrip(c: RawControls, items: seq<RawControl>, lists: seq<seq<SgEntry>>, rest: Bytes)
    requires |items| == CountOf(c) && Backs(ControlLengths(items), lists)
    ensures ParseControls(LayoutControls(c, items) + LayoutLists(lists) + rest)
         == Some((ParsedControls(c, items, lists), rest))
  {
    var tail := LayoutLists(lists) + rest;
    var afterControls := Flatten(items) + tail;
    assert LayoutControls(c, items) + LayoutLists(lists) + rest == c + afterControls;
    ReadBack(c, afterControls);
    ArrayRoundTrip(items, CONTROL_SIZE, tail);
    ListsRoundTrip(ControlLengths(items), lists, rest);
  }
}
