/**
 Whole commands, from the driver's memory to the device's parser and back.
 */
module Commands {
  import opened Prelude
  import opened WireFormat
  import opened IoctlPayload
  import opened Scatterlist
  import opened ScatterlistBuilder
  import opened CommandBuilder
  import opened CommandResponse

  const UUID_SIZE: nat := 16

  /** The number of planes that have a UUID. */
  function ImportCount(raw: RawBuffer): (n: nat) {
    if IsMultiplanar(TypeOf(raw)) then LengthOf(raw) else 1
  }

  /** The UUIDs that go with a buffer: those of its slot on a DMABUF queue, none otherwise. */
  function SentUuids(raw: RawBuffer, uuids: Bytes): (r: Bytes) {
    if MemoryOf(raw) == MEMORY_DMABUF then uuids else []
  }

  function BufferItems(header: Item, raw: RawBuffer, planes: seq<RawPlane>, bufferAt: Source, planesAt: Source,
                       uuids: Item): (r: seq<Item>)
  {
    [header] + StructureItems(FixedBuffer(raw), bufferAt, Flatten(FixedPlanes(raw, planes)), planesAt) +
    if MemoryOf(raw) == MEMORY_DMABUF then [uuids] else []
  }

  /**
   The device finds `header`, then the buffer and its planes as they were given (with the length of
   NULL user pointers zeroed), the lists of its user memory, then `uuids`, and no more.
   */
  predicate ReadsBuffer(view: Bytes, header: Bytes, raw: RawBuffer, planes: seq<RawPlane>,
                        lists: seq<seq<SgEntry>>, uuids: Bytes)
  {
    && |header| <= |view|
    && view[..|header|] == header
    && var r := ParseBuffer(view[|header|..]);
       r.Some? && r.value.1 == uuids && Receives(raw, planes, lists, r.value.0)
  }

  lemma BufferIsRead(header: Bytes, raw: RawBuffer, planes: seq<RawPlane>, lists: seq<seq<SgEntry>>, uuids: Bytes)
    requires IsQueue(TypeOf(raw)) && PlanesMatch(raw, planes) && |planes| <= VIDEO_MAX_PLANES
    requires Backs(DueLengths(raw, planes), lists)
    requires MemoryOf(raw) != MEMORY_USERPTR || uuids == []
    ensures var view := header + LayoutBuffer(raw, planes) + uuids + LayoutLists(lists);
            ReadsBuffer(view, header, raw, planes, lists, uuids)
  {
    var payload := LayoutBuffer(raw, planes) + LayoutLists(lists) + uuids;
    assert LayoutBuffer(raw, planes) + uuids + LayoutLists(lists) == payload;
    var view := header + LayoutBuffer(raw, planes) + uuids + LayoutLists(lists);
    assert view == header + payload;
    assert view[|header|..] == payload && view[..|header|] == header;
    BufferRoundTrip(raw, planes, lists, uuids);
  }

  /** The command header, a structure, and the array that goes with it, on a new chain. */
  method AddRequest(b: Builder, header: Item, head: Bytes, headAt: Source, parts: Bytes, partsAt: Source,
                    ghost m: Bytes, ghost lo: nat) returns (ok: bool)
    requires b.Valid() && b.sgs == [] && b.curDesc == 0 && header.len > 0 && |head| > 0 && Undisturbed(b, m, lo)
    requires ItemOk(|m|, b.pt, header, lo, b.FreeHi())
    requires Stored(m, b.pt, headAt, head, lo, b.FreeHi()) && Stored(m, b.pt, partsAt, parts, lo, b.FreeHi())
    modifies b, b.descs, b.mem
    ensures ok ==> b.Valid() && Undisturbed(b, m, lo)
    ensures ok ==> Laid(b, [header] + StructureItems(head, headAt, parts, partsAt))
    ensures ok ==> b.View() == Content(m, b.pt, header.src, header.len) + (head + parts)
    ensures ok && OutsideShadow(b, [header]) && OutsideShadow(b, StructureItems(head, headAt, parts, partsAt)) ==>
              b.ShadowOk()
  {
    assert b.Pool() == [] && b.View() == [] && Laid(b, []) && [] + [header] == [header] && [header][0] == header;
    ok := AddItem(b, header, m, lo, []);
    if ok {
      ok := AddStructure(b, head, headAt, parts, partsAt, m, lo, [header]);
    }
  }

  /** The command header and the payload of a buffer ioctl. */
  method AddBuffer(b: Builder, header: Item, raw: RawBuffer, planes: seq<RawPlane>, bufferAt: Source, planesAt: Source,
                   uuids: Bytes, uuidsAt: Source, slotExists: bool, ghost m: Bytes, ghost lo: nat) returns (ok: bool)
    requires b.Valid() && b.sgs == [] && b.curDesc == 0 && header.len > 0 && Undisturbed(b, m, lo)
    requires ItemOk(|m|, b.pt, header, lo, b.FreeHi())
    requires Stored(m, b.pt, bufferAt, FixedBuffer(raw), lo, b.FreeHi())
    requires Stored(m, b.pt, planesAt, Flatten(FixedPlanes(raw, planes)), lo, b.FreeHi())
    requires Stored(m, b.pt, uuidsAt, uuids, lo, b.FreeHi()) && |uuids| == UUID_SIZE * ImportCount(raw)
    modifies b, b.descs, b.mem
    ensures ok ==> b.Valid() && Undisturbed(b, m, lo)
    ensures ok ==> Laid(b, BufferItems(header, raw, planes, bufferAt, planesAt, Item(uuidsAt, |uuids|)))
    ensures ok ==>
              b.View() == Content(m, b.pt, header.src, header.len) + LayoutBuffer(raw, planes) + SentUuids(raw, uuids)
    ensures ok && BufferOutside(b, header, raw, planes, bufferAt, planesAt, Item(uuidsAt, |uuids|)) ==> b.ShadowOk()
  {
    ok := AddRequest(b, header, FixedBuffer(raw), bufferAt, Flatten(FixedPlanes(raw, planes)), planesAt, m, lo);
    if ok && MemoryOf(raw) == MEMORY_DMABUF {
      if !slotExists || ImportCount(raw) == 0 || ImportCount(raw) > VIDEO_MAX_PLANES {
        return false;
      }
      ghost var parts := Flatten(FixedPlanes(raw, planes));
      ghost var items := [header] + StructureItems(FixedBuffer(raw), bufferAt, parts, planesAt);
      var x := Item(uuidsAt, |uuids|);
      assert [x][0] == x;
      ok := AddItem(b, x, m, lo, items);
    }
  }

  /** None of the items is in the shadow buffer. */
  ghost predicate BufferOutside(b: Builder, header: Item, raw: RawBuffer, planes: seq<RawPlane>,
                                bufferAt: Source, planesAt: Source, uuids: Item)
    reads b
  {
    && OutsideShadow(b, [header])
    && OutsideShadow(b, StructureItems(FixedBuffer(raw), bufferAt, Flatten(FixedPlanes(raw, planes)), planesAt))
    && OutsideShadow(b, [uuids])
  }

  /**
   A buffer ioctl: what the device reads after the command header is the very buffer, planes and user
   memory that were sent, followed by the UUIDs of the imports on a DMABUF queue. The chain ends with the
   writable lists, and what was copied into the shadow buffer is apart from everything else there.
   */
  method SendBuffer(b: Builder, header: Item, raw: RawBuffer, planes: seq<RawPlane>, bufferAt: Source, planesAt: Source,
                    uuids: Bytes, uuidsAt: Source, slotExists: bool, lists: seq<seq<SgEntry>>, resp: Item)
    returns (ok: bool, numCmd: nat, ghost payload: seq<Desc>)
    requires b.Valid() && b.sgs == [] && b.curDesc == 0 && header.len > 0 && resp.len > 0
    requires IsQueue(TypeOf(raw)) && PlanesMatch(raw, planes) && |planes| <= VIDEO_MAX_PLANES
    requires Backs(DueLengths(raw, planes), lists)
    requires ItemOk(b.mem.Length, b.pt, header, b.FreeLo(), b.FreeHi())
    requires ItemOk(b.mem.Length, b.pt, resp, b.FreeLo(), b.FreeHi())
    requires Stored(b.mem[..], b.pt, bufferAt, FixedBuffer(raw), b.FreeLo(), b.FreeHi())
    requires Stored(b.mem[..], b.pt, planesAt, Flatten(FixedPlanes(raw, planes)), b.FreeLo(), b.FreeHi())
    requires Stored(b.mem[..], b.pt, uuidsAt, uuids, b.FreeLo(), b.FreeHi()) && |uuids| == UUID_SIZE * ImportCount(raw)
    modifies b, b.descs, b.mem
    ensures var items := BufferItems(header, raw, planes, bufferAt, planesAt, Item(uuidsAt, |uuids|));
            ok ==>
              && b.Valid()
              && Answerable(b.Pool(), b.sgs, payload, items, numCmd, b.pt, b.alwaysUseShadow)
              && (&& BufferOutside(b, header, raw, planes, bufferAt, planesAt, Item(uuidsAt, |uuids|))
                  && OutsideShadow(b, [resp])
                  ==> b.ShadowOk())
    ensures ok ==>
              ReadsBuffer(Linear(b.mem[..], b.Pool(), b.sgs[..numCmd]),
                          old(Content(b.mem[..], b.pt, header.src, header.len)),
                          raw, planes, lists, SentUuids(raw, uuids))
  {
    ghost var m, lo := b.mem[..], b.FreeLo();
    BufferIsRead(Content(m, b.pt, header.src, header.len), raw, planes, lists, SentUuids(raw, uuids));
    payload, numCmd := [], 0;
    ok := AddBuffer(b, header, raw, planes, bufferAt, planesAt, uuids, uuidsAt, slotExists, m, lo);
    if ok {
      payload := b.Pool();
      ghost var items := BufferItems(header, raw, planes, bufferAt, planesAt, Item(uuidsAt, |uuids|));
      var lengths := UserLengths(FixedBuffer(raw), FixedPlanes(raw, planes));
      DueLengthsSent(raw, planes);
      assert [resp][0] == resp;
      ok, numCmd := Finish(b, items, lengths, lists, resp.src, resp.len, m, lo);
    }
  }

  // ----- extended controls

  function ControlItems(header: Item, raw: RawControls, items: seq<RawControl>, controlsAt: Source,
                        itemsAt: Source): (r: seq<Item>)
  {
    [header] + StructureItems(raw, controlsAt, Flatten(items), itemsAt)
  }

  predicate ReadsControls(view: Bytes, header: Bytes, raw: RawControls, items: seq<RawControl>,
                          lists: seq<seq<SgEntry>>)
  {
    && |header| <= |view|
    && view[..|header|] == header
    && ParseControls(view[|header|..]) == Some((ParsedControls(raw, items, lists), []))
  }

  lemma ControlsAreRead(header: Bytes, raw: RawControls, items: seq<RawControl>, lists: seq<seq<SgEntry>>)
    requires |items| == CountOf(raw) && Backs(ControlLengths(items), lists)
    ensures ReadsControls(header + LayoutControls(raw, items) + LayoutLists(lists), header, raw, items, lists)
  {
    var payload := LayoutControls(raw, items) + LayoutLists(lists);
    var view := header + LayoutControls(raw, items) + LayoutLists(lists);
    assert view == header + payload && view[|header|..] == payload && payload + [] == payload;
    ControlsRoundTrip(raw, items, lists, []);
  }

  /** The same for extended controls. */
  method SendControls(b: Builder, header: Item, raw: RawControls, items: seq<RawControl>, controlsAt: Source,
                      itemsAt: Source, lists: seq<seq<SgEntry>>, resp: Item)
    returns (ok: bool, numCmd: nat, ghost payload: seq<Desc>)
    requires b.Valid() && b.sgs == [] && b.curDesc == 0 && header.len > 0 && resp.len > 0
    requires |items| == CountOf(raw) && Backs(ControlLengths(items), lists)
    requires ItemOk(b.mem.Length, b.pt, header, b.FreeLo(), b.FreeHi())
    requires ItemOk(b.mem.Length, b.pt, resp, b.FreeLo(), b.FreeHi())
    requires Stored(b.mem[..], b.pt, controlsAt, raw, b.FreeLo(), b.FreeHi())
    requires Stored(b.mem[..], b.pt, itemsAt, Flatten(items), b.FreeLo(), b.FreeHi())
    modifies b, b.descs, b.mem
    ensures var all := ControlItems(header, raw, items, controlsAt, itemsAt);
            ok ==>
              && b.Valid()
              && Answerable(b.Pool(), b.sgs, payload, all, numCmd, b.pt, b.alwaysUseShadow)
              && (OutsideShadow(b, [header]) && OutsideShadow(b, all[1..]) && OutsideShadow(b, [resp]) ==> b.ShadowOk())
    ensures ok ==>
              ReadsControls(Linear(b.mem[..], b.Pool(), b.sgs[..numCmd]),
                            old(Content(b.mem[..], b.pt, header.src, header.len)),
                            raw, items, lists)
  {
    ghost var m, lo := b.mem[..], b.FreeLo();
    ghost var all := ControlItems(header, raw, items, controlsAt, itemsAt);
    assert [resp][0] == resp && all[1..] == StructureItems(raw, controlsAt, Flatten(items), itemsAt);
    payload, numCmd := [], 0;
    ok := AddRequest(b, header, raw, controlsAt, Flatten(items), itemsAt, m, lo);
    if ok {
      payload := b.Pool();
      ok, numCmd := Finish(b, all, ControlLengths(items), lists, resp.src, resp.len, m, lo);
      ControlsAreRead(Content(m, b.pt, header.src, header.len), raw, items, lists);
    }
  }

  // ----- two builds

  /** Memory of `size` bytes, all zero. */
  method ZeroMemory(size: nat) returns (mem: array<Byte>)
    ensures fresh(mem) && mem.Length == size
  {
    mem := new Byte[size](_ => 0);
  }

  lemma OneList(mem: Bytes, d: Desc)
    requires InMemory(|mem|, d) && d.end
    ensures Linear(mem, [d], [0]) == mem[d.addr..RangeEnd(d)]
  {
    assert Walk([d], 0) == [d];
    LinearSnoc(mem, [d], [], 0);
    CoveredSnoc(mem, [], d);
    assert [] + [0] == [0] && [] + [d] == [d];
  }

  /**
   A piece copied into an empty shadow buffer comes back, unless it fills the buffer to its end.
   */
  method FillShadow(content: Bytes, size: nat) returns (b: Builder, r: Retrieved)
    requires 0 < |content| <= size
    ensures fresh(b) && b.Valid() && b.View() == content
    ensures r == if |content| < size then Copied(content) else Rejected
  {
    var mem := ZeroMemory(size);
    b := new Builder(1, 1, mem, 0, size, map[], false);
    var ok, unmarked := b.AddData(Unmappable(content), |content|);
    assert b.Pool() == [Desc(0, |content|, true)];
    OneList(mem[..], b.Pool()[0]);
    assert mem[..][0..|content|] == content && b.descs[0] == b.Pool()[0];
    r := RetrieveData(b, 0);
  }

  /** Two pages whose frames are not adjacent. */
  const TWO_FRAMES: PageTable := map[10 := 0, 11 := 2]

  /** A `v4l2_buffer` that begins 48 bytes before the end of the first page. */
  const SPLIT := Vmalloc(11 * PAGE_SIZE - 48)

  lemma SplitArea(memSize: nat, lo: nat, hi: nat)
    requires 4 * PAGE_SIZE <= memSize && 4 * PAGE_SIZE <= lo
    ensures SourceOk(memSize, TWO_FRAMES, SPLIT, BUFFER_SIZE) && SourceAvoids(TWO_FRAMES, SPLIT, BUFFER_SIZE, lo, hi)
    ensures !OneRun(TWO_FRAMES, SPLIT, BUFFER_SIZE, false) && PageCount(SPLIT.vaddr, BUFFER_SIZE) == 2
  {
    var vaddr := SPLIT.vaddr;
    assert vaddr / PAGE_SIZE == 10;
    assert (vaddr + BUFFER_SIZE) / PAGE_SIZE == 11 && (vaddr + BUFFER_SIZE - 1) / PAGE_SIZE == 11;
    assert 11 * PAGE_SIZE < vaddr + BUFFER_SIZE && TWO_FRAMES[11] != TWO_FRAMES[11 - 1] + 1;
  }

  lemma TwoLaid(pool: seq<Desc>, heads: seq<nat>, items: seq<Item>)
    requires Heads(pool, heads, items, TWO_FRAMES, false) && |items| == 2 && items[0].src.Direct?
    requires items[1] == Item(SPLIT, BUFFER_SIZE)
    ensures heads == [0, 1] && |pool| == 3
  {
    SplitArea(4 * PAGE_SIZE, 4 * PAGE_SIZE, 4 * PAGE_SIZE);
    assert HeadOk(pool, heads, 0, items[0], TWO_FRAMES, false);
    assert HeadOk(pool, heads, 1, items[1], TWO_FRAMES, false);
  }

  lemma ThreeLaid(pool: seq<Desc>, heads: seq<nat>, items: seq<Item>)
    requires Heads(pool, heads, items, TWO_FRAMES, false) && |items| == 3
    requires items[0].src.Direct? && items[2].src.Direct?
    requires items[1] == Item(SPLIT, BUFFER_SIZE)
    ensures heads == [0, 1, 3] && |pool| == 4
    ensures !pool[1].end && pool[2].end
  {
    SplitArea(4 * PAGE_SIZE, 4 * PAGE_SIZE, 4 * PAGE_SIZE);
    assert HeadOk(pool, heads, 0, items[0], TWO_FRAMES, false);
    assert HeadOk(pool, heads, 1, items[1], TWO_FRAMES, false);
    assert HeadOk(pool, heads, 2, items[2], TWO_FRAMES, false);
    var piece := pool[1..3];
    assert piece[0] == pool[1] && piece[1] == pool[2];
  }

  /** Command header, buffer structure in two frames, one plane. */
  const SPLIT_ITEMS: seq<Item> :=
    [Item(Direct(3 * PAGE_SIZE), 16), Item(SPLIT, BUFFER_SIZE), Item(Direct(PAGE_SIZE), PLANE_SIZE)]

  /** The builder of the example, whatever it holds so far. */
  ghost predicate Example(b: Builder, items: seq<Item>)
    reads b, b.descs
  {
    && b.Valid() && Laid(b, items)
    && b.pt == TWO_FRAMES && !b.alwaysUseShadow && b.descs.Length == b.numSgs == 16
    && b.mem.Length == 6 * PAGE_SIZE && b.shadowBase == 4 * PAGE_SIZE && b.shadowSize == PAGE_SIZE
  }

  method SplitHead() returns (b: Builder)
    ensures fresh(b) && fresh(b.descs) && fresh(b.mem) && Example(b, SPLIT_ITEMS[..2])
  {
    var mem := ZeroMemory(6 * PAGE_SIZE);
    b := new Builder(16, 16, mem, 4 * PAGE_SIZE, PAGE_SIZE, TWO_FRAMES, false);
    SplitArea(mem.Length, b.FreeLo(), b.FreeHi());
    ghost var m, lo, items := mem[..], b.FreeLo(), SPLIT_ITEMS;
    assert b.Pool() == [] && items[..1] == [] + [items[0]] && items[..2] == items[..1] + [items[1]];
    var ok := AddItem(b, Item(Direct(3 * PAGE_SIZE), 16), m, lo, []);
    assert HeadOk(b.Pool(), b.sgs, 0, items[0], TWO_FRAMES, false);
    ok := AddItem(b, Item(SPLIT, BUFFER_SIZE), m, lo, items[..1]);
  }

  method SplitPayload() returns (b: Builder)
    ensures fresh(b) && fresh(b.descs) && fresh(b.mem) && Example(b, SPLIT_ITEMS)
  {
    b := SplitHead();
    ghost var items := SPLIT_ITEMS;
    assert items == items[..2] + [items[2]];
    TwoLaid(b.Pool(), b.sgs, items[..2]);
    var ok := AddItem(b, Item(Direct(PAGE_SIZE), PLANE_SIZE), b.mem[..], b.FreeLo(), items[..2]);
  }

  /**
   A buffer structure in two frames that are not adjacent takes descriptors 1 and 2. Its plane comes
   after it, but the device's answer for the plane is written into the second half of the structure.
   */
  method SplitStructure() returns (b: Builder, ghost payload: seq<Desc>)
    ensures fresh(b) && b.Valid() && Answerable(b.Pool(), b.sgs, payload, SPLIT_ITEMS, 3, TWO_FRAMES, false)
    ensures b.sgs == [0, 1, 3, 4, 1, 2]
    ensures |Walk(b.Pool(), 1)| > 1 && Walk(b.Pool(), b.sgs[5]) == Walk(b.Pool(), 1)[1..]
  {
    b := SplitPayload();
    payload := b.Pool();
    ghost var heads := b.sgs;
    ThreeLaid(payload, heads, SPLIT_ITEMS);
    var ok := AddResponse(b, Direct(3 * PAGE_SIZE + 16), 16, 3);
    Completed(b.Pool(), payload, payload, b.sgs, heads, heads, SPLIT_ITEMS, TWO_FRAMES, false);
    SplitArea(4 * PAGE_SIZE, 4 * PAGE_SIZE, 4 * PAGE_SIZE);
    AnswerMisplaced(b.Pool(), b.sgs, payload, SPLIT_ITEMS, 3, TWO_FRAMES, false, 1);
    assert seq(2, i => i + 1) == [1, 2];
  }
}
