/**
 What the driver's helpers put on a chain, and what the device reads from it.
 */
module CommandBuilder {
  import opened Prelude
  import opened WireFormat
  import opened IoctlPayload
  import opened Scatterlist
  import opened ScatterlistBuilder

  // ----- any sequence of additions

  datatype Item = Item(src: Source, len: nat)

  /** The item is in memory, and not in `[lo, hi)`. */
  ghost predicate ItemOk(memSize: nat, pt: PageTable, x: Item, lo: nat, hi: nat) {
    SourceOk(memSize, pt, x.src, x.len) && SourceAvoids(pt, x.src, x.len, lo, hi)
  }

  ghost predicate ItemsOk(memSize: nat, pt: PageTable, items: seq<Item>, lo: nat, hi: nat) {
    forall i :: 0 <= i < |items| ==> ItemOk(memSize, pt, items[i], lo, hi)
  }

  ghost function Contents(mem: Bytes, pt: PageTable, items: seq<Item>): (bs: Bytes)
    requires forall i :: 0 <= i < |items| ==> SourceOk(|mem|, pt, items[i].src, items[i].len)
  {
    if items == [] then []
    else
      var n := |items| - 1;
      Contents(mem, pt, items[..n]) + Content(mem, pt, items[n].src, items[n].len)
  }

  /** Where the descriptors of list `k` end. */
  function NextHead(heads: seq<nat>, k: nat, end: nat): (r: nat) {
    if k + 1 < |heads| then heads[k + 1] else end
  }

  /** The pool holds one piece per item, in order; a piece is one descriptor exactly if the item is one run. */
  ghost predicate Heads(pool: seq<Desc>, heads: seq<nat>, items: seq<Item>, pt: PageTable, shadow: bool) {
    && |heads| == |items|
    && (if items == [] then pool == [] else heads[0] == 0)
    && forall k :: 0 <= k < |items| ==> HeadOk(pool, heads, k, items[k], pt, shadow)
  }

  ghost predicate HeadOk(pool: seq<Desc>, heads: seq<nat>, k: nat, x: Item, pt: PageTable, shadow: bool)
    requires k < |heads|
  {
    var next := NextHead(heads, k, |pool|);
    && heads[k] <= next <= |pool|
    && IsPiece(pool[heads[k]..next])
    && Takes(pt, x.src, x.len, shadow, next - heads[k])
  }

  lemma HeadsSnoc(pool: seq<Desc>, piece: seq<Desc>, heads: seq<nat>, items: seq<Item>, x: Item, pt: PageTable,
                  shadow: bool)
    requires Heads(pool, heads, items, pt, shadow) && IsPiece(piece)
    requires Takes(pt, x.src, x.len, shadow, |piece|)
    ensures Heads(pool + piece, heads + [|pool|], items + [x], pt, shadow)
  {
    var pool', heads', items' := pool + piece, heads + [|pool|], items + [x];
    forall k | 0 <= k < |items'|
      ensures HeadOk(pool', heads', k, items'[k], pt, shadow)
    {
      if k < |items| {
        assert HeadOk(pool, heads, k, items[k], pt, shadow);
        assert NextHead(heads', k, |pool'|) == NextHead(heads, k, |pool|);
        assert pool'[heads[k]..NextHead(heads, k, |pool|)] == pool[heads[k]..NextHead(heads, k, |pool|)];
      } else {
        assert pool'[|pool|..] == piece;
      }
    }
  }

  /** The builder holds exactly the items, all of them non-empty. */
  ghost predicate Laid(b: Builder, items: seq<Item>)
    reads b, b.descs
  {
    && b.curDesc <= b.descs.Length
    && Heads(b.Pool(), b.sgs, items, b.pt, b.alwaysUseShadow)
    && forall i :: 0 <= i < |items| ==> items[i].len > 0
  }

  /** The items are not in the shadow buffer. */
  ghost predicate OutsideShadow(b: Builder, items: seq<Item>)
    reads b
  {
    forall i :: 0 <= i < |items| ==> SourceAvoids(b.pt, items[i].src, items[i].len, b.shadowBase, b.FreeHi())
  }

  /** Data outside the free part of the shadow buffer is not disturbed by filling it. */
  lemma ContentStable(mem: Bytes, mem': Bytes, pt: PageTable, src: Source, len: nat, lo: nat, hi: nat)
    requires SourceOk(|mem|, pt, src, len) && SourceAvoids(pt, src, len, lo, hi) && SameOutside(mem, mem', lo, hi)
    ensures Content(mem', pt, src, len) == Content(mem, pt, src, len)
  {
    if src.Vmalloc? {
      forall j | 0 <= j < len
        ensures Content(mem', pt, src, len)[j] == Content(mem, pt, src, len)[j]
      {
        PageOfByte(|mem|, pt, src.vaddr, len, j);
        var p := (src.vaddr + j) / PAGE_SIZE;
        assert p in pt && src.vaddr / PAGE_SIZE <= p && p * PAGE_SIZE < src.vaddr + len;
        assert Avoids(Desc(pt[p] * PAGE_SIZE, PAGE_SIZE, false), lo, hi);
      }
    }
  }

  /**
   Linearization: after any sequence of successful additions, walking the chain yields the
   concatenation of the added bytes, whichever strategy each of them took. What was copied into the
   shadow buffer stays apart from everything else.
   */
  method AddAll(b: Builder, items: seq<Item>) returns (ok: bool)
    requires b.Valid() && ItemsOk(b.mem.Length, b.pt, items, b.FreeLo(), b.FreeHi())
    modifies b, b.descs, b.mem
    ensures ok ==> b.Valid() && b.View() == old(b.View()) + old(Contents(b.mem[..], b.pt, items))
    ensures ok && old(b.ShadowOk()) && OutsideShadow(b, items) ==> b.ShadowOk()
  {
    ghost var m, lo := b.mem[..], b.FreeLo();
    ghost var before := b.View();
    assert before + Contents(m, b.pt, items[..0]) == before;
    for i := 0 to |items|
      invariant b.Valid() && Undisturbed(b, m, lo)
      invariant b.View() == before + Contents(m, b.pt, items[..i])
      invariant old(b.ShadowOk()) && OutsideShadow(b, items) ==> b.ShadowOk()
    {
      ok := AddItem(b, items[i], m, lo, []);
      if !ok {
        return false;
      }
      ContentsSnoc(m, b.pt, items, i, before);
    }
    assert items[..|items|] == items;
    ok := true;
  }

  /** Since memory was `m` with the shadow buffer free from `lo` on, only that part has changed. */
  ghost predicate Undisturbed(b: Builder, m: Bytes, lo: nat)
    reads b, b.mem
  {
    lo <= b.FreeLo() && SameOutside(m, b.mem[..], lo, b.FreeHi())
  }

  method AddItem(b: Builder, x: Item, ghost m: Bytes, ghost lo: nat, ghost before: seq<Item>) returns (ok: bool)
    requires b.Valid() && Undisturbed(b, m, lo)
    requires ItemOk(|m|, b.pt, x, lo, b.FreeHi())
    modifies b, b.descs, b.mem
    ensures ok ==> b.Valid() && Undisturbed(b, m, lo) && Extends(b, old(b.Pool()), old(b.sgs))
    ensures ok ==> b.View() == old(b.View()) + Content(m, b.pt, x.src, x.len)
    ensures ok && x.len > 0 && old(Laid(b, before)) ==> Laid(b, before + [x])
    ensures ok && old(b.ShadowOk() && b.ClearOfShadow(x.src, x.len)) ==> b.ShadowOk()
    ensures old(b.HasRoom(x.src, x.len) && |b.sgs| < b.numSgs) ==> ok
  {
    AvoidsLess(b.pt, x.src, x.len, lo, b.FreeLo(), b.FreeHi());
    ContentStable(m, b.mem[..], b.pt, x.src, x.len, lo, b.FreeHi());
    ghost var pool, heads := b.Pool(), b.sgs;
    ghost var unmarked;
    ok, unmarked := b.AddData(x.src, x.len);
    if ok && x.len > 0 && old(Laid(b, before)) {
      HeadsSnoc(pool, Marked(unmarked), heads, before, x, b.pt, b.alwaysUseShadow);
      assert forall i :: 0 <= i < |before + [x]| ==> (before + [x])[i].len > 0;
    }
  }

  /** Descriptors and lists have only been added. */
  ghost predicate Extends(b: Builder, pool: seq<Desc>, heads: seq<nat>)
    requires b.curDesc <= b.descs.Length
    reads b, b.descs
  {
    pool <= b.Pool() && heads <= b.sgs
  }

  lemma ContentsSnoc(mem: Bytes, pt: PageTable, items: seq<Item>, i: nat, before: Bytes)
    requires i < |items| && forall k :: 0 <= k < |items| ==> SourceOk(|mem|, pt, items[k].src, items[k].len)
    ensures before + Contents(mem, pt, items[..i + 1])
         == before + Contents(mem, pt, items[..i]) + Content(mem, pt, items[i].src, items[i].len)
  {
    assert items[..i + 1][..i] == items[..i];
  }

  lemma AvoidsLess(pt: PageTable, src: Source, len: nat, lo: nat, lo': nat, hi: nat)
    requires SourceAvoids(pt, src, len, lo, hi) && lo <= lo'
    ensures SourceAvoids(pt, src, len, lo', hi)
  {
  }

  // ----- user memory

  /** Writing into the free part of the shadow buffer leaves the chain as it is. */
  method Stage(b: Builder, bytes: Bytes, ghost m: Bytes, ghost lo: nat)
    requires b.Valid() && Undisturbed(b, m, lo) && |bytes| <= b.shadowSize - b.shadowPos
    modifies b`shadowPos, b.mem
    ensures b.Valid() && Undisturbed(b, m, lo) && b.View() == old(b.View()) && b.Pool() == old(b.Pool())
    ensures b.shadowPos == old(b.shadowPos) + |bytes|
    ensures b.mem[old(b.FreeLo())..b.FreeLo()] == bytes
  {
    ghost var before := b.mem[..];
    ghost var from := b.FreeLo();
    b.CopyToShadow(bytes);
    AvoidersAgree(before, b.mem[..], b.Pool(), from, b.FreeHi());
    LinearStable(before, b.mem[..], b.Pool(), [], b.sgs);
    assert b.Pool() + [] == b.Pool();
  }

  /** `scatterlist_builder_add_userptr`: the array of entries is built in the shadow buffer and chained. */
  method AddUserptr(b: Builder, entries: seq<SgEntry>, ghost m: Bytes, ghost lo: nat) returns (ok: bool)
    requires b.Valid() && Undisturbed(b, m, lo)
    modifies b, b.descs, b.mem
    ensures ok ==> b.Valid() && Undisturbed(b, m, lo) && b.View() == old(b.View()) + EncodeSgs(entries)
    ensures ok ==> Extends(b, old(b.Pool()), old(b.sgs))
    ensures ok && old(b.ShadowOk()) ==> b.ShadowOk()
  {
    var size := SG_SIZE * |entries|;
    if b.shadowPos + size > b.shadowSize {
      return false;
    }
    var at := b.shadowBase + b.shadowPos;
    Stage(b, EncodeSgs(entries), m, lo);
    ghost var m1, lo1 := b.mem[..], b.FreeLo();
    assert Content(m1, b.pt, Direct(at), size) == EncodeSgs(entries);
    ok := AddItem(b, Item(Direct(at), size), m1, lo1, []);
    if ok {
      SameOutsideTwice(m, m1, b.mem[..], lo, lo1, b.FreeHi());
    }
  }

  lemma SameOutsideTwice(m: Bytes, m1: Bytes, m2: Bytes, lo: nat, lo1: nat, hi: nat)
    requires lo <= lo1 && SameOutside(m, m1, lo, hi) && SameOutside(m1, m2, lo1, hi)
    ensures SameOutside(m, m2, lo, hi)
  {
  }

  /** `scatterlist_builder_add_buffer_userptr` and its counterpart for controls. */
  method AddUserMemory(b: Builder, lengths: seq<nat>, lists: seq<seq<SgEntry>>, ghost m: Bytes, ghost lo: nat)
    returns (ok: bool)
    requires b.Valid() && Undisturbed(b, m, lo) && Backs(lengths, lists)
    modifies b, b.descs, b.mem
    ensures ok ==> b.Valid() && Undisturbed(b, m, lo) && b.View() == old(b.View()) + LayoutLists(lists)
    ensures ok ==> Extends(b, old(b.Pool()), old(b.sgs))
    ensures ok && old(b.ShadowOk()) ==> b.ShadowOk()
  {
    ghost var before := b.View();
    var next := 0;
    assert before + LayoutLists(lists[..0]) == before;
    for i := 0 to |lengths|
      invariant b.Valid() && Undisturbed(b, m, lo)
      invariant next <= |lists| && Backs(lengths[i..], lists[next..])
      invariant b.View() == before + LayoutLists(lists[..next])
      invariant Extends(b, old(b.Pool()), old(b.sgs))
      invariant old(b.ShadowOk()) ==> b.ShadowOk()
    {
      NextList(lengths, lists, i, next);
      if lengths[i] > 0 {
        ok := AddUserptr(b, lists[next], m, lo);
        if !ok {
          return false;
        }
        LayoutSnoc(lists, next, before);
        next := next + 1;
      }
    }
    assert lists[next..] == [] && lists[..next] == lists;
    ok := true;
  }

  lemma NextList(lengths: seq<nat>, lists: seq<seq<SgEntry>>, i: nat, next: nat)
    requires i < |lengths| && next <= |lists| && Backs(lengths[i..], lists[next..])
    ensures lengths[i] == 0 ==> Backs(lengths[i + 1..], lists[next..])
    ensures lengths[i] > 0 ==> next < |lists| && Backs(lengths[i + 1..], lists[next + 1..])
  {
    assert lengths[i..][1..] == lengths[i + 1..];
    if lengths[i] > 0 {
      assert lists[next..][1..] == lists[next + 1..];
    }
  }

  lemma LayoutSnoc(lists: seq<seq<SgEntry>>, k: nat, before: Bytes)
    requires k < |lists|
    ensures before + LayoutLists(lists[..k + 1]) == before + LayoutLists(lists[..k]) + EncodeSgs(lists[k])
  {
    LayoutConcat(lists[..k], [lists[k]]);
    assert lists[..k + 1] == lists[..k] + [lists[k]];
    assert LayoutLists([lists[k]]) == EncodeSgs(lists[k]) + [];
  }

  lemma {:induction false} LayoutConcat(a: seq<seq<SgEntry>>, c: seq<seq<SgEntry>>)
    ensures LayoutLists(a + c) == LayoutLists(a) + LayoutLists(c)
  {
    if a == [] {
      assert a + c == c;
    } else {
      LayoutConcat(a[1..], c);
      assert (a + c)[1..] == a[1..] + c && (a + c)[0] == a[0];
      assert LayoutLists(a + c) == EncodeSgs(a[0]) + (LayoutLists(a[1..]) + LayoutLists(c));
    }
  }

  // ----- the two payloads

  /** The items of a structure and of the array that goes with it. */
  function StructureItems(head: Bytes, headAt: Source, items: Bytes, itemsAt: Source): (r: seq<Item>) {
    [Item(headAt, |head|)] + if |items| > 0 then [Item(itemsAt, |items|)] else []
  }

  /**
   `scatterlist_builder_add_ext_ctrls`, and `scatterlist_builder_add_buffer` after its fixup: a structure,
   then the array that goes with it unless that is empty.
   */
  method AddStructure(b: Builder, head: Bytes, headAt: Source, items: Bytes, itemsAt: Source,
                      ghost m: Bytes, ghost lo: nat, ghost before: seq<Item>) returns (ok: bool)
    requires b.Valid() && Undisturbed(b, m, lo) && |head| > 0
    requires Stored(m, b.pt, headAt, head, lo, b.FreeHi()) && Stored(m, b.pt, itemsAt, items, lo, b.FreeHi())
    modifies b, b.descs, b.mem
    ensures ok ==> b.Valid() && Undisturbed(b, m, lo) && b.View() == old(b.View()) + (head + items)
    ensures ok && old(Laid(b, before)) ==> Laid(b, before + StructureItems(head, headAt, items, itemsAt))
    ensures ok && old(b.ShadowOk()) && OutsideShadow(b, StructureItems(head, headAt, items, itemsAt)) ==> b.ShadowOk()
  {
    ghost var view := b.View();
    ghost var all := StructureItems(head, headAt, items, itemsAt);
    assert all[0] == Item(headAt, |head|);
    ok := AddItem(b, Item(headAt, |head|), m, lo, before);
    if !ok {
      return false;
    }
    if |items| > 0 {
      assert all[1] == Item(itemsAt, |items|);
      ok := AddItem(b, Item(itemsAt, |items|), m, lo, before + [all[0]]);
      assert before + all == before + [all[0]] + [all[1]];
    } else {
      assert before + all == before + [all[0]];
    }
    assert view + (head + items) == (view + head) + items;
  }

  /** `src` holds exactly `bytes`, away from the free part of the shadow buffer. */
  ghost predicate Stored(m: Bytes, pt: PageTable, src: Source, bytes: Bytes, lo: nat, hi: nat) {
    && SourceOk(|m|, pt, src, |bytes|)
    && SourceAvoids(pt, src, |bytes|, lo, hi)
    && Content(m, pt, src, |bytes|) == bytes
  }
}
