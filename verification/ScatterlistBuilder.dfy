/**
 `scatterlist_builder` as the driver runs it: a fixed pool of descriptors, the chain of list heads,
 and a shadow buffer, filled in place.
 */
module ScatterlistBuilder {
  import opened Prelude
  import opened WireFormat
  import opened Scatterlist

  /** The descriptor has no byte in `[lo, hi)`. */
  predicate Avoids(d: Desc, lo: nat, hi: nat) {
    lo >= hi || d.len == 0 || d.addr + d.len <= lo || hi <= d.addr
  }

  predicate AllAvoid(descs: seq<Desc>, lo: nat, hi: nat) {
    forall i :: 0 <= i < |descs| ==> Avoids(descs[i], lo, hi)
  }

  predicate NoneEnds(descs: seq<Desc>) {
    forall i :: 0 <= i < |descs| ==> !descs[i].end
  }

  /** The source does not lie in `[lo, hi)`. */
  predicate SourceAvoids(pt: PageTable, src: Source, len: nat, lo: nat, hi: nat) {
    match src
    case Direct(addr) => Avoids(Desc(addr, len, false), lo, hi)
    case Vmalloc(vaddr) =>
      forall j :: j in pt && vaddr / PAGE_SIZE <= j && j * PAGE_SIZE < vaddr + len ==>
        Avoids(Desc(pt[j] * PAGE_SIZE, PAGE_SIZE, false), lo, hi)
    case Unmappable(_) => true
  }

  /** Memory changes inside `[lo, hi)` only. */
  predicate SameOutside(mem: Bytes, mem': Bytes, lo: nat, hi: nat) {
    |mem| == |mem'| && forall a :: 0 <= a < |mem| && !(lo <= a < hi) ==> mem'[a] == mem[a]
  }

  lemma AvoidersAgree(mem: Bytes, mem': Bytes, descs: seq<Desc>, lo: nat, hi: nat)
    requires SameOutside(mem, mem', lo, hi) && AllInMemory(|mem|, descs) && AllAvoid(descs, lo, hi)
    ensures Agree(mem, mem', descs)
  {
  }

  /** The two descriptors share no byte. */
  predicate Apart(d: Desc, e: Desc) {
    d.len == 0 || e.len == 0 || RangeEnd(d) <= e.addr || RangeEnd(e) <= d.addr
  }

  function RangeEnd(d: Desc): (r: nat) {
    d.addr + d.len
  }

  /** Unmarked non-empty descriptors that stay clear of `[lo, hi)` and cover exactly `bytes`. */
  predicate Covers(m: Bytes, piece: seq<Desc>, bytes: Bytes, lo: nat, hi: nat) {
    && NoneEnds(piece)
    && (forall i :: 0 <= i < |piece| ==> piece[i].len > 0)
    && AllInMemory(|m|, piece)
    && AllAvoid(piece, lo, hi)
    && Covered(m, piece) == bytes
  }

  /** The bytes of one part of a page, where the page frame holds them. */
  lemma PartOfPage(m: Bytes, pt: PageTable, vaddr: nat, len: nat, done: nat, n: nat, lo: nat, hi: nat)
    requires SourceOk(|m|, pt, Vmalloc(vaddr), len) && 0 < n <= len - done
    requires SourceAvoids(pt, Vmalloc(vaddr), len, lo, hi)
    requires (vaddr + done) % PAGE_SIZE + n <= PAGE_SIZE
    ensures (vaddr + done) / PAGE_SIZE in pt
    ensures var at := Translate(pt, vaddr + done);
            && at + n <= |m|
            && m[at..at + n] == Content(m, pt, Vmalloc(vaddr), len)[done..done + n]
            && Avoids(Desc(at, n, false), lo, hi)
    ensures (vaddr + done) % PAGE_SIZE + n == PAGE_SIZE ==>
              && (vaddr + done + n) % PAGE_SIZE == 0
              && Translate(pt, vaddr + done) + n == (pt[(vaddr + done) / PAGE_SIZE] + 1) * PAGE_SIZE
    ensures var bytes := Content(m, pt, Vmalloc(vaddr), len);
            var at := Translate(pt, vaddr + done);
            bytes[..done] + m[at..at + n] == bytes[..done + n]
  {
    PageContent(m, pt, vaddr, len, done, n);
    PageOfByte(|m|, pt, vaddr, len, done);
    assert Avoids(Desc(pt[(vaddr + done) / PAGE_SIZE] * PAGE_SIZE, PAGE_SIZE, false), lo, hi);
  }

  // ----- the pieces in the shadow buffer

  /** The test by which the driver recognises data that it copied. */
  predicate InShadow(d: Desc, base: nat, size: nat) {
    base <= d.addr < base + size
  }

  /** A list of one descriptor, inside the shadow buffer, that shares no byte with any other descriptor. */
  predicate OwnPiece(pool: seq<Desc>, i: nat, base: nat, size: nat)
    requires i < |pool|
  {
    && pool[i].end && (i > 0 ==> pool[i - 1].end)
    && RangeEnd(pool[i]) <= base + size
    && forall j :: 0 <= j < |pool| && j != i ==> Apart(pool[i], pool[j])
  }

  /** Everything that was placed in the shadow buffer has its own bytes there. */
  predicate ShadowPieces(pool: seq<Desc>, base: nat, size: nat) {
    forall i :: 0 <= i < |pool| && InShadow(pool[i], base, size) ==> OwnPiece(pool, i, base, size)
  }

  /** The unmarked descriptors with the last one marked. */
  function Marked(unmarked: seq<Desc>): (piece: seq<Desc>)
    requires unmarked != []
  {
    unmarked[|unmarked| - 1 := unmarked[|unmarked| - 1].(end := true)]
  }

  /** A piece in memory that nothing else uses, or one that stays out of the shadow buffer. */
  predicate Separate(pool: seq<Desc>, unmarked: seq<Desc>, base: nat, size: nat) {
    || AllAvoid(unmarked, base, base + size)
    || (&& |unmarked| == 1 && RangeEnd(unmarked[0]) <= base + size
        && AllAvoid(pool, unmarked[0].addr, RangeEnd(unmarked[0])))
  }

  /** Such a piece keeps the pieces in the shadow buffer apart. */
  lemma ShadowPieceApart(pool: seq<Desc>, unmarked: seq<Desc>, base: nat, size: nat)
    requires ShadowPieces(pool, base, size) && Closed(pool) && unmarked != []
    requires forall i :: 0 <= i < |unmarked| ==> unmarked[i].len > 0
    requires Separate(pool, unmarked, base, size)
    ensures ShadowPieces(pool + Marked(unmarked), base, size)
  {
    var all := pool + Marked(unmarked);
    forall i | 0 <= i < |all| && InShadow(all[i], base, size)
      ensures OwnPiece(all, i, base, size)
    {
      if i < |pool| {
        assert OwnPiece(pool, i, base, size);
        forall j | 0 <= j < |all| && j != i
          ensures Apart(all[i], all[j])
        {
          if j >= |pool| {
            var d := unmarked[j - |pool|];
            assert all[j].addr == d.addr && all[j].len == d.len;
            assert all[i] == pool[i];
            if AllAvoid(unmarked, base, base + size) {
              assert Avoids(d, base, base + size);
            } else {
              assert Avoids(pool[i], d.addr, RangeEnd(d));
            }
          }
        }
      } else {
        var d := unmarked[i - |pool|];
        assert !Avoids(d, base, base + size);
        assert |unmarked| == 1 && i == |pool|;
      }
    }
  }

  class Builder {
    const descs: array<Desc>
    var curDesc: nat
    const numSgs: nat
    var sgs: seq<nat>
    /** Physical memory; the shadow buffer is `[shadowBase, shadowBase + shadowSize)`. */
    const mem: array<Byte>
    const shadowBase: nat
    const shadowSize: nat
    var shadowPos: nat
    const pt: PageTable
    const alwaysUseShadow: bool

    ghost function Pool(): (r: seq<Desc>)
      requires curDesc <= descs.Length
      reads this, descs
    {
      descs[..curDesc]
    }

    ghost function FreeLo(): (r: nat)
      reads this
    {
      shadowBase + shadowPos
    }

    ghost function FreeHi(): (r: nat)
      reads this
    {
      shadowBase + shadowSize
    }

    ghost predicate InBounds()
      reads this
    {
      && curDesc <= descs.Length
      && |sgs| <= numSgs
      && shadowPos <= shadowSize
      && shadowBase + shadowSize <= mem.Length
    }

    ghost predicate Valid()
      reads this, descs
    {
      && InBounds()
      && Closed(Pool())
      && AllInMemory(mem.Length, Pool())
      && AllAvoid(Pool(), FreeLo(), FreeHi())
      && forall k :: 0 <= k < |sgs| ==> sgs[k] < curDesc
    }

    /** The bytes the device reads from the chain built so far. */
    ghost function View(): (bs: Bytes)
      requires Valid()
      reads this, descs, mem
    {
      Linear(mem[..], Pool(), sgs)
    }

    constructor (numDescs: nat, numSgs: nat, mem: array<Byte>, shadowBase: nat, shadowSize: nat, pt: PageTable,
                 alwaysUseShadow: bool)
      requires shadowBase + shadowSize <= mem.Length
      ensures Valid() && View() == [] && fresh(descs)
      ensures this.mem == mem && this.pt == pt && this.shadowBase == shadowBase && this.shadowSize == shadowSize
      ensures descs.Length == numDescs && this.numSgs == numSgs && shadowPos == 0 && curDesc == 0 && sgs == []
      ensures this.alwaysUseShadow == alwaysUseShadow
    {
      descs := new Desc[numDescs](_ => Desc(0, 0, false));
      curDesc, sgs, shadowPos := 0, [], 0;
      this.numSgs, this.mem, this.shadowBase, this.shadowSize := numSgs, mem, shadowBase, shadowSize;
      this.pt, this.alwaysUseShadow := pt, alwaysUseShadow;
    }

    /** `scatterlist_builder_add_descriptor`. */
    method AddDescriptor(first: nat) returns (ok: bool)
      modifies this`sgs
      ensures ok <==> |old(sgs)| < numSgs
      ensures sgs == if ok then old(sgs) + [first] else old(sgs)
    {
      if |sgs| >= numSgs {
        return false;
      }
      sgs := sgs + [first];
      ok := true;
    }

    /** A new descriptor for the range `[at, at + n)`. */
    method PushRange(ghost first: nat, ghost m: Bytes, ghost bytes: Bytes, at: nat, n: nat, ghost lo: nat,
                     ghost hi: nat)
      requires first <= curDesc < descs.Length && at + n <= |m| && n > 0
      requires Covers(m, descs[first..curDesc], bytes, lo, hi)
      requires Avoids(Desc(at, n, false), lo, hi)
      modifies this`curDesc, descs
      ensures curDesc == old(curDesc) + 1 <= descs.Length
      ensures descs[..first] == old(descs[..first]) && descs[curDesc - 1] == Desc(at, n, false)
      ensures Covers(m, descs[first..curDesc], bytes + m[at..at + n], lo, hi)
    {
      ghost var piece := descs[first..curDesc];
      CoveredSnoc(m, piece, Desc(at, n, false));
      descs[curDesc] := Desc(at, n, false);
      curDesc := curDesc + 1;
      assert descs[first..curDesc] == piece + [Desc(at, n, false)];
    }

    /** The last descriptor takes in the `n` bytes that follow it. */
    method GrowLast(ghost first: nat, ghost m: Bytes, ghost bytes: Bytes, n: nat, ghost lo: nat, ghost hi: nat)
      requires first < curDesc <= descs.Length && RangeEnd(descs[curDesc - 1]) + n <= |m|
      requires Covers(m, descs[first..curDesc], bytes, lo, hi)
      requires Avoids(Desc(RangeEnd(descs[curDesc - 1]), n, false), lo, hi)
      modifies descs
      ensures descs[..first] == old(descs[..first])
      ensures RangeEnd(descs[curDesc - 1]) == old(RangeEnd(descs[curDesc - 1])) + n
      ensures var end := old(RangeEnd(descs[curDesc - 1]));
              Covers(m, descs[first..curDesc], bytes + m[end..end + n], lo, hi)
    {
      ghost var piece := descs[first..curDesc];
      var d := descs[curDesc - 1];
      assert piece[|piece| - 1] == d;
      CoveredGrown(m, piece, n);
      descs[curDesc - 1] := d.(len := d.len + n);
      assert descs[first..curDesc] == piece[|piece| - 1 := d.(len := d.len + n)];
    }

    /**
     The page-by-page strategy: one descriptor per run of physically consecutive pages. Fails only
     when the pool is exhausted.
     */
    method PushPages(vaddr: nat, len: nat, ghost m: Bytes, ghost lo: nat, ghost hi: nat) returns (ok: bool)
      requires curDesc <= descs.Length && len > 0 && SourceOk(|m|, pt, Vmalloc(vaddr), len)
      requires SourceAvoids(pt, Vmalloc(vaddr), len, lo, hi)
      modifies this`curDesc, descs
      ensures old(curDesc) <= curDesc <= descs.Length
      ensures descs[..old(curDesc)] == old(descs[..curDesc])
      ensures !ok ==> curDesc == descs.Length
      ensures ok ==> old(curDesc) < curDesc
      ensures ok ==> Covers(m, descs[old(curDesc)..curDesc], Content(m, pt, Vmalloc(vaddr), len), lo, hi)
      ensures ok ==> (curDesc == old(curDesc) + 1 <==> Consecutive(pt, vaddr, len))
      ensures curDesc <= old(curDesc) + PageCount(vaddr, len)
      ensures old(curDesc) + PageCount(vaddr, len) <= descs.Length ==> ok
    {
      var done, prevPfn: int := 0, -2;
      ghost var first := curDesc;
      while done < len
        invariant 0 <= done <= len && SomeDescribed(first, m, vaddr, len, done, prevPfn, lo, hi)
        invariant RunSoFar(pt, vaddr, len, done, prevPfn, curDesc - first)
        invariant descs[..first] == old(descs[..curDesc])
      {
        PagesLeft(pt, vaddr, len, done, prevPfn, curDesc - first);
        if curDesc >= descs.Length {
          return false;
        }
        done, prevPfn := PushNext(first, m, vaddr, len, done, prevPfn, lo, hi);
      }
      assert Content(m, pt, Vmalloc(vaddr), len)[..len] == Content(m, pt, Vmalloc(vaddr), len);
      ok := true;
    }

    /** The next byte starts a page, and the last descriptor ends with the page frame before it. */
    predicate EndsPage(first: nat, data: nat, pfn: int)
      reads this, descs
    {
      && first < curDesc <= descs.Length
      && data % PAGE_SIZE == 0
      && RangeEnd(descs[curDesc - 1]) == (pfn + 1) * PAGE_SIZE
    }

    /** The first `done` bytes are described, by descriptors from `first` on. */
    ghost predicate SomeDescribed(first: nat, m: Bytes, vaddr: nat, len: nat, done: nat, prevPfn: int, lo: nat, hi: nat)
      requires SourceOk(|m|, pt, Vmalloc(vaddr), len) && done <= len
      reads this, descs
    {
      && first <= curDesc <= descs.Length
      && Covers(m, descs[first..curDesc], Content(m, pt, Vmalloc(vaddr), len)[..done], lo, hi)
      && (done == 0 ==> prevPfn == -2)
      && (0 < done < len ==> EndsPage(first, vaddr + done, prevPfn))
    }

    /** One turn of the loop, which continues the run of page frames or not. */
    method PushNext(ghost first: nat, ghost m: Bytes, vaddr: nat, len: nat, done: nat, prevPfn: int,
                    ghost lo: nat, ghost hi: nat)
      returns (next: nat, curPfn: int)
      requires SourceOk(|m|, pt, Vmalloc(vaddr), len) && done < len
      requires SourceAvoids(pt, Vmalloc(vaddr), len, lo, hi)
      requires curDesc < descs.Length && SomeDescribed(first, m, vaddr, len, done, prevPfn, lo, hi)
      requires RunSoFar(pt, vaddr, len, done, prevPfn, curDesc - first)
      modifies this`curDesc, descs
      ensures done < next <= len && descs[..first] == old(descs[..first])
      ensures SomeDescribed(first, m, vaddr, len, next, curPfn, lo, hi)
      ensures RunSoFar(pt, vaddr, len, next, curPfn, curDesc - first)
    {
      next, curPfn := PushPart(first, m, vaddr, len, done, prevPfn, lo, hi);
      RunContinues(pt, vaddr, len, done, next, prevPfn, curPfn, old(curDesc) - first, curDesc - first);
    }

    /** Describe the rest of one page. */
    method PushPart(ghost first: nat, ghost m: Bytes, vaddr: nat, len: nat, done: nat, prevPfn: int,
                    ghost lo: nat, ghost hi: nat)
      returns (next: nat, curPfn: int)
      requires SourceOk(|m|, pt, Vmalloc(vaddr), len) && done < len
      requires SourceAvoids(pt, Vmalloc(vaddr), len, lo, hi)
      requires curDesc < descs.Length && SomeDescribed(first, m, vaddr, len, done, prevPfn, lo, hi)
      modifies this`curDesc, descs
      ensures done < next <= len && descs[..first] == old(descs[..first])
      ensures SomeDescribed(first, m, vaddr, len, next, curPfn, lo, hi)
      ensures IsNextPart(pt, vaddr, len, done, next, curPfn)
      ensures curDesc == old(curDesc) + (if curPfn == prevPfn + 1 then 0 else 1)
    {
      var at;
      curPfn, at, next := LocatePart(m, vaddr, len, done, lo, hi);
      ghost var bytes := Content(m, pt, Vmalloc(vaddr), len)[..done];
      assert curPfn == prevPfn + 1 ==> EndsPage(first, vaddr + done, prevPfn);
      Describe(first, m, bytes, at, next - done, curPfn == prevPfn + 1, lo, hi);
    }

    /** Lengthen the last descriptor or take a new one. */
    method Describe(ghost first: nat, ghost m: Bytes, ghost bytes: Bytes, at: nat, n: nat, adjacent: bool,
                    ghost lo: nat, ghost hi: nat)
      requires first <= curDesc < descs.Length && at + n <= |m| && n > 0
      requires Covers(m, descs[first..curDesc], bytes, lo, hi) && Avoids(Desc(at, n, false), lo, hi)
      requires adjacent ==> first < curDesc && RangeEnd(descs[curDesc - 1]) == at
      modifies this`curDesc, descs
      ensures first < curDesc <= descs.Length && descs[..first] == old(descs[..first])
      ensures curDesc == old(curDesc) + (if adjacent then 0 else 1)
      ensures RangeEnd(descs[curDesc - 1]) == at + n
      ensures Covers(m, descs[first..curDesc], bytes + m[at..at + n], lo, hi)
    {
      if adjacent {
        GrowLast(first, m, bytes, n, lo, hi);
      } else {
        PushRange(first, m, bytes, at, n, lo, hi);
      }
    }

    /** The page frame and physical address of the next part, and where it ends. */
    method LocatePart(ghost m: Bytes, vaddr: nat, len: nat, done: nat, ghost lo: nat, ghost hi: nat)
      returns (curPfn: int, at: nat, next: nat)
      requires SourceOk(|m|, pt, Vmalloc(vaddr), len) && done < len
      requires SourceAvoids(pt, Vmalloc(vaddr), len, lo, hi)
      ensures IsNextPart(pt, vaddr, len, done, next, curPfn)
      ensures at + (next - done) <= |m| && Avoids(Desc(at, next - done, false), lo, hi)
      ensures var content := Content(m, pt, Vmalloc(vaddr), len);
              content[..done] + m[at..at + (next - done)] == content[..next]
      ensures (vaddr + done) % PAGE_SIZE == 0 ==> at == curPfn * PAGE_SIZE
      ensures next < len ==> at + (next - done) == (curPfn + 1) * PAGE_SIZE
    {
      var data := vaddr + done;
      PageOfByte(|m|, pt, vaddr, len, done);
      curPfn := pt[data / PAGE_SIZE];
      var offset := data % PAGE_SIZE;
      var lenInPage := if PAGE_SIZE - offset < len - done then PAGE_SIZE - offset else len - done;
      at := curPfn * PAGE_SIZE + offset;
      next := done + lenInPage;
      PartOfPage(m, pt, vaddr, len, done, lenInPage, lo, hi);
    }

    /** Copy `bytes` to the start of the free part of the shadow buffer. */
    method CopyToShadow(bytes: Bytes)
      requires InBounds() && |bytes| <= shadowSize - shadowPos
      modifies this`shadowPos, mem
      ensures InBounds() && shadowPos == old(shadowPos) + |bytes|
      ensures mem[old(FreeLo())..FreeLo()] == bytes
      ensures SameOutside(old(mem[..]), mem[..], old(FreeLo()), FreeLo())
    {
      var at := shadowBase + shadowPos;
      for i := 0 to |bytes|
        invariant mem[at..at + i] == bytes[..i]
        invariant SameOutside(old(mem[..]), mem[..], at, at + |bytes|) && shadowPos == old(shadowPos)
      {
        mem[at + i] := bytes[i];
        assert mem[at..at + i + 1] == mem[at..at + i] + [bytes[i]];
      }
      assert bytes[..|bytes|] == bytes;
      shadowPos := shadowPos + |bytes|;
    }

    /** The data is copied rather than pointed at. */
    predicate Shadowed(src: Source) {
      alwaysUseShadow || src.Unmappable?
    }

    /** There is certainly room for the data. */
    ghost predicate HasRoom(src: Source, len: nat)
      reads this
    {
      && curDesc < descs.Length
      && (Shadowed(src) ==> len <= shadowSize - shadowPos)
      && (!Shadowed(src) && src.Vmalloc? ==> curDesc + PageCount(src.vaddr, len) <= descs.Length)
    }

    /** The pieces in the shadow buffer are apart from one another and from everything else. */
    ghost predicate ShadowOk()
      requires curDesc <= descs.Length
      reads this, descs
    {
      ShadowPieces(Pool(), shadowBase, shadowSize)
    }

    /** The data is not in the shadow buffer, or in a part of it that no descriptor covers yet. */
    ghost predicate ClearOfShadow(src: Source, len: nat)
      requires curDesc <= descs.Length
      reads this, descs
    {
      || SourceAvoids(pt, src, len, shadowBase, FreeHi())
      || (src.Direct? && src.addr + len <= FreeHi() && AllAvoid(Pool(), src.addr, src.addr + len))
    }

    /**
     Point unmarked descriptors at the data by whichever strategy suits where it lives. On success
     they cover its bytes; nothing but the free part of the shadow buffer has changed.
     */
    method Place(src: Source, len: nat) returns (ok: bool)
      requires Valid() && curDesc < descs.Length && len > 0 && SourceOk(mem.Length, pt, src, len)
      requires SourceAvoids(pt, src, len, FreeLo(), FreeHi())
      modifies this`curDesc, this`shadowPos, descs, mem
      ensures InBounds() && old(curDesc) <= curDesc && old(shadowPos) <= shadowPos
      ensures descs[..old(curDesc)] == old(descs[..curDesc])
      ensures SameOutside(old(mem[..]), mem[..], old(FreeLo()), FreeLo())
      ensures ok ==> old(curDesc) < curDesc
      ensures ok ==>
                Covers(mem[..], descs[old(curDesc)..curDesc], old(Content(mem[..], pt, src, len)), FreeLo(), FreeHi())
      ensures ok && (Shadowed(src) || src.Direct?) ==>
                && descs[old(curDesc)] == Desc(if Shadowed(src) then old(FreeLo()) else src.addr, len, false)
                && shadowPos == old(shadowPos) + (if Shadowed(src) then len else 0)
      ensures !Shadowed(src) ==> shadowPos == old(shadowPos) && mem[..] == old(mem[..])
      ensures old(HasRoom(src, len)) ==> ok
      ensures ok ==> Takes(pt, src, len, alwaysUseShadow, curDesc - old(curDesc))
      ensures ok && old(ClearOfShadow(src, len)) ==>
                Separate(old(Pool()), descs[old(curDesc)..curDesc], shadowBase, shadowSize)
    {
      if !alwaysUseShadow && src.Direct? {
        PlaceDirect(src.addr, len);
        ok := true;
      } else if !alwaysUseShadow && src.Vmalloc? {
        ok := PlacePages(src.vaddr, len);
      } else {
        ok := PlaceInShadow(src, len);
      }
    }

    /** Data in the linear mapping: one descriptor for all of it. */
    method PlaceDirect(addr: nat, len: nat)
      requires Valid() && curDesc < descs.Length && len > 0 && addr + len <= mem.Length
      requires SourceAvoids(pt, Direct(addr), len, FreeLo(), FreeHi())
      modifies this`curDesc, descs
      ensures curDesc == old(curDesc) + 1 <= descs.Length && descs[..old(curDesc)] == old(descs[..curDesc])
      ensures descs[old(curDesc)] == Desc(addr, len, false)
      ensures Covers(mem[..], descs[old(curDesc)..curDesc], mem[..][addr..addr + len], FreeLo(), FreeHi())
      ensures old(ClearOfShadow(Direct(addr), len)) ==>
                Separate(old(Pool()), descs[old(curDesc)..curDesc], shadowBase, shadowSize)
    {
      PushRange(curDesc, mem[..], [], addr, len, FreeLo(), FreeHi());
      assert mem[..][addr..addr + len] == [] + mem[..][addr..addr + len];
      assert descs[old(curDesc)..curDesc] == [Desc(addr, len, false)];
    }

    /** Virtually contiguous data: one descriptor per run of page frames. */
    method PlacePages(vaddr: nat, len: nat) returns (ok: bool)
      requires Valid() && curDesc < descs.Length && len > 0 && SourceOk(mem.Length, pt, Vmalloc(vaddr), len)
      requires SourceAvoids(pt, Vmalloc(vaddr), len, FreeLo(), FreeHi())
      modifies this`curDesc, descs
      ensures old(curDesc) <= curDesc <= descs.Length && descs[..old(curDesc)] == old(descs[..curDesc])
      ensures ok ==> old(curDesc) < curDesc <= old(curDesc) + PageCount(vaddr, len)
      ensures ok ==> (curDesc == old(curDesc) + 1 <==> Consecutive(pt, vaddr, len))
      ensures ok ==>
                var content := Content(mem[..], pt, Vmalloc(vaddr), len);
                Covers(mem[..], descs[old(curDesc)..curDesc], content, FreeLo(), FreeHi())
      ensures ok && old(ClearOfShadow(Vmalloc(vaddr), len)) ==>
                Separate(old(Pool()), descs[old(curDesc)..curDesc], shadowBase, shadowSize)
      ensures old(curDesc) + PageCount(vaddr, len) <= descs.Length ==> ok
    {
      ghost var lo := LowestClear(Vmalloc(vaddr), len);
      ok := PushPages(vaddr, len, mem[..], lo, FreeHi());
    }

    /** Where the part of the shadow buffer that the data stays out of begins. */
    ghost function LowestClear(src: Source, len: nat): (lo: nat)
      requires SourceAvoids(pt, src, len, FreeLo(), FreeHi())
      ensures lo <= FreeLo() && SourceAvoids(pt, src, len, lo, FreeHi())
      reads this
    {
      if SourceAvoids(pt, src, len, shadowBase, FreeHi()) then shadowBase else FreeLo()
    }

    /** The last resort: copy the data, if the shadow buffer has room for it. */
    method PlaceInShadow(src: Source, len: nat) returns (ok: bool)
      requires InBounds() && curDesc < descs.Length && len > 0 && SourceOk(mem.Length, pt, src, len)
      modifies this`curDesc, this`shadowPos, descs, mem
      ensures InBounds() && (ok <==> len <= shadowSize - old(shadowPos))
      ensures descs[..old(curDesc)] == old(descs[..curDesc])
      ensures shadowPos == old(shadowPos) + (if ok then len else 0)
      ensures curDesc == old(curDesc) + (if ok then 1 else 0)
      ensures SameOutside(old(mem[..]), mem[..], old(FreeLo()), FreeLo())
      ensures ok ==> descs[old(curDesc)..curDesc] == [Desc(old(FreeLo()), len, false)]
      ensures ok ==>
                Covers(mem[..], descs[old(curDesc)..curDesc], old(Content(mem[..], pt, src, len)), FreeLo(), FreeHi())
    {
      if len > shadowSize - shadowPos {
        return false;
      }
      var at := shadowBase + shadowPos;
      var content := ReadSource(src, len);
      CopyToShadow(content);
      PushShadow(at, len);
      ok := true;
    }

    /** A descriptor for the last `len` bytes of the part of the shadow buffer that is in use. */
    method PushShadow(at: nat, len: nat)
      requires InBounds() && curDesc < descs.Length && len > 0 && at + len == FreeLo()
      modifies this`curDesc, descs
      ensures curDesc == old(curDesc) + 1 && descs[..old(curDesc)] == old(descs[..curDesc])
      ensures descs[old(curDesc)..curDesc] == [Desc(at, len, false)]
      ensures Covers(mem[..], descs[old(curDesc)..curDesc], mem[at..at + len], FreeLo(), FreeHi())
    {
      PushRange(curDesc, mem[..], [], at, len, FreeLo(), FreeHi());
      assert [] + mem[..][at..at + len] == mem[at..at + len];
    }

    /** The bytes that `memcpy` reads. */
    method ReadSource(src: Source, len: nat) returns (bs: Bytes)
      requires SourceOk(mem.Length, pt, src, len)
      ensures bs == Content(mem[..], pt, src, len)
    {
      bs := Content(mem[..], pt, src, len);
    }

    /**
     `scatterlist_builder_add_data`: on success the device reads `len` more bytes, those of the data
     at the time of the call, after everything added before. They take one descriptor exactly if the
     data is copied or lies in consecutive page frames.
     */
    method AddData(src: Source, len: nat) returns (ok: bool, ghost unmarked: seq<Desc>)
      requires Valid() && SourceOk(mem.Length, pt, src, len)
      requires SourceAvoids(pt, src, len, FreeLo(), FreeHi())
      modifies this`curDesc, this`shadowPos, this`sgs, descs, mem
      ensures SameOutside(old(mem[..]), mem[..], old(FreeLo()), FreeLo())
      ensures ok ==> Valid() && View() == old(View()) + old(Content(mem[..], pt, src, len))
      ensures ok ==> old(shadowPos) <= shadowPos
      ensures ok && len == 0 ==> sgs == old(sgs) && Pool() == old(Pool())
      ensures ok && len > 0 ==> sgs == old(sgs) + [old(curDesc)] && IsNewPiece(old(Pool()), unmarked)
      ensures ok && len > 0 ==> Takes(pt, src, len, alwaysUseShadow, |unmarked|)
      ensures ok && len > 0 && (alwaysUseShadow || src.Unmappable?) ==>
                unmarked[0] == Desc(old(FreeLo()), len, false) && shadowPos == old(shadowPos) + len
      ensures ok && len > 0 && !alwaysUseShadow && src.Direct? ==>
                unmarked[0] == Desc(src.addr, len, false) && shadowPos == old(shadowPos)
      ensures ok && !alwaysUseShadow && src.Vmalloc? ==> shadowPos == old(shadowPos) && mem[..] == old(mem[..])
      ensures old(len == 0 || (HasRoom(src, len) && |sgs| < numSgs)) ==> ok
      ensures ok && old(ShadowOk() && ClearOfShadow(src, len)) ==> ShadowOk()
    {
      unmarked := [];
      if len == 0 {
        return true, [];
      }
      if curDesc >= descs.Length {
        return false, [];
      }
      ok, unmarked := AddPiece(src, len);
      if ok && old(ShadowOk() && ClearOfShadow(src, len)) {
        ShadowPieceApart(old(Pool()), unmarked, shadowBase, shadowSize);
      }
    }

    /** The data takes at least one descriptor; `unmarked` is the new piece before its end is marked. */
    method AddPiece(src: Source, len: nat) returns (ok: bool, ghost unmarked: seq<Desc>)
      requires Valid() && curDesc < descs.Length && len > 0 && SourceOk(mem.Length, pt, src, len)
      requires SourceAvoids(pt, src, len, FreeLo(), FreeHi())
      modifies this`curDesc, this`shadowPos, this`sgs, descs, mem
      ensures SameOutside(old(mem[..]), mem[..], old(FreeLo()), FreeLo())
      ensures ok ==> Valid() && View() == old(View()) + old(Content(mem[..], pt, src, len))
      ensures ok ==> old(shadowPos) <= shadowPos && sgs == old(sgs) + [old(curDesc)]
      ensures ok ==> IsNewPiece(old(Pool()), unmarked) && Takes(pt, src, len, alwaysUseShadow, |unmarked|)
      ensures ok && (Shadowed(src) || src.Direct?) ==>
                && unmarked[0] == Desc(if Shadowed(src) then old(FreeLo()) else src.addr, len, false)
                && shadowPos == old(shadowPos) + (if Shadowed(src) then len else 0)
      ensures !Shadowed(src) ==> shadowPos == old(shadowPos) && mem[..] == old(mem[..])
      ensures old(HasRoom(src, len) && |sgs| < numSgs) ==> ok
      ensures ok && old(ClearOfShadow(src, len)) ==> Separate(old(Pool()), unmarked, shadowBase, shadowSize)
    {
      var first := curDesc;
      ok := Place(src, len);
      unmarked := [];
      if ok {
        unmarked := descs[first..curDesc];
        ok := Chain(first, old(mem[..]), old(Content(mem[..], pt, src, len)), old(FreeLo()));
      }
    }

    /** The pool was `pool`, and the piece was added to it and marked. */
    ghost predicate IsNewPiece(pool: seq<Desc>, unmarked: seq<Desc>)
      requires curDesc <= descs.Length
      reads this, descs
    {
      && unmarked != [] && NoneEnds(unmarked)
      && (forall i :: 0 <= i < |unmarked| ==> unmarked[i].len > 0)
      && Pool() == pool + Marked(unmarked)
    }

    /** Mark the end of the new piece and chain it. `m` is memory before the piece was placed. */
    method Chain(first: nat, ghost m: Bytes, ghost content: Bytes, ghost lo: nat) returns (ok: bool)
      requires InBounds() && first < curDesc && lo <= FreeLo() && SameOutside(m, mem[..], lo, FreeLo())
      requires Closed(descs[..first]) && AllInMemory(|m|, descs[..first]) && AllAvoid(descs[..first], lo, FreeHi())
      requires Covers(mem[..], descs[first..curDesc], content, FreeLo(), FreeHi())
      requires forall k :: 0 <= k < |sgs| ==> sgs[k] < first
      modifies this`sgs, descs
      ensures descs[..curDesc] == old(descs[..first]) + Marked(old(descs[first..curDesc]))
      ensures ok <==> |old(sgs)| < numSgs
      ensures ok ==> sgs == old(sgs) + [first]
      ensures ok ==> Valid() && View() == old(Linear(m, descs[..first], sgs)) + content
    {
      ghost var pool, unmarked := descs[..first], descs[first..curDesc];
      MarkedPiece(m, mem[..], pool, unmarked, content, lo, FreeLo(), FreeHi(), sgs);
      HeadsBelow(sgs, first, curDesc);
      MarkEnd(first);
      ok := AddDescriptor(first);
    }

    /** `sg_mark_end` on the last descriptor. */
    method MarkEnd(ghost first: nat)
      requires first < curDesc <= descs.Length
      modifies descs
      ensures Pool() == old(descs[..first]) + Marked(old(descs[first..curDesc]))
    {
      descs[curDesc - 1] := descs[curDesc - 1].(end := true);
      assert Pool() == descs[..first] + descs[first..curDesc];
    }
  }

  lemma HeadsBelow(heads: seq<nat>, first: nat, end: nat)
    requires (forall k :: 0 <= k < |heads| ==> heads[k] < first) && first < end
    ensures forall k :: 0 <= k < |heads + [first]| ==> (heads + [first])[k] < end
  {
  }

  /** Marking the last descriptor makes a piece, which appends its bytes to the linear view. */
  lemma MarkedPiece(m: Bytes, m': Bytes, pool: seq<Desc>, unmarked: seq<Desc>,
                    content: Bytes, lo: nat, lo': nat, hi: nat, sgs: seq<nat>)
    requires lo <= lo' <= hi && SameOutside(m, m', lo, lo')
    requires Closed(pool) && AllInMemory(|m|, pool) && AllAvoid(pool, lo, hi)
    requires Covers(m', unmarked, content, lo', hi) && unmarked != []
    requires forall k :: 0 <= k < |sgs| ==> sgs[k] < |pool|
    ensures var all := pool + Marked(unmarked); Closed(all) && AllInMemory(|m'|, all) && AllAvoid(all, lo', hi)
    ensures Linear(m', pool + Marked(unmarked), sgs + [|pool|]) == Linear(m, pool, sgs) + content
  {
    var piece := Marked(unmarked);
    MarkedCovers(m', unmarked);
    PoolExtended(|m|, pool, unmarked, lo, lo', hi);
    AvoidersAgree(m, m', pool, lo, hi);
    AppendPiece(m, m', pool, piece, sgs);
  }

  lemma MarkedCovers(mem: Bytes, unmarked: seq<Desc>)
    requires AllInMemory(|mem|, unmarked) && NoneEnds(unmarked) && unmarked != []
    ensures AllInMemory(|mem|, Marked(unmarked)) && IsPiece(Marked(unmarked))
    ensures Covered(mem, Marked(unmarked)) == Covered(mem, unmarked)
  {
    var n := |unmarked| - 1;
    var prefix, d := unmarked[..n], unmarked[n];
    assert unmarked == prefix + [d] && Marked(unmarked) == prefix + [d.(end := true)];
    CoveredSnoc(mem, prefix, d);
    CoveredSnoc(mem, prefix, d.(end := true));
  }

  lemma PoolExtended(memSize: nat, pool: seq<Desc>, unmarked: seq<Desc>, lo: nat, lo': nat, hi: nat)
    requires lo <= lo' <= hi && unmarked != []
    requires AllInMemory(memSize, pool) && AllAvoid(pool, lo, hi)
    requires AllInMemory(memSize, unmarked) && AllAvoid(unmarked, lo', hi)
    ensures var all := pool + Marked(unmarked); Closed(all) && AllInMemory(memSize, all) && AllAvoid(all, lo', hi)
  {
  }
}
