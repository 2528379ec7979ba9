/**
 The descriptor chain that the driver builds for a command. Data is added by pointing descriptors
 at it, page by page where it is only virtually contiguous, or by copying it into a shadow buffer.
 The device sees the chain as one run of bytes.
 */
module Scatterlist {
  import opened Prelude
  import opened WireFormat

  /** A descriptor: a physical range, and whether it ends the list it belongs to. */
  datatype Desc = Desc(addr: nat, len: nat, end: bool)

  /**
   Where data to be added lives: in the kernel's linear mapping, in virtually contiguous pages, or
   in memory that cannot be described to the device, of which only the content matters.
   */
  datatype Source = Direct(addr: nat) | Vmalloc(vaddr: nat) | Unmappable(content: Bytes)

  /** Page table of the virtually contiguous memory: virtual page to page frame number. */
  type PageTable = map<nat, nat>

  // ----- what the device sees

  /** The descriptors of the list that starts at `first`. */
  function Walk(descs: seq<Desc>, first: nat): (r: seq<Desc>)
    decreases |descs| - first
  {
    if first >= |descs| then []
    else if descs[first].end then [descs[first]]
    else [descs[first]] + Walk(descs, first + 1)
  }

  predicate InMemory(memSize: nat, d: Desc) {
    d.addr + d.len <= memSize
  }

  predicate AllInMemory(memSize: nat, descs: seq<Desc>) {
    forall i :: 0 <= i < |descs| ==> InMemory(memSize, descs[i])
  }

  /** The bytes that a run of descriptors covers. */
  function Covered(mem: Bytes, descs: seq<Desc>): (bs: Bytes)
    requires AllInMemory(|mem|, descs)
  {
    if descs == [] then []
    else
      var d := descs[|descs| - 1];
      Covered(mem, descs[..|descs| - 1]) + mem[d.addr..d.addr + d.len]
  }

  lemma {:induction false} WalkInMemory(memSize: nat, descs: seq<Desc>, first: nat)
    requires AllInMemory(memSize, descs)
    ensures AllInMemory(memSize, Walk(descs, first))
    decreases |descs| - first
  {
    if first < |descs| && !descs[first].end {
      WalkInMemory(memSize, descs, first + 1);
    }
  }

  /** The linear view of a chain: its lists, walked one after the other. */
  ghost function Linear(mem: Bytes, descs: seq<Desc>, sgs: seq<nat>): (bs: Bytes)
    requires AllInMemory(|mem|, descs)
  {
    if sgs == [] then []
    else
      var n := |sgs| - 1;
      WalkInMemory(|mem|, descs, sgs[n]);
      Linear(mem, descs, sgs[..n]) + Covered(mem, Walk(descs, sgs[n]))
  }

  // ----- the bytes of a source

  /** Physical address of a byte of virtually contiguous memory. */
  function Translate(pt: PageTable, vaddr: nat): (r: nat)
    requires vaddr / PAGE_SIZE in pt
  {
    pt[vaddr / PAGE_SIZE] * PAGE_SIZE + vaddr % PAGE_SIZE
  }

  /** The area `[vaddr, vaddr + len)` is mapped, to pages that lie in memory. */
  predicate Mapped(memSize: nat, pt: PageTable, vaddr: nat, len: nat) {
    forall j :: vaddr / PAGE_SIZE <= j <= (vaddr + len) / PAGE_SIZE && j * PAGE_SIZE < vaddr + len ==>
      j in pt && pt[j] * PAGE_SIZE + PAGE_SIZE <= memSize
  }

  predicate SourceOk(memSize: nat, pt: PageTable, src: Source, len: nat) {
    match src
    case Direct(addr) => addr + len <= memSize
    case Vmalloc(vaddr) => Mapped(memSize, pt, vaddr, len)
    case Unmappable(content) => |content| == len
  }

  /** The page frames of the area `[vaddr, vaddr + len)` follow one another. */
  predicate Consecutive(pt: PageTable, vaddr: nat, len: nat) {
    forall j :: vaddr / PAGE_SIZE < j && j * PAGE_SIZE < vaddr + len && j in pt && j - 1 in pt ==>
      pt[j] == pt[j - 1] + 1
  }

  /** One descriptor is enough for the data. A caller can tell before adding it. */
  predicate OneRun(pt: PageTable, src: Source, len: nat, alwaysUseShadow: bool) {
    alwaysUseShadow || !src.Vmalloc? || Consecutive(pt, src.vaddr, len)
  }

  /** How many pages the area touches. */
  function PageCount(vaddr: nat, len: nat): (n: nat) {
    if len == 0 then 0 else (vaddr + len - 1) / PAGE_SIZE - vaddr / PAGE_SIZE + 1
  }

  /** `used` descriptors are right for the data: one exactly if it is one run, never more than pages. */
  predicate Takes(pt: PageTable, src: Source, len: nat, alwaysUseShadow: bool, used: nat) {
    && (used == 1 <==> OneRun(pt, src, len, alwaysUseShadow))
    && 0 < used
    && (!alwaysUseShadow && src.Vmalloc? ==> used <= PageCount(src.vaddr, len))
  }

  /** The first part of an area lies in one page. */
  lemma FirstPage(pt: PageTable, vaddr: nat, n: nat)
    requires 0 < n && vaddr % PAGE_SIZE + n <= PAGE_SIZE
    ensures Consecutive(pt, vaddr, n) && PageCount(vaddr, n) == 1
  {
    assert (vaddr + n - 1) / PAGE_SIZE == vaddr / PAGE_SIZE;
    assert forall j :: vaddr / PAGE_SIZE < j ==> vaddr + n <= j * PAGE_SIZE;
  }

  /** Every further part adds a page, which continues the run or not. */
  lemma NextPage(pt: PageTable, vaddr: nat, done: nat, n: nat)
    requires done > 0 && 0 < n <= PAGE_SIZE && (vaddr + done) % PAGE_SIZE == 0
    requires (vaddr + done) / PAGE_SIZE in pt && (vaddr + done) / PAGE_SIZE - 1 in pt
    ensures var p := (vaddr + done) / PAGE_SIZE;
            Consecutive(pt, vaddr, done + n) <==> Consecutive(pt, vaddr, done) && pt[p] == pt[p - 1] + 1
    ensures PageCount(vaddr, done + n) == PageCount(vaddr, done) + 1
  {
    var p := (vaddr + done) / PAGE_SIZE;
    assert vaddr + done == p * PAGE_SIZE;
    assert (vaddr + done - 1) / PAGE_SIZE == p - 1 && (vaddr + done + n - 1) / PAGE_SIZE == p;
    assert vaddr / PAGE_SIZE < p;
    assert forall j :: j * PAGE_SIZE < vaddr + done + n <==> j <= p by {
      forall j: int
        ensures j * PAGE_SIZE < vaddr + done + n <==> j <= p
      {
        PageBelow(j, p, n);
      }
    }
    assert forall j :: j * PAGE_SIZE < vaddr + done <==> j < p;
  }

  lemma PageBelow(j: int, p: nat, n: nat)
    requires 0 < n <= PAGE_SIZE
    ensures j * PAGE_SIZE < p * PAGE_SIZE + n <==> j <= p
  {
  }

  /**
   After `done` bytes were described, frame by frame: the last frame was `prevPfn`, and `used`
   descriptors were taken, one exactly if the frames so far follow one another.
   */
  predicate RunSoFar(pt: PageTable, vaddr: nat, len: nat, done: nat, prevPfn: int, used: nat) {
    if done == 0 then prevPfn == -2 && used == 0
    else
      && prevPfn >= 0
      && 0 < used <= PageCount(vaddr, done)
      && (used == 1 <==> Consecutive(pt, vaddr, done))
      && (done < len ==>
            var p := (vaddr + done) / PAGE_SIZE;
            (vaddr + done) % PAGE_SIZE == 0 && p - 1 in pt && pt[p - 1] == prevPfn)
  }

  /** The bytes from `done` to `next` are the rest of a page, in frame `pfn`, as far as they belong to the area. */
  predicate IsNextPart(pt: PageTable, vaddr: nat, len: nat, done: nat, next: nat, pfn: int) {
    && done < next <= len
    && (vaddr + done) % PAGE_SIZE + (next - done) <= PAGE_SIZE
    && (next < len ==> (vaddr + next) % PAGE_SIZE == 0)
    && (vaddr + done) / PAGE_SIZE in pt && pfn == pt[(vaddr + done) / PAGE_SIZE]
  }

  /** The next part keeps that. */
  lemma RunContinues(pt: PageTable, vaddr: nat, len: nat, done: nat, next: nat, prevPfn: int, pfn: int,
                     used: nat, used': nat)
    requires RunSoFar(pt, vaddr, len, done, prevPfn, used) && IsNextPart(pt, vaddr, len, done, next, pfn)
    requires used' == used + (if pfn == prevPfn + 1 then 0 else 1)
    ensures RunSoFar(pt, vaddr, len, next, pfn, used')
  {
    if done == 0 {
      FirstPage(pt, vaddr, next);
    } else {
      NextPage(pt, vaddr, done, next - done);
    }
    if (vaddr + next) % PAGE_SIZE == 0 {
      assert (vaddr + next) / PAGE_SIZE == (vaddr + done) / PAGE_SIZE + 1;
    }
  }

  /** While bytes are left, fewer descriptors were taken than the area has pages. */
  lemma PagesLeft(pt: PageTable, vaddr: nat, len: nat, done: nat, prevPfn: int, used: nat)
    requires RunSoFar(pt, vaddr, len, done, prevPfn, used) && done < len
    ensures used < PageCount(vaddr, len)
  {
    if done > 0 {
      assert (vaddr + done - 1) / PAGE_SIZE < (vaddr + done) / PAGE_SIZE <= (vaddr + len - 1) / PAGE_SIZE;
    }
  }

  lemma PageOfByte(memSize: nat, pt: PageTable, vaddr: nat, len: nat, j: nat)
    requires Mapped(memSize, pt, vaddr, len) && j < len
    ensures (vaddr + j) / PAGE_SIZE in pt && Translate(pt, vaddr + j) < memSize
  {
    var p := (vaddr + j) / PAGE_SIZE;
    assert vaddr / PAGE_SIZE <= p <= (vaddr + len) / PAGE_SIZE && p * PAGE_SIZE < vaddr + len;
  }

  function Content(mem: Bytes, pt: PageTable, src: Source, len: nat): (bs: Bytes)
    requires SourceOk(|mem|, pt, src, len)
    ensures |bs| == len
  {
    match src
    case Direct(addr) => mem[addr..addr + len]
    case Vmalloc(vaddr) =>
      seq(len, j requires 0 <= j < len => PageOfByte(|mem|, pt, vaddr, len, j); mem[Translate(pt, vaddr + j)])
    case Unmappable(content) => content
  }

  // ----- lemmas about chains

  /** No list is left open at the end of the pool. */
  predicate Closed(descs: seq<Desc>) {
    descs == [] || descs[|descs| - 1].end
  }

  /** A list that ends does not notice descriptors added after it. */
  lemma {:induction false} WalkStable(descs: seq<Desc>, more: seq<Desc>, first: nat)
    requires first < |descs| && Closed(descs)
    ensures Walk(descs + more, first) == Walk(descs, first)
    decreases |descs| - first
  {
    if !descs[first].end {
      WalkStable(descs, more, first + 1);
    }
  }

  /** Only the last descriptor of a piece is marked. */
  predicate IsPiece(piece: seq<Desc>) {
    && piece != []
    && piece[|piece| - 1].end
    && forall i :: 0 <= i < |piece| - 1 ==> !piece[i].end
  }

  /** A piece added to the pool is what its list walks over. */
  lemma {:induction false} WalkPiece(descs: seq<Desc>, piece: seq<Desc>, k: nat)
    requires IsPiece(piece) && k < |piece|
    ensures Walk(descs + piece, |descs| + k) == piece[k..]
    decreases |piece| - k
  {
    if k + 1 < |piece| {
      WalkPiece(descs, piece, k + 1);
    }
  }

  /** The two memories agree on everything the descriptors cover. */
  predicate Agree(mem: Bytes, mem': Bytes, descs: seq<Desc>)
    requires |mem| == |mem'| && AllInMemory(|mem|, descs)
  {
    forall i, a :: 0 <= i < |descs| && descs[i].addr <= a < descs[i].addr + descs[i].len ==> mem[a] == mem'[a]
  }

  lemma {:induction false} CoveredAgree(mem: Bytes, mem': Bytes, descs: seq<Desc>)
    requires |mem| == |mem'| && AllInMemory(|mem|, descs) && Agree(mem, mem', descs)
    ensures Covered(mem, descs) == Covered(mem', descs)
  {
    if descs != [] {
      CoveredAgree(mem, mem', descs[..|descs| - 1]);
    }
  }

  lemma {:induction false} WalkAgrees(mem: Bytes, mem': Bytes, descs: seq<Desc>, first: nat)
    requires |mem| == |mem'| && AllInMemory(|mem|, descs) && Agree(mem, mem', descs)
    ensures AllInMemory(|mem|, Walk(descs, first)) && Agree(mem, mem', Walk(descs, first))
    decreases |descs| - first
  {
    WalkInMemory(|mem|, descs, first);
    if first < |descs| && !descs[first].end {
      WalkAgrees(mem, mem', descs, first + 1);
    }
  }

  /** What was added before keeps its bytes when the pool grows and memory changes elsewhere. */
  lemma {:induction false} LinearStable(mem: Bytes, mem': Bytes, descs: seq<Desc>, more: seq<Desc>, sgs: seq<nat>)
    requires |mem| == |mem'| && AllInMemory(|mem|, descs + more)
    requires AllInMemory(|mem|, descs) && Agree(mem, mem', descs)
    requires forall k :: 0 <= k < |sgs| ==> sgs[k] < |descs|
    requires Closed(descs)
    ensures Linear(mem', descs + more, sgs) == Linear(mem, descs, sgs)
    decreases |sgs|
  {
    if sgs != [] {
      var n := |sgs| - 1;
      LinearStable(mem, mem', descs, more, sgs[..n]);
      WalkStable(descs, more, sgs[n]);
      WalkAgrees(mem, mem', descs, sgs[n]);
      CoveredAgree(mem, mem', Walk(descs, sgs[n]));
    }
  }

  /** Adding a piece appends its bytes to the linear view. */
  lemma AppendPiece(mem: Bytes, mem': Bytes, descs: seq<Desc>, piece: seq<Desc>, sgs: seq<nat>)
    requires |mem| == |mem'| && AllInMemory(|mem|, descs) && AllInMemory(|mem|, piece) && IsPiece(piece)
    requires AllInMemory(|mem|, descs + piece) && Agree(mem, mem', descs)
    requires forall k :: 0 <= k < |sgs| ==> sgs[k] < |descs|
    requires Closed(descs)
    ensures Linear(mem', descs + piece, sgs + [|descs|]) == Linear(mem, descs, sgs) + Covered(mem', piece)
  {
    LinearStable(mem, mem', descs, piece, sgs);
    WalkPiece(descs, piece, 0);
    assert piece[0..] == piece;
    LinearSnoc(mem', descs + piece, sgs, |descs|);
  }

  lemma LinearSnoc(mem: Bytes, descs: seq<Desc>, sgs: seq<nat>, first: nat)
    requires AllInMemory(|mem|, descs)
    ensures AllInMemory(|mem|, Walk(descs, first))
    ensures Linear(mem, descs, sgs + [first]) == Linear(mem, descs, sgs) + Covered(mem, Walk(descs, first))
  {
    WalkInMemory(|mem|, descs, first);
    assert (sgs + [first])[..|sgs|] == sgs;
  }

  // ----- lemmas about pages

  lemma CoveredSnoc(mem: Bytes, descs: seq<Desc>, d: Desc)
    requires AllInMemory(|mem|, descs) && InMemory(|mem|, d)
    ensures AllInMemory(|mem|, descs + [d])
    ensures Covered(mem, descs + [d]) == Covered(mem, descs) + mem[d.addr..d.addr + d.len]
  {
    assert (descs + [d])[..|descs|] == descs;
  }

  /** Lengthening the last descriptor adds the bytes that physically follow it. */
  lemma CoveredGrown(mem: Bytes, descs: seq<Desc>, more: nat)
    requires descs != [] && AllInMemory(|mem|, descs)
    requires var d := descs[|descs| - 1]; d.addr + d.len + more <= |mem|
    ensures var d := descs[|descs| - 1];
            var grown := descs[|descs| - 1 := d.(len := d.len + more)];
            && AllInMemory(|mem|, grown)
            && Covered(mem, grown) == Covered(mem, descs) + mem[d.addr + d.len..d.addr + d.len + more]
  {
    var n := |descs| - 1;
    var d := descs[n];
    var grown := descs[n := d.(len := d.len + more)];
    assert grown[..n] == descs[..n];
    var end := d.addr + d.len;
    assert mem[d.addr..end + more] == mem[d.addr..end] + mem[end..end + more];
  }

  lemma SamePage(v: nat, j: nat)
    requires v % PAGE_SIZE + j < PAGE_SIZE
    ensures (v + j) / PAGE_SIZE == v / PAGE_SIZE && (v + j) % PAGE_SIZE == v % PAGE_SIZE + j
  {
  }

  /** Within one page, virtually contiguous bytes are physically contiguous. */
  lemma PageContent(mem: Bytes, pt: PageTable, vaddr: nat, len: nat, done: nat, n: nat)
    requires SourceOk(|mem|, pt, Vmalloc(vaddr), len)
    requires done + n <= len && n > 0 && (vaddr + done) % PAGE_SIZE + n <= PAGE_SIZE
    ensures (vaddr + done) / PAGE_SIZE in pt
    ensures var at := Translate(pt, vaddr + done);
            && at + n <= |mem|
            && Content(mem, pt, Vmalloc(vaddr), len)[done..done + n] == mem[at..at + n]
  {
    PageOfByte(|mem|, pt, vaddr, len, done);
    PageOfByte(|mem|, pt, vaddr, len, done + n - 1);
    var at := Translate(pt, vaddr + done);
    var bs := Content(mem, pt, Vmalloc(vaddr), len);
    assert (vaddr + done + (n - 1)) / PAGE_SIZE == (vaddr + done) / PAGE_SIZE;
    forall k | done <= k < done + n
      ensures bs[k] == mem[at + (k - done)]
    {
      PageOfByte(|mem|, pt, vaddr, len, k);
      SamePage(vaddr + done, k - done);
      assert vaddr + k == (vaddr + done) + (k - done);
      assert Translate(pt, vaddr + k) == at + (k - done);
    }
    assert bs[done..done + n] == mem[at..at + n];
  }
}
