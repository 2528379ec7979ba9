/**
 The device's answer to a command: through which descriptors it is written, and what the driver copies
 back from the shadow buffer afterwards.
 */
module CommandResponse {
  import opened WireFormat
  import opened IoctlPayload
  import opened Scatterlist
  import opened ScatterlistBuilder
  import opened CommandBuilder

  // ----- the device-writable part

  /**
   The chain of a whole command. `payload` is the pool when the payload was complete. The readable lists
   come first, those of the payload before the others; then the writable ones: the response header, and
   the payload again, which the driver names by descriptor index.
   */
  ghost predicate Answerable(pool: seq<Desc>, heads: seq<nat>, payload: seq<Desc>, items: seq<Item>, numCmd: nat,
                             pt: PageTable, shadow: bool)
  {
    && payload <= pool
    && 0 < |items| <= numCmd
    && |heads| == numCmd + |items|
    && Heads(payload, heads[..|items|], items, pt, shadow)
    && |payload| <= heads[numCmd] < |pool|
    && forall e :: numCmd < e < |heads| ==> heads[e] == e - numCmd
  }

  /** The response header. What the device reads from the lists chained before stays the same. */
  method AddResponseHeader(b: Builder, resp: Source, respLen: nat) returns (ok: bool)
    requires b.Valid() && respLen > 0
    requires SourceOk(b.mem.Length, b.pt, resp, respLen) && SourceAvoids(b.pt, resp, respLen, b.FreeLo(), b.FreeHi())
    modifies b, b.descs, b.mem
    ensures ok ==> b.Valid() && b.sgs == old(b.sgs) + [old(b.curDesc)] && old(b.curDesc) < b.curDesc
    ensures ok ==> Linear(b.mem[..], b.Pool(), old(b.sgs)) == old(b.View()) && old(b.Pool()) <= b.Pool()
    ensures ok && old(b.ShadowOk() && b.ClearOfShadow(resp, respLen)) ==> b.ShadowOk()
    ensures old(b.HasRoom(resp, respLen)) && |old(b.sgs)| < b.numSgs ==> ok
  {
    ghost var m, lo, pool, heads := b.mem[..], b.FreeLo(), b.Pool(), b.sgs;
    ghost var unmarked;
    ok, unmarked := b.AddData(resp, respLen);
    if ok {
      AvoidersAgree(m, b.mem[..], pool, lo, b.FreeHi());
      LinearStable(m, b.mem[..], pool, Marked(unmarked), heads);
    }
  }

  /**
   The device-writable part: a response header, then entries 1 to `endSg` of the payload again, which
   the driver names by descriptor index. What the device reads is unaffected.
   */
  method AddResponse(b: Builder, resp: Source, respLen: nat, endSg: nat) returns (ok: bool)
    requires b.Valid() && 0 < endSg <= b.curDesc && respLen > 0
    requires SourceOk(b.mem.Length, b.pt, resp, respLen) && SourceAvoids(b.pt, resp, respLen, b.FreeLo(), b.FreeHi())
    modifies b, b.descs, b.mem
    ensures ok ==> b.Valid() && old(b.curDesc) < b.curDesc && old(b.Pool()) <= b.Pool()
    ensures ok ==> b.sgs == old(b.sgs) + [old(b.curDesc)] + seq(endSg - 1, i => i + 1)
    ensures ok ==> Linear(b.mem[..], b.Pool(), old(b.sgs)) == old(b.View())
    ensures ok && old(b.ShadowOk() && b.ClearOfShadow(resp, respLen)) ==> b.ShadowOk()
    ensures old(b.HasRoom(resp, respLen)) && |old(b.sgs)| + endSg <= b.numSgs ==> ok
  {
    ok := AddResponseHeader(b, resp, respLen);
    if ok {
      ok := ReusePayload(b, endSg);
    }
  }

  method ReusePayload(b: Builder, endSg: nat) returns (ok: bool)
    requires b.Valid() && 0 < endSg <= b.curDesc
    modifies b`sgs
    ensures ok ==> b.Valid() && b.sgs == old(b.sgs) + seq(endSg - 1, i => i + 1)
    ensures |old(b.sgs)| + endSg - 1 <= b.numSgs ==> ok
  {
    for i := 1 to endSg
      invariant b.Valid() && b.sgs == old(b.sgs) + seq(i - 1, k => k + 1)
    {
      ok := b.AddDescriptor(i);
      if !ok {
        return false;
      }
    }
    ok := true;
  }

  lemma {:induction false} HeadsGrow(pool: seq<Desc>, heads: seq<nat>, items: seq<Item>, pt: PageTable,
                                     shadow: bool, k: nat)
    requires Heads(pool, heads, items, pt, shadow) && k < |items|
    ensures k <= heads[k] && heads[k] + (|items| - k) <= |pool|
    decreases |items| - k
  {
    assert HeadOk(pool, heads, k, items[k], pt, shadow);
    if k + 1 < |items| {
      HeadsGrow(pool, heads, items, pt, shadow, k + 1);
    }
    HeadsRise(pool, heads, items, pt, shadow, k);
  }

  lemma {:induction false} HeadsRise(pool: seq<Desc>, heads: seq<nat>, items: seq<Item>, pt: PageTable,
                                     shadow: bool, k: nat)
    requires Heads(pool, heads, items, pt, shadow) && k < |items|
    ensures k <= heads[k]
  {
    if k > 0 {
      HeadsRise(pool, heads, items, pt, shadow, k - 1);
      assert HeadOk(pool, heads, k - 1, items[k - 1], pt, shadow);
    }
  }

  /** User memory and response complete a command whose payload is in place. */
  method Finish(b: Builder, ghost items: seq<Item>, lengths: seq<nat>, lists: seq<seq<SgEntry>>, resp: Source,
                respLen: nat, ghost m: Bytes, ghost lo: nat) returns (ok: bool, numCmd: nat)
    requires b.Valid() && Undisturbed(b, m, lo) && items != [] && Laid(b, items) && Backs(lengths, lists) && respLen > 0
    requires SourceOk(|m|, b.pt, resp, respLen) && SourceAvoids(b.pt, resp, respLen, lo, b.FreeHi())
    modifies b, b.descs, b.mem
    ensures ok ==> b.Valid() && Answerable(b.Pool(), b.sgs, old(b.Pool()), items, numCmd, b.pt, b.alwaysUseShadow)
    ensures ok ==> Linear(b.mem[..], b.Pool(), b.sgs[..numCmd]) == old(b.View()) + LayoutLists(lists)
    ensures ok && old(b.ShadowOk()) && SourceAvoids(b.pt, resp, respLen, b.shadowBase, b.FreeHi()) ==> b.ShadowOk()
  {
    var endSg := |b.sgs|;
    ghost var payload, heads := b.Pool(), b.sgs;
    HeadsGrow(payload, heads, items, b.pt, b.alwaysUseShadow, 0);
    ok := AddUserMemory(b, lengths, lists, m, lo);
    numCmd := |b.sgs|;
    if ok {
      ghost var all, readable := b.Pool(), b.sgs;
      AvoidsLess(b.pt, resp, respLen, lo, b.FreeLo(), b.FreeHi());
      ok := AddResponse(b, resp, respLen, endSg);
      if ok {
        Completed(b.Pool(), all, payload, b.sgs, readable, heads, items, b.pt, b.alwaysUseShadow);
      }
    }
  }

  lemma Completed(pool: seq<Desc>, all: seq<Desc>, payload: seq<Desc>, sgs: seq<nat>, readable: seq<nat>,
                  heads: seq<nat>, items: seq<Item>, pt: PageTable, shadow: bool)
    requires payload <= all <= pool && |all| < |pool| && heads <= readable && items != []
    requires Heads(payload, heads, items, pt, shadow)
    requires sgs == readable + [|all|] + seq(|items| - 1, i => i + 1)
    ensures Answerable(pool, sgs, payload, items, |readable|, pt, shadow) && sgs[..|readable|] == readable
  {
    assert sgs[..|items|] == heads;
    assert forall e :: |readable| < e < |sgs| ==> sgs[e] == seq(|items| - 1, i => i + 1)[e - |readable| - 1];
  }

  // ----- where the answer goes

  /** The answer to every payload entry goes where the entry was read from. */
  predicate InPlace(heads: seq<nat>, n: nat, numCmd: nat)
    requires n <= numCmd && |heads| == numCmd + n
  {
    forall e :: numCmd < e < |heads| ==> heads[e] == heads[e - numCmd]
  }

  predicate OneRunBut(items: seq<Item>, n: int, pt: PageTable, shadow: bool) {
    forall k :: 0 <= k < n && k < |items| ==> OneRun(pt, items[k].src, items[k].len, shadow)
  }

  /** Up to the first item that is not one run, lists and descriptors are numbered alike. */
  lemma {:induction false} NumberedAlike(pool: seq<Desc>, heads: seq<nat>, items: seq<Item>, pt: PageTable,
                                         shadow: bool, k: nat)
    requires Heads(pool, heads, items, pt, shadow) && k < |items| && OneRunBut(items, k, pt, shadow)
    ensures heads[k] == k
  {
    if k > 0 {
      NumberedAlike(pool, heads, items, pt, shadow, k - 1);
      assert HeadOk(pool, heads, k - 1, items[k - 1], pt, shadow);
    }
  }

  /** After an item that is not one run, they are not. */
  lemma {:induction false} NumberedApart(pool: seq<Desc>, heads: seq<nat>, items: seq<Item>, pt: PageTable,
                                         shadow: bool, k: nat, i: nat)
    requires Heads(pool, heads, items, pt, shadow) && k < i < |items|
    requires !OneRun(pt, items[k].src, items[k].len, shadow)
    ensures heads[i] > i
  {
    assert HeadOk(pool, heads, i - 1, items[i - 1], pt, shadow);
    if k < i - 1 {
      NumberedApart(pool, heads, items, pt, shadow, k, i - 1);
    } else {
      HeadsRise(pool, heads, items, pt, shadow, k);
    }
  }

  /**
   The device's answer to every entry of the payload goes to that entry's own storage if and only if
   every item but the last is one run: copied, in the linear mapping, or in consecutive page frames.
   */
  lemma ResponseReusesPayload(pool: seq<Desc>, heads: seq<nat>, payload: seq<Desc>, items: seq<Item>,
                              numCmd: nat, pt: PageTable, shadow: bool)
    requires Answerable(pool, heads, payload, items, numCmd, pt, shadow)
    ensures InPlace(heads, |items|, numCmd) <==> OneRunBut(items, |items| - 1, pt, shadow)
  {
    var n := |items|;
    var own := heads[..n];
    if OneRunBut(items, n - 1, pt, shadow) {
      forall e | numCmd < e < |heads|
        ensures heads[e] == heads[e - numCmd]
      {
        NumberedAlike(payload, own, items, pt, shadow, e - numCmd);
      }
    } else {
      var k :| 0 <= k < n - 1 && !OneRun(pt, items[k].src, items[k].len, shadow);
      NumberedApart(payload, own, items, pt, shadow, k, k + 1);
      var e := numCmd + k + 1;
      assert heads[e] == k + 1 && heads[e - numCmd] == own[k + 1];
    }
  }

  /**
   Otherwise, with `k` the first item that is not one run, the answer to the entry after it is written
   into the second descriptor of entry `k` and those that follow it there.
   */
  lemma AnswerMisplaced(pool: seq<Desc>, heads: seq<nat>, payload: seq<Desc>, items: seq<Item>, numCmd: nat,
                        pt: PageTable, shadow: bool, k: nat)
    requires Answerable(pool, heads, payload, items, numCmd, pt, shadow)
    requires k < |items| - 1 && OneRunBut(items, k, pt, shadow) && !OneRun(pt, items[k].src, items[k].len, shadow)
    ensures |Walk(pool, heads[k])| > 1
    ensures Walk(pool, heads[numCmd + k + 1]) == Walk(pool, heads[k])[1..]
    ensures heads[numCmd + k + 1] < heads[k + 1]
  {
    var own := heads[..|items|];
    NumberedAlike(payload, own, items, pt, shadow, k);
    assert HeadOk(payload, own, k, items[k], pt, shadow);
    var piece := payload[k..own[k + 1]];
    assert pool[k] == payload[k] == piece[0];
    assert !pool[k].end && k + 1 < |pool|;
    var e := numCmd + k + 1;
    assert heads[e] == k + 1 && own[k] == heads[k] == k && own[k + 1] == heads[k + 1];
  }

  // ----- what the driver copies back

  /** Outcome of `scatterlist_builder_retrieve_data`. */
  datatype Retrieved = OutOfRange | Rejected | NotShadowed | Copied(bytes: Bytes)

  function RetrieveFrom(mem: Bytes, d: Desc, base: nat, size: nat): (r: Retrieved)
    requires InMemory(|mem|, d)
  {
    if InShadow(d, base, size) then
      if RangeEnd(d) >= base + size then Rejected else Copied(mem[d.addr..RangeEnd(d)])
    else NotShadowed
  }

  method RetrieveData(b: Builder, sgIndex: nat) returns (r: Retrieved)
    requires b.Valid()
    ensures r == OutOfRange <==> sgIndex >= |b.sgs|
    ensures sgIndex < |b.sgs| ==> InMemory(b.mem.Length, b.descs[b.sgs[sgIndex]])
    ensures sgIndex < |b.sgs| ==> r == RetrieveFrom(b.mem[..], b.descs[b.sgs[sgIndex]], b.shadowBase, b.shadowSize)
  {
    if sgIndex >= |b.sgs| {
      return OutOfRange;
    }
    var d := b.descs[b.sgs[sgIndex]];
    assert b.Pool()[b.sgs[sgIndex]] == d;
    if b.shadowBase <= d.addr < b.shadowBase + b.shadowSize {
      if d.addr + d.len >= b.shadowBase + b.shadowSize {
        return Rejected;
      }
      r := Copied(b.mem[d.addr..d.addr + d.len]);
      assert b.mem[..][d.addr..d.addr + d.len] == b.mem[d.addr..d.addr + d.len];
    } else {
      r := NotShadowed;
    }
  }

  /** Memory after the device wrote `bytes` at `at`. */
  function Written(mem: Bytes, at: nat, bytes: Bytes): (r: Bytes)
    requires at + |bytes| <= |mem|
    ensures |r| == |mem|
  {
    mem[..at] + bytes + mem[at + |bytes|..]
  }

  /** Writing through one descriptor does not touch what another that is apart from it covers. */
  lemma WritesStayApart(mem: Bytes, d: Desc, e: Desc, bytes: Bytes)
    requires InMemory(|mem|, d) && InMemory(|mem|, e) && Apart(e, d) && |bytes| == d.len
    ensures Written(mem, d.addr, bytes)[e.addr..RangeEnd(e)] == mem[e.addr..RangeEnd(e)]
  {
  }

  function Span(descs: seq<Desc>): (n: nat) {
    if descs == [] then 0 else descs[0].len + Span(descs[1..])
  }

  /** Memory after the device filled a list of descriptors with `bytes`. */
  function Scatter(mem: Bytes, descs: seq<Desc>, bytes: Bytes): (r: Bytes)
    requires AllInMemory(|mem|, descs) && |bytes| == Span(descs)
    ensures |r| == |mem|
    decreases |descs|
  {
    if descs == [] then mem
    else Scatter(Written(mem, descs[0].addr, bytes[..descs[0].len]), descs[1..], bytes[descs[0].len..])
  }

  predicate AllApart(d: Desc, descs: seq<Desc>) {
    forall i :: 0 <= i < |descs| ==> Apart(d, descs[i])
  }

  lemma {:induction false} ScatterStaysApart(mem: Bytes, descs: seq<Desc>, bytes: Bytes, d: Desc)
    requires AllInMemory(|mem|, descs) && |bytes| == Span(descs) && InMemory(|mem|, d) && AllApart(d, descs)
    ensures Scatter(mem, descs, bytes)[d.addr..RangeEnd(d)] == mem[d.addr..RangeEnd(d)]
    decreases |descs|
  {
    if descs != [] {
      WritesStayApart(mem, descs[0], d, bytes[..descs[0].len]);
      ScatterStaysApart(Written(mem, descs[0].addr, bytes[..descs[0].len]), descs[1..], bytes[descs[0].len..], d);
    }
  }

  lemma ScatterOne(mem: Bytes, d: Desc, bytes: Bytes)
    requires InMemory(|mem|, d) && |bytes| == Span([d])
    ensures |bytes| == d.len && Scatter(mem, [d], bytes)[d.addr..RangeEnd(d)] == bytes
  {
    assert bytes[..d.len] == bytes;
    var mem' := Written(mem, d.addr, bytes);
    assert Scatter(mem', [], []) == mem';
  }

  /** The device answers through lists of the chain, filling each of them. */
  ghost predicate AnswersFit(pool: seq<Desc>, entries: seq<nat>, answers: seq<Bytes>) {
    && |entries| == |answers|
    && (forall k :: 0 <= k < |entries| ==> entries[k] < |pool| && |answers[k]| == Span(Walk(pool, entries[k])))
    && (forall j, k :: 0 <= j < k < |entries| ==> entries[j] != entries[k])
  }

  ghost function Answered(mem: Bytes, pool: seq<Desc>, entries: seq<nat>, answers: seq<Bytes>): (r: Bytes)
    requires AllInMemory(|mem|, pool) && AnswersFit(pool, entries, answers)
    ensures |r| == |mem|
    decreases |entries|
  {
    if entries == [] then mem
    else
      var n := |entries| - 1;
      WalkInMemory(|mem|, pool, entries[n]);
      Scatter(Answered(mem, pool, entries[..n], answers[..n]), Walk(pool, entries[n]), answers[n])
  }

  /** No other list passes over a piece in the shadow buffer, or over any byte of it. */
  lemma {:induction false} OtherListsApart(pool: seq<Desc>, i: nat, e: nat, base: nat, size: nat)
    requires i < |pool| && OwnPiece(pool, i, base, size) && e != i
    ensures AllApart(pool[i], Walk(pool, e))
    decreases |pool| - e
  {
    if e < |pool| && !pool[e].end {
      OtherListsApart(pool, i, e + 1, base, size);
    }
  }

  lemma {:induction false} AnswerKept(mem: Bytes, pool: seq<Desc>, entries: seq<nat>, answers: seq<Bytes>,
                                      base: nat, size: nat, k: nat)
    requires AllInMemory(|mem|, pool) && ShadowPieces(pool, base, size) && AnswersFit(pool, entries, answers)
    requires k < |entries| && InShadow(pool[entries[k]], base, size)
    ensures var d := pool[entries[k]];
            Answered(mem, pool, entries, answers)[d.addr..RangeEnd(d)] == answers[k]
    decreases |entries|
  {
    var d := pool[entries[k]];
    var n := |entries| - 1;
    var before := Answered(mem, pool, entries[..n], answers[..n]);
    WalkInMemory(|mem|, pool, entries[n]);
    assert OwnPiece(pool, entries[k], base, size);
    if k == n {
      assert Walk(pool, entries[n]) == [d];
      ScatterOne(before, d, answers[n]);
    } else {
      AnswerKept(mem, pool, entries[..n], answers[..n], base, size, k);
      OtherListsApart(pool, entries[k], entries[n], base, size);
      ScatterStaysApart(before, Walk(pool, entries[n]), answers[n], d);
    }
  }

  /**
   Shadow round trip: after the device answered through any number of lists, with any bytes, what the
   driver copies back of a shadowed one is exactly the device's answer to it, if and only if the piece
   ends strictly before the end of the shadow buffer. A piece that ends with the buffer is rejected.
   */
  lemma ShadowRoundTrip(mem: Bytes, pool: seq<Desc>, entries: seq<nat>, answers: seq<Bytes>, base: nat,
                        size: nat, k: nat)
    requires AllInMemory(|mem|, pool) && ShadowPieces(pool, base, size) && AnswersFit(pool, entries, answers)
    requires k < |entries| && InShadow(pool[entries[k]], base, size)
    ensures var d := pool[entries[k]];
            var r := RetrieveFrom(Answered(mem, pool, entries, answers), d, base, size);
            && (r == Copied(answers[k]) <==> RangeEnd(d) < base + size)
            && (r == Rejected <==> RangeEnd(d) == base + size)
  {
    AnswerKept(mem, pool, entries, answers, base, size, k);
    assert OwnPiece(pool, entries[k], base, size);
  }

  /** The writable lists of a command are different lists, so the round trip applies to all of them. */
  lemma WritableDistinct(pool: seq<Desc>, heads: seq<nat>, payload: seq<Desc>, items: seq<Item>, numCmd: nat,
                         pt: PageTable, shadow: bool)
    requires Answerable(pool, heads, payload, items, numCmd, pt, shadow)
    ensures var entries := heads[numCmd..];
            && (forall k :: 0 <= k < |entries| ==> entries[k] < |pool|)
            && (forall j, k :: 0 <= j < k < |entries| ==> entries[j] != entries[k])
  {
    HeadsGrow(payload, heads[..|items|], items, pt, shadow, 0);
    var entries := heads[numCmd..];
    assert forall k :: 0 < k < |entries| ==> entries[k] == heads[numCmd + k] == k;
  }

  /**
   The whole command: whatever the device writes through all writable lists, the driver gets back its
   answer to every shadowed entry of the payload, if and only if the entry's piece ends before the end
   of the shadow buffer.
   */
  lemma AnswersComeBack(mem: Bytes, pool: seq<Desc>, heads: seq<nat>, payload: seq<Desc>, items: seq<Item>, numCmd: nat,
                        pt: PageTable, shadow: bool, answers: seq<Bytes>, base: nat, size: nat, i: nat)
    requires Answerable(pool, heads, payload, items, numCmd, pt, shadow)
    requires AllInMemory(|mem|, pool) && ShadowPieces(pool, base, size)
    requires |answers| == |items|
    requires forall k :: 0 <= k < |answers| ==> |answers[k]| == Span(Walk(pool, heads[numCmd..][k]))
    requires 1 <= i < |items| && i < |pool| && InShadow(pool[i], base, size)
    ensures heads[numCmd..][i] == i && AnswersFit(pool, heads[numCmd..], answers)
    ensures var r := RetrieveFrom(Answered(mem, pool, heads[numCmd..], answers), pool[i], base, size);
            && (r == Copied(answers[i]) <==> RangeEnd(pool[i]) < base + size)
            && (r == Rejected <==> RangeEnd(pool[i]) == base + size)
  {
    WritableDistinct(pool, heads, payload, items, numCmd, pt, shadow);
    assert heads[numCmd..][i] == heads[numCmd + i];
    ShadowRoundTrip(mem, pool, heads[numCmd..], answers, base, size, i);
  }
}
