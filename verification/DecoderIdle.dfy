/**
 What a decoding session leaves undone. Only `decode` and `drain` run the work loop, so what other
 calls make possible waits for the next of these; and after a flush no input is ever taken again.
 */
module DecoderIdle {
  import opened Prelude
  import opened DecoderSpec
  import opened DecoderRuns

  // ----- work that no call has run

  predicate RunsWork(c: Call) {
    c.CallDecode? || c.CallDrain?
  }

  predicate NoneRunsWork(calls: seq<Call>) {
    forall k :: 0 <= k < |calls| ==> !RunsWork(calls[k])
  }

  /** A frame, or the LAST marker, waits for an output buffer. */
  predicate BufferWanted(w: World) {
    w.s.held.Some? || w.s.drain == AwaitingFinal
  }

  /** Buffers offered now are kept. */
  predicate Accepts(w: World) {
    !w.s.hasContext || w.s.accepting
  }

  /**
   Whether the calls leave a buffer behind: one was offered while buffers are accepted, and the buffers
   have not been cleared since.
   */
  predicate LeavesBuffer(accepts: bool, left: bool, calls: seq<Call>)
    decreases |calls|
  {
    if calls == [] then left
    else
      match calls[0]
      case CallUseAsOutput(_) => LeavesBuffer(accepts, left || accepts, calls[1..])
      case CallClear => LeavesBuffer(accepts, false, calls[1..])
      case CallStreaming => LeavesBuffer(true, left, calls[1..])
      case _ => LeavesBuffer(accepts, left, calls[1..])
  }

  /** Apart from output, calls that do not run the work loop leave the session as it is. */
  lemma {:induction false} IdleCalls(w: World, calls: seq<Call>)
    requires Inv(w) && NoneRunsWork(calls)
    ensures var v := After(w, calls);
            && v.s.held == w.s.held && v.s.drain == w.s.drain && v.s.codec == w.s.codec && v.s.jobs == w.s.jobs
            && v.s.hasContext == w.s.hasContext
            && (v.s.available != [] <==> LeavesBuffer(Accepts(w), w.s.available != [], calls))
    decreases |calls|
  {
    if calls != [] {
      CallKeeps(w, calls[0]);
      IdleCall(w, calls[0]);
      IdleCalls(Apply(w, calls[0]), calls[1..]);
    }
  }

  lemma IdleCall(w: World, c: Call)
    requires Inv(w) && !RunsWork(c)
    ensures var v := Apply(w, c);
            && v.s.held == w.s.held && v.s.drain == w.s.drain && v.s.codec == w.s.codec && v.s.jobs == w.s.jobs
            && v.s.hasContext == w.s.hasContext
            && Accepts(v) == (Accepts(w) || c.CallStreaming?)
            && (v.s.available != [] <==> (c.CallUseAsOutput? && Accepts(w)) || (!c.CallClear? && w.s.available != []))
  {
  }

  /** The attempts that need no output buffer depend on nothing that such calls change. */
  predicate NoInputWork(w: World) {
    TryReceive(w).1 == Nothing && TrySend(w).1 == Nothing
  }

  lemma InputWorkStays(w: World, v: World)
    requires v.s.held == w.s.held && v.s.drain == w.s.drain && v.s.codec == w.s.codec && v.s.jobs == w.s.jobs
    requires CodecOk(w.s.codec) && Quiescent(w)
    ensures NoInputWork(v) && TryReceive(v).0 == v && TrySend(v).0 == v
  {
    SendConsumes(v);
    ReceiveConsumes(v);
    if w.s.held.None? && w.s.codec.ready == [] && !w.s.codec.flushed && w.s.drain == Initiated && w.s.codec.flushOk {
      ReceiveAfterFlush(w);
    }
  }

  /** Output is possible exactly when a buffer is both there and wanted. */
  lemma OutputNeedsBuffer(v: World)
    requires Inv(v)
    ensures TryOutput(v) == (v, Nothing) <==> v.s.available == [] || !BufferWanted(v)
  {
    OutputConsumes(v);
  }

  /** Work that fails says so in the history. */
  lemma {:induction false} WorkSucceedsUnlessFailed(w: World)
    requires CodecOk(w.s.codec)
    ensures Work(w).1 || Work(w).0.h.failed
    decreases |w.s.jobs|, ResultsLeft(w.s.codec), DrainRank(w.s.drain), |w.s.available|
  {
    TurnConsumes(w);
    TurnFails(w);
    if Turn(w).1 == Progress {
      WorkSucceedsUnlessFailed(Turn(w).0);
    }
  }

  lemma TurnFails(w: World)
    requires CodecOk(w.s.codec)
    ensures Turn(w).1 == Failure ==> Turn(w).0.h.failed
  {
    ReceiveFails(TryOutput(w).0);
  }

  lemma ReceiveFails(w: World)
    ensures TryReceive(w).1 == Failure ==> TryReceive(w).0.h.failed
  {
    if w.s.held.None? && w.s.codec.ready == [] && !w.s.codec.flushed && w.s.drain == Initiated && w.s.codec.flushOk {
      var f := Flush(w);
      assert TryReceive(w) == TryReceive(f);
      assert f.s.codec.ready != [] ==> TryReceive(f) == Read(f);
    }
  }

  /** A call that runs the work loop without failing leaves nothing to do. */
  lemma WorkCallEndsQuiescent(w: World, c: Call)
    requires Inv(w) && RunsWork(c) && (w.s.hasContext || c.CallDecode?) && !Apply(w, c).h.failed
    ensures Quiescent(Apply(w, c)) && Inv(Apply(w, c))
  {
    CallKeeps(w, c);
    var start :=
      if c.CallDecode?
      then Submitted(w, c.index, c.packet)
      else World(w.s.(jobs := w.s.jobs + [Drain]), w.h);
    WorkEndsQuiescent(start);
    WorkSucceedsUnlessFailed(start);
  }

  /**
   Over any calls since the last `decode` or `drain`: the session is left with work that could be done
   and has not been run, if and only if a frame or marker was waiting for a buffer then, and the calls
   leave one behind.
   */
  lemma UnrunWork(w: World, c: Call, calls: seq<Call>)
    requires Inv(w) && RunsWork(c) && (w.s.hasContext || c.CallDecode?) && !Apply(w, c).h.failed
    requires NoneRunsWork(calls)
    ensures var u := Apply(w, c);
            && Inv(u)
            && (!Quiescent(After(u, calls)) <==> BufferWanted(u) && LeavesBuffer(Accepts(u), false, calls))
  {
    WorkCallEndsQuiescent(w, c);
    var u := Apply(w, c);
    var v := After(u, calls);
    InvariantOverCalls(u, calls);
    IdleCalls(u, calls);
    InputWorkStays(u, v);
    OutputNeedsBuffer(u);
    OutputNeedsBuffer(v);
    if BufferWanted(u) {
      assert u.s.available == [];
    }
  }

  /** The next `decode` or `drain` then catches up: nothing that wants a buffer is left with one. */
  lemma NextCallCatchesUp(w: World, c: Call)
    requires Inv(w) && RunsWork(c) && (w.s.hasContext || c.CallDecode?) && !Apply(w, c).h.failed
    ensures var v := Apply(w, c); v.s.available == [] || !BufferWanted(v)
  {
    WorkCallEndsQuiescent(w, c);
    OutputNeedsBuffer(Apply(w, c));
  }

  /**
   A drain whose marker waits: with no buffer there at the drain, offering one afterwards does not send
   LAST.
   */
  lemma LateBufferLeavesMarker(w: World, buffer: nat)
    requires Init(w) && w.s.codec.flushOk && w.s.codec.tail == [] && w.s.accepting
    ensures var calls := [CallDecode(0, Packet(Accepted, [], 0)), CallDrain, CallUseAsOutput(buffer)];
            && Inv(w)
            && var v := After(w, calls);
            && v.s.drain == AwaitingFinal && v.s.available == [buffer] && v.h.lasts == 0 && !Quiescent(v)
  {
    InitInv(w);
    var decode, drain, offer := CallDecode(0, Packet(Accepted, [], 0)), CallDrain, CallUseAsOutput(buffer);
    EmptyPacket(w);
    var w1 := Apply(w, decode);
    CallKeeps(w, decode);
    DrainWithoutBuffer(w1);
    var w2 := Apply(w1, drain);
    CallKeeps(w1, drain);
    var w3 := Apply(w2, offer);
    CallKeeps(w2, offer);
    var calls := [decode, drain, offer];
    assert calls[1..] == [drain, offer] && calls[1..][1..] == [offer] && calls[1..][1..][1..] == [];
    assert After(w3, []) == w3;
    assert After(w2, [offer]) == After(w3, [offer][1..]);
  }

  /** A session with a context and nothing to do, whose codec has nothing more to give. */
  predicate Exhausted(w: World) {
    && w.s.hasContext && w.s.jobs == [] && w.s.held == None && w.s.drain == NoDrain && w.s.available == []
    && w.s.codec.ready == [] && !w.s.codec.flushed && w.s.codec.flushOk && w.s.codec.tail == []
    && w.s.accepting && w.h.lasts == 0
  }

  lemma EmptyPacket(w: World)
    requires Init(w) && w.s.codec.flushOk && w.s.codec.tail == [] && w.s.accepting
    ensures Exhausted(Apply(w, CallDecode(0, Packet(Accepted, [], 0))))
  {
    var job := Decode(0, Packet(Accepted, [], 0));
    var start := World(w.s.(hasContext := true, jobs := w.s.jobs + [job]), w.h.(decoded := w.h.decoded + [0]));
    assert start.s.jobs == [job] && start.s.jobs[1..] == [];
    var w1 := TrySend(start).0;
    assert TryOutput(start) == (start, Nothing) && TryReceive(start) == (start, Nothing);
    assert w1.s.codec.ready == [];
    WorkStep(start);
    WorkStep(w1);
  }

  lemma DrainWithoutBuffer(w: World)
    requires Exhausted(w)
    ensures var v := Apply(w, CallDrain);
            v.s.drain == AwaitingFinal && v.s.available == [] && v.h.lasts == 0 && v.s.held == None && v.s.accepting
  {
    var w0 := World(w.s.(jobs := w.s.jobs + [Drain]), w.h);
    assert w0.s.jobs == [Drain] && w0.s.jobs[1..] == [];
    var w1 := TrySend(w0).0;
    assert TryOutput(w0) == (w0, Nothing) && TryReceive(w0) == (w0, Nothing);
    WorkStep(w0);
    var f := Flush(w1);
    var w2 := World(f.s.(drain := AwaitingFinal), f.h);
    assert f.s.codec.ready == [];
    assert TryReceive(f) == (w2, Progress);
    assert TryOutput(w1) == (w1, Nothing) && TryReceive(w1) == TryReceive(f);
    WorkStep(w1);
    WorkStep(w2);
  }

  lemma WorkStep(w: World)
    requires CodecOk(w.s.codec)
    ensures CodecOk(Turn(w).0.s.codec)
    ensures Turn(w).1 == Progress ==> Work(w) == Work(Turn(w).0)
    ensures Turn(w).1 == Nothing ==> Work(w) == (w, true)
  {
    TurnConsumes(w);
  }

  // ----- output buffers

  /** Buffers are used in the order in which they are offered; one is kept if and only if the session accepts any. */
  lemma BuffersInOrder(w: World, index: nat)
    ensures UseAsOutput(w, index).s.available == w.s.available + (if Accepts(w) then [index] else [])
    ensures var (v, r) := TryOutput(w);
            && (r == Nothing ==> v.s.available == w.s.available)
            && (r != Nothing ==> w.s.available != [] && v.s.available == w.s.available[1..])
            && (r == Progress ==>
                  var shown := if w.s.drain == AwaitingFinal then None else Some(w.s.held.value.id);
                  v.s.events == w.s.events + [FrameCompleted(w.s.available[0], shown)])
  {
  }

  /**
   Nothing is delivered exactly if no buffer is there, or neither a frame nor a LAST marker that no frame
   precedes; delivering a frame fails exactly if it cannot be converted.
   */
  lemma OutputFails(w: World)
    ensures TryOutput(w).1 == Nothing <==>
              w.s.available == [] || (w.s.drain == AwaitingFinal <==> w.s.held.Some?)
    ensures TryOutput(w).1 == Failure <==>
              w.s.available != [] && w.s.drain != AwaitingFinal && w.s.held.Some? && !w.s.held.value.convertible
  {
  }

  /**
   The work loop prefers to get rid of what it has: it takes a result from the codec only when nothing
   can be delivered, and a job only when, besides, nothing can be received.
   */
  lemma OldestWorkFirst(w: World)
    requires Inv(w)
    ensures |Turn(w).0.s.jobs| < |w.s.jobs| ==>
              && (w.s.available == [] || !BufferWanted(w))
              && (w.s.held.Some? || (w.s.codec.ready == [] && w.s.drain != Initiated))
    ensures Turn(w).0.h.consumed != w.h.consumed ==> w.s.available == [] || !BufferWanted(w)
  {
    OutputNeedsBuffer(w);
    OutputConsumes(w);
    ReceiveMeaning(w);
    ReceiveConsumes(w);
    ReceiveKeepsJobs(w);
    OutputKeepsJobs(w);
  }

  lemma ReceiveKeepsJobs(w: World)
    ensures TryReceive(w).0.s.jobs == w.s.jobs
  {
    if w.s.held.None? && w.s.codec.ready == [] && !w.s.codec.flushed && w.s.drain == Initiated && w.s.codec.flushOk {
      assert TryReceive(w) == TryReceive(Flush(w));
      assert Flush(w).s.codec.ready != [] ==> TryReceive(Flush(w)) == Read(Flush(w));
    }
  }

  lemma OutputKeepsJobs(w: World)
    ensures TryOutput(w).0.s.jobs == w.s.jobs && TryOutput(w).0.h.consumed == w.h.consumed
  {
  }

  /** A drain before the first `decode` succeeds and does nothing. */
  lemma DrainWithoutContext(w: World)
    requires CodecOk(w.s.codec) && !w.s.hasContext
    ensures DoDrain(w) == (w, true)
  {
  }

  // ----- after the flush

  lemma TurnAfterFlush(w: World)
    requires w.s.codec.flushed
    ensures var v := Turn(w).0; v.s.codec.flushed && v.h.done == w.h.done
  {
  }

  lemma {:induction false} WorkAfterFlush(w: World)
    requires CodecOk(w.s.codec) && w.s.codec.flushed
    ensures var v := Work(w).0; v.s.codec.flushed && v.h.done == w.h.done
    decreases |w.s.jobs|, ResultsLeft(w.s.codec), DrainRank(w.s.drain), |w.s.available|
  {
    TurnConsumes(w);
    TurnAfterFlush(w);
    if Turn(w).1 == Progress {
      WorkAfterFlush(Turn(w).0);
    }
  }

  lemma CallAfterFlush(w: World, c: Call)
    requires Inv(w) && w.s.codec.flushed
    ensures var v := Apply(w, c); v.s.codec.flushed && v.h.done == w.h.done
  {
    match c
    case CallDecode(index, packet) =>
      WorkAfterFlush(Submitted(w, index, packet));
    case CallDrain =>
      if w.s.hasContext {
        WorkAfterFlush(World(w.s.(jobs := w.s.jobs + [Drain]), w.h));
      }
    case _ =>
  }

  /**
   Once the codec is flushed no call ever takes input again: no further input buffer is reported done,
   and all those submitted since wait for ever.
   */
  lemma {:induction false} FlushIsFinal(w: World, calls: seq<Call>)
    requires Inv(w) && w.s.codec.flushed
    ensures var v := After(w, calls);
            && v.s.codec.flushed && v.h.done == w.h.done
            && (!v.h.failed ==> v.h.decoded == w.h.done + Waiting(v.s.jobs))
    decreases |calls|
  {
    InvariantOverCalls(w, calls);
    if calls != [] {
      var c := calls[0];
      CallKeeps(w, c);
      CallAfterFlush(w, c);
      FlushIsFinal(Apply(w, c), calls[1..]);
    }
  }
}
