/**
 What every sequence of client calls keeps of a decoding session, and what its work loop
 guarantees when it stops.
 */
module DecoderRuns {
  import opened Prelude
  import opened DecoderSpec

  datatype Call =
    | CallDecode(index: nat, packet: Packet)
    | CallDrain
    | CallUseAsOutput(index: nat)
    | CallClear
    | CallNextEvent
    | CallStreaming

  function Apply(w: World, c: Call): (r: World)
    requires CodecOk(w.s.codec)
  {
    match c
    case CallDecode(index, packet) => DoDecode(w, index, packet).0
    case CallDrain => DoDrain(w).0
    case CallUseAsOutput(index) => UseAsOutput(w, index)
    case CallClear => ClearOutputBuffers(w)
    case CallNextEvent => NextEvent(w).0
    case CallStreaming => CaptureStreaming(w)
  }

  /** The ids of the pictures among codec results. */
  function Pictures(rs: seq<CodecResult>): (r: seq<nat>) {
    if rs == [] then []
    else
      var n := |rs| - 1;
      Pictures(rs[..n]) + (if rs[n].Picture? then [rs[n].frame.id] else [])
  }

  /** The input buffers of the jobs that wait. */
  function Waiting(jobs: seq<Job>): (r: seq<nat>) {
    if jobs == [] then []
    else (if jobs[0].Decode? then [jobs[0].index] else []) + Waiting(jobs[1..])
  }

  function HeldIds(o: Option<Frame>): (r: seq<nat>) {
    match o
    case None => []
    case Some(f) => [f.id]
  }

  // ----- the invariant

  /** Waiting for a buffer to mark LAST, the session holds no frame and the codec is exhausted. */
  predicate DrainOk(w: World) {
    && (w.s.drain == AwaitingFinal ==> w.s.held.None? && w.s.codec.flushed && w.s.codec.ready == [])
    && w.h.lasts + (if w.s.drain == NoDrain then 0 else 1) <= w.h.drains
  }

  /** Results leave the codec in order; every picture read was queued as an event or is still held. */
  predicate FramesOk(w: World) {
    && w.h.produced == w.h.consumed + w.s.codec.ready
    && (!w.h.failed ==> Pictures(w.h.consumed) == w.h.shown + HeldIds(w.s.held))
  }

  /** Input buffers are reported done in the order of the `decode` calls. */
  predicate JobsOk(w: World) {
    !w.h.failed ==> w.h.decoded == w.h.done + Waiting(w.s.jobs)
  }

  /** Every output buffer accepted is available, completed, discarded, or lost to a failed conversion. */
  predicate BuffersOk(w: World) {
    && Conserved(w.h.offered, w.s.available, w.h.completed, w.h.discarded, w.h.lost)
    && (!w.h.failed ==> w.h.lost == multiset{})
  }

  predicate Conserved(offered: multiset<nat>, available: seq<nat>, completed: multiset<nat>,
                      discarded: multiset<nat>, lost: multiset<nat>)
  {
    offered == multiset(available) + completed + discarded + lost
  }

  /** The first available buffer leaves the queue, completed or lost. */
  lemma FirstLeaves(offered: multiset<nat>, available: seq<nat>, completed: multiset<nat>,
                    discarded: multiset<nat>, lost: multiset<nat>)
    requires available != [] && Conserved(offered, available, completed, discarded, lost)
    ensures Conserved(offered, available[1..], completed + multiset{available[0]}, discarded, lost)
    ensures Conserved(offered, available[1..], completed, discarded, lost + multiset{available[0]})
  {
    assert available == [available[0]] + available[1..];
    assert multiset(available) == multiset{available[0]} + multiset(available[1..]);
  }

  predicate Inv(w: World) {
    CodecOk(w.s.codec) && DrainOk(w) && FramesOk(w) && JobsOk(w) && BuffersOk(w)
  }

  lemma PicturesSnoc(rs: seq<CodecResult>, x: CodecResult)
    ensures Pictures(rs + [x]) == Pictures(rs) + (if x.Picture? then [x.frame.id] else [])
  {
    assert (rs + [x])[..|rs|] == rs;
  }

  lemma {:induction false} WaitingSnoc(jobs: seq<Job>, j: Job)
    ensures Waiting(jobs + [j]) == Waiting(jobs) + (if j.Decode? then [j.index] else [])
  {
    if jobs == [] {
      assert jobs + [j] == [j];
    } else {
      WaitingSnoc(jobs[1..], j);
      assert (jobs + [j])[1..] == jobs[1..] + [j];
    }
  }

  lemma SendKeepsFrames(w: World)
    requires Inv(w)
    ensures CodecOk(TrySend(w).0.s.codec) && DrainOk(TrySend(w).0) && FramesOk(TrySend(w).0)
  {
    if w.s.jobs != [] && w.s.jobs[0].Decode? {
      var results := w.s.jobs[0].packet.results;
      assert (w.h.consumed + w.s.codec.ready) + results == w.h.consumed + (w.s.codec.ready + results);
      assert w.h.shown + [] == w.h.shown;
    }
  }

  lemma SendKeepsJobs(w: World)
    requires JobsOk(w)
    ensures JobsOk(TrySend(w).0)
  {
    if w.s.jobs != [] {
      var done, rest := w.h.done, Waiting(w.s.jobs[1..]);
      if w.s.jobs[0].Decode? {
        var i := w.s.jobs[0].index;
        assert done + ([i] + rest) == (done + [i]) + rest;
      } else {
        assert [] + rest == rest;
      }
    }
  }

  lemma SendKeepsBuffers(w: World)
    requires BuffersOk(w)
    ensures BuffersOk(TrySend(w).0)
  {
    var w' := TrySend(w).0;
    assert w'.s.available == w.s.available && w'.h.offered == w.h.offered && w'.h.completed == w.h.completed;
    assert w'.h.discarded == w.h.discarded && w'.h.lost == w.h.lost && (w.h.failed ==> w'.h.failed);
  }

  lemma SendKeeps(w: World)
    requires Inv(w)
    ensures Inv(TrySend(w).0)
  {
    SendKeepsBuffers(w);
    SendKeepsFrames(w);
    SendKeepsJobs(w);
  }

  lemma ReadInOrder(consumed: seq<CodecResult>, ready: seq<CodecResult>)
    requires ready != []
    ensures consumed + ready == (consumed + [ready[0]]) + ready[1..]
  {
    assert ready == [ready[0]] + ready[1..];
  }

  lemma ReadKeepsFrames(w: World)
    requires FramesOk(w) && w.s.held.None? && w.s.codec.ready != []
    ensures FramesOk(Read(w).0)
  {
    var x := w.s.codec.ready[0];
    ReadInOrder(w.h.consumed, w.s.codec.ready);
    PicturesSnoc(w.h.consumed, x);
    var shown := w.h.shown;
    assert shown + [] == shown;
    var w' := Read(w).0;
    assert w'.h.consumed == w.h.consumed + [x] && w'.h.shown == shown;
    assert x.Picture? ==> HeldIds(w'.s.held) == [x.frame.id];
  }

  lemma HoldKeepsBuffers(w: World, f: Frame)
    requires BuffersOk(w)
    ensures BuffersOk(Hold(w, f))
  {
    var none: seq<nat> := [];
    assert multiset(none) == multiset{};
  }

  lemma HoldKeepsOthers(w: World, f: Frame)
    requires DrainOk(w) && JobsOk(w) && w.s.drain != AwaitingFinal
    ensures DrainOk(Hold(w, f)) && JobsOk(Hold(w, f))
  {
  }

  lemma ReadKeeps(w: World)
    requires Inv(w) && w.s.held.None? && w.s.codec.ready != []
    ensures Inv(Read(w).0)
  {
    ReadKeepsFrames(w);
    var x := w.s.codec.ready[0];
    var w1 := World(w.s.(codec := w.s.codec.(ready := w.s.codec.ready[1..])), w.h.(consumed := w.h.consumed + [x]));
    if x.Picture? {
      HoldKeepsBuffers(w1, x.frame);
      HoldKeepsOthers(w1, x.frame);
    }
  }

  lemma ReceiveKeeps(w: World)
    requires Inv(w)
    ensures Inv(TryReceive(w).0)
    decreases !w.s.codec.flushed
  {
    if w.s.held.None? {
      if w.s.codec.ready != [] {
        ReadKeeps(w);
      } else if !w.s.codec.flushed && w.s.drain == Initiated && w.s.codec.flushOk {
        ReceiveKeeps(Flush(w));
      }
    }
  }

  /**
   What sending amounts to: nothing exactly if there is no job, or the codec cannot take the packet of
   the first; a failure exactly if the packet is fatal. Otherwise the first job is taken: a drain begins,
   or the input buffer is reported done and an accepted packet's results become available.
   */
  lemma SendMeaning(w: World)
    ensures var (v, r) := TrySend(w);
            && (r == Nothing <==> w.s.jobs == [] || PacketRefused(w.s))
            && (r == Nothing ==> v == w)
            && (r == Failure <==> w.s.jobs != [] && !PacketRefused(w.s) && FatalJob(w.s.jobs[0]))
            && (r != Nothing ==> v.s.jobs == w.s.jobs[1..])
            && (r == Failure ==> v.s == w.s.(jobs := w.s.jobs[1..]))
            && (r == Progress && w.s.jobs[0].Drain? ==>
                  v.s.drain == Initiated && v.s.events == w.s.events && v.s.codec == w.s.codec)
            && (r == Progress && w.s.jobs[0].Decode? ==>
                  && v.s.drain == w.s.drain
                  && v.s.events == w.s.events + [InputBufferDone(w.s.jobs[0].index)]
                  && v.s.codec == (if w.s.jobs[0].packet.verdict == Accepted
                                   then w.s.codec.(ready := w.s.codec.ready + w.s.jobs[0].packet.results)
                                   else w.s.codec))
  {
  }

  /** The first job is a packet that the codec cannot take now. */
  predicate PacketRefused(s: Session)
    requires s.jobs != []
  {
    s.jobs[0].Decode? && (s.codec.flushed || |s.codec.ready| > s.jobs[0].packet.room)
  }

  predicate FatalJob(j: Job) {
    j.Decode? && j.packet.verdict == Fatal
  }

  /** All that the codec still has to give, once it is flushed. */
  function Remaining(c: Codec): (r: seq<CodecResult>) {
    c.ready + if c.flushed then [] else c.tail
  }

  /**
   The stream format is that of the picture held. If it is new, the client is told, and the output
   buffers are given up until the client is ready for others; otherwise nothing of the kind happens.
   */
  predicate FormatFollows(w: World, v: World) {
    if v.s.held.Some? && v.s.held.value.format != w.s.format then
      && v.s.format == v.s.held.value.format && v.s.available == [] && !v.s.accepting
      && v.s.events == w.s.events + [StreamFormatChanged]
    else
      && v.s.format == w.s.format && v.s.available == w.s.available && v.s.accepting == w.s.accepting
      && v.s.events == w.s.events
  }

  /** The next result is a fatal error, or it takes a flush to get one and the flush fails. */
  predicate ReceiveFails(s: Session) {
    if s.codec.ready != [] then s.codec.ready[0].Broken?
    else
      && s.drain == Initiated && !s.codec.flushed
      && (!s.codec.flushOk || (s.codec.tail != [] && s.codec.tail[0].Broken?))
  }

  /**
   What receiving amounts to: it does nothing exactly if a frame is held already, or the codec has
   nothing to give and no drain asks for more. Otherwise it takes exactly the next result, and holds it
   if it is a picture; only when there is none left does the drain go on to its last stage.
   */
  predicate Received(w: World, v: World, r: Attempt) {
    && (r == Nothing <==> w.s.held.Some? || (w.s.codec.ready == [] && w.s.drain != Initiated))
    && (r == Nothing ==> v == w)
    && (r == Failure <==> w.s.held.None? && ReceiveFails(w.s))
    && (r == Failure ==>
          && v.s.held.None? && v.s.available == w.s.available && v.s.events == w.s.events
          && v.s.drain == if w.s.codec.ready == [] && !w.s.codec.flushOk then NoDrain else w.s.drain)
    && (r == Progress ==>
          if Remaining(w.s.codec) != [] then
            && v.h.consumed == w.h.consumed + [Remaining(w.s.codec)[0]]
            && v.s.drain == w.s.drain
            && v.s.held == (if Remaining(w.s.codec)[0].Picture? then Some(Remaining(w.s.codec)[0].frame) else None)
            && FormatFollows(w, v)
          else
            && v.s.drain == AwaitingFinal && v.s.held.None?
            && v.s.codec.flushed && v.h.consumed == w.h.consumed == v.h.produced)
  }

  lemma ReceiveMeaning(w: World)
    requires Inv(w)
    ensures Received(w, TryReceive(w).0, TryReceive(w).1)
  {
    var c := w.s.codec;
    if w.s.held.None? {
      if c.ready != [] {
        ReadMeaning(w);
        assert Remaining(c)[0] == c.ready[0];
      } else if !c.flushed && w.s.drain == Initiated && c.flushOk {
        var f := Flush(w);
        assert c.ready + c.tail == c.tail && f.h.consumed == w.h.consumed;
        assert TryReceive(w) == TryReceive(f);
        if c.tail != [] {
          ReadMeaning(f);
          assert TryReceive(f) == Read(f);
        }
      }
    }
  }

  lemma ReadMeaning(w: World)
    requires w.s.held.None? && w.s.codec.ready != []
    ensures var (v, r) := Read(w);
            var x := w.s.codec.ready[0];
            && r != Nothing && v.h.consumed == w.h.consumed + [x] && v.s.drain == w.s.drain
            && (r == Failure <==> x.Broken?)
            && (r == Progress ==> v.s.held == if x.Picture? then Some(x.frame) else None)
            && (r == Progress ==> FormatFollows(w, v))
  {
  }

  lemma OutputKeepsBuffers(w: World)
    requires BuffersOk(w)
    ensures BuffersOk(TryOutput(w).0)
  {
    if w.s.available != [] {
      FirstLeaves(w.h.offered, w.s.available, w.h.completed, w.h.discarded, w.h.lost);
    }
  }

  lemma OutputKeepsFrames(w: World)
    requires Inv(w)
    ensures DrainOk(TryOutput(w).0) && FramesOk(TryOutput(w).0) && JobsOk(TryOutput(w).0)
  {
    var shown := w.h.shown;
    assert shown + [] == shown;
    if w.s.held.Some? {
      var id := w.s.held.value.id;
      assert (shown + [id]) + [] == shown + [id];
    }
  }

  lemma OutputKeeps(w: World)
    requires Inv(w)
    ensures Inv(TryOutput(w).0)
  {
    OutputKeepsBuffers(w);
    OutputKeepsFrames(w);
  }

  lemma TurnKeeps(w: World)
    requires Inv(w)
    ensures Inv(Turn(w).0)
  {
    OutputKeeps(w);
    ReceiveKeeps(TryOutput(w).0);
    SendKeeps(TryReceive(TryOutput(w).0).0);
  }

  lemma {:induction false} WorkKeeps(w: World)
    requires Inv(w)
    ensures Inv(Work(w).0)
    decreases |w.s.jobs|, ResultsLeft(w.s.codec), DrainRank(w.s.drain), |w.s.available|
  {
    TurnKeeps(w);
    TurnConsumes(w);
    var (w', r) := Turn(w);
    if r == Progress {
      WorkKeeps(w');
    }
  }

  lemma JobAdded(w: World, j: Job)
    requires Inv(w)
    ensures var h := if j.Decode? then w.h.(decoded := w.h.decoded + [j.index]) else w.h;
            Inv(World(w.s.(hasContext := true, jobs := w.s.jobs + [j]), h))
  {
    WaitingSnoc(w.s.jobs, j);
    var waiting := Waiting(w.s.jobs);
    if j.Decode? {
      var done := w.h.done;
      assert (done + waiting) + [j.index] == done + (waiting + [j.index]);
    } else {
      assert waiting + [] == waiting;
    }
  }

  lemma BuffersCallKeeps(w: World, c: Call)
    requires Inv(w) && (c.CallUseAsOutput? || c.CallClear?)
    ensures Inv(Apply(w, c))
  {
    if c.CallUseAsOutput? {
      assert multiset(w.s.available + [c.index]) == multiset(w.s.available) + multiset{c.index};
    } else {
      var none: seq<nat> := [];
      assert multiset(none) == multiset{};
    }
  }

  /** Every call of the client keeps the invariant. */
  lemma CallKeeps(w: World, c: Call)
    requires Inv(w)
    ensures Inv(Apply(w, c))
  {
    match c
    case CallDecode(index, packet) =>
      JobAdded(w, Decode(index, packet));
      WorkKeeps(Submitted(w, index, packet));
    case CallDrain =>
      if w.s.hasContext {
        JobAdded(w, Drain);
        WorkKeeps(World(w.s.(jobs := w.s.jobs + [Drain]), w.h));
      }
    case CallUseAsOutput(_) => BuffersCallKeeps(w, c);
    case CallClear => BuffersCallKeeps(w, c);
    case CallNextEvent =>
    case CallStreaming =>
  }

  // ----- runs of client calls

  ghost function After(w: World, calls: seq<Call>): (r: World)
    requires Inv(w)
    decreases |calls|
  {
    if calls == [] then w
    else
      CallKeeps(w, calls[0]);
      After(Apply(w, calls[0]), calls[1..])
  }

  /** A new session, with any codec that has not been used. */
  predicate Init(w: World) {
    && w.s.jobs == [] && w.s.held == None && w.s.drain == NoDrain && w.s.available == [] && w.s.events == []
    && w.s.codec.ready == [] && !w.s.codec.flushed
    && w.h == NO_HISTORY
  }

  lemma InitInv(w: World)
    requires Init(w)
    ensures Inv(w)
  {
    assert multiset(w.s.available) == multiset{};
  }

  lemma {:induction false} InvariantOverCalls(w: World, calls: seq<Call>)
    requires Inv(w)
    ensures Inv(After(w, calls))
    decreases |calls|
  {
    if calls != [] {
      CallKeeps(w, calls[0]);
      InvariantOverCalls(Apply(w, calls[0]), calls[1..]);
    }
  }

  /** Input buffers come back in the order in which they were submitted, none skipped, none repeated. */
  lemma InputOrder(w: World, calls: seq<Call>)
    requires Inv(w) && !After(w, calls).h.failed
    ensures var v := After(w, calls);
            var done := v.h.done;
            done <= v.h.decoded && v.h.decoded[|done|..] == Waiting(v.s.jobs)
  {
    InvariantOverCalls(w, calls);
  }

  /** Output buffers are conserved: none is completed twice, none disappears. */
  lemma BufferConservation(w: World, calls: seq<Call>)
    requires Inv(w)
    ensures var v := After(w, calls);
            && v.h.offered == multiset(v.s.available) + v.h.completed + v.h.discarded + v.h.lost
            && (!v.h.failed ==> v.h.lost == multiset{})
  {
    InvariantOverCalls(w, calls);
  }

  /**
   At every moment, the LAST markers queued do not outnumber the drain jobs taken, and a session
   that waits for a buffer to mark holds no frame, so the marker is never held back.
   */
  lemma DrainMarkers(w: World, calls: seq<Call>)
    requires Inv(w)
    ensures var v := After(w, calls);
            && v.h.lasts <= v.h.drains
            && (v.s.drain == AwaitingFinal && v.s.available != [] ==> TryOutput(v).1 == Progress)
  {
    InvariantOverCalls(w, calls);
  }

  /**
   When LAST is queued, every picture the codec has ever produced has been queued before it, in the
   order of production.
   */
  lemma LastComesLast(w: World)
    requires Inv(w) && !w.h.failed
    requires TryOutput(w).0.h.lasts > w.h.lasts
    ensures w.s.codec.flushed && w.s.codec.ready == []
    ensures Pictures(w.h.produced) == w.h.shown
    ensures TryOutput(w).0.s.events == w.s.events + [FrameCompleted(w.s.available[0], None)]
  {
    assert w.h.consumed + [] == w.h.consumed;
    assert w.h.shown + [] == w.h.shown;
  }

  // ----- what the work loop guarantees when it stops

  predicate Quiescent(w: World) {
    TryOutput(w) == (w, Nothing) && TryReceive(w) == (w, Nothing) && TrySend(w) == (w, Nothing)
  }

  /** The loop ends, and if it ends without error no attempt can do anything any more. */
  lemma {:induction false} WorkEndsQuiescent(w: World)
    requires CodecOk(w.s.codec)
    ensures Work(w).1 ==> Quiescent(Work(w).0)
    decreases |w.s.jobs|, ResultsLeft(w.s.codec), DrainRank(w.s.drain), |w.s.available|
  {
    TurnConsumes(w);
    OutputConsumes(w);
    ReceiveConsumes(w);
    var (w', r) := Turn(w);
    if r == Progress {
      WorkEndsQuiescent(w');
    }
  }

  /**
   When the work loop ends with an output buffer left, there is no frame to deliver and no drain in
   progress. Buffers offered later are another matter: see `DecoderIdle`.
   */
  lemma BuffersLeftMeansIdle(w: World)
    requires Inv(w) && Quiescent(w) && w.s.available != []
    ensures w.s.held.None? && w.s.drain == NoDrain && w.s.codec.ready == []
  {
    if w.s.held.None? && w.s.codec.ready == [] && !w.s.codec.flushed && w.s.drain == Initiated && w.s.codec.flushOk {
      ReceiveAfterFlush(w);
    }
  }

  /** Right after a flush, receiving makes progress or fails; it never reports that nothing happened. */
  lemma ReceiveAfterFlush(w: World)
    requires w.s.held.None? && w.s.drain == Initiated && !w.s.codec.flushed
    ensures TryReceive(Flush(w)).1 != Nothing
  {
  }

  /** A job left waiting means that a frame waits for a buffer, or that the codec was flushed for good. */
  lemma JobsLeftMeansBlocked(w: World)
    requires Inv(w) && Quiescent(w) && w.s.jobs != []
    ensures w.s.jobs[0].Decode?
    ensures w.s.codec.flushed || (w.s.held.Some? && w.s.available == [])
  {
  }
}
