/**
 The simple capture device with any number of sessions, driven by the commands of the guest. All
 sessions share one MMAP range; only one of them may own buffers at a time.
 */
module SimpleDevice {
  import opened Prelude
  import opened MmapSpec
  import opened MmapManager
  import opened CaptureSession

  /** `AllocationFailed` is the EINVAL of a full range; `Panicked` the overflow of an automatic offset. */
  datatype Reply = Done | EINVAL | EBUSY | AllocationFailed | Panicked

  datatype Allocation = Allocated(buffers: seq<CaptureSession.Buffer>) | RangeFull | Overflowed

  ghost function Registered(t: Table): (r: set<nat>) {
    set o | o in t && t[o].registered
  }

  function OffsetsOf(buffers: seq<CaptureSession.Buffer>): (r: set<nat>) {
    set i | 0 <= i < |buffers| :: buffers[i].offset
  }

  predicate DistinctOffsets(buffers: seq<CaptureSession.Buffer>) {
    forall i, j :: 0 <= i < j < |buffers| ==> buffers[i].offset != buffers[j].offset
  }

  lemma SameOffsetsSame(a: seq<CaptureSession.Buffer>, b: seq<CaptureSession.Buffer>)
    requires SameOffsets(a, b)
    ensures OffsetsOf(a) == OffsetsOf(b) && (DistinctOffsets(a) <==> DistinctOffsets(b))
  {
    assert forall o :: o in OffsetsOf(a) ==> o in OffsetsOf(b) by {
      forall o | o in OffsetsOf(a)
        ensures o in OffsetsOf(b)
      {
        var i :| 0 <= i < |a| && a[i].offset == o;
        assert b[i].offset == o;
      }
    }
    forall o | o in OffsetsOf(b)
      ensures o in OffsetsOf(a)
    {
      var i :| 0 <= i < |b| && b[i].offset == o;
      assert a[i].offset == o;
    }
  }

  lemma UnregisterRemoves(t: Table, o: nat)
    ensures Registered(Unregister(t, o).0) == Registered(t) - {o}
  {
  }

  lemma RegisterAdds(t: Table, o: nat, size: nat)
    requires o !in t && RegisterAt(t, o, size).1.Ok?
    ensures Registered(RegisterAt(t, o, size).0) == Registered(t) + {o}
    ensures o !in Registered(t)
  {
  }

  /** The offsets of the buffers that the active session owns. */
  ghost function OwnedOffsets(sessions: map<nat, Session>, active: Option<nat>): (r: set<nat>) {
    if active.Some? && active.value in sessions then OffsetsOf(sessions[active.value].buffers) else {}
  }

  /** Every session is well formed, and the active one, if any, is the only one with buffers. */
  ghost predicate OneOwner(sessions: map<nat, Session>, active: Option<nat>, nextId: nat) {
    && (forall id :: id in sessions ==> id < nextId && sessions[id].id == id && SessionOk(sessions[id]))
    && (forall id :: id in sessions ==> (sessions[id].buffers != [] <==> active == Some(id)))
    && (active.Some? ==> active.value in sessions)
    && (forall id :: id in sessions ==> DistinctOffsets(sessions[id].buffers))
  }

  /** A session may take over as owner when no other session owns buffers. */
  lemma OwnerReplaced(sessions: map<nat, Session>, active: Option<nat>, nextId: nat, s: Session)
    requires OneOwner(sessions, active, nextId) && s.id in sessions && (active.None? || active.value == s.id)
    requires SessionOk(s) && DistinctOffsets(s.buffers)
    ensures var active' := if s.buffers == [] then None else Some(s.id);
            && OneOwner(sessions[s.id := s], active', nextId)
            && OwnedOffsets(sessions[s.id := s], active') == OffsetsOf(s.buffers)
  {
  }

  /** How many completions session `id` has sent. */
  function CountFor(sent: seq<Completion>, id: nat): (n: nat) {
    if sent == [] then 0
    else
      var n := |sent| - 1;
      CountFor(sent[..n], id) + (if sent[n].session == id then 1 else 0)
  }

  /** Each session numbers its completions 0, 1, 2, ... (modulo the width of the field). */
  ghost predicate Numbered(sent: seq<Completion>) {
    forall k :: 0 <= k < |sent| ==>
      sent[k].sequence == CountFor(sent[..k], sent[k].session) % U32_END
  }

  ghost predicate SequencesOk(sessions: map<nat, Session>, sent: seq<Completion>, nextId: nat) {
    && Numbered(sent)
    && (forall id :: id in sessions ==> sessions[id].iteration == CountFor(sent, id))
    && (forall id :: id >= nextId ==> CountFor(sent, id) == 0)
  }

  lemma OneSent(sent: seq<Completion>, e: Completion)
    requires Numbered(sent) && e.sequence == CountFor(sent, e.session) % U32_END
    ensures Numbered(sent + [e])
    ensures forall id :: CountFor(sent + [e], id) == CountFor(sent, id) + (if id == e.session then 1 else 0)
  {
    var all := sent + [e];
    assert all[..|sent|] == sent;
    forall k | 0 <= k < |all|
      ensures all[k].sequence == CountFor(all[..k], all[k].session) % U32_END
    {
      if k < |sent| {
        assert all[..k] == sent[..k] && all[k] == sent[k];
      }
    }
  }

  lemma NothingCompleted(id: nat, sent: seq<Completion>)
    ensures forall n :: sent + Completions(id, [], n) == sent
  {
  }

  lemma LastCompletion(sent: seq<Completion>, id: nat, queue: seq<nat>, before: seq<Completion>, all: seq<Completion>)
    returns (last: Completion)
    requires queue != [] && all == sent + Completions(id, queue, CountFor(sent, id))
    requires before == sent + Completions(id, queue[..|queue| - 1], CountFor(sent, id))
    ensures last.session == id && last.sequence == (CountFor(sent, id) + |queue| - 1) % U32_END
    ensures all == before + [last]
  {
    var n, m := CountFor(sent, id), |queue| - 1;
    last := Completion(id, queue[m], (n + m) % U32_END);
    assert Completions(id, queue, n) == Completions(id, queue[..m], n) + [last];
  }

  /** `all` continues the numbering of `sent` with `count` completions of session `id` and of no other. */
  ghost predicate Continues(sent: seq<Completion>, all: seq<Completion>, id: nat, count: nat) {
    && Numbered(all)
    && forall other :: CountFor(all, other) == CountFor(sent, other) + (if other == id then count else 0)
  }

  lemma ContinuesOnce(sent: seq<Completion>, before: seq<Completion>, id: nat, count: nat, e: Completion,
                      all: seq<Completion>)
    requires Continues(sent, before, id, count) && all == before + [e]
    requires e.session == id && e.sequence == (CountFor(sent, id) + count) % U32_END
    ensures Continues(sent, all, id, count + 1)
  {
    OneSent(before, e);
  }

  /** Sending the completions of a FIFO continues the numbering of its session and of no other. */
  lemma {:induction false} SendingContinues(sent: seq<Completion>, id: nat, queue: seq<nat>, all: seq<Completion>)
    requires Numbered(sent) && all == sent + Completions(id, queue, CountFor(sent, id))
    ensures Continues(sent, all, id, |queue|)
    decreases |queue|
  {
    if queue == [] {
      assert all == sent;
    } else {
      var m := |queue| - 1;
      var before := sent + Completions(id, queue[..m], CountFor(sent, id));
      var last := LastCompletion(sent, id, queue, before, all);
      SendingContinues(sent, id, queue[..m], before);
      ContinuesOnce(sent, before, id, m, last, all);
    }
  }

  /** A session that kept its buffers and completed `queue` is put back. */
  lemma UpdateKeeps(sessions: map<nat, Session>, active: Option<nat>, nextId: nat, sent: seq<Completion>,
                    s: Session, queue: seq<nat>)
    requires OneOwner(sessions, active, nextId) && SequencesOk(sessions, sent, nextId)
    requires s.id in sessions && SessionOk(s) && SameOffsets(sessions[s.id].buffers, s.buffers)
    requires s.iteration == sessions[s.id].iteration + |queue|
    ensures OneOwner(sessions[s.id := s], active, nextId)
    ensures OwnedOffsets(sessions[s.id := s], active) == OwnedOffsets(sessions, active)
    ensures SequencesOk(sessions[s.id := s], sent + Completions(s.id, queue, sessions[s.id].iteration), nextId)
  {
    SameOffsetsSame(sessions[s.id].buffers, s.buffers);
    var all := sent + Completions(s.id, queue, sessions[s.id].iteration);
    SendingContinues(sent, s.id, queue, all);
    SequencesContinue(sessions, sent, nextId, s, |queue|, all);
  }

  lemma SequencesContinue(sessions: map<nat, Session>, sent: seq<Completion>, nextId: nat, s: Session,
                          count: nat, all: seq<Completion>)
    requires SequencesOk(sessions, sent, nextId) && s.id in sessions && s.id < nextId
    requires s.iteration == sessions[s.id].iteration + count && Continues(sent, all, s.id, count)
    ensures SequencesOk(sessions[s.id := s], all, nextId)
  {
  }

  /** A session that sent nothing keeps its place in the numbering. */
  lemma SequencesKept(sessions: map<nat, Session>, sent: seq<Completion>, nextId: nat, s: Session)
    requires SequencesOk(sessions, sent, nextId) && s.id in sessions && s.iteration == sessions[s.id].iteration
    ensures SequencesOk(sessions[s.id := s], sent, nextId)
  {
  }

  /** A new session owns nothing and has sent nothing. */
  lemma SessionAdded(sessions: map<nat, Session>, active: Option<nat>, nextId: nat, sent: seq<Completion>)
    requires OneOwner(sessions, active, nextId) && SequencesOk(sessions, sent, nextId)
    ensures var all := sessions[nextId := Session(nextId, 0, [], [], false, [], [])];
            && OneOwner(all, active, nextId + 1) && SequencesOk(all, sent, nextId + 1)
            && OwnedOffsets(all, active) == OwnedOffsets(sessions, active)
  {
  }

  /** A closed session leaves the others as they were; if it owned buffers, nobody does now. */
  lemma SessionRemoved(sessions: map<nat, Session>, active: Option<nat>, nextId: nat, sent: seq<Completion>, id: nat)
    requires OneOwner(sessions, active, nextId) && SequencesOk(sessions, sent, nextId) && id in sessions
    ensures var active' := if active == Some(id) then None else active;
            && OneOwner(sessions - {id}, active', nextId)
            && SequencesOk(sessions - {id}, sent, nextId)
            && (active != Some(id) ==> OwnedOffsets(sessions - {id}, active') == OwnedOffsets(sessions, active))
            && (active == Some(id) ==> OwnedOffsets(sessions - {id}, active') == {})
            && (active == Some(id) ==> OwnedOffsets(sessions, active) == OffsetsOf(sessions[id].buffers))
  {
  }

  lemma MappingKeepsRegistered(t: Table, offset: nat, rw: bool, answer: Result<nat, int>)
    ensures Registered(Create(t, offset, rw, answer).0) == Registered(t)
  {
  }

  lemma UnmappingKeepsRegistered(t: Table, o: nat)
    requires o in t && t[o].mapping.Some? && t[o].mapping.value.count >= 1
    ensures Registered(RemoveAt(t, o).0) == Registered(t)
  {
  }

  /** Everything in the range has the size of a frame. */
  ghost predicate FrameSized(t: Table) {
    forall o :: o in t ==> t[o].size == BUFFER_SIZE
  }

  class SimpleCaptureDevice {
    const mmap: MmapMappingManager
    var active: Option<nat>
    var sessions: map<nat, Session>
    var nextId: nat
    /** Every dequeue event sent so far. */
    var sent: seq<Completion>

    /** At most one session owns buffers, it is the active one, and exactly its buffers are registered. */
    ghost predicate Valid()
      reads this, mmap
    {
      && mmap.Valid() && FrameSized(mmap.table)
      && OneOwner(sessions, active, nextId)
      && Registered(mmap.table) == OwnedOffsets(sessions, active)
      && SequencesOk(sessions, sent, nextId)
    }

    constructor (mmap: MmapMappingManager)
      requires mmap.Valid() && mmap.table == map[]
      ensures Valid() && this.mmap == mmap && sessions == map[] && active == None && sent == []
    {
      this.mmap := mmap;
      active, sessions, nextId, sent := None, map[], 0, [];
    }

    method Open() returns (id: nat)
      requires Valid()
      modifies this
      ensures Valid() && id == old(nextId) && nextId == old(nextId) + 1
      ensures sessions == old(sessions)[id := Session(id, 0, [], [], false, [], [])]
      ensures active == old(active) && sent == old(sent)
    {
      id := nextId;
      SessionAdded(sessions, active, nextId, sent);
      sessions := sessions[id := Session(id, 0, [], [], false, [], [])];
      nextId := nextId + 1;
    }

    /** Unregister the buffers of a session, none of which is registered any more afterwards. */
    method UnregisterAll(buffers: seq<CaptureSession.Buffer>)
      requires mmap.Valid() && FrameSized(mmap.table) && Registered(mmap.table) == OffsetsOf(buffers)
      modifies mmap
      ensures mmap.Valid() && FrameSized(mmap.table) && Registered(mmap.table) == {}
    {
      for i := 0 to |buffers|
        invariant mmap.Valid() && FrameSized(mmap.table) && Registered(mmap.table) <= OffsetsOf(buffers[i..])
      {
        UnregisterRemoves(mmap.table, buffers[i].offset);
        var found := mmap.UnregisterBuffer(buffers[i].offset);
        assert OffsetsOf(buffers[i..]) <= {buffers[i].offset} + OffsetsOf(buffers[i + 1..]) by {
          forall o | o in OffsetsOf(buffers[i..]) && o != buffers[i].offset
            ensures o in OffsetsOf(buffers[i + 1..])
          {
            var k :| 0 <= k < |buffers[i..]| && buffers[i..][k].offset == o;
            assert buffers[i + 1..][k - 1].offset == o;
          }
        }
      }
    }

    /** Register one buffer at the offset that the manager chooses, unless the range is full. */
    method RegisterOne() returns (r: Result<nat, RegisterError>)
      requires mmap.Valid() && FrameSized(mmap.table)
      modifies mmap
      ensures mmap.Valid() && FrameSized(mmap.table)
      ensures r.Ok? ==>
                && r.value !in Registered(old(mmap.table))
                && Registered(mmap.table) == Registered(old(mmap.table)) + {r.value}
      ensures r.Err? ==> IsLast(mmap.table, LAST_PAGE) && (r.error == OffsetOverflow <==> mmap.overflowChecks)
      ensures r.Err? && r.error != OffsetOverflow ==> 0 in mmap.table
    {
      ghost var t := mmap.table;
      r := mmap.RegisterBuffer(None, BUFFER_SIZE);
      if !IsLast(t, LAST_PAGE) {
        ghost var o :| IsAutoOffset(t, o) && o !in t && (mmap.table, r) == RegisterAt(t, o, BUFFER_SIZE);
        AutoOffsetFits(t, o, BUFFER_SIZE);
      }
      if r.Ok? {
        RegisterAdds(t, r.value, BUFFER_SIZE);
      }
    }

    /** Register `count` new buffers at offsets the manager chooses. */
    method RegisterAll(count: nat) returns (r: Allocation)
      requires mmap.Valid() && FrameSized(mmap.table) && Registered(mmap.table) == {}
      modifies mmap
      ensures mmap.Valid() && FrameSized(mmap.table)
      ensures r.Allocated? ==>
                && |r.buffers| == count && Registered(mmap.table) == OffsetsOf(r.buffers) && DistinctOffsets(r.buffers)
                && forall i :: 0 <= i < count ==> BufferOk(r.buffers[i]) && r.buffers[i].state == New
      ensures !r.Allocated? ==> count > 0 && IsLast(mmap.table, LAST_PAGE) && (r.Overflowed? <==> mmap.overflowChecks)
      ensures r.RangeFull? ==> 0 in mmap.table
    {
      var buffers := [];
      for i := 0 to count
        invariant mmap.Valid() && FrameSized(mmap.table) && |buffers| == i
        invariant Registered(mmap.table) == OffsetsOf(buffers) && DistinctOffsets(buffers)
        invariant forall k :: 0 <= k < i ==> BufferOk(buffers[k]) && buffers[k].state == New
      {
        var offset := RegisterOne();
        if offset.Err? {
          return if offset.error == OffsetOverflow then Overflowed else RangeFull;
        }
        var b := CaptureSession.Buffer(New, false, 0, 0, offset.value);
        OffsetsSnoc(buffers, b);
        buffers := buffers + [b];
      }
      r := Allocated(buffers);
    }

    lemma OffsetsSnoc(buffers: seq<CaptureSession.Buffer>, b: CaptureSession.Buffer)
      requires DistinctOffsets(buffers) && b.offset !in OffsetsOf(buffers)
      ensures OffsetsOf(buffers + [b]) == OffsetsOf(buffers) + {b.offset}
      ensures DistinctOffsets(buffers + [b])
    {
      var all := buffers + [b];
      forall o | o in OffsetsOf(buffers) + {b.offset}
        ensures o in OffsetsOf(all)
      {
        if o == b.offset {
          assert all[|buffers|].offset == o;
        } else {
          var i :| 0 <= i < |buffers| && buffers[i].offset == o;
          assert all[i].offset == o;
        }
      }
      assert forall i :: 0 <= i < |buffers| ==> buffers[i].offset in OffsetsOf(buffers);
    }

    /** Put back a session that kept its buffers and completed `queue`. */
    method Update(id: nat, s: Session, queue: seq<nat>)
      requires Valid() && id in sessions && SessionOk(s) && s.id == id && SameOffsets(sessions[id].buffers, s.buffers)
      requires s.iteration == sessions[id].iteration + |queue|
      modifies this`sessions, this`sent
      ensures Valid() && sessions == old(sessions)[id := s]
      ensures sent == old(sent) + Completions(id, queue, old(sessions)[id].iteration)
    {
      UpdateKeeps(sessions, active, nextId, sent, s, queue);
      sent := sent + Completions(id, queue, sessions[id].iteration);
      sessions := sessions[id := s];
    }

    method Streamoff(id: nat, captureQueue: bool) returns (r: Reply)
      requires Valid()
      modifies this
      ensures Valid() && active == old(active) && sent == old(sent)
      ensures r == Done <==> id in old(sessions) && captureQueue
      ensures r != Done ==> sessions == old(sessions)
      ensures r == Done ==>
                && id in sessions && sessions == old(sessions)[id := sessions[id]]
                && !sessions[id].streaming && sessions[id].queue == []
                && forall i :: 0 <= i < |sessions[id].buffers| ==> sessions[id].buffers[i].state == New
      ensures r == Done ==> FaceOf(sessions[id]) == FaceStreamoff(FaceOf(old(sessions)[id]))
    {
      if id !in sessions || !captureQueue {
        return EINVAL;
      }
      var s := Cancel(sessions[id]);
      Update(id, s, []);
      r := Done;
    }

    method Streamon(id: nat, captureQueue: bool) returns (r: Reply)
      requires Valid()
      modifies this
      ensures Valid() && active == old(active)
      ensures r == Done <==> id in old(sessions) && captureQueue && old(sessions)[id].buffers != []
      ensures r != Done ==> sessions == old(sessions) && sent == old(sent)
      ensures r == Done ==>
                && id in sessions && sessions == old(sessions)[id := sessions[id]]
                && sessions[id].streaming && sessions[id].submitted == old(sessions)[id].submitted
                && sent == old(sent) + Completions(id, old(sessions)[id].queue, old(sessions)[id].iteration)
                && Filled(old(sessions)[id].buffers, sessions[id].buffers, old(sessions)[id].queue,
                          old(sessions)[id].iteration)
      ensures id in old(sessions) && captureQueue ==>
                Shows(old(sessions)[id], FaceStreamon(FaceOf(old(sessions)[id])), id, r, old(sent))
    {
      if id !in sessions || !captureQueue || sessions[id].buffers == [] {
        return EINVAL;
      }
      var s, evs := ProcessQueue(sessions[id].(streaming := true));
      Update(id, s, sessions[id].queue);
      r := Done;
    }

    /** The session shows the guest what `face` says: its new face, whether it accepted, what it completed. */
    ghost predicate Shows(before: Session, face: (Face, bool, seq<nat>), id: nat, r: Reply, log: seq<Completion>)
      reads this
    {
      && id in sessions && FaceOf(sessions[id]) == face.0
      && (r == Done <==> face.1)
      && sent == log + Completions(id, face.2, before.iteration)
    }

    /** QBUF of a buffer that is not queued already; a streaming session completes it at once. */
    method Qbuf(id: nat, index: nat) returns (r: Reply)
      requires Valid()
      modifies this
      ensures Valid() && active == old(active)
      ensures r == Done <==>
                && id in old(sessions) && index < |old(sessions)[id].buffers|
                && !old(sessions)[id].buffers[index].state.Incoming?
      ensures r != Done ==> sessions == old(sessions) && sent == old(sent)
      ensures r == Done ==>
                && id in sessions && sessions == old(sessions)[id := sessions[id]]
                && sessions[id].submitted == old(sessions)[id].submitted + [index]
                && sessions[id].streaming == old(sessions)[id].streaming
                && var done := if sessions[id].streaming then [index] else [];
                sent == old(sent) + Completions(id, done, old(sessions)[id].iteration)
      ensures r == Done ==> Submitted(old(sessions)[id], sessions[id].buffers, index)
      ensures id in old(sessions) ==>
                Shows(old(sessions)[id], FaceQbuf(FaceOf(old(sessions)[id]), index), id, r, old(sent))
    {
      if id !in sessions || index >= |sessions[id].buffers| || sessions[id].buffers[index].state.Incoming? {
        NothingCompleted(id, sent);
        return EINVAL;
      }
      var s, done := SubmitAndProcess(sessions[id], index);
      Update(id, s, done);
      r := Done;
    }

    /** The buffer waits in the FIFO, or has got the next frame at once; the others are as before. */
    static predicate Submitted(s: Session, after: seq<CaptureSession.Buffer>, index: nat)
      requires index < |s.buffers|
    {
      var b := s.buffers[index];
      var n := s.iteration % U32_END;
      after == s.buffers[index := if s.streaming then Frame(b, n) else Awaiting(b)]
    }

    /** Queue a buffer; `done` are the buffers that are completed at once. */
    static method SubmitAndProcess(s: Session, index: nat) returns (r: Session, done: seq<nat>)
      requires SessionOk(s) && index < |s.buffers| && !s.buffers[index].state.Incoming?
      ensures SessionOk(r) && SameOffsets(s.buffers, r.buffers) && r.id == s.id && r.streaming == s.streaming
      ensures r.iteration == s.iteration + |done| && r.submitted == s.submitted + [index]
      ensures Submitted(s, r.buffers, index)
      ensures done == (if s.streaming then [index] else []) && (FaceOf(r), true, done) == FaceQbuf(FaceOf(s), index)
    {
      var queued := Submit(s, index);
      assert index !in s.queue;
      if queued.streaming {
        var completions;
        r, completions := ProcessQueue(queued);
        done := queued.queue;
      } else {
        r, done := queued, [];
      }
    }

    static method Submit(s: Session, index: nat) returns (r: Session)
      requires SessionOk(s) && index < |s.buffers| && !s.buffers[index].state.Incoming?
      ensures SessionOk(r.(streaming := false)) && SameOffsets(s.buffers, r.buffers)
      ensures r.id == s.id && r.streaming == s.streaming && r.iteration == s.iteration
      ensures r.queue == s.queue + [index] && r.submitted == s.submitted + [index]
      ensures r.buffers == s.buffers[index := Awaiting(s.buffers[index])]
    {
      r := s.(buffers := s.buffers[index := SetState(s.buffers[index], Incoming)],
              queue := s.queue + [index], submitted := s.submitted + [index]);
      assert (s.completed + s.queue) + [index] == s.completed + (s.queue + [index]);
      assert r.queue[|s.queue|] == index;
      assert forall i :: i in s.queue ==> i in r.queue;
    }

    /**
     REQBUFS. The old buffers are unregistered, the new ones registered; a session that asks while
     another one owns buffers is refused.
     */
    method Reqbufs(id: nat, captureQueue: bool, mmapMemory: bool, count: nat) returns (r: Reply)
      requires Valid()
      modifies this, mmap
      ensures r != AllocationFailed && r != Panicked ==> Valid()
      ensures r == AllocationFailed ==> LeftAfterFailure(old(sessions), id)
      ensures r == Panicked ==> mmap.overflowChecks && IsLast(mmap.table, LAST_PAGE)
      ensures sent == old(sent)
      ensures r == EINVAL <==> id !in old(sessions) || !captureQueue || !mmapMemory
      ensures r == EBUSY <==>
                && id in old(sessions) && captureQueue && mmapMemory
                && (old(sessions)[id].streaming || (old(active).Some? && old(active).value != id))
      ensures r == EBUSY || r == EINVAL ==> sessions == old(sessions) && active == old(active)
      ensures r == Done ==>
                && id in sessions && sessions == old(sessions)[id := sessions[id]]
                && |sessions[id].buffers| == (if count < MAX_BUFFERS then count else MAX_BUFFERS)
                && active == (if count == 0 then None else Some(id))
                && forall i :: 0 <= i < |sessions[id].buffers| ==> sessions[id].buffers[i].state == New
      ensures r == Done || r == EBUSY ==>
                var granted := old(active).None? || old(active).value == id;
                (FaceOf(sessions[id]), r == Done) == FaceReqbufs(FaceOf(old(sessions)[id]), count, granted)
    {
      if id !in sessions || !captureQueue || !mmapMemory {
        return EINVAL;
      }
      if sessions[id].streaming || (active.Some? && active.value != id) {
        return EBUSY;
      }
      r := Reallocate(id, count);
    }

    /** REQBUFS once it is allowed. */
    method Reallocate(id: nat, count: nat) returns (r: Reply)
      requires Valid() && id in sessions && (active.None? || active.value == id)
      modifies this`active, this`sessions, mmap
      ensures r == Done || r == AllocationFailed || r == Panicked
      ensures r == Done ==>
                && Valid()
                && id in sessions && sessions == old(sessions)[id := sessions[id]]
                && |sessions[id].buffers| == (if count < MAX_BUFFERS then count else MAX_BUFFERS)
                && sessions[id].queue == [] && !sessions[id].streaming
                && active == (if count == 0 then None else Some(id))
                && forall i :: 0 <= i < |sessions[id].buffers| ==> sessions[id].buffers[i].state == New
      ensures r == AllocationFailed ==> LeftAfterFailure(old(sessions), id)
      ensures r == Panicked ==> mmap.overflowChecks && IsLast(mmap.table, LAST_PAGE)
    {
      var s := Cancel(sessions[id]);
      active := if count == 0 then None else Some(id);
      assert OwnedOffsets(old(sessions), old(active)) == OffsetsOf(sessions[id].buffers);
      var renewed := RenewBuffers(sessions[id].buffers, if count < MAX_BUFFERS then count else MAX_BUFFERS);
      match renewed
      case Allocated(buffers) =>
        OwnerReplaced(sessions, old(active), nextId, s.(buffers := buffers));
        SequencesKept(sessions, sent, nextId, s.(buffers := buffers));
        sessions := sessions[id := s.(buffers := buffers)];
        r := Done;
      case RangeFull =>
        SequencesKept(sessions, sent, nextId, s);
        sessions := sessions[id := s];
        r := AllocationFailed;
      case Overflowed => r := Panicked;
    }

    method RenewBuffers(buffers: seq<CaptureSession.Buffer>, count: nat) returns (r: Allocation)
      requires mmap.Valid() && FrameSized(mmap.table) && Registered(mmap.table) == OffsetsOf(buffers)
      modifies mmap
      ensures mmap.Valid() && FrameSized(mmap.table)
      ensures r.Allocated? ==>
                && |r.buffers| == count && Registered(mmap.table) == OffsetsOf(r.buffers) && DistinctOffsets(r.buffers)
                && forall i :: 0 <= i < count ==> BufferOk(r.buffers[i]) && r.buffers[i].state == New
      ensures !r.Allocated? ==> count > 0 && IsLast(mmap.table, LAST_PAGE) && (r.Overflowed? <==> mmap.overflowChecks)
      ensures r.RangeFull? ==> 0 in mmap.table
    {
      UnregisterAll(buffers);
      r := RegisterAll(count);
    }

    /**
     What REQBUFS leaves when the range is full, that is, when its last page is taken and the offset that
     wraps around to page 0 is taken as well: the session is cancelled and active, and still names its
     old buffers, although these are no longer registered. Numbering and mappings are not disturbed.
     */
    ghost predicate LeftAfterFailure(before: map<nat, Session>, id: nat)
      reads this, mmap
    {
      && mmap.Valid() && FrameSized(mmap.table)
      && IsLast(mmap.table, LAST_PAGE) && 0 in mmap.table && !mmap.overflowChecks
      && id in before && id in sessions && sessions == before[id := sessions[id]]
      && sessions[id].queue == [] && !sessions[id].streaming && SessionOk(sessions[id])
      && SameOffsets(before[id].buffers, sessions[id].buffers)
      && active == Some(id)
      && SequencesOk(sessions, sent, nextId)
    }

    /** CLOSE: the session goes, and with it the registration of its buffers. */
    method Close(id: nat)
      requires Valid()
      modifies this, mmap
      ensures Valid() && sessions == old(sessions) - {id} && sent == old(sent)
      ensures active == if old(active) == Some(id) then None else old(active)
    {
      if id !in sessions {
        return;
      }
      var s := sessions[id];
      SessionRemoved(sessions, active, nextId, sent, id);
      sessions := sessions - {id};
      if active == Some(id) {
        active := None;
        UnregisterAll(s.buffers);
      }
    }

    /** MMAP: only a buffer of the calling session can be mapped. */
    method DoMmap(id: nat, offset: nat, rw: bool, answer: Result<nat, int>) returns (r: Option<(nat, nat)>)
      requires Valid() && (answer.Ok? ==> !AddressInUse(mmap.table, answer.value))
      modifies mmap
      ensures Valid()
      ensures r.Some? <==>
                && id in sessions && offset in OffsetsOf(sessions[id].buffers)
                && Create(old(mmap.table), offset, rw, answer).1.Ok?
      ensures r.Some? ==> MappedAt(mmap.table, offset, r.value.0) && r.value.1 == BUFFER_SIZE
    {
      if id !in sessions || offset !in OffsetsOf(sessions[id].buffers) {
        return None;
      }
      MappingKeepsRegistered(mmap.table, offset, rw, answer);
      var m := mmap.CreateMapping(offset, rw, answer);
      if m.Err? {
        return None;
      }
      r := Some(m.value);
    }

    method DoMunmap(addr: nat) returns (r: Result<bool, RemoveError>)
      requires Valid()
      modifies mmap
      ensures Valid() && (r.Ok? <==> AddressInUse(old(mmap.table), addr))
      ensures r.Ok? ==> exists o :: MappedAt(old(mmap.table), o, addr) && mmap.table == RemoveAt(old(mmap.table), o).0
      ensures r.Err? ==> mmap.table == old(mmap.table)
    {
      ghost var t := mmap.table;
      r := mmap.RemoveMapping(addr);
      if r.Ok? {
        ghost var o :| MappedAt(t, o, addr) && (mmap.table, r.value) == RemoveAt(t, o);
        UnmappingKeepsRegistered(t, o);
      }
    }
  }
}
