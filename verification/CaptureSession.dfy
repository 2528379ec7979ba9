/**
 One session of the simple capture device: its buffers, the FIFO of buffers queued by the guest, and
 the generation of frames.
 */
module CaptureSession {
  import opened Prelude

  const BUFFER_SIZE: nat := 640 * 3 * 480
  const MAX_BUFFERS: nat := 32

  datatype BufferState = New | Incoming | Outgoing(sequence: nat)

  /** `queued`, `bytesUsed` and `sequence` are the V4L2 representation sent to the guest. */
  datatype Buffer = Buffer(state: BufferState, queued: bool, bytesUsed: nat, sequence: nat, offset: nat)

  /** `Buffer::set_state`. */
  function SetState(b: Buffer, state: BufferState): (r: Buffer) {
    match state
    case New => b.(state := state, bytesUsed := 0, queued := false)
    case Incoming => b.(state := state, bytesUsed := 0, queued := true)
    case Outgoing(n) => b.(state := state, bytesUsed := BUFFER_SIZE, sequence := n, queued := false)
  }

  /** A dequeue event sent to the guest. */
  datatype Completion = Completion(session: nat, index: nat, sequence: nat)

  /** `submitted` and `completed` record the QBUF calls and completions since the last cancel. */
  datatype Session = Session(
    id: nat,
    iteration: nat,
    buffers: seq<Buffer>,
    queue: seq<nat>,
    streaming: bool,
    submitted: seq<nat>,
    completed: seq<nat>)

  /** The guest's view of a buffer agrees with its state. */
  predicate BufferOk(b: Buffer) {
    && (b.queued <==> b.state.Incoming?)
    && b.bytesUsed == (if b.state.Outgoing? then BUFFER_SIZE else 0)
    && (b.state.Outgoing? ==> b.sequence == b.state.sequence)
  }

  predicate NoDuplicates(q: seq<nat>) {
    forall i, j :: 0 <= i < j < |q| ==> q[i] != q[j]
  }

  /** The FIFO is duplicate-free and holds exactly the incoming buffers; streaming leaves nothing in it. */
  predicate SessionOk(s: Session) {
    && (forall i :: 0 <= i < |s.buffers| ==> BufferOk(s.buffers[i]))
    && NoDuplicates(s.queue)
    && (forall k :: 0 <= k < |s.queue| ==> s.queue[k] < |s.buffers| && s.buffers[s.queue[k]].state.Incoming?)
    && (forall i :: 0 <= i < |s.buffers| && s.buffers[i].state.Incoming? ==> i in s.queue)
    && (s.streaming ==> s.queue == [] && s.buffers != [])
    && s.submitted == s.completed + s.queue
  }

  /** The completions that emptying the FIFO sends: in QBUF order, with consecutive sequence numbers. */
  function Completions(id: nat, queue: seq<nat>, iteration: nat): (r: seq<Completion>)
    ensures |r| == |queue|
    ensures forall k :: 0 <= k < |queue| ==> r[k] == Completion(id, queue[k], (iteration + k) % U32_END)
  {
    seq(|queue|, k requires 0 <= k < |queue| => Completion(id, queue[k], (iteration + k) % U32_END))
  }

  /** A buffer that holds frame `n` and is the guest's again. */
  function Frame(b: Buffer, n: nat): (r: Buffer) {
    Buffer(Outgoing(n), false, BUFFER_SIZE, n, b.offset)
  }

  /** A buffer that waits for a frame. */
  function Awaiting(b: Buffer): (r: Buffer) {
    Buffer(Incoming, true, 0, b.sequence, b.offset)
  }

  /** The buffers of `queue` hold the frames from `iteration` on, the others are as before. */
  predicate Filled(before: seq<Buffer>, after: seq<Buffer>, queue: seq<nat>, iteration: nat) {
    && |after| == |before|
    && (forall i :: 0 <= i < |before| && i !in queue ==> after[i] == before[i])
    && (forall k :: 0 <= k < |queue| && queue[k] < |before| ==>
          after[queue[k]] == Frame(before[queue[k]], (iteration + k) % U32_END))
  }

  lemma FilledOnce(before: seq<Buffer>, now: seq<Buffer>, queue: seq<nat>, iteration: nat, k: nat)
    requires NoDuplicates(queue) && k < |queue| && queue[k] < |before|
    requires Filled(before, now, queue[..k], iteration)
    ensures var next := now[queue[k] := Frame(now[queue[k]], (iteration + k) % U32_END)];
            Filled(before, next, queue[..k + 1], iteration)
  {
    assert queue[..k + 1] == queue[..k] + [queue[k]];
    assert queue[k] !in queue[..k];
  }

  lemma CompletedOnce(id: nat, queue: seq<nat>, iteration: nat, k: nat)
    requires k < |queue|
    ensures Completions(id, queue[..k + 1], iteration)
         == Completions(id, queue[..k], iteration) + [Completion(id, queue[k], (iteration + k) % U32_END)]
  {
  }

  /** One turn of `process_queued_buffers`. */
  method ProcessOne(s: Session) returns (s': Session, e: Completion)
    requires SessionOk(s.(streaming := false)) && s.queue != []
    ensures SessionOk(s'.(streaming := false)) && |s'.buffers| == |s.buffers|
    ensures e == Completion(s.id, s.queue[0], s.iteration % U32_END)
    ensures s'.id == s.id && s'.streaming == s.streaming && s'.submitted == s.submitted
    ensures s'.queue == s.queue[1..] && s'.iteration == s.iteration + 1
    ensures s'.buffers == s.buffers[s.queue[0] := Frame(s.buffers[s.queue[0]], s.iteration % U32_END)]
    ensures SameOffsets(s.buffers, s'.buffers)
  {
    var index := s.queue[0];
    var sequence := s.iteration % U32_END;
    var done := SetState(s.buffers[index], Outgoing(sequence));
    s' := s.(queue := s.queue[1..], iteration := s.iteration + 1, buffers := s.buffers[index := done],
             completed := s.completed + [index]);
    e := Completion(s.id, index, sequence);
    assert done == Frame(s.buffers[index], sequence);
    OneDone(s.(streaming := false), s'.(streaming := false), sequence);
  }

  lemma OneDone(s: Session, s': Session, n: nat)
    requires SessionOk(s) && s.queue != [] && !s'.streaming
    requires s'.buffers == s.buffers[s.queue[0] := Frame(s.buffers[s.queue[0]], n)]
    requires s'.queue == s.queue[1..] && s'.completed == s.completed + [s.queue[0]] && s'.submitted == s.submitted
    ensures SessionOk(s')
  {
    var index := s.queue[0];
    assert s.queue == [index] + s.queue[1..];
    assert s.completed + ([index] + s.queue[1..]) == (s.completed + [index]) + s.queue[1..];
    forall i | 0 <= i < |s'.buffers| && s'.buffers[i].state.Incoming?
      ensures i in s'.queue
    {
      assert i in s.queue && i != index;
    }
  }

  predicate SameOffsets(a: seq<Buffer>, b: seq<Buffer>) {
    |a| == |b| && forall i :: 0 <= i < |a| ==> a[i].offset == b[i].offset
  }

  /** `process_queued_buffers`: the whole FIFO is completed, in order. */
  method ProcessQueue(s: Session) returns (r: Session, sent: seq<Completion>)
    requires SessionOk(s.(streaming := false)) && (s.streaming ==> s.buffers != [])
    ensures SessionOk(r) && r.queue == [] && r.id == s.id && r.streaming == s.streaming
    ensures sent == Completions(s.id, s.queue, s.iteration)
    ensures r.submitted == s.submitted && r.iteration == s.iteration + |s.queue|
    ensures SameOffsets(s.buffers, r.buffers) && Filled(s.buffers, r.buffers, s.queue, s.iteration)
  {
    r, sent := s, [];
    assert s.queue[..0] == [];
    for k := 0 to |s.queue|
      invariant SessionOk(r.(streaming := false)) && Reached(s, r, sent, k)
    {
      var next, e := ProcessOne(r);
      OneReached(s, r, sent, k, next, e);
      r, sent := next, sent + [e];
    }
    assert s.queue[..|s.queue|] == s.queue;
  }

  /** `r` is what `s` has become, and `sent` what has been sent, when the first `k` buffers are completed. */
  predicate Reached(s: Session, r: Session, sent: seq<Completion>, k: nat) {
    && k <= |s.queue| && r.queue == s.queue[k..]
    && r.id == s.id && r.streaming == s.streaming && r.submitted == s.submitted
    && r.iteration == s.iteration + k && SameOffsets(s.buffers, r.buffers)
    && Filled(s.buffers, r.buffers, s.queue[..k], s.iteration)
    && sent == Completions(s.id, s.queue[..k], s.iteration)
  }

  lemma OneReached(s: Session, r: Session, sent: seq<Completion>, k: nat, next: Session, e: Completion)
    requires Reached(s, r, sent, k) && k < |s.queue| && NoDuplicates(s.queue) && s.queue[k] < |s.buffers|
    requires next.buffers == r.buffers[s.queue[k] := Frame(r.buffers[s.queue[k]], r.iteration % U32_END)]
    requires next.id == r.id && next.streaming == r.streaming && next.submitted == r.submitted
    requires next.queue == r.queue[1..] && next.iteration == r.iteration + 1
    requires e == Completion(r.id, s.queue[k], r.iteration % U32_END)
    ensures Reached(s, next, sent + [e], k + 1)
  {
    FilledOnce(s.buffers, r.buffers, s.queue, s.iteration, k);
    CompletedOnce(s.id, s.queue, s.iteration, k);
  }

  /** The part of STREAMOFF and REQBUFS that cancels what is queued. */
  method Cancel(s: Session) returns (r: Session)
    requires SessionOk(s)
    ensures r == s.(streaming := false, queue := [], submitted := [], completed := [], buffers := r.buffers)
    ensures SameOffsets(s.buffers, r.buffers) && SessionOk(r)
    ensures forall i :: 0 <= i < |r.buffers| ==> r.buffers[i] == SetState(s.buffers[i], New)
  {
    var buffers := s.buffers;
    for i := 0 to |buffers|
      invariant |buffers| == |s.buffers|
      invariant forall k :: 0 <= k < |buffers| ==>
                buffers[k] == if k < i then SetState(s.buffers[k], New) else s.buffers[k]
    {
      buffers := buffers[i := SetState(buffers[i], New)];
    }
    r := s.(streaming := false, queue := [], submitted := [], completed := [], buffers := buffers);
  }

  // ----- what the guest can tell of a session

  datatype Face = Face(count: nat, queue: seq<nat>, streaming: bool)

  function FaceOf(s: Session): (f: Face) {
    Face(|s.buffers|, s.queue, s.streaming)
  }

  /** QBUF: whether it is accepted, and the buffers completed by it. */
  function FaceQbuf(f: Face, index: nat): (r: (Face, bool, seq<nat>)) {
    if index >= f.count || index in f.queue then (f, false, [])
    else if f.streaming then (f.(queue := []), true, f.queue + [index])
    else (f.(queue := f.queue + [index]), true, [])
  }

  function FaceStreamon(f: Face): (r: (Face, bool, seq<nat>)) {
    if f.count == 0 then (f, false, []) else (f.(streaming := true, queue := []), true, f.queue)
  }

  function FaceStreamoff(f: Face): (r: Face) {
    f.(streaming := false, queue := [])
  }

  /** REQBUFS: `granted` says that no other session owns buffers. */
  function FaceReqbufs(f: Face, count: nat, granted: bool): (r: (Face, bool)) {
    if f.streaming || !granted then (f, false)
    else (Face(if count < MAX_BUFFERS then count else MAX_BUFFERS, [], false), true)
  }
}
