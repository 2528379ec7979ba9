/**
 One V4L2 buffer queue of a guest session, as the driver keeps it: the slot array with its
 flags, the counter of buffers handed to the device, the list of buffers waiting to be dequeued
 and the flags that gate QBUF, STREAMON and DQBUF.

 The functions say what each driver operation does to that state as one atomic step.
 `GuestQueue` proves the loops of the driver against them; `QueueRuns` proves what every
 interleaving of them with a device keeps.
 */
module QueueSpec {
  import opened Prelude

  datatype Memory = Mmap | Userptr | Dmabuf

  datatype Errno = EINVAL | EIO | EPIPE | EAGAIN | ENODEV | EINTR

  /** The bits of `v4l2_buffer.flags` that the driver reads or writes. */
  datatype Flags = Flags(queued: bool, done: bool, prepared: bool, error: bool, last: bool)
  {
    /** The flags of a buffer that belongs to user space. */
    predicate Idle() {
      !queued && !done
    }
  }

  const NO_FLAGS := Flags(false, false, false, false, false)

  /** A `v4l2_plane`: its `m` union, and everything else as one opaque value. */
  datatype Plane = Plane(m: int, data: int)

  /** A `virtio_media_buffer`. `fence` holds while its DMA-BUF imports are prepared and not completed. */
  datatype Slot = Slot(flags: Flags, m: int, planes: seq<Plane>, payload: int, fence: bool)
  {
    /** The slot is on the device: QUEUED and not yet DONE. */
    predicate Active() {
      flags.queued && !flags.done
    }

    /** The buffer belongs to user space. */
    predicate Free() {
      !flags.queued && !flags.done
    }
  }

  const ZEROED := Slot(NO_FLAGS, 0, seq(VIDEO_MAX_PLANES, _ => Plane(0, 0)), 0, false)

  /** `virtio_media_queue_state`; `capture` and `mplane` are the two facts used about its type. */
  datatype Queue = Queue(
    capture: bool,
    mplane: bool,
    memory: Memory,
    streaming: bool,
    needsCancel: bool,
    captureLast: bool,
    slots: seq<Slot>,
    queuedBufs: int,
    pending: seq<nat>)

  /** Every slot carries the full plane array. */
  predicate Shaped(q: Queue) {
    forall i :: 0 <= i < |q.slots| ==> |q.slots[i].planes| == VIDEO_MAX_PLANES
  }

  /** What user space passes to QBUF; `planeMs` has `length` entries on a multiplanar queue. */
  datatype QbufArg = QbufArg(index: nat, memory: Memory, m: int, planeMs: seq<int>)

  /** A dequeued-buffer event; `planes` has `length` entries on a multiplanar queue. */
  datatype Event = Event(index: nat, memory: Memory, flags: Flags, payload: int, planes: seq<int>)

  /** Outcome of the part of QBUF that runs before the command is sent. */
  datatype QbufOutcome = Refused(errno: Errno) | Marked(oldFlags: Flags)

  // ----- QBUF, up to the command

  /** The checks QBUF makes before it touches anything. */
  function QbufRefusal(q: Queue, b: QbufArg): (r: seq<Errno>) {
    if b.index >= |q.slots| then [EINVAL]
    else if q.needsCancel then [EIO]
    else if b.memory != q.memory || q.slots[b.index].flags.queued || q.slots[b.index].flags.done then [EINVAL]
    else []
  }

  function StoreMs(planes: seq<Plane>, ms: seq<int>): (r: seq<Plane>)
    requires |ms| <= |planes|
    ensures |r| == |planes|
    ensures forall j :: 0 <= j < |planes| ==> r[j] == if j < |ms| then Plane(ms[j], planes[j].data) else planes[j]
  {
    seq(|planes|, j requires 0 <= j < |planes| => if j < |ms| then Plane(ms[j], planes[j].data) else planes[j])
  }

  /** `m` and the planes' `m` are recorded unless the buffer was prepared beforehand. */
  function Remember(q: Queue, slot: Slot, b: QbufArg): (r: Slot)
    requires |b.planeMs| <= |slot.planes|
  {
    if slot.flags.prepared then slot
    else slot.(m := b.m, planes := if q.mplane then StoreMs(slot.planes, b.planeMs) else slot.planes)
  }

  /**
   The first half of QBUF, up to setting the QUEUED flag. `importsPrepared` is the outcome of
   preparing the DMA-BUF imports, which matters on a DMABUF queue only; a DMABUF argument with too
   many planes is refused by that preparation.
   */
  function QbufMark(q: Queue, b: QbufArg, importsPrepared: bool): (r: (Queue, QbufOutcome))
    requires Shaped(q)
  {
    var refusal := QbufRefusal(q, b);
    if refusal != [] then (q, Refused(refusal[0]))
    else
      var slot := q.slots[b.index];
      if q.memory == Dmabuf && (!importsPrepared || (q.mplane && |b.planeMs| > VIDEO_MAX_PLANES)) then
        (q, Refused(EINVAL))
      else if !slot.flags.prepared && q.mplane && |b.planeMs| > VIDEO_MAX_PLANES then
        (q.(slots := q.slots[b.index := slot.(m := b.m)]), Refused(EINVAL))
      else
        var ms := if |b.planeMs| > VIDEO_MAX_PLANES then [] else b.planeMs;
        var stored := Remember(q, slot, b.(planeMs := ms));
        var queued := stored.(flags := NO_FLAGS.(queued := true), fence := q.memory == Dmabuf);
        (q.(slots := q.slots[b.index := queued]), Marked(slot.flags))
  }

  /** The second half, under its own lock: the counter follows, and the command can be sent. */
  function QbufCount(q: Queue): (r: Queue) {
    q.(queuedBufs := q.queuedBufs + 1)
  }

  /** QBUF's command came back with an error. */
  function QbufFailed(q: Queue, index: nat, oldFlags: Flags): (r: Queue)
    requires index < |q.slots|
  {
    var imports := q.memory == Dmabuf;
    var slot := q.slots[index];
    var released := slot.(fence := slot.fence && !imports);
    if slot.flags.done then
      q.(needsCancel := q.needsCancel || imports, slots := q.slots[index := released])
    else
      q.(needsCancel := q.needsCancel || imports,
         slots := q.slots[index := released.(flags := oldFlags)],
         queuedBufs := q.queuedBufs - 1)
  }

  // ----- the completion event

  /** The event is applied rather than ignored. */
  predicate Accepts(q: Queue, e: Event) {
    && e.index < |q.slots|
    && q.slots[e.index].Active()
    && e.memory == q.memory
    && !(q.mplane && |e.planes| > VIDEO_MAX_PLANES)
  }

  function TakePlanes(planes: seq<Plane>, data: seq<int>): (r: seq<Plane>)
    requires |data| <= |planes|
    ensures |r| == |planes|
    ensures forall j :: 0 <= j < |planes| ==> r[j] == if j < |data| then Plane(planes[j].m, data[j]) else planes[j]
  {
    seq(|planes|, j requires 0 <= j < |planes| => if j < |data| then Plane(planes[j].m, data[j]) else planes[j])
  }

  /** The slot after the event: the device's fields, with the `m` values of QBUF put back. */
  function Completed(q: Queue, e: Event): (r: Slot)
    requires Shaped(q) && Accepts(q, e)
  {
    var slot := q.slots[e.index];
    slot.(flags := e.flags.(done := true),
          payload := e.payload,
          planes := if q.mplane then TakePlanes(slot.planes, e.planes) else slot.planes,
          fence := false)
  }

  function ProcessEvent(q: Queue, e: Event): (r: Queue)
    requires Shaped(q)
  {
    if !Accepts(q, e) then q
    else q.(slots := q.slots[e.index := Completed(q, e)],
            pending := q.pending + [e.index],
            queuedBufs := q.queuedBufs - 1)
  }

  // ----- cancellation

  function ClearSlots(slots: seq<Slot>): (r: seq<Slot>)
    ensures |r| == |slots|
    ensures forall i :: 0 <= i < |slots| ==> r[i] == slots[i].(flags := NO_FLAGS, fence := false)
  {
    seq(|slots|, i requires 0 <= i < |slots| => slots[i].(flags := NO_FLAGS, fence := false))
  }

  /** `virtio_media_clear_queue`. */
  function Clear(q: Queue): (r: Queue) {
    q.(slots := ClearSlots(q.slots), pending := [], queuedBufs := 0,
       streaming := false, needsCancel := false, captureLast := false)
  }

  /** REQBUFS after the device acknowledged it; without memory the queue is left with no slot. */
  function Reallocate(q: Queue, memory: Memory, count: nat, gotMemory: bool): (r: Queue) {
    Clear(q).(memory := memory, slots := if gotMemory then seq(count, _ => ZEROED) else [])
  }

  // ----- DQBUF

  /** What user space passes to DQBUF: `m` (on a multiplanar queue, where to put the planes) and room for planes. */
  datatype DqbufArg = DqbufArg(m: int, nbPlanes: nat)

  /** What DQBUF hands to user space. */
  datatype Dequeued = Dequeued(index: nat, flags: Flags, m: int, planes: seq<Plane>, payload: int)

  /**
   The part of DQBUF that runs once the list is known not to be empty. On a multiplanar queue the
   caller's own `m` is put back after the buffer has been copied over the argument.
   */
  function DqbufTake(q: Queue, arg: DqbufArg): (r: (Queue, Dequeued))
    requires Shaped(q) && q.pending != [] && q.pending[0] < |q.slots|
  {
    var i := q.pending[0];
    var slot := q.slots[i];
    var flags := slot.flags.(done := false, queued := false);
    var n := if arg.nbPlanes < VIDEO_MAX_PLANES then arg.nbPlanes else VIDEO_MAX_PLANES;
    (q.(pending := q.pending[1..],
        slots := q.slots[i := slot.(flags := flags)],
        captureLast := q.captureLast || (q.capture && flags.last)),
     Dequeued(i, flags, if q.mplane then arg.m else slot.m, if q.mplane then slot.planes[..n] else [], slot.payload))
  }
}
