/**
 The driver's queue as it updates it in place: field by field, with loops over planes and slots.
 Every method is proved to do exactly what `QueueSpec` says of the whole queue.
 */
module GuestQueue {
  import opened Prelude
  import opened QueueSpec
  import opened QueueRuns

  /** `Undefined` stands for taking the first element of an empty list. */
  datatype DqbufResult = Error(errno: Errno) | MustWait | Undefined | Buffer(d: Dequeued)

  class BufferQueue {
    const capture: bool
    const mplane: bool
    var memory: Memory
    var streaming: bool
    var needsCancel: bool
    var captureLast: bool
    var slots: seq<Slot>
    var queuedBufs: int
    var pending: seq<nat>

    function View(): (q: Queue)
      reads this
    {
      Queue(capture, mplane, memory, streaming, needsCancel, captureLast, slots, queuedBufs, pending)
    }

    constructor (capture: bool, mplane: bool)
      ensures View() == Queue(capture, mplane, Mmap, false, false, false, [], 0, [])
    {
      this.capture, this.mplane := capture, mplane;
      memory, streaming, needsCancel, captureLast := Mmap, false, false, false;
      slots, queuedBufs, pending := [], 0, [];
    }

    /** `virtio_media_qbuf` up to the command it sends. */
    method Qbuf(b: QbufArg, importsPrepared: bool) returns (r: QbufOutcome)
      requires Shaped(View())
      modifies this
      ensures var (q, out) := QbufMark(old(View()), b, importsPrepared);
              r == out && View() == if out.Marked? then QbufCount(q) else q
    {
      if b.index >= |slots| {
        return Refused(EINVAL);
      }
      if needsCancel {
        return Refused(EIO);
      }
      var flags := slots[b.index].flags;
      if b.memory != memory || flags.queued || flags.done {
        return Refused(EINVAL);
      }
      if b.memory == Dmabuf {
        if !importsPrepared || (mplane && |b.planeMs| > VIDEO_MAX_PLANES) {
          return Refused(EINVAL);
        }
      }
      if !flags.prepared {
        slots := slots[b.index := slots[b.index].(m := b.m)];
        if mplane {
          if |b.planeMs| > VIDEO_MAX_PLANES {
            return Refused(EINVAL);
          }
          StorePlaneMs(b.index, b.planeMs);
        }
      }
      slots := slots[b.index := slots[b.index].(flags := NO_FLAGS.(queued := true), fence := memory == Dmabuf)];
      queuedBufs := queuedBufs + 1;
      r := Marked(flags);
      assert slots == old(slots)[b.index := slots[b.index]];
      assert slots == QbufMark(old(View()), b, importsPrepared).0.slots;
    }

    method StorePlaneMs(index: nat, ms: seq<int>)
      requires index < |slots| && |ms| <= |slots[index].planes|
      modifies this`slots
      ensures slots == old(slots)[index := old(slots)[index].(planes := StoreMs(old(slots)[index].planes, ms))]
    {
      ghost var before := slots[index];
      assert StoreMs(before.planes, ms[..0]) == before.planes;
      for j := 0 to |ms|
        invariant slots == old(slots)[index := before.(planes := StoreMs(before.planes, ms[..j]))]
      {
        var planes := slots[index].planes;
        slots := slots[index := slots[index].(planes := planes[j := planes[j].(m := ms[j])])];
        assert StoreMs(before.planes, ms[..j + 1])
            == StoreMs(before.planes, ms[..j])[j := Plane(ms[j], before.planes[j].data)];
      }
      assert ms[..|ms|] == ms;
    }

    /** The failure path of `virtio_media_qbuf`. */
    method FailQbuf(index: nat, oldFlags: Flags)
      requires index < |slots|
      modifies this
      ensures View() == QbufFailed(old(View()), index, oldFlags)
      ensures oldFlags.Idle() ==> TakenBack(old(View()), View(), index, oldFlags)
    {
      RestoreSlot(index, oldFlags);
      if oldFlags.Idle() {
        FailureTakesBack(old(View()), index, oldFlags);
      }
    }

    method RestoreSlot(index: nat, oldFlags: Flags)
      requires index < |slots|
      modifies this
      ensures View() == QbufFailed(old(View()), index, oldFlags)
    {
      if memory == Dmabuf {
        needsCancel := true;
        slots := slots[index := slots[index].(fence := false)];
      }
      if !slots[index].flags.done {
        queuedBufs := queuedBufs - 1;
      }
      if !slots[index].flags.done {
        slots := slots[index := slots[index].(flags := oldFlags)];
      }
    }

    /** `virtio_media_process_dqbuf_event`. */
    method ProcessDqbufEvent(e: Event)
      requires Shaped(View())
      modifies this
      ensures View() == ProcessEvent(old(View()), e)
    {
      if e.index >= |slots| {
        return;
      }
      var flags := slots[e.index].flags;
      if !flags.queued || flags.done || e.memory != memory || (mplane && |e.planes| > VIDEO_MAX_PLANES) {
        return;
      }
      slots := slots[e.index := slots[e.index].(fence := false)];
      slots := slots[e.index := slots[e.index].(flags := e.flags, payload := e.payload)];
      if mplane {
        CopyPlanes(e.index, e.planes);
      }
      slots := slots[e.index := slots[e.index].(flags := slots[e.index].flags.(done := true))];
      pending := pending + [e.index];
      queuedBufs := queuedBufs - 1;
    }

    method CopyPlanes(index: nat, data: seq<int>)
      requires index < |slots| && |data| <= |slots[index].planes|
      modifies this`slots
      ensures slots == old(slots)[index := old(slots)[index].(planes := TakePlanes(old(slots)[index].planes, data))]
    {
      ghost var before := slots[index];
      assert TakePlanes(before.planes, data[..0]) == before.planes;
      for j := 0 to |data|
        invariant slots == old(slots)[index := before.(planes := TakePlanes(before.planes, data[..j]))]
      {
        var planes := slots[index].planes;
        var planeM := planes[j].m;
        slots := slots[index := slots[index].(planes := planes[j := Plane(planeM, data[j])])];
        assert TakePlanes(before.planes, data[..j + 1])
            == TakePlanes(before.planes, data[..j])[j := Plane(before.planes[j].m, data[j])];
      }
      assert data[..|data|] == data;
    }

    /** `virtio_media_clear_queue`. */
    method ClearQueue()
      modifies this
      ensures View() == Clear(old(View()))
    {
      while pending != []
        invariant slots == old(slots)
        invariant memory == old(memory) && streaming == old(streaming)
        decreases |pending|
      {
        pending := pending[1..];
      }
      for i := 0 to |slots|
        invariant |slots| == |old(slots)| && memory == old(memory) && pending == []
        invariant forall k :: 0 <= k < i ==> slots[k] == old(slots)[k].(flags := NO_FLAGS, fence := false)
        invariant forall k :: i <= k < |slots| ==> slots[k] == old(slots)[k]
      {
        var completed := slots[i].(fence := false);
        slots := slots[i := completed.(flags := NO_FLAGS)];
      }
      assert slots == ClearSlots(old(slots));
      queuedBufs := 0;
      streaming, needsCancel, captureLast := false, false, false;
    }

    /** `virtio_media_reqbufs` after the device acknowledged it. */
    method ReplaceSlots(memory: Memory, count: nat, gotMemory: bool)
      modifies this
      ensures View() == Reallocate(old(View()), memory, count, gotMemory)
    {
      for i := 0 to |slots|
        invariant |slots| == |old(slots)|
        invariant pending == old(pending) && this.memory == old(this.memory)
      {
        slots := slots[i := slots[i].(fence := false)];
      }
      this.memory := memory;
      ClearQueue();
      slots := [];
      if count > 0 {
        if !gotMemory {
          return;
        }
        slots := seq(count, _ => ZEROED);
      }
    }

    /** The checks of `virtio_media_dqbuf`, before it gives up the device lock to wait. */
    method DqbufChecks(nonblocking: bool) returns (refused: seq<Errno>)
      ensures refused == [EPIPE] <==> captureLast
      ensures refused == [EAGAIN] <==> !captureLast && nonblocking && pending == []
      ensures refused == [EINVAL] <==> !captureLast && !nonblocking && (slots == [] || !streaming)
      ensures refused == [] || refused == [EPIPE] || refused == [EAGAIN] || refused == [EINVAL]
    {
      if captureLast {
        return [EPIPE];
      }
      if nonblocking {
        if pending == [] {
          return [EAGAIN];
        }
      } else if |slots| == 0 {
        return [EINVAL];
      } else if !streaming {
        return [EINVAL];
      }
      refused := [];
    }

    /**
     The rest, once the wait is over and the device lock is held again; other calls may have run in
     between. `gone` says that the device or the session is. The list is not looked at again, so that
     taking from it is undefined exactly if it is empty now.
     */
    method DqbufTakes(arg: DqbufArg, gone: bool, interrupted: bool) returns (r: DqbufResult)
      requires Shaped(View()) && (pending != [] ==> pending[0] < |slots|)
      modifies this
      ensures r == Error(ENODEV) <==> gone
      ensures r == Error(EINTR) <==> !gone && interrupted
      ensures r == Undefined <==> !gone && !interrupted && old(pending) == []
      ensures r.Buffer? <==> !gone && !interrupted && old(pending) != []
      ensures r.Buffer? ==> (View(), r.d) == DqbufTake(old(View()), arg)
      ensures !r.Buffer? ==> View() == old(View())
    {
      if gone {
        return Error(ENODEV);
      }
      if interrupted {
        return Error(EINTR);
      }
      if pending == [] {
        return Undefined;
      }
      var i := pending[0];
      pending := pending[1..];
      slots := slots[i := slots[i].(flags := slots[i].flags.(done := false, queued := false))];
      var planes: seq<Plane> := [];
      if mplane {
        planes := slots[i].planes[..if arg.nbPlanes < VIDEO_MAX_PLANES then arg.nbPlanes else VIDEO_MAX_PLANES];
      }
      var callerM := arg.m;
      var d := Dequeued(i, slots[i].flags, slots[i].m, planes, slots[i].payload);
      if mplane {
        d := d.(m := callerM);
      }
      if capture && d.flags.last {
        captureLast := true;
      }
      r := Buffer(d);
    }

    /**
     `virtio_media_dqbuf` when nobody else takes buffers of the queue meanwhile: it is never undefined.
     `MustWait` means that it sleeps on; a signal can only interrupt it while the list is empty.
     */
    method Dqbuf(arg: DqbufArg, nonblocking: bool, gone: bool, signalled: bool) returns (r: DqbufResult)
      requires Shaped(View()) && (pending != [] ==> pending[0] < |slots|)
      modifies this
      ensures r == Error(EPIPE) <==> old(captureLast)
      ensures r == Error(EAGAIN) <==> !old(captureLast) && nonblocking && old(pending) == []
      ensures r == Error(EINVAL) <==> !old(captureLast) && !nonblocking && (old(slots) == [] || !old(streaming))
      ensures r == Error(ENODEV) ==> gone
      ensures r == Error(EINTR) ==> signalled && old(pending) == []
      ensures r.Buffer? ==> !gone && old(pending) != [] && (View(), r.d) == DqbufTake(old(View()), arg)
      ensures !r.Buffer? ==> View() == old(View())
      ensures r.MustWait? ==> pending == [] && !gone && !signalled
      ensures r != Undefined
    {
      var refused := DqbufChecks(nonblocking);
      if refused != [] {
        return Error(refused[0]);
      }
      if pending == [] && !gone && !signalled {
        return MustWait;
      }
      r := DqbufTakes(arg, gone, signalled && pending == [] && !gone);
    }
  }
}
