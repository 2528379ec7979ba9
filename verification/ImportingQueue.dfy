/**
 A queue together with the DMA-BUF imports of its slots. `QueueSpec` keeps one bit per slot, `fence`;
 here that bit is tied to the imports themselves, operation by operation.
 */
module ImportingQueue {
  import opened Prelude
  import opened QueueSpec
  import opened QueueRuns
  import opened GuestQueue
  import opened Imports

  class ImportingQueue {
    const queue: BufferQueue
    /** One per slot. */
    var imports: seq<BufferImports>

    ghost function Arrays(): (r: set<object>)
      reads this
    {
      (set i | 0 <= i < |imports| :: imports[i].imports) + (set i | 0 <= i < |imports| :: imports[i].uuids)
    }

    ghost predicate Shape()
      reads this, queue, imports
    {
      && |imports| == |queue.slots| && Shaped(queue.View())
      && (forall i :: 0 <= i < |imports| ==> imports[i].Valid())
      && (forall i, j :: 0 <= i < j < |imports| ==>
            && imports[i] != imports[j]
            && imports[i].imports != imports[j].imports && imports[i].uuids != imports[j].uuids)
    }

    /** A slot has the bit exactly while one of its imports is prepared and not completed. */
    ghost predicate Tied()
      requires Shape()
      reads this, queue, imports, Arrays()
    {
      forall i :: 0 <= i < |imports| ==> (queue.slots[i].fence <==> !imports[i].NoneFenced())
    }

    /** Imports are prepared exactly on the slots of a DMABUF queue that are on the device. */
    ghost predicate Valid()
      reads this, queue, imports, Arrays()
    {
      Shape() && Tied() && FenceOk(queue.memory, queue.slots)
    }

    constructor (capture: bool, mplane: bool)
      ensures Valid() && fresh(queue) && imports == []
      ensures queue.View() == Queue(capture, mplane, Mmap, false, false, false, [], 0, [])
    {
      queue := new BufferQueue(capture, mplane);
      imports := [];
    }

    /** The file descriptors of the planes are those of the QBUF argument. */
    predicate NamesOf(b: QbufArg, planes: seq<PlaneArg>) {
      && |planes| == (if queue.mplane then |b.planeMs| else 1)
      && forall i :: 0 <= i < |planes| ==> planes[i].fd == if queue.mplane then b.planeMs[i] else b.m
    }

    /** QBUF: the imports are prepared between its checks and the rest of it. */
    method Qbuf(b: QbufArg, planes: seq<PlaneArg>, e: Services) returns (r: QbufOutcome)
      requires Valid() && Imports.Answers(e) && NamesOf(b, planes)
      modifies queue, imports, Arrays()
      ensures Valid() && imports == old(imports)
      ensures r.Marked? ==> b.index < |imports| && queue.slots[b.index].Active()
      ensures r.Marked? && queue.memory == Dmabuf ==>
                && Importable(planes, queue.mplane, e.fds)
                && forall i :: 0 <= i < |planes| ==>
                     && Holds(imports[b.index].imports[i], imports[b.index].uuids[i], planes[i], e.fds)
                     && IsFenced(imports[b.index].imports[i])
      ensures exists prepared ::
                var (q, out) := QbufMark(old(queue.View()), b, prepared);
                r == out && queue.View() == if out.Marked? then QbufCount(q) else q
    {
      var prepared := true;
      if QbufRefusal(queue.View(), b) == [] && queue.memory == Dmabuf {
        prepared := Prepare(b.index, planes, e);
      }
      r := queue.Qbuf(b, prepared);
      FencesAfterQbuf(old(queue.View()), b, prepared);
    }

    /** Prepare the imports of a slot that is not on the device. */
    method Prepare(index: nat, planes: seq<PlaneArg>, e: Services) returns (prepared: bool)
      requires Valid() && Imports.Answers(e) && index < |imports| && !queue.slots[index].Active()
      modifies imports[index], imports[index].imports, imports[index].uuids
      ensures prepared <==> !imports[index].NoneFenced()
      ensures prepared ==>
                && Importable(planes, queue.mplane, e.fds)
                && forall i :: 0 <= i < |planes| ==>
                     && Holds(imports[index].imports[i], imports[index].uuids[i], planes[i], e.fds)
                     && IsFenced(imports[index].imports[i])
    {
      prepared := imports[index].PrepareImports(planes, queue.capture, queue.mplane, e);
      assert prepared ==> IsFenced(imports[index].imports[0]);
    }

    static lemma FencesAfterQbuf(q: Queue, b: QbufArg, prepared: bool)
      requires Shaped(q) && FenceOk(q.memory, q.slots)
      ensures var (q', out) := QbufMark(q, b, prepared);
              && Shaped(q') && |q'.slots| == |q.slots| && FenceOk(q'.memory, q'.slots)
              && (forall i :: 0 <= i < |q.slots| && i != b.index ==> q'.slots[i] == q.slots[i])
              && (b.index < |q.slots| && !out.Marked? ==> q'.slots[b.index].fence == q.slots[b.index].fence)
              && (out.Marked? ==>
                    && b.index < |q.slots| && q'.slots[b.index].Active()
                    && q'.slots[b.index].fence == (q.memory == Dmabuf))
    {
    }

    /** A completion event: the imports of the slot are completed, if the event is applied. */
    method ProcessEvent(e: Event)
      requires Valid()
      modifies queue, Arrays()
      ensures Valid() && imports == old(imports) && queue.View() == QueueSpec.ProcessEvent(old(queue.View()), e)
      ensures var outcome := if e.flags.error then IoError else Success;
              forall i, k :: 0 <= i < |imports| && 0 <= k < VIDEO_MAX_PLANES ==>
                if i == e.index && QueueSpec.Accepts(old(queue.View()), e)
                then WasCompleted(old(imports[i].imports[k]), imports[i].imports[k], outcome)
                else imports[i].imports[k] == old(imports[i].imports[k])
    {
      FencesAfterEvent(queue.View(), e);
      if QueueSpec.Accepts(queue.View(), e) {
        imports[e.index].CompleteImports(if e.flags.error then IoError else Success);
      }
      queue.ProcessDqbufEvent(e);
    }

    static lemma FencesAfterEvent(q: Queue, e: Event)
      requires Shaped(q) && FenceOk(q.memory, q.slots)
      ensures var q' := QueueSpec.ProcessEvent(q, e);
              && Shaped(q') && |q'.slots| == |q.slots| && FenceOk(q'.memory, q'.slots)
              && (forall i :: 0 <= i < |q.slots| && i != e.index ==> q'.slots[i] == q.slots[i])
              && (QueueSpec.Accepts(q, e) ==> !q'.slots[e.index].fence)
              && (!QueueSpec.Accepts(q, e) ==> q' == q)
    {
    }

    /** A failed QBUF: the imports of the slot are released. */
    method Fail(index: nat, oldFlags: Flags)
      requires Valid() && index < |queue.slots| && oldFlags.Idle()
      modifies queue, Arrays()
      ensures Valid() && imports == old(imports) && queue.View() == QbufFailed(old(queue.View()), index, oldFlags)
      ensures queue.memory == Dmabuf ==> forall i :: 0 <= i < imports[index].imports.Length ==>
                imports[index].imports[i] == None
    {
      FencesAfterFailure(queue.View(), index, oldFlags);
      if queue.memory == Dmabuf {
        imports[index].ReleaseImports();
      }
      queue.FailQbuf(index, oldFlags);
    }

    static lemma FencesAfterFailure(q: Queue, index: nat, oldFlags: Flags)
      requires Shaped(q) && FenceOk(q.memory, q.slots) && index < |q.slots| && oldFlags.Idle()
      ensures var q' := QbufFailed(q, index, oldFlags);
              && Shaped(q') && |q'.slots| == |q.slots| && FenceOk(q'.memory, q'.slots)
              && (forall i :: 0 <= i < |q.slots| && i != index ==> q'.slots[i] == q.slots[i])
              && !q'.slots[index].fence
    {
    }

    /** STREAMOFF: every import is completed and kept. */
    method Clear()
      requires Valid()
      modifies queue, Arrays()
      ensures Valid() && imports == old(imports) && queue.View() == QueueSpec.Clear(old(queue.View()))
      ensures forall i, k :: 0 <= i < |imports| && 0 <= k < VIDEO_MAX_PLANES ==>
                WasCompleted(old(imports[i].imports[k]), imports[i].imports[k], Cancelled)
    {
      CompleteAll();
      queue.ClearQueue();
    }

    method CompleteAll()
      requires Shape()
      modifies Arrays()
      ensures forall i :: 0 <= i < |imports| ==> imports[i].NoneFenced()
      ensures forall i, k :: 0 <= i < |imports| && 0 <= k < VIDEO_MAX_PLANES ==>
                WasCompleted(old(imports[i].imports[k]), imports[i].imports[k], Cancelled)
    {
      for i := 0 to |imports|
        invariant Shape()
        invariant forall k :: 0 <= k < i ==> imports[k].NoneFenced()
        invariant forall j, k :: 0 <= j < i && 0 <= k < VIDEO_MAX_PLANES ==>
                    WasCompleted(old(imports[j].imports[k]), imports[j].imports[k], Cancelled)
        invariant forall j, k :: i <= j < |imports| && 0 <= k < VIDEO_MAX_PLANES ==>
                    imports[j].imports[k] == old(imports[j].imports[k])
      {
        imports[i].CompleteImports(Cancelled);
      }
    }

    /** REQBUFS: the imports of the old slots are released, the new slots have none. */
    method Reallocate(memory: Memory, count: nat, gotMemory: bool)
      requires Valid()
      modifies this, queue, Arrays()
      ensures Valid() && queue.View() == QueueSpec.Reallocate(old(queue.View()), memory, count, gotMemory)
      ensures forall i, k :: 0 <= i < |old(imports)| && 0 <= k < VIDEO_MAX_PLANES ==>
                old(imports)[i].imports[k] == None
    {
      ReleaseAll();
      queue.ReplaceSlots(memory, count, gotMemory);
      imports := NewImports(|queue.slots|);
    }

    method ReleaseAll()
      requires Shape()
      modifies Arrays()
      ensures forall i, k :: 0 <= i < |imports| && 0 <= k < VIDEO_MAX_PLANES ==> imports[i].imports[k] == None
    {
      for i := 0 to |imports|
        invariant Shape()
        invariant forall j, k :: 0 <= j < i && 0 <= k < VIDEO_MAX_PLANES ==> imports[j].imports[k] == None
      {
        imports[i].ReleaseImports();
      }
    }

    static method NewImports(count: nat) returns (r: seq<BufferImports>)
      ensures |r| == count
      ensures forall k :: 0 <= k < count ==>
                fresh(r[k]) && fresh(r[k].imports) && fresh(r[k].uuids) && r[k].Valid() && r[k].NoneFenced()
      ensures forall j, k :: 0 <= j < k < count ==>
                r[j] != r[k] && r[j].imports != r[k].imports && r[j].uuids != r[k].uuids
    {
      r := [];
      for i := 0 to count
        invariant |r| == i
        invariant forall k :: 0 <= k < i ==>
                    fresh(r[k]) && fresh(r[k].imports) && fresh(r[k].uuids) && r[k].Valid() && r[k].NoneFenced()
        invariant forall j, k :: 0 <= j < k < i ==>
                  r[j] != r[k] && r[j].imports != r[k].imports && r[j].uuids != r[k].uuids
      {
        var added := new BufferImports();
        r := r + [added];
      }
    }
  }
}
