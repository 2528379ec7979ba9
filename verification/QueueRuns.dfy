/**
 One guest queue running against a device that answers at its own pace.

 A QBUF gets a generation number when it leaves the driver. The device may take the buffer,
 complete it at any moment (also before the reply to QBUF arrives), and reply with success or
 failure; completion events travel through a FIFO. STREAMOFF and REQBUFS cancel: the device
 acknowledges, the events already delivered are drained, then the queue is cleared.

 Environment: an accepted QBUF is completed at most once, and nothing is sent for cancelled work
 after the acknowledgement. Everything here holds in every such run; `QueueGenerations` adds what holds
 when failed replies can be trusted.
 */
module QueueRuns {
  import opened Prelude
  import opened QueueSpec

  datatype Token = Token(slot: nat, gen: nat)

  datatype Delivery = Delivery(token: Token, event: Event)

  datatype Cancel = Streamoff | Reqbufs(memory: Memory, count: nat, gotMemory: bool)

  /** The ioctl that holds the device lock, if any; `Marking` is a QBUF that has not been counted yet. */
  datatype Ioctl =
    | Idle
    | Marking(token: Token, oldFlags: Flags)
    | InFlight(token: Token, oldFlags: Flags, accepted: bool)
    | Cancelling(cancel: Cancel)

  /** What a QBUF passed, and what the slot held before it: whether PREPARED, and the `m` values. */
  datatype Given = Given(m: int, planeMs: seq<int>, prepared: bool, oldM: int, oldMs: seq<int>)

  /**
   `gens[i]` is the generation last given to slot `i`. `answered`, `given`, `arrived` and
   `returned` record history: the completions applied, what each QBUF passed, and, since the last
   clear, the QBUFs completed by an event and those dequeued. `reports` has the event that completed
   each QBUF.
   */
  datatype World = World(
    q: Queue,
    gens: seq<nat>,
    nextGen: nat,
    ioctl: Ioctl,
    device: set<Token>,
    events: seq<Delivery>,
    answered: seq<Token>,
    given: map<nat, Given>,
    arrived: seq<Token>,
    returned: seq<Token>,
    reports: map<nat, Event>)

  datatype Action =
    | Qbuf(b: QbufArg, importsPrepared: bool)
    | Count
    | Accept
    | Complete(token: Token, event: Event)
    | Deliver
    | Reply(ok: bool)
    | Streamon(ok: bool)
    | CancelAcked(cancel: Cancel)
    | CancelFailed(kept: set<Token>)
    | ClearQueue
    | Dqbuf(arg: DqbufArg)

  predicate Enabled(w: World, a: Action) {
    && Shaped(w.q)
    && |w.gens| == |w.q.slots|
    && match a
       case Qbuf(b, _) => w.ioctl.Idle?
       case Count => w.ioctl.Marking?
       case Accept => w.ioctl.InFlight? && !w.ioctl.accepted
       case Complete(t, e) => t in w.device && e.index == t.slot
       case Deliver => w.events != []
       case Reply(ok) => w.ioctl.InFlight? && (ok ==> w.ioctl.accepted) && w.ioctl.token.slot < |w.q.slots|
       case Streamon(_) => w.ioctl.Idle?
       case CancelAcked(c) => w.ioctl.Idle? && (c.Reqbufs? ==> !(w.q.streaming && c.count > 0))
       case CancelFailed(_) => w.ioctl.Idle?
       case ClearQueue => w.ioctl.Cancelling? && w.events == []
       case Dqbuf(_) => w.ioctl.Idle? && w.q.pending != [] && w.q.pending[0] < |w.q.slots|
  }

  function PlaneMs(planes: seq<Plane>): (r: seq<int>) {
    seq(|planes|, j requires 0 <= j < |planes| => planes[j].m)
  }

  function GivenTo(slot: Slot, b: QbufArg): (r: Given) {
    Given(b.m, b.planeMs, slot.flags.prepared, slot.m, PlaneMs(slot.planes))
  }

  function ApplyQbuf(w: World, b: QbufArg, importsPrepared: bool): (r: World)
    requires Enabled(w, Qbuf(b, importsPrepared))
  {
    var (q', out) := QbufMark(w.q, b, importsPrepared);
    match out
    case Refused(_) => w.(q := q')
    case Marked(oldFlags) =>
      w.(q := q',
         gens := w.gens[b.index := w.nextGen],
         nextGen := w.nextGen + 1,
         given := w.given[w.nextGen := GivenTo(w.q.slots[b.index], b)],
         ioctl := Marking(Token(b.index, w.nextGen), oldFlags))
  }

  function ApplyDeliver(w: World): (r: World)
    requires Enabled(w, Deliver)
  {
    var d := w.events[0];
    var w1 := w.(q := ProcessEvent(w.q, d.event), events := w.events[1..]);
    if Accepts(w.q, d.event)
    then w1.(answered := w.answered + [d.token],
             arrived := w.arrived + [Token(d.event.index, w.gens[d.event.index])],
             reports := w.reports[w.gens[d.event.index] := d.event])
    else w1
  }

  function CancelledQueue(q: Queue, cancel: Cancel): (r: Queue) {
    match cancel
    case Streamoff => Clear(q)
    case Reqbufs(memory, count, gotMemory) => Reallocate(q, memory, count, gotMemory)
  }

  /** REQBUFS brings new slots, which no QBUF has used yet; STREAMOFF keeps the old ones. */
  function ApplyClear(w: World): (r: World)
    requires Enabled(w, ClearQueue)
  {
    var q' := CancelledQueue(w.q, w.ioctl.cancel);
    w.(ioctl := Idle, arrived := [], returned := [], q := q',
       gens := if w.ioctl.cancel.Streamoff? then w.gens else seq(|q'.slots|, _ => 0))
  }

  function ApplyDqbuf(w: World, arg: DqbufArg): (r: World)
    requires Enabled(w, Dqbuf(arg))
  {
    var i := w.q.pending[0];
    w.(q := DqbufTake(w.q, arg).0, returned := w.returned + [Token(i, w.gens[i])])
  }

  function Apply(w: World, a: Action): (r: World)
    requires Enabled(w, a)
  {
    match a
    case Qbuf(b, importsPrepared) => ApplyQbuf(w, b, importsPrepared)
    case Count => w.(q := QbufCount(w.q), ioctl := InFlight(w.ioctl.token, w.ioctl.oldFlags, false))
    case Accept => w.(device := w.device + {w.ioctl.token}, ioctl := w.ioctl.(accepted := true))
    case Complete(t, e) => w.(device := w.device - {t}, events := w.events + [Delivery(t, e)])
    case Deliver => ApplyDeliver(w)
    case Reply(ok) =>
      if ok then w.(ioctl := Idle)
      else w.(ioctl := Idle, q := QbufFailed(w.q, w.ioctl.token.slot, w.ioctl.oldFlags))
    case Streamon(ok) => if ok && !w.q.needsCancel then w.(q := w.q.(streaming := true)) else w
    case CancelAcked(c) => w.(ioctl := Cancelling(c), device := {})
    case CancelFailed(kept) => w.(device := w.device * kept)
    case ClearQueue => ApplyClear(w)
    case Dqbuf(arg) => ApplyDqbuf(w, arg)
  }

  predicate Outstanding(w: World, t: Token) {
    t in w.device || exists k :: 0 <= k < |w.events| && w.events[k].token == t
  }

  // ----- runs

  ghost predicate Run(w: World, acts: seq<Action>)
    decreases |acts|
  {
    acts != [] ==> Enabled(w, acts[0]) && Run(Apply(w, acts[0]), acts[1..])
  }

  ghost function After(w: World, acts: seq<Action>): (r: World)
    requires Run(w, acts)
    decreases |acts|
  {
    if acts == [] then w else After(Apply(w, acts[0]), acts[1..])
  }

  /** A queue that has just been created with its session. */
  predicate Init(w: World) {
    && w.q.slots == [] && w.q.pending == [] && w.q.queuedBufs == 0 && !w.q.needsCancel
    && w.gens == [] && w.nextGen == 1 && w.ioctl == Idle && w.device == {} && w.events == []
    && w.answered == [] && w.given == map[] && w.arrived == [] && w.returned == []
    && w.reports == map[] && !w.q.captureLast
  }

  // ----- the invariant

  function CountActive(slots: seq<Slot>): (n: nat)
    ensures n <= |slots|
  {
    if slots == [] then 0
    else CountActive(slots[..|slots| - 1]) + (if slots[|slots| - 1].Active() then 1 else 0)
  }

  /** The list is duplicate-free and holds exactly the DONE slots. */
  predicate PendingOk(slots: seq<Slot>, pending: seq<nat>) {
    && (forall j, k :: 0 <= j < k < |pending| ==> pending[j] != pending[k])
    && (forall k :: 0 <= k < |pending| ==> pending[k] < |slots| && slots[pending[k]].flags.done)
    && (forall i :: 0 <= i < |slots| && slots[i].flags.done ==> i in pending)
  }

  /** Imports are prepared exactly on the slots of a DMABUF queue that are on the device. */
  predicate FenceOk(memory: Memory, slots: seq<Slot>) {
    forall i :: 0 <= i < |slots| ==> (slots[i].fence <==> memory == Dmabuf && slots[i].Active())
  }

  /** What holds of the queue alone: flags, counter (up to `lag` slots), list and import fences agree. */
  predicate QueueOk(q: Queue, lag: nat) {
    && Shaped(q)
    && q.queuedBufs + lag == CountActive(q.slots)
    && PendingOk(q.slots, q.pending)
    && FenceOk(q.memory, q.slots)
    && (q.needsCancel ==> q.memory == Dmabuf)
  }

  /** The slot whose QBUF has set the flag but not yet the counter. */
  function Lag(w: World): (n: nat) {
    if w.ioctl.Marking? then 1 else 0
  }

  /** The QBUF in progress is the latest of its slot, which is not free. */
  predicate SendingOk(w: World, t: Token, oldFlags: Flags)
    requires |w.gens| == |w.q.slots|
  {
    && t.slot < |w.q.slots|
    && w.gens[t.slot] == t.gen
    && oldFlags.Idle()
    && !w.q.slots[t.slot].Free()
  }

  predicate IoctlOk(w: World)
    requires |w.gens| == |w.q.slots|
  {
    match w.ioctl
    case Idle => true
    case Cancelling(_) => w.device == {}
    case Marking(t, oldFlags) => SendingOk(w, t, oldFlags)
    case InFlight(t, oldFlags, _) => SendingOk(w, t, oldFlags)
  }

  /** The device has not seen the QBUF in progress. */
  predicate Unsent(w: World) {
    w.ioctl.Marking? || (w.ioctl.InFlight? && !w.ioctl.accepted)
  }

  /** The device answers only what it was sent. */
  predicate SentOk(w: World) {
    && (forall t :: t in w.device ==> t.gen < w.nextGen)
    && (forall k :: 0 <= k < |w.events| ==> w.events[k].token.gen < w.nextGen)
    && (Unsent(w) ==> !Outstanding(w, w.ioctl.token))
  }

  /** The `m` values that a slot keeps until it is dequeued. */
  predicate KeepsGiven(q: Queue, slot: Slot, g: Given)
    requires |slot.planes| == VIDEO_MAX_PLANES
  {
    && |g.oldMs| == VIDEO_MAX_PLANES
    && slot.m == (if g.prepared then g.oldM else g.m)
    && (forall j :: 0 <= j < VIDEO_MAX_PLANES ==>
          slot.planes[j].m == if g.prepared || !q.mplane || j >= |g.planeMs| then g.oldMs[j] else g.planeMs[j])
  }

  function PendingTokens(q: Queue, gens: seq<nat>): (r: seq<Token>)
    requires |gens| == |q.slots| && PendingOk(q.slots, q.pending)
  {
    seq(|q.pending|, k requires 0 <= k < |q.pending| => Token(q.pending[k], gens[q.pending[k]]))
  }

  /** A slot that is not free remembers what its QBUF was given. */
  predicate GivenOk(w: World)
    requires |w.gens| == |w.q.slots| && Shaped(w.q)
  {
    && (forall i :: 0 <= i < |w.gens| ==> w.gens[i] < w.nextGen)
    && (forall i :: 0 <= i < |w.q.slots| && !w.q.slots[i].Free() ==>
          w.gens[i] in w.given && KeepsGiven(w.q, w.q.slots[i], w.given[w.gens[i]]))
  }

  /** What arrived was returned or waits in the list, in order. */
  predicate ArrivedOk(w: World)
    requires |w.gens| == |w.q.slots| && PendingOk(w.q.slots, w.q.pending)
  {
    w.arrived == w.returned + PendingTokens(w.q, w.gens)
  }

  /** What holds in every run. */
  predicate Inv(w: World) {
    && |w.gens| == |w.q.slots|
    && w.nextGen > 0
    && QueueOk(w.q, Lag(w))
    && IoctlOk(w)
    && SentOk(w)
    && GivenOk(w)
    && ArrivedOk(w)
  }

  // ----- each action keeps the invariant

  lemma {:induction false} CountUpdate(slots: seq<Slot>, i: nat, slot: Slot)
    requires i < |slots|
    ensures CountActive(slots[i := slot])
         == CountActive(slots) - (if slots[i].Active() then 1 else 0) + (if slot.Active() then 1 else 0)
  {
    var n := |slots| - 1;
    if i == n {
      assert slots[i := slot][..n] == slots[..n];
    } else {
      CountUpdate(slots[..n], i, slot);
      assert slots[i := slot][..n] == slots[..n][i := slot];
    }
  }

  lemma {:induction false} CountSome(slots: seq<Slot>, i: nat)
    requires i < |slots| && slots[i].Active()
    ensures CountActive(slots) > 0
  {
    if i < |slots| - 1 {
      CountSome(slots[..|slots| - 1], i);
    }
  }

  lemma {:induction false} CountNone(slots: seq<Slot>)
    requires forall i :: 0 <= i < |slots| ==> !slots[i].Active()
    ensures CountActive(slots) == 0
  {
    if slots != [] {
      CountNone(slots[..|slots| - 1]);
    }
  }

  lemma SameDoneKeepsPending(slots: seq<Slot>, pending: seq<nat>, i: nat, slot: Slot)
    requires PendingOk(slots, pending) && i < |slots| && slot.flags.done == slots[i].flags.done
    ensures PendingOk(slots[i := slot], pending)
  {
    var slots' := slots[i := slot];
    forall k | 0 <= k < |slots'| && slots'[k].flags.done
      ensures k in pending
    {
      assert slots[k].flags.done;
    }
  }

  function Weight(slot: Slot): (n: nat) {
    if slot.Active() then 1 else 0
  }

  /** One slot changes without becoming or ceasing to be DONE, and the counter follows. */
  lemma SlotChanged(q: Queue, lag: nat, i: nat, slot: Slot, q': Queue, lag': nat)
    requires QueueOk(q, lag) && i < |q.slots| && |slot.planes| == VIDEO_MAX_PLANES
    requires slot.flags.done == q.slots[i].flags.done
    requires slot.fence <==> q.memory == Dmabuf && slot.Active()
    requires q'.slots == q.slots[i := slot] && q'.pending == q.pending && q'.memory == q.memory
    requires q'.needsCancel ==> q.memory == Dmabuf
    requires q'.queuedBufs + lag' == q.queuedBufs + lag - Weight(q.slots[i]) + Weight(slot)
    ensures QueueOk(q', lag')
  {
    CountUpdate(q.slots, i, slot);
    SameDoneKeepsPending(q.slots, q.pending, i, slot);
  }

  // The queue alone: counter, list and fences after each operation that changes one slot.

  lemma QbufKeepsQueue(q: Queue, b: QbufArg, importsPrepared: bool)
    requires QueueOk(q, 0)
    ensures var (q', out) := QbufMark(q, b, importsPrepared); QueueOk(q', if out.Marked? then 1 else 0)
  {
    var (q', out) := QbufMark(q, b, importsPrepared);
    if QbufRefusal(q, b) == [] {
      var slot := q'.slots[b.index];
      assert q'.slots == q.slots[b.index := slot];
      SlotChanged(q, 0, b.index, slot, q', if out.Marked? then 1 else 0);
    }
  }

  lemma EventKeepsQueue(q: Queue, e: Event, lag: nat)
    requires QueueOk(q, lag)
    ensures QueueOk(ProcessEvent(q, e), lag)
  {
    if Accepts(q, e) {
      var q' := ProcessEvent(q, e);
      CountUpdate(q.slots, e.index, Completed(q, e));
      assert q'.pending[|q.pending|] == e.index;
      assert forall i :: i in q.pending ==> i in q'.pending;
    }
  }

  lemma FailureKeepsQueue(q: Queue, index: nat, oldFlags: Flags)
    requires QueueOk(q, 0) && index < |q.slots| && !q.slots[index].Free()
    requires oldFlags.Idle()
    ensures QueueOk(QbufFailed(q, index, oldFlags), 0)
  {
    var q' := QbufFailed(q, index, oldFlags);
    SlotChanged(q, 0, index, q'.slots[index], q', 0);
  }

  /**
   The failed QBUF is taken back: its slot is off the device, and with it its imports; a completion that
   came first stays in the list. Every other slot, the `m` values and the list are untouched, and the
   queue agrees with itself if it did before.
   */
  predicate TakenBack(q: Queue, q': Queue, index: nat, oldFlags: Flags) {
    && index < |q.slots| == |q'.slots|
    && q'.slots[index].flags == (if q.slots[index].flags.done then q.slots[index].flags else oldFlags)
    && q'.slots[index].payload == q.slots[index].payload
    && !q'.slots[index].Active() && q'.slots[index].flags.done == q.slots[index].flags.done
    && q'.slots[index].m == q.slots[index].m && q'.slots[index].planes == q.slots[index].planes
    && (forall i :: 0 <= i < |q.slots| && i != index ==> q'.slots[i] == q.slots[i])
    && q'.pending == q.pending && q'.memory == q.memory && q'.streaming == q.streaming
    && (q'.needsCancel <==> q.needsCancel || q.memory == Dmabuf)
    && (QueueOk(q, 0) && !q.slots[index].Free() ==> QueueOk(q', 0))
  }

  lemma FailureTakesBack(q: Queue, index: nat, oldFlags: Flags)
    requires index < |q.slots| && oldFlags.Idle()
    ensures TakenBack(q, QbufFailed(q, index, oldFlags), index, oldFlags)
  {
    if QueueOk(q, 0) && !q.slots[index].Free() {
      FailureKeepsQueue(q, index, oldFlags);
    }
  }

  lemma DqbufKeepsQueue(q: Queue, arg: DqbufArg)
    requires QueueOk(q, 0) && q.pending != []
    ensures QueueOk(DqbufTake(q, arg).0, 0)
  {
    var q' := DqbufTake(q, arg).0;
    var i := q.pending[0];
    CountUpdate(q.slots, i, q'.slots[i]);
    forall k | 0 <= k < |q'.slots| && q'.slots[k].flags.done
      ensures k in q'.pending
    {
      assert k in q.pending && k != i;
    }
  }

  // The history and the completions in flight, step by step.

  /** QBUF touches one slot, which it marks if it was free and otherwise leaves in its state. */
  lemma QbufSlots(q: Queue, b: QbufArg, importsPrepared: bool)
    requires Shaped(q)
    ensures var (q', out) := QbufMark(q, b, importsPrepared);
            && |q'.slots| == |q.slots| && q'.mplane == q.mplane
            && (forall i :: 0 <= i < |q.slots| && i != b.index ==> q'.slots[i] == q.slots[i])
            && (out.Marked? ==> b.index < |q.slots| && q'.slots[b.index].Active())
            && (out.Refused? && b.index < |q.slots| ==>
                  q'.slots[b.index] == q.slots[b.index] || (q.slots[b.index].Free() && q'.slots[b.index].Free()))
  {
  }

  lemma QbufKeepsIoctl(w: World, b: QbufArg, importsPrepared: bool)
    requires Inv(w) && Enabled(w, Qbuf(b, importsPrepared))
    ensures IoctlOk(ApplyQbuf(w, b, importsPrepared)) && SentOk(ApplyQbuf(w, b, importsPrepared))
  {
    var w' := ApplyQbuf(w, b, importsPrepared);
    if w'.ioctl.Marking? {
      assert !Outstanding(w, w'.ioctl.token);
    }
  }

  /** Exactly when QBUF goes through, the error otherwise, and what a refusal leaves. */
  lemma QbufIsExact(q: Queue, b: QbufArg, importsPrepared: bool)
    requires Shaped(q)
    ensures var (q', out) := QbufMark(q, b, importsPrepared);
            var tooMany := q.mplane && |b.planeMs| > VIDEO_MAX_PLANES;
            && (out.Marked? <==>
                  && b.index < |q.slots| && !q.needsCancel && b.memory == q.memory
                  && !q.slots[b.index].flags.queued && !q.slots[b.index].flags.done
                  && (q.memory == Dmabuf ==> importsPrepared)
                  && (q.memory == Dmabuf || !q.slots[b.index].flags.prepared ==> !tooMany))
            && (out == Refused(EIO) <==> b.index < |q.slots| && q.needsCancel)
            && (out.Refused? && out != Refused(EIO) ==> out == Refused(EINVAL))
            && (out.Refused? ==>
                  if b.index < |q.slots| && !q.needsCancel && b.memory == q.memory && q.slots[b.index].Free()
                     && q.memory != Dmabuf
                  then q' == q.(slots := q.slots[b.index := q.slots[b.index].(m := b.m)])
                  else q' == q)
  {
  }

  lemma MarkedKeepsGiven(q: Queue, b: QbufArg, importsPrepared: bool)
    requires Shaped(q) && QbufMark(q, b, importsPrepared).1.Marked?
    ensures b.index < |q.slots| && QbufMark(q, b, importsPrepared).1.oldFlags == q.slots[b.index].flags
    ensures var q' := QbufMark(q, b, importsPrepared).0;
            && |q'.slots[b.index].planes| == VIDEO_MAX_PLANES
            && q'.slots[b.index].flags == NO_FLAGS.(queued := true)
            && KeepsGiven(q, q'.slots[b.index], GivenTo(q.slots[b.index], b))
  {
  }

  lemma QbufKeepsGiven(w: World, b: QbufArg, importsPrepared: bool)
    requires Inv(w) && Enabled(w, Qbuf(b, importsPrepared))
    ensures GivenOk(ApplyQbuf(w, b, importsPrepared))
  {
    var w' := ApplyQbuf(w, b, importsPrepared);
    if QbufMark(w.q, b, importsPrepared).1.Marked? {
      MarkedKeepsGiven(w.q, b, importsPrepared);
    }
    forall i | 0 <= i < |w'.q.slots| && !w'.q.slots[i].Free()
      ensures w'.gens[i] in w'.given && KeepsGiven(w'.q, w'.q.slots[i], w'.given[w'.gens[i]])
    {
      if i != b.index {
        assert w'.q.slots[i] == w.q.slots[i] && w'.gens[i] == w.gens[i] < w.nextGen;
      }
    }
  }

  lemma QbufKeepsArrived(w: World, b: QbufArg, importsPrepared: bool)
    requires Inv(w) && Enabled(w, Qbuf(b, importsPrepared))
    requires var q' := ApplyQbuf(w, b, importsPrepared).q; PendingOk(q'.slots, q'.pending)
    ensures ArrivedOk(ApplyQbuf(w, b, importsPrepared))
  {
    var w' := ApplyQbuf(w, b, importsPrepared);
    QbufSlots(w.q, b, importsPrepared);
    assert PendingTokens(w'.q, w'.gens) == PendingTokens(w.q, w.gens);
  }

  lemma DeliverKeepsIoctl(w: World)
    requires Inv(w) && Enabled(w, Deliver)
    ensures IoctlOk(ApplyDeliver(w)) && SentOk(ApplyDeliver(w))
  {
    var w' := ApplyDeliver(w);
    assert forall k :: 0 <= k < |w'.events| ==> w'.events[k] == w.events[k + 1];
  }

  lemma DeliverKeepsGiven(w: World)
    requires Inv(w) && Enabled(w, Deliver)
    ensures GivenOk(ApplyDeliver(w))
  {
    var e := w.events[0].event;
    if Accepts(w.q, e) {
      assert w.gens[e.index] in w.given;
    }
  }

  lemma DeliverKeepsArrived(w: World)
    requires Inv(w) && Enabled(w, Deliver)
    requires var q' := ApplyDeliver(w).q; PendingOk(q'.slots, q'.pending)
    ensures ArrivedOk(ApplyDeliver(w))
  {
    var w' := ApplyDeliver(w);
    var i := w.events[0].event.index;
    if Accepts(w.q, w.events[0].event) {
      assert PendingTokens(w'.q, w'.gens) == PendingTokens(w.q, w.gens) + [Token(i, w.gens[i])];
    }
  }

  lemma FailureKeepsGiven(w: World)
    requires Inv(w) && Enabled(w, Reply(false))
    ensures GivenOk(Apply(w, Reply(false)))
  {
    var w' := Apply(w, Reply(false));
    forall i | 0 <= i < |w'.q.slots| && !w'.q.slots[i].Free()
      ensures w'.gens[i] in w'.given && KeepsGiven(w'.q, w'.q.slots[i], w'.given[w'.gens[i]])
    {
      assert !w.q.slots[i].Free() && w'.q.slots[i].m == w.q.slots[i].m && w'.q.slots[i].planes == w.q.slots[i].planes;
    }
  }

  lemma FailureKeepsArrived(w: World)
    requires Inv(w) && Enabled(w, Reply(false))
    requires var q' := Apply(w, Reply(false)).q; PendingOk(q'.slots, q'.pending)
    ensures ArrivedOk(Apply(w, Reply(false)))
  {
    var w' := Apply(w, Reply(false));
    assert PendingTokens(w'.q, w'.gens) == PendingTokens(w.q, w.gens);
  }

  lemma DqbufKeepsGiven(w: World, arg: DqbufArg)
    requires Inv(w) && Enabled(w, Dqbuf(arg))
    ensures GivenOk(ApplyDqbuf(w, arg))
  {
  }

  lemma FirstPendingTaken(q: Queue, q': Queue, gens: seq<nat>)
    requires |gens| == |q.slots| == |q'.slots| && q.pending != [] && q'.pending == q.pending[1..]
    requires PendingOk(q.slots, q.pending) && PendingOk(q'.slots, q'.pending)
    ensures PendingTokens(q, gens) == [Token(q.pending[0], gens[q.pending[0]])] + PendingTokens(q', gens)
  {
  }

  lemma DqbufKeepsArrived(w: World, arg: DqbufArg)
    requires Inv(w) && Enabled(w, Dqbuf(arg))
    requires var q' := ApplyDqbuf(w, arg).q; PendingOk(q'.slots, q'.pending)
    ensures ArrivedOk(ApplyDqbuf(w, arg))
  {
    var w' := ApplyDqbuf(w, arg);
    var i := w.q.pending[0];
    FirstPendingTaken(w.q, w'.q, w.gens);
    assert w.arrived == (w.returned + [Token(i, w.gens[i])]) + PendingTokens(w'.q, w.gens);
  }

  /** A queue whose slots are all free, with nothing pending and nothing counted. */
  predicate Emptied(q: Queue) {
    && Shaped(q) && q.pending == [] && q.queuedBufs == 0
    && !q.needsCancel && !q.streaming && !q.captureLast
    && forall i :: 0 <= i < |q.slots| ==> q.slots[i].Free() && !q.slots[i].flags.prepared && !q.slots[i].fence
  }

  /** The slots keep their contents, and the queue its kind of memory. */
  predicate KeptSlots(q: Queue, q': Queue) {
    && |q'.slots| == |q.slots| && q'.memory == q.memory && q'.capture == q.capture && q'.mplane == q.mplane
    && forall i :: 0 <= i < |q.slots| ==>
         && q'.slots[i].m == q.slots[i].m && q'.slots[i].planes == q.slots[i].planes
         && q'.slots[i].payload == q.slots[i].payload
  }

  /** There are `count` slots for buffers of the given kind, and they remember nothing. */
  predicate NewSlots(q: Queue, memory: Memory, count: nat) {
    && |q.slots| == count && q.memory == memory
    && forall i :: 0 <= i < count ==>
         && q.slots[i].m == 0 && q.slots[i].payload == 0
         && forall j :: 0 <= j < |q.slots[i].planes| ==> q.slots[i].planes[j] == Plane(0, 0)
  }

  lemma EmptiedQueueOk(q: Queue)
    requires Emptied(q)
    ensures QueueOk(q, 0)
  {
    CountNone(q.slots);
  }

  lemma CancelEmpties(q: Queue, cancel: Cancel)
    requires Shaped(q)
    ensures Emptied(CancelledQueue(q, cancel))
    ensures cancel.Streamoff? ==> KeptSlots(q, CancelledQueue(q, cancel))
    ensures cancel.Reqbufs? ==>
              NewSlots(CancelledQueue(q, cancel), cancel.memory, if cancel.gotMemory then cancel.count else 0)
  {
  }

  lemma ClearKeeps(w: World)
    requires Inv(w) && Enabled(w, ClearQueue)
    ensures Inv(ApplyClear(w))
  {
    var w' := ApplyClear(w);
    CancelEmpties(w.q, w.ioctl.cancel);
    EmptiedQueueOk(w'.q);
    assert PendingTokens(w'.q, w'.gens) == [];
  }

  lemma DeviceStepKeeps(w: World, a: Action)
    requires Inv(w) && Enabled(w, a)
    requires a.Accept? || a.Complete? || a.CancelFailed?
    ensures Inv(Apply(w, a))
  {
  }

  lemma GuestStepKeeps(w: World, a: Action)
    requires Inv(w) && Enabled(w, a)
    requires a.Count? || a.Streamon? || a.CancelAcked?
    ensures Inv(Apply(w, a))
  {
  }

  lemma QbufKeeps(w: World, b: QbufArg, importsPrepared: bool)
    requires Inv(w) && Enabled(w, Qbuf(b, importsPrepared))
    ensures Inv(ApplyQbuf(w, b, importsPrepared))
  {
    QbufKeepsQueue(w.q, b, importsPrepared);
    QbufKeepsIoctl(w, b, importsPrepared);
    QbufKeepsGiven(w, b, importsPrepared);
    QbufKeepsArrived(w, b, importsPrepared);
  }

  lemma DeliverKeeps(w: World)
    requires Inv(w) && Enabled(w, Deliver)
    ensures Inv(ApplyDeliver(w))
  {
    EventKeepsQueue(w.q, w.events[0].event, Lag(w));
    DeliverKeepsIoctl(w);
    DeliverKeepsGiven(w);
    DeliverKeepsArrived(w);
  }

  lemma ReplyKeeps(w: World, ok: bool)
    requires Inv(w) && Enabled(w, Reply(ok))
    ensures Inv(Apply(w, Reply(ok)))
  {
    if !ok {
      FailureKeepsQueue(w.q, w.ioctl.token.slot, w.ioctl.oldFlags);
      FailureKeepsGiven(w);
      FailureKeepsArrived(w);
    }
  }

  lemma DqbufKeeps(w: World, arg: DqbufArg)
    requires Inv(w) && Enabled(w, Dqbuf(arg))
    ensures Inv(ApplyDqbuf(w, arg))
  {
    DqbufKeepsQueue(w.q, arg);
    DqbufKeepsGiven(w, arg);
    DqbufKeepsArrived(w, arg);
  }

  /** Every step of the driver, the device and user space keeps the invariant, honest or not. */
  lemma StepKeeps(w: World, a: Action)
    requires Inv(w) && Enabled(w, a)
    ensures Inv(Apply(w, a))
  {
    match a
    case Qbuf(b, importsPrepared) => QbufKeeps(w, b, importsPrepared);
    case Deliver => DeliverKeeps(w);
    case Reply(ok) => ReplyKeeps(w, ok);
    case ClearQueue => ClearKeeps(w);
    case Dqbuf(arg) => DqbufKeeps(w, arg);
    case Accept | Complete(_, _) | CancelFailed(_) => DeviceStepKeeps(w, a);
    case Count | Streamon(_) | CancelAcked(_) => GuestStepKeeps(w, a);
  }

  // ----- what holds in every run

  lemma {:induction false} InvariantOverRuns(w: World, acts: seq<Action>)
    requires Inv(w) && Run(w, acts)
    ensures Inv(After(w, acts))
    decreases |acts|
  {
    if acts != [] {
      StepKeeps(w, acts[0]);
      InvariantOverRuns(Apply(w, acts[0]), acts[1..]);
    }
  }

  /** Runs can be put together, and a step taken at the end. */
  lemma {:induction false} RunConcat(w: World, a: seq<Action>, b: seq<Action>)
    requires Run(w, a)
    ensures Run(w, a + b) <==> Run(After(w, a), b)
    ensures Run(w, a + b) ==> After(w, a + b) == After(After(w, a), b)
    decreases |a|
  {
    if a == [] {
      assert a + b == b;
    } else {
      RunConcat(Apply(w, a[0]), a[1..], b);
      assert (a + b)[0] == a[0] && (a + b)[1..] == a[1..] + b;
    }
  }

  lemma RunCons(w: World, a: Action, acts: seq<Action>)
    requires Enabled(w, a) && Run(Apply(w, a), acts)
    ensures Run(w, [a] + acts) && After(w, [a] + acts) == After(Apply(w, a), acts)
  {
    assert ([a] + acts)[1..] == acts;
  }

  lemma RunSnoc(w: World, acts: seq<Action>, a: Action)
    requires Run(w, acts) && Enabled(After(w, acts), a)
    ensures Run(w, acts + [a]) && After(w, acts + [a]) == Apply(After(w, acts), a)
  {
    RunConcat(w, acts, [a]);
    assert [a][1..] == [];
  }

  /**
   Queue conservation and import fences, at every moment of every run: the counter is the number
   of QUEUED and not DONE slots, less the one that a QBUF has marked and is about to count; the list is
   duplicate-free and holds exactly the DONE slots; a prepared import is found exactly on the active
   slots of a DMABUF queue.
   */
  lemma QueueConservation(w: World, acts: seq<Action>)
    requires Init(w) && Run(w, acts)
    ensures var v := After(w, acts);
            && v.q.queuedBufs == CountActive(v.q.slots) - Lag(v)
            && PendingOk(v.q.slots, v.q.pending)
            && FenceOk(v.q.memory, v.q.slots)
  {
    InvariantOverRuns(w, acts);
  }

  // ----- the cancel gate

  /** A failed QBUF reply on a DMABUF queue closes the gate, whatever the device did before it. */
  lemma FailedImportClosesGate(w: World)
    requires Inv(w) && Enabled(w, Reply(false)) && w.q.memory == Dmabuf
    ensures var w' := Apply(w, Reply(false));
            w'.q.needsCancel && !w'.q.slots[w.ioctl.token.slot].Active()
  {
  }

  lemma GateRefuses(q: Queue, b: QbufArg, importsPrepared: bool)
    requires Shaped(q) && q.needsCancel
    ensures QbufMark(q, b, importsPrepared).0 == q && QbufMark(q, b, importsPrepared).1.Refused?
  {
  }

  lemma GateHolds(w: World, a: Action)
    requires Enabled(w, a) && w.q.needsCancel && a != ClearQueue
    ensures var v := Apply(w, a);
            v.q.needsCancel && v.nextGen == w.nextGen && (v.q.streaming ==> w.q.streaming)
  {
    match a
    case Qbuf(b, importsPrepared) => GateRefuses(w.q, b, importsPrepared);
    case _ =>
  }

  /** While the gate is closed and no cancel completes, no QBUF and no STREAMON succeeds. */
  lemma {:induction false} CancelGate(w: World, acts: seq<Action>)
    requires Run(w, acts) && w.q.needsCancel
    requires forall k :: 0 <= k < |acts| ==> acts[k] != ClearQueue
    ensures var v := After(w, acts);
            v.q.needsCancel && v.nextGen == w.nextGen && (v.q.streaming ==> w.q.streaming)
    decreases |acts|
  {
    if acts != [] {
      GateHolds(w, acts[0]);
      CancelGate(Apply(w, acts[0]), acts[1..]);
    }
  }

  /** The cancel that reopens the gate leaves nothing outstanding and every slot free. */
  lemma CancelDrains(w: World, acts: seq<Action>)
    requires Init(w) && Run(w, acts) && Enabled(After(w, acts), ClearQueue)
    ensures var v := Apply(After(w, acts), ClearQueue);
            Emptied(v.q) && forall t :: !Outstanding(v, t)
  {
    InvariantOverRuns(w, acts);
    CancelEmpties(After(w, acts).q, After(w, acts).ioctl.cancel);
  }

  // ----- a queue with one slot

  /** A new single-planar CAPTURE queue. */
  function Fresh(): (w: World)
    ensures Init(w)
  {
    World(Queue(true, false, Mmap, false, false, false, [], 0, []), [], 1, Idle, {}, [], [], map[], [], [], map[])
  }

  /** REQBUFS for one MMAP buffer. */
  function Allocate(): (acts: seq<Action>) {
    [CancelAcked(Reqbufs(Mmap, 1, true)), ClearQueue]
  }

  lemma Allocated()
    ensures Run(Fresh(), Allocate())
    ensures var v := After(Fresh(), Allocate());
            v == Fresh().(q := Fresh().q.(slots := [ZEROED]), gens := [0])
  {
    var w := Fresh();
    var a, c := Allocate()[0], ClearQueue;
    RunCons(Apply(w, a), c, []);
    RunCons(w, a, [c]);
    assert Allocate() == [a] + ([c] + []);
    assert Reallocate(w.q, Mmap, 1, true).slots == [ZEROED];
  }
}
