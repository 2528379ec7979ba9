/**
 What a completion tells user space: the fields of the device's event reach the DQBUF that returns the
 buffer, and a dequeued LAST closes the queue.
 */
module QueueReports {
  import opened Prelude
  import opened QueueSpec
  import opened QueueRuns

  // ----- what a completed slot holds

  /** The slot holds what the event said of it: payload, flags, and data for every plane it names. */
  predicate Holds(q: Queue, slot: Slot, e: Event)
    requires |slot.planes| == VIDEO_MAX_PLANES
  {
    && slot.payload == e.payload
    && slot.flags.prepared == e.flags.prepared && slot.flags.error == e.flags.error && slot.flags.last == e.flags.last
    && (q.mplane ==>
          |e.planes| <= VIDEO_MAX_PLANES && forall j :: 0 <= j < |e.planes| ==> slot.planes[j].data == e.planes[j])
  }

  /** A LAST buffer has been dequeued since the last clear. */
  predicate LastReturned(w: World) {
    exists k :: 0 <= k < |w.returned| && w.returned[k].gen in w.reports && w.reports[w.returned[k].gen].flags.last
  }

  /** Slots that are not free have been given different generations. */
  predicate GensDiffer(w: World)
    requires |w.gens| == |w.q.slots|
  {
    forall i, j :: 0 <= i < j < |w.gens| && !w.q.slots[i].Free() && !w.q.slots[j].Free() ==> w.gens[i] != w.gens[j]
  }

  /** A QBUF is reported once, and not before it is completed. */
  predicate SlotOk(q: Queue, slot: Slot, gen: nat, reports: map<nat, Event>)
    requires |slot.planes| == VIDEO_MAX_PLANES
  {
    && (slot.Active() ==> gen !in reports)
    && (slot.flags.done ==> gen in reports && Holds(q, slot, reports[gen]))
  }

  predicate SlotsOk(w: World)
    requires |w.gens| == |w.q.slots| && Shaped(w.q)
  {
    forall i :: 0 <= i < |w.gens| ==> SlotOk(w.q, w.q.slots[i], w.gens[i], w.reports)
  }

  predicate LastOk(w: World) {
    && (forall k :: 0 <= k < |w.returned| ==> w.returned[k].gen in w.reports)
    && (w.q.captureLast <==> w.q.capture && LastReturned(w))
  }

  predicate Reported(w: World)
    requires |w.gens| == |w.q.slots| && Shaped(w.q)
  {
    && (forall g :: g in w.reports ==> g < w.nextGen)
    && GensDiffer(w)
    && SlotsOk(w)
    && LastOk(w)
  }

  // ----- every step keeps it

  lemma QbufKeepsGens(w: World, b: QbufArg, importsPrepared: bool)
    requires Inv(w) && GensDiffer(w) && Enabled(w, Qbuf(b, importsPrepared))
    ensures GensDiffer(ApplyQbuf(w, b, importsPrepared))
  {
  }

  lemma QbufKeepsSlots(w: World, b: QbufArg, importsPrepared: bool)
    requires Inv(w) && Reported(w) && Enabled(w, Qbuf(b, importsPrepared))
    requires Shaped(ApplyQbuf(w, b, importsPrepared).q)
    ensures SlotsOk(ApplyQbuf(w, b, importsPrepared))
  {
    var w' := ApplyQbuf(w, b, importsPrepared);
    QbufSlots(w.q, b, importsPrepared);
    forall i | 0 <= i < |w'.gens|
      ensures SlotOk(w'.q, w'.q.slots[i], w'.gens[i], w'.reports)
    {
      assert SlotOk(w.q, w.q.slots[i], w.gens[i], w.reports);
    }
  }

  lemma QbufKeepsLast(w: World, b: QbufArg, importsPrepared: bool)
    requires Enabled(w, Qbuf(b, importsPrepared)) && LastOk(w)
    ensures LastOk(ApplyQbuf(w, b, importsPrepared))
  {
  }

  lemma CompletedHolds(q: Queue, e: Event)
    requires Shaped(q) && Accepts(q, e)
    ensures var q' := ProcessEvent(q, e);
            && Shaped(q') && |q'.slots| == |q.slots| && q'.mplane == q.mplane
            && q'.slots[e.index].flags.done && Holds(q', q'.slots[e.index], e)
            && forall i :: 0 <= i < |q.slots| && i != e.index ==> q'.slots[i] == q.slots[i]
  {
  }

  lemma DeliverKeepsGens(w: World)
    requires Inv(w) && GensDiffer(w) && Enabled(w, Deliver)
    ensures GensDiffer(ApplyDeliver(w))
  {
  }

  lemma DeliverKeepsSlots(w: World)
    requires Inv(w) && Reported(w) && Enabled(w, Deliver) && Shaped(ApplyDeliver(w).q)
    ensures SlotsOk(ApplyDeliver(w))
  {
    var e := w.events[0].event;
    var w' := ApplyDeliver(w);
    if Accepts(w.q, e) {
      CompletedHolds(w.q, e);
      forall i | 0 <= i < |w'.gens|
        ensures SlotOk(w'.q, w'.q.slots[i], w'.gens[i], w'.reports)
      {
        assert SlotOk(w.q, w.q.slots[i], w.gens[i], w.reports);
        assert i != e.index && !w.q.slots[i].Free() ==> w.gens[i] != w.gens[e.index];
      }
    }
  }

  lemma DeliverKeepsLast(w: World)
    requires Inv(w) && Reported(w) && Enabled(w, Deliver)
    ensures LastOk(ApplyDeliver(w))
  {
    var e := w.events[0].event;
    var w' := ApplyDeliver(w);
    if Accepts(w.q, e) {
      assert SlotOk(w.q, w.q.slots[e.index], w.gens[e.index], w.reports);
      assert forall k :: 0 <= k < |w.returned| ==> w.returned[k].gen != w.gens[e.index];
      assert forall k :: 0 <= k < |w.returned| ==>
          w'.reports[w'.returned[k].gen] == w.reports[w.returned[k].gen];
    }
  }

  lemma FailureKeepsReports(w: World)
    requires Inv(w) && Reported(w) && Enabled(w, Reply(false)) && Inv(Apply(w, Reply(false)))
    ensures Reported(Apply(w, Reply(false)))
  {
    FailureTakesBack(w.q, w.ioctl.token.slot, w.ioctl.oldFlags);
    TakenBackSlots(w.q, Apply(w, Reply(false)).q, w.ioctl.token.slot, w.ioctl.oldFlags, w.gens, w.reports);
  }

  lemma TakenBackSlots(q: Queue, q': Queue, index: nat, oldFlags: Flags, gens: seq<nat>, reports: map<nat, Event>)
    requires TakenBack(q, q', index, oldFlags) && oldFlags.Idle() && q'.mplane == q.mplane
    requires Shaped(q) && Shaped(q') && |gens| == |q.slots|
    requires forall i :: 0 <= i < |gens| ==> SlotOk(q, q.slots[i], gens[i], reports)
    ensures forall i :: 0 <= i < |gens| ==> SlotOk(q', q'.slots[i], gens[i], reports)
    ensures forall i :: 0 <= i < |gens| && !q'.slots[i].Free() ==> !q.slots[i].Free()
  {
    forall i | 0 <= i < |gens|
      ensures SlotOk(q', q'.slots[i], gens[i], reports)
    {
      assert SlotOk(q, q.slots[i], gens[i], reports);
    }
  }

  lemma DqbufKeepsReports(w: World, arg: DqbufArg)
    requires Inv(w) && Reported(w) && Enabled(w, Dqbuf(arg)) && Shaped(ApplyDqbuf(w, arg).q)
    ensures GensDiffer(ApplyDqbuf(w, arg)) && SlotsOk(ApplyDqbuf(w, arg))
  {
    var w' := ApplyDqbuf(w, arg);
    forall i | 0 <= i < |w'.gens|
      ensures SlotOk(w'.q, w'.q.slots[i], w'.gens[i], w'.reports)
    {
      assert SlotOk(w.q, w.q.slots[i], w.gens[i], w.reports);
    }
  }

  lemma DqbufKeepsLast(w: World, arg: DqbufArg)
    requires Inv(w) && Reported(w) && Enabled(w, Dqbuf(arg))
    ensures LastOk(ApplyDqbuf(w, arg))
  {
    var w' := ApplyDqbuf(w, arg);
    var i, n := w.q.pending[0], |w.returned|;
    assert SlotOk(w.q, w.q.slots[i], w.gens[i], w.reports);
    assert w'.returned[n] == Token(i, w.gens[i]);
    assert forall k :: 0 <= k < n ==> w'.returned[k] == w.returned[k];
    if LastReturned(w') {
      var k :| 0 <= k < |w'.returned| && w'.returned[k].gen in w'.reports && w'.reports[w'.returned[k].gen].flags.last;
      assert k < n ==> LastReturned(w);
    }
    if LastReturned(w) {
      var k :| 0 <= k < n && w.returned[k].gen in w.reports && w.reports[w.returned[k].gen].flags.last;
      assert w'.returned[k] == w.returned[k];
    }
  }

  lemma ClearKeepsReports(w: World)
    requires Inv(w) && Reported(w) && Enabled(w, ClearQueue) && Shaped(ApplyClear(w).q)
    requires |ApplyClear(w).gens| == |ApplyClear(w).q.slots|
    ensures GensDiffer(ApplyClear(w)) && SlotsOk(ApplyClear(w)) && LastOk(ApplyClear(w))
  {
    CancelEmpties(w.q, w.ioctl.cancel);
  }

  lemma OthersChangeNothing(w: World, a: Action)
    requires Enabled(w, a)
    requires !a.Qbuf? && !a.Deliver? && a != Reply(false) && !a.Dqbuf? && !a.ClearQueue?
    ensures var v := Apply(w, a);
            && v.q.slots == w.q.slots && v.gens == w.gens && v.q.mplane == w.q.mplane
            && v.reports == w.reports && v.returned == w.returned && v.nextGen == w.nextGen
            && v.q.captureLast == w.q.captureLast && v.q.capture == w.q.capture
  {
  }

  lemma OthersKeepReports(w: World, a: Action)
    requires Inv(w) && Reported(w) && Enabled(w, a) && Inv(Apply(w, a))
    requires !a.Qbuf? && !a.Deliver? && a != Reply(false) && !a.Dqbuf? && !a.ClearQueue?
    ensures Reported(Apply(w, a))
  {
    OthersChangeNothing(w, a);
    var v := Apply(w, a);
    assert forall i :: 0 <= i < |v.gens| ==>
        SlotOk(w.q, w.q.slots[i], w.gens[i], w.reports) && SlotOk(v.q, v.q.slots[i], v.gens[i], v.reports);
  }

  lemma QbufKeepsReports(w: World, b: QbufArg, importsPrepared: bool)
    requires Inv(w) && Reported(w) && Enabled(w, Qbuf(b, importsPrepared)) && Inv(ApplyQbuf(w, b, importsPrepared))
    ensures Reported(ApplyQbuf(w, b, importsPrepared))
  {
    QbufKeepsGens(w, b, importsPrepared);
    QbufKeepsSlots(w, b, importsPrepared);
    QbufKeepsLast(w, b, importsPrepared);
  }

  lemma DeliverKeepsReports(w: World)
    requires Inv(w) && Reported(w) && Enabled(w, Deliver) && Inv(ApplyDeliver(w))
    ensures Reported(ApplyDeliver(w))
  {
    DeliverKeepsGens(w);
    DeliverKeepsSlots(w);
    DeliverKeepsLast(w);
  }

  lemma StepKeepsReports(w: World, a: Action)
    requires Inv(w) && Reported(w) && Enabled(w, a) && Inv(Apply(w, a))
    ensures Reported(Apply(w, a))
  {
    if a.Qbuf? {
      QbufKeepsReports(w, a.b, a.importsPrepared);
    } else if a.Deliver? {
      DeliverKeepsReports(w);
    } else {
      LaterKeepsReports(w, a);
    }
  }

  lemma LaterKeepsReports(w: World, a: Action)
    requires Inv(w) && Reported(w) && Enabled(w, a) && Inv(Apply(w, a)) && !a.Qbuf? && !a.Deliver?
    ensures Reported(Apply(w, a))
  {
    if a == Reply(false) {
      FailureKeepsReports(w);
    } else if a.Dqbuf? {
      DqbufKeepsReports(w, a.arg);
      DqbufKeepsLast(w, a.arg);
    } else if a == ClearQueue {
      ClearKeepsReports(w);
    } else {
      OthersKeepReports(w, a);
    }
  }

  lemma {:induction false} ReportedOverRuns(w: World, acts: seq<Action>)
    requires Inv(w) && Reported(w) && Run(w, acts)
    ensures Inv(After(w, acts)) && Reported(After(w, acts))
    decreases |acts|
  {
    if acts != [] {
      StepKeeps(w, acts[0]);
      StepKeepsReports(w, acts[0]);
      ReportedOverRuns(Apply(w, acts[0]), acts[1..]);
    }
  }

  lemma ReportStaysStep(w: World, a: Action, g: nat)
    requires Inv(w) && Reported(w) && Enabled(w, a) && g in w.reports
    ensures g in Apply(w, a).reports && Apply(w, a).reports[g] == w.reports[g]
  {
    if a == Deliver && Accepts(w.q, w.events[0].event) {
      var i := w.events[0].event.index;
      assert SlotOk(w.q, w.q.slots[i], w.gens[i], w.reports);
    }
  }

  lemma {:induction false} ReportStays(w: World, acts: seq<Action>, g: nat)
    requires Inv(w) && Reported(w) && Run(w, acts) && g in w.reports
    ensures g in After(w, acts).reports && After(w, acts).reports[g] == w.reports[g]
    decreases |acts|
  {
    if acts != [] {
      StepKeeps(w, acts[0]);
      StepKeepsReports(w, acts[0]);
      ReportStaysStep(w, acts[0], g);
      ReportStays(Apply(w, acts[0]), acts[1..], g);
    }
  }

  // ----- what user space gets

  /** The buffer that DQBUF returns tells what the event told. */
  predicate Tells(mplane: bool, arg: DqbufArg, d: Dequeued, e: Event) {
    && d.index == e.index
    && d.payload == e.payload
    && d.flags == Flags(false, false, e.flags.prepared, e.flags.error, e.flags.last)
    && |d.planes| == (if !mplane then 0 else if arg.nbPlanes < VIDEO_MAX_PLANES then arg.nbPlanes else VIDEO_MAX_PLANES)
    && forall j :: 0 <= j < |d.planes| && j < |e.planes| ==> d.planes[j].data == e.planes[j]
  }

  lemma HeadTells(v: World, arg: DqbufArg, e: Event)
    requires Inv(v) && Reported(v) && Enabled(v, Dqbuf(arg)) && v.q.pending[0] == e.index
    requires v.gens[e.index] in v.reports && v.reports[v.gens[e.index]] == e
    ensures Tells(v.q.mplane, arg, DqbufTake(v.q, arg).1, e)
  {
    assert v.q.slots[e.index].flags.done;
    assert SlotOk(v.q, v.q.slots[e.index], v.gens[e.index], v.reports);
  }

  /**
   In every run: an event is applied after `pre`, and after `post` DQBUF returns the QBUF that it
   completed. Then user space gets the event's payload, its flags other than QUEUED and DONE, and on a
   multiplanar queue its data for every plane that the event names and the caller has room for.
   */
  lemma CompletionReachesUser(w: World, pre: seq<Action>, post: seq<Action>, arg: DqbufArg)
    requires Init(w) && Run(w, pre) && Enabled(After(w, pre), Deliver)
    requires var u := After(w, pre);
             var e := u.events[0].event;
             && Accepts(u.q, e)
             && Run(Apply(u, Deliver), post)
             && var v := After(Apply(u, Deliver), post);
             && Enabled(v, Dqbuf(arg))
             && v.q.pending[0] == e.index && v.gens[e.index] == u.gens[e.index]
    ensures var u := After(w, pre);
            var v := After(Apply(u, Deliver), post);
            Tells(v.q.mplane, arg, DqbufTake(v.q, arg).1, u.events[0].event)
  {
    InitReported(w);
    ReportedOverRuns(w, pre);
    EventReaches(After(w, pre), post, arg);
  }

  /** The same from any state of a run. */
  lemma EventReaches(u: World, post: seq<Action>, arg: DqbufArg)
    requires Inv(u) && Reported(u) && Enabled(u, Deliver) && Accepts(u.q, u.events[0].event)
    requires Run(Apply(u, Deliver), post)
    requires var v := After(Apply(u, Deliver), post);
             var i := u.events[0].event.index;
             Enabled(v, Dqbuf(arg)) && v.q.pending[0] == i && v.gens[i] == u.gens[i]
    ensures var v := After(Apply(u, Deliver), post);
            Tells(v.q.mplane, arg, DqbufTake(v.q, arg).1, u.events[0].event)
  {
    var u' := Apply(u, Deliver);
    StepKeeps(u, Deliver);
    StepKeepsReports(u, Deliver);
    ReportStays(u', post, u.gens[u.events[0].event.index]);
    ReportedOverRuns(u', post);
    HeadTells(After(u', post), arg, u.events[0].event);
  }

  lemma InitReported(w: World)
    requires Init(w)
    ensures Inv(w) && Reported(w)
  {
  }

  /**
   In every run: the flag that makes DQBUF answer EPIPE is set exactly if the queue is a CAPTURE queue
   and a buffer whose completion carried LAST has been dequeued since the last clear.
   */
  lemma LastClosesQueue(w: World, acts: seq<Action>)
    requires Init(w) && Run(w, acts)
    ensures var v := After(w, acts); v.q.captureLast <==> v.q.capture && LastReturned(v)
  {
    InitReported(w);
    ReportedOverRuns(w, acts);
  }
}
