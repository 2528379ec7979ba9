/**
 The counter of buffers on the device: when it goes below zero, and when it does not.
 */
module QueueCounter {
  import opened QueueSpec
  import opened QueueRuns

  // ----- when the counter goes below zero

  predicate OnlyActive(slots: seq<Slot>, i: nat) {
    i < |slots| && slots[i].Active() && forall j :: 0 <= j < |slots| && slots[j].Active() ==> j == i
  }

  lemma OneActive(slots: seq<Slot>, i: nat)
    requires i < |slots| && slots[i].Active()
    ensures CountActive(slots) == 1 <==> OnlyActive(slots, i)
  {
    var rest := slots[i := slots[i].(flags := NO_FLAGS)];
    CountUpdate(slots, i, rest[i]);
    if OnlyActive(slots, i) {
      CountNone(rest);
    } else {
      var j :| 0 <= j < |slots| && slots[j].Active() && j != i;
      CountSome(rest, j);
    }
  }

  /** The last slot on the device is completed while a QBUF has been marked and not yet counted. */
  predicate CompletesTooEarly(w: World) {
    && w.events != [] && w.ioctl.Marking?
    && Accepts(w.q, w.events[0].event)
    && OnlyActive(w.q.slots, w.events[0].event.index)
  }

  lemma CounterAfterEvent(w: World)
    requires Inv(w) && w.q.queuedBufs >= 0 && Enabled(w, Deliver)
    ensures ApplyDeliver(w).q.queuedBufs < 0 <==> CompletesTooEarly(w)
  {
    if Accepts(w.q, w.events[0].event) {
      var i := w.events[0].event.index;
      OneActive(w.q.slots, i);
      CountSome(w.q.slots, i);
    }
  }

  lemma CounterAfterFailure(w: World)
    requires Inv(w) && w.q.queuedBufs >= 0 && Enabled(w, Reply(false))
    ensures Apply(w, Reply(false)).q.queuedBufs >= 0
  {
    if !w.q.slots[w.ioctl.token.slot].flags.done {
      CountSome(w.q.slots, w.ioctl.token.slot);
    }
  }

  /** One step takes the counter below zero exactly if it is such a completion. */
  lemma CounterStep(w: World, a: Action)
    requires Inv(w) && w.q.queuedBufs >= 0 && Enabled(w, a)
    ensures Apply(w, a).q.queuedBufs < 0 <==> a == Deliver && CompletesTooEarly(w)
  {
    if a == Deliver {
      CounterAfterEvent(w);
    } else if a == Reply(false) {
      CounterAfterFailure(w);
    } else {
      CounterElsewhere(w, a);
    }
  }

  lemma CounterElsewhere(w: World, a: Action)
    requires w.q.queuedBufs >= 0 && Enabled(w, a) && a != Deliver && a != Reply(false)
    ensures Apply(w, a).q.queuedBufs >= 0
  {
    match a
    case Qbuf(b, importsPrepared) => MarkKeepsCounter(w.q, b, importsPrepared);
    case _ =>
  }

  lemma MarkKeepsCounter(q: Queue, b: QbufArg, importsPrepared: bool)
    requires Shaped(q)
    ensures QbufMark(q, b, importsPrepared).0.queuedBufs == q.queuedBufs
  {
  }

  ghost predicate NeverNegative(w: World, acts: seq<Action>)
    requires Run(w, acts)
    decreases |acts|
  {
    w.q.queuedBufs >= 0 && (acts != [] ==> NeverNegative(Apply(w, acts[0]), acts[1..]))
  }

  ghost predicate NeverTooEarly(w: World, acts: seq<Action>)
    requires Run(w, acts)
    decreases |acts|
  {
    acts != [] ==> !(acts[0] == Deliver && CompletesTooEarly(w)) && NeverTooEarly(Apply(w, acts[0]), acts[1..])
  }

  lemma {:induction false} CounterOverRuns(w: World, acts: seq<Action>)
    requires Inv(w) && w.q.queuedBufs >= 0 && Run(w, acts)
    ensures NeverNegative(w, acts) <==> NeverTooEarly(w, acts)
    decreases |acts|
  {
    if acts != [] {
      CounterStep(w, acts[0]);
      StepKeeps(w, acts[0]);
      if Apply(w, acts[0]).q.queuedBufs >= 0 {
        CounterOverRuns(Apply(w, acts[0]), acts[1..]);
      }
    }
  }

  /**
   In every run, the counter stays at or above zero throughout if and only if no completion arrives too
   early in this sense. One that does leaves a QBUF DONE that the device has not even been sent.
   */
  lemma CounterIsExact(w: World, acts: seq<Action>)
    requires Init(w) && Run(w, acts)
    ensures NeverNegative(w, acts) <==> NeverTooEarly(w, acts)
    ensures CompletesTooEarly(After(w, acts)) ==> CompletesUnsent(After(w, acts))
  {
    CounterOverRuns(w, acts);
    InvariantOverRuns(w, acts);
    if CompletesTooEarly(After(w, acts)) {
      EarlyMeansUnsent(After(w, acts));
    }
  }

  ghost predicate CompletesUnsent(v: World) {
    && Enabled(v, Deliver) && Unsent(v) && !Outstanding(v, v.ioctl.token)
    && v.ioctl.token.slot < |v.q.slots|
    && ApplyDeliver(v).q.slots[v.ioctl.token.slot].flags.done
  }

  lemma EarlyMeansUnsent(v: World)
    requires Inv(v) && CompletesTooEarly(v)
    ensures CompletesUnsent(v)
  {
  }

  // ----- a run that takes it below zero

  const ARG := QbufArg(0, Mmap, 0, [])
  const EVENT := Event(0, Mmap, NO_FLAGS, 0, [])

  /** The device takes the buffer and fails the QBUF. */
  function Failed(): (acts: seq<Action>) {
    [Qbuf(ARG, true), Count, Accept, Reply(false)]
  }

  /** The slot is queued again, and the device completes what it had taken. */
  function CompletedEarly(): (acts: seq<Action>) {
    [Qbuf(ARG, true), Complete(Token(0, 1), EVENT), Deliver]
  }

  lemma FailedRuns(w: World)
    requires w == Fresh().(q := Fresh().q.(slots := [ZEROED]), gens := [0])
    ensures Run(w, Failed())
    ensures var v := After(w, Failed());
            && Shaped(v.q) && |v.gens| == |v.q.slots| == 1 && v.q.slots[0].Free() && v.q.queuedBufs == 0
            && v.q.memory == Mmap && !v.q.mplane && !v.q.needsCancel
            && v.ioctl == Idle && v.device == {Token(0, 1)} && v.events == []
  {
    var acts := Failed();
    var w1 := Apply(w, acts[0]);
    var w2 := Apply(w1, Count);
    var w3 := Apply(w2, Accept);
    RunCons(w3, Reply(false), []);
    RunCons(w2, Accept, [Reply(false)]);
    RunCons(w1, Count, [Accept, Reply(false)]);
    RunCons(w, acts[0], [Count, Accept, Reply(false)]);
    assert acts == [acts[0]] + ([Count] + ([Accept] + [Reply(false)]));
  }

  lemma CompletedEarlyRuns(w: World)
    requires Shaped(w.q) && |w.gens| == |w.q.slots| == 1 && w.q.slots[0].Free() && w.q.queuedBufs == 0
    requires w.q.memory == Mmap && !w.q.mplane && !w.q.needsCancel
    requires w.ioctl == Idle && w.device == {Token(0, 1)} && w.events == []
    ensures Run(w, CompletedEarly()) && After(w, CompletedEarly()).q.queuedBufs == -1
  {
    var acts := CompletedEarly();
    var w1 := Apply(w, acts[0]);
    var w2 := Apply(w1, acts[1]);
    assert w2.events == [Delivery(Token(0, 1), EVENT)] && Accepts(w2.q, EVENT);
    RunCons(w2, Deliver, []);
    RunCons(w1, acts[1], [Deliver]);
    RunCons(w, acts[0], [acts[1], Deliver]);
    assert acts == [acts[0]] + ([acts[1]] + [Deliver]);
  }

  /** On a queue that does not import, a reply that is not to be trusted can take the counter to -1. */
  lemma CounterUnderflows()
    ensures Run(Fresh(), Allocate() + (Failed() + CompletedEarly()))
    ensures After(Fresh(), Allocate() + (Failed() + CompletedEarly())).q.queuedBufs == -1
  {
    Allocated();
    var w := After(Fresh(), Allocate());
    FailedRuns(w);
    CompletedEarlyRuns(After(w, Failed()));
    RunConcat(w, Failed(), CompletedEarly());
    RunConcat(Fresh(), Allocate(), Failed() + CompletedEarly());
  }
}
