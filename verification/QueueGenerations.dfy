/**
 Generation safety: a completion lands only on the QBUF it answers. On a queue that imports DMA-BUFs
 this holds whatever the device replies. On the others it needs that the device does not keep a buffer
 whose QBUF it fails, and exactly that.
 */
module QueueGenerations {
  import opened Prelude
  import opened QueueSpec
  import opened QueueRuns

  /** The event can be applied to a slot of the queue that is on the device. */
  predicate WellFormed(q: Queue, e: Event) {
    e.memory == q.memory && !(q.mplane && |e.planes| > VIDEO_MAX_PLANES)
  }

  /** The QBUF may still be completed: the device holds the buffer, or a completion is on its way. */
  predicate Live(w: World, t: Token) {
    t in w.device || exists k :: 0 <= k < |w.events| && w.events[k].token == t && WellFormed(w.q, w.events[k].event)
  }

  /**
   On a queue that does not import, a failed QBUF reply means that the device is done with the buffer.
   Nothing is assumed of the replies on a DMABUF queue.
   */
  predicate Honest(w: World, a: Action) {
    a == Reply(false) && w.ioctl.InFlight? && w.q.memory != Dmabuf ==> !Live(w, w.ioctl.token)
  }

  ghost predicate AllHonest(w: World, acts: seq<Action>)
    requires Run(w, acts)
    decreases |acts|
  {
    acts != [] ==> Honest(w, acts[0]) && AllHonest(Apply(w, acts[0]), acts[1..])
  }

  /** An outstanding completion is for the latest QBUF of its slot, and can land only there. */
  predicate TokenOk(w: World, t: Token)
    requires |w.gens| == |w.q.slots|
  {
    && t.slot < |w.q.slots|
    && w.gens[t.slot] == t.gen
    && t !in w.answered
    && (w.q.slots[t.slot].Active() || w.q.needsCancel)
  }

  predicate HeldOk(w: World)
    requires |w.gens| == |w.q.slots|
  {
    forall t :: t in w.device ==> TokenOk(w, t)
  }

  predicate EventsOk(w: World)
    requires |w.gens| == |w.q.slots|
  {
    && (forall k :: 0 <= k < |w.events| ==> w.events[k].event.index == w.events[k].token.slot)
    && (forall k :: 0 <= k < |w.events| && WellFormed(w.q, w.events[k].event) ==>
          TokenOk(w, w.events[k].token) && w.events[k].token !in w.device)
    && (forall j, k ::
          0 <= j < k < |w.events| && WellFormed(w.q, w.events[j].event) && WellFormed(w.q, w.events[k].event) ==>
            w.events[j].token != w.events[k].token)
  }

  /** No QBUF is answered twice, and none before it is sent. */
  predicate AnsweredOk(w: World)
    requires |w.gens| == |w.q.slots|
  {
    && (forall k :: 0 <= k < |w.answered| ==> w.answered[k].gen < w.nextGen)
    && (forall j, k :: 0 <= j < k < |w.answered| ==> w.answered[j] != w.answered[k])
    && (Unsent(w) && w.ioctl.token.slot < |w.q.slots| ==>
          w.ioctl.token !in w.answered && w.q.slots[w.ioctl.token.slot].Active())
  }

  /** What holds besides in every run whose failed replies are honest. */
  predicate Tracked(w: World)
    requires |w.gens| == |w.q.slots|
  {
    HeldOk(w) && EventsOk(w) && AnsweredOk(w)
  }

  // ----- honest steps keep track of every completion

  lemma QbufKeepsHeld(w: World, b: QbufArg, importsPrepared: bool)
    requires Inv(w) && Tracked(w) && Enabled(w, Qbuf(b, importsPrepared))
    ensures HeldOk(ApplyQbuf(w, b, importsPrepared))
  {
    var w' := ApplyQbuf(w, b, importsPrepared);
    assert w'.device == w.device && w'.answered == w.answered;
    if w'.q != w.q {
      assert forall t :: t in w.device ==> t.slot != b.index;
    }
  }

  lemma QbufKeepsEvents(w: World, b: QbufArg, importsPrepared: bool)
    requires Inv(w) && Tracked(w) && Enabled(w, Qbuf(b, importsPrepared))
    ensures EventsOk(ApplyQbuf(w, b, importsPrepared))
  {
    var w' := ApplyQbuf(w, b, importsPrepared);
    assert w'.device == w.device && w'.events == w.events && w'.answered == w.answered;
    QbufSlots(w.q, b, importsPrepared);
    assert w'.q.memory == w.q.memory && w'.q.needsCancel == w.q.needsCancel;
    forall k | 0 <= k < |w.events| && WellFormed(w.q, w.events[k].event)
      ensures TokenOk(w', w.events[k].token)
    {
      assert TokenOk(w, w.events[k].token);
      if w.events[k].token.slot == b.index {
        assert w'.q == w.q && w'.gens == w.gens;
      }
    }
  }

  lemma QbufKeepsAnswered(w: World, b: QbufArg, importsPrepared: bool)
    requires Inv(w) && Tracked(w) && Enabled(w, Qbuf(b, importsPrepared))
    ensures AnsweredOk(ApplyQbuf(w, b, importsPrepared))
  {
  }

  lemma DeliverKeepsHeld(w: World)
    requires Inv(w) && Tracked(w) && Enabled(w, Deliver)
    ensures HeldOk(ApplyDeliver(w)) && AnsweredOk(ApplyDeliver(w))
  {
    var d := w.events[0];
    if Accepts(w.q, d.event) {
      assert WellFormed(w.q, d.event) && TokenOk(w, d.token);
      assert Outstanding(w, d.token);
    }
  }

  lemma DeliverKeepsEvents(w: World)
    requires Inv(w) && Tracked(w) && Enabled(w, Deliver)
    ensures EventsOk(ApplyDeliver(w))
  {
    var d := w.events[0];
    var w' := ApplyDeliver(w);
    assert forall k :: 0 <= k < |w'.events| ==> w'.events[k] == w.events[k + 1];
    if Accepts(w.q, d.event) {
      assert WellFormed(w.q, d.event);
      forall k | 0 <= k < |w'.events| && WellFormed(w'.q, w'.events[k].event)
        ensures TokenOk(w', w'.events[k].token) && w'.events[k].token !in w'.device
      {
        assert TokenOk(w, w.events[k + 1].token) && w.events[k + 1].token != d.token;
      }
    }
  }

  lemma FailureKeepsHeld(w: World)
    requires Inv(w) && Tracked(w) && Enabled(w, Reply(false)) && Honest(w, Reply(false))
    ensures HeldOk(Apply(w, Reply(false))) && AnsweredOk(Apply(w, Reply(false)))
  {
    if !Apply(w, Reply(false)).q.needsCancel {
      assert !Live(w, w.ioctl.token);
      assert forall u :: u in w.device ==> u.slot != w.ioctl.token.slot;
    }
  }

  lemma FailureKeepsEvents(w: World)
    requires Inv(w) && Tracked(w) && Enabled(w, Reply(false)) && Honest(w, Reply(false))
    ensures EventsOk(Apply(w, Reply(false)))
  {
    var t := w.ioctl.token;
    if !Apply(w, Reply(false)).q.needsCancel {
      assert !Live(w, t);
      assert forall k :: 0 <= k < |w.events| && WellFormed(w.q, w.events[k].event) ==> w.events[k].token.slot != t.slot;
    }
  }

  lemma DeviceKeepsTracked(w: World, a: Action)
    requires Inv(w) && Tracked(w) && Enabled(w, a)
    requires a.Accept? || a.Complete? || a.CancelFailed?
    ensures Tracked(Apply(w, a))
  {
  }

  lemma GuestKeepsTracked(w: World, a: Action)
    requires Inv(w) && Tracked(w) && Enabled(w, a)
    requires a.Count? || a.Streamon? || a == Reply(true) || a.Dqbuf?
    ensures Tracked(Apply(w, a))
  {
    var w' := Apply(w, a);
    assert w'.device == w.device && w'.events == w.events && w'.answered == w.answered && w'.gens == w.gens;
  }

  lemma CancelKeepsTracked(w: World, a: Action)
    requires Inv(w) && Tracked(w) && Enabled(w, a) && (a.CancelAcked? || a.ClearQueue?)
    ensures Tracked(Apply(w, a))
  {
  }

  lemma StepKeepsTracked(w: World, a: Action)
    requires Inv(w) && Tracked(w) && Enabled(w, a) && Honest(w, a)
    ensures Inv(Apply(w, a)) && Tracked(Apply(w, a))
  {
    StepKeeps(w, a);
    match a
    case Qbuf(b, importsPrepared) =>
      QbufKeepsHeld(w, b, importsPrepared);
      QbufKeepsEvents(w, b, importsPrepared);
      QbufKeepsAnswered(w, b, importsPrepared);
    case Deliver =>
      DeliverKeepsHeld(w);
      DeliverKeepsEvents(w);
    case Reply(ok) =>
      if ok {
        GuestKeepsTracked(w, a);
      } else {
        FailureKeepsHeld(w);
        FailureKeepsEvents(w);
      }
    case Accept | Complete(_, _) | CancelFailed(_) => DeviceKeepsTracked(w, a);
    case CancelAcked(_) | ClearQueue => CancelKeepsTracked(w, a);
    case _ => GuestKeepsTracked(w, a);
  }

  // ----- honest runs

  lemma {:induction false} TrackedOverRuns(w: World, acts: seq<Action>)
    requires Inv(w) && Tracked(w) && Run(w, acts) && AllHonest(w, acts)
    ensures Inv(After(w, acts)) && Tracked(After(w, acts))
    decreases |acts|
  {
    if acts != [] {
      StepKeepsTracked(w, acts[0]);
      TrackedOverRuns(Apply(w, acts[0]), acts[1..]);
    }
  }

  /** With honest replies the counter never goes below zero. */
  lemma CounterOfHonestRuns(w: World, acts: seq<Action>)
    requires Init(w) && Run(w, acts) && AllHonest(w, acts)
    ensures After(w, acts).q.queuedBufs >= 0
  {
    TrackedOverRuns(w, acts);
    CounterOfTracked(After(w, acts));
  }

  lemma CounterOfTracked(v: World)
    requires Inv(v) && Tracked(v)
    ensures v.q.queuedBufs >= 0
  {
    if v.ioctl.Marking? {
      CountSome(v.q.slots, v.ioctl.token.slot);
    }
  }

  /** The next event would complete a QBUF that it does not answer, or one already answered. */
  predicate Misdirected(v: World) {
    && v.events != [] && Accepts(v.q, v.events[0].event)
    && var (t, i) := (v.events[0].token, v.events[0].event.index);
       !(t.slot == i < |v.gens| && v.gens[i] == t.gen && t !in v.answered)
  }

  /**
   Generation safety: at every moment of every honest run, a completion that would be applied answers
   the very QBUF that its slot is waiting for, and that QBUF has not been answered before.
   */
  lemma GenerationSafety(w: World, acts: seq<Action>)
    requires Init(w) && Run(w, acts) && AllHonest(w, acts)
    ensures var v := After(w, acts);
            !Misdirected(v) && forall j, k :: 0 <= j < k < |v.answered| ==> v.answered[j] != v.answered[k]
  {
    TrackedOverRuns(w, acts);
    NotMisdirected(After(w, acts));
  }

  lemma NotMisdirected(v: World)
    requires Inv(v) && Tracked(v)
    ensures !Misdirected(v)
  {
  }

  /** The queue imports, or has no slot yet. */
  predicate Importing(w: World) {
    && (w.q.slots != [] ==> w.q.memory == Dmabuf)
    && (w.ioctl.Cancelling? && w.ioctl.cancel.Reqbufs? ==> w.ioctl.cancel.memory == Dmabuf)
  }

  predicate RequestsImports(acts: seq<Action>) {
    forall k :: 0 <= k < |acts| && acts[k].CancelAcked? && acts[k].cancel.Reqbufs? ==> acts[k].cancel.memory == Dmabuf
  }

  lemma ImportingStep(w: World, a: Action)
    requires Importing(w) && Enabled(w, a)
    requires a.CancelAcked? && a.cancel.Reqbufs? ==> a.cancel.memory == Dmabuf
    ensures Importing(Apply(w, a))
  {
  }

  lemma {:induction false} ImportsAreHonest(w: World, acts: seq<Action>)
    requires Importing(w) && Run(w, acts) && RequestsImports(acts)
    ensures AllHonest(w, acts)
    decreases |acts|
  {
    if acts != [] {
      ImportingStep(w, acts[0]);
      assert Honest(w, acts[0]);
      ImportsAreHonest(Apply(w, acts[0]), acts[1..]);
    }
  }

  /** A DMABUF queue is safe whatever its replies say: no assumption about them is left. */
  lemma ImportGenerationSafety(w: World, acts: seq<Action>)
    requires Init(w) && Run(w, acts) && RequestsImports(acts)
    ensures !Misdirected(After(w, acts)) && After(w, acts).q.queuedBufs >= 0
  {
    ImportsAreHonest(w, acts);
    GenerationSafety(w, acts);
    CounterOfHonestRuns(w, acts);
  }

  // ----- why the replies of the other queues have to be honest

  function Delivers(n: nat): (r: seq<Action>) {
    seq(n, _ => Deliver)
  }

  /** A completion for an earlier QBUF of a slot on the device waits behind `k` events for other slots. */
  predicate StaleBehind(v: World, k: nat) {
    && k < |v.events|
    && var (t, e) := (v.events[k].token, v.events[k].event);
    && Accepts(v.q, e) && e.index == t.slot < |v.gens| && v.gens[t.slot] != t.gen
    && forall j :: 0 <= j < k && WellFormed(v.q, v.events[j].event) ==> v.events[j].event.index != t.slot
  }

  lemma {:induction false} StaleIsReached(v: World, k: nat)
    requires Inv(v) && StaleBehind(v, k)
    ensures LandsWrongly(v, Delivers(k))
    decreases k
  {
    if k == 0 {
      StaleNext(v);
    } else {
      DeliverKeeps(v);
      OtherDelivered(v, k);
      StaleIsReached(ApplyDeliver(v), k - 1);
      LandsCons(v, Deliver, Delivers(k - 1));
      DeliversCons(k);
    }
  }

  /** The honest steps `acts` lead to a completion that lands wrongly. */
  ghost predicate LandsWrongly(v: World, acts: seq<Action>) {
    Run(v, acts) && AllHonest(v, acts) && Misdirected(After(v, acts))
  }

  lemma LandsCons(v: World, a: Action, acts: seq<Action>)
    requires Enabled(v, a) && Honest(v, a) && LandsWrongly(Apply(v, a), acts)
    ensures LandsWrongly(v, [a] + acts)
  {
    HonestCons(v, a, acts);
  }

  lemma DeliversCons(k: nat)
    requires k > 0
    ensures Delivers(k) == [Deliver] + Delivers(k - 1)
  {
  }

  lemma StaleNext(v: World)
    requires Inv(v) && StaleBehind(v, 0)
    ensures LandsWrongly(v, Delivers(0))
  {
    assert Delivers(0) == [];
  }

  lemma OtherDelivered(v: World, k: nat)
    requires Inv(v) && StaleBehind(v, k) && k > 0
    ensures StaleBehind(ApplyDeliver(v), k - 1)
  {
    var v' := ApplyDeliver(v);
    assert forall j :: 0 <= j < |v'.events| ==> v'.events[j] == v.events[j + 1];
    if Accepts(v.q, v.events[0].event) {
      assert WellFormed(v.q, v.events[0].event);
    }
  }

  /** The QBUF with which user space tries again. */
  function Retry(w: World): (b: QbufArg)
    requires w.ioctl.InFlight?
  {
    QbufArg(w.ioctl.token.slot, w.q.memory, 0, [])
  }

  /** After the failed reply and before the completion is delivered. */
  ghost function RetryPrefix(w: World): (acts: seq<Action>)
    requires w.ioctl.InFlight?
  {
    var t := w.ioctl.token;
    [Qbuf(Retry(w), true), Count] +
    (if t in w.device then [Complete(t, Event(t.slot, w.q.memory, NO_FLAGS, 0, []))] else [])
  }

  /** The slot can be queued again. */
  lemma RetrySucceeds(w: World)
    requires Inv(w) && Tracked(w) && Enabled(w, Reply(false)) && !Honest(w, Reply(false))
    ensures var w2 := Retried(w);
            && w2.device == w.device && w2.events == w.events && |w2.gens| == |w2.q.slots| == |w.q.slots|
            && w2.q.memory == w.q.memory && w2.q.mplane == w.q.mplane && Shaped(w2.q)
            && w2.q.slots[w.ioctl.token.slot].Active() && w2.gens[w.ioctl.token.slot] == w.nextGen
            && w.ioctl.token.gen < w.nextGen
  {
    RetryAllowed(w);
  }

  lemma RetryAllowed(w: World)
    requires Inv(w) && Tracked(w) && Enabled(w, Reply(false)) && !Honest(w, Reply(false))
    ensures var w' := Apply(w, Reply(false));
            && w.ioctl.token.slot < |w'.q.slots|
            && Enabled(w', Qbuf(Retry(w), true))
            && QbufMark(w'.q, Retry(w), true).1.Marked?
            && Enabled(Apply(w', Qbuf(Retry(w), true)), Count)
  {
    assert TokenOk(w, w.ioctl.token);
    var w' := Apply(w, Reply(false));
    assert QbufRefusal(w'.q, Retry(w)) == [];
  }

  /** The state in which the slot has been queued again and counted. */
  ghost function Retried(w: World): (r: World)
    requires Inv(w) && Tracked(w) && Enabled(w, Reply(false)) && !Honest(w, Reply(false))
  {
    RetryAllowed(w);
    Apply(Apply(Apply(w, Reply(false)), Qbuf(Retry(w), true)), Count)
  }

  /** Where the stale completion stands once the slot has been queued again. */
  ghost predicate StaleAfterRetry(w: World, k: nat)
    requires Enabled(w, Reply(false))
  {
    var w' := Apply(w, Reply(false));
    && Run(w', RetryPrefix(w)) && AllHonest(w', RetryPrefix(w))
    && StaleBehind(After(w', RetryPrefix(w)), k)
  }

  lemma HonestCons(w: World, a: Action, acts: seq<Action>)
    requires Enabled(w, a) && Run(Apply(w, a), acts) && Honest(w, a) && AllHonest(Apply(w, a), acts)
    ensures Run(w, [a] + acts) && AllHonest(w, [a] + acts) && After(w, [a] + acts) == After(Apply(w, a), acts)
  {
    assert ([a] + acts)[1..] == acts;
  }

  /** The two steps of the second QBUF, then `rest`. */
  lemma RetryRuns(w: World, rest: seq<Action>)
    requires Inv(w) && Tracked(w) && Enabled(w, Reply(false)) && !Honest(w, Reply(false))
    requires RetryPrefix(w) == [Qbuf(Retry(w), true), Count] + rest
    requires Run(Retried(w), rest) && AllHonest(Retried(w), rest)
    ensures var w' := Apply(w, Reply(false));
            && Run(w', RetryPrefix(w)) && AllHonest(w', RetryPrefix(w))
            && After(w', RetryPrefix(w)) == After(Retried(w), rest)
  {
    var w' := Apply(w, Reply(false));
    var w1 := Apply(w', Qbuf(Retry(w), true));
    HonestCons(w1, Count, rest);
    HonestCons(w', Qbuf(Retry(w), true), [Count] + rest);
    assert RetryPrefix(w) == [Qbuf(Retry(w), true)] + ([Count] + rest);
  }

  lemma HeldIsStale(w: World)
    requires Inv(w) && Tracked(w) && Enabled(w, Reply(false)) && !Honest(w, Reply(false)) && w.ioctl.token in w.device
    ensures StaleAfterRetry(w, |w.events|)
  {
    RetrySucceeds(w);
    var t := w.ioctl.token;
    var c := Complete(t, Event(t.slot, w.q.memory, NO_FLAGS, 0, []));
    HonestCons(Retried(w), c, []);
    assert [c] + [] == [c];
    RetryRuns(w, [c]);
    OthersElsewhere(w);
  }

  lemma QueuedIsStale(w: World, k: nat)
    requires Inv(w) && Tracked(w) && Enabled(w, Reply(false)) && w.q.memory != Dmabuf && w.ioctl.token !in w.device
    requires k < |w.events| && w.events[k].token == w.ioctl.token && WellFormed(w.q, w.events[k].event)
    ensures StaleAfterRetry(w, k)
  {
    assert Live(w, w.ioctl.token);
    RetrySucceeds(w);
    RetryRuns(w, []);
    OthersElsewhere(w);
  }

  /** The other completions on their way are for other slots. */
  lemma OthersElsewhere(w: World)
    requires Inv(w) && Tracked(w) && w.ioctl.InFlight? && Live(w, w.ioctl.token)
    ensures forall j ::
              0 <= j < |w.events| && WellFormed(w.q, w.events[j].event) && w.events[j].token != w.ioctl.token ==>
                w.events[j].event.index != w.ioctl.token.slot
    ensures w.ioctl.token in w.device ==>
              forall j :: 0 <= j < |w.events| && WellFormed(w.q, w.events[j].event) ==>
                w.events[j].token != w.ioctl.token
  {
  }

  /**
   On a queue that does not import, a QBUF that fails although it may still be completed lets user space
   queue the slot again, and the completion is then taken for the second QBUF. This happens from every
   such state, whether the device holds the buffer or its completion is already on the way.
   */
  lemma StaleCompletionLands(w: World) returns (acts: seq<Action>)
    requires Inv(w) && Tracked(w) && Enabled(w, Reply(false)) && !Honest(w, Reply(false))
    ensures LandsWrongly(Apply(w, Reply(false)), acts)
  {
    var w' := Apply(w, Reply(false));
    var t := w.ioctl.token;
    var k;
    if t in w.device {
      k := |w.events|;
      HeldIsStale(w);
    } else {
      k :| 0 <= k < |w.events| && w.events[k].token == t && WellFormed(w.q, w.events[k].event);
      QueuedIsStale(w, k);
    }
    StepKeeps(w, Reply(false));
    InvariantOverRuns(w', RetryPrefix(w));
    StaleIsReached(After(w', RetryPrefix(w)), k);
    RunConcat(w', RetryPrefix(w), Delivers(k));
    HonestConcat(w', RetryPrefix(w), Delivers(k));
    acts := RetryPrefix(w) + Delivers(k);
  }

  lemma {:induction false} HonestConcat(w: World, a: seq<Action>, b: seq<Action>)
    requires Run(w, a) && AllHonest(w, a) && Run(After(w, a), b) && AllHonest(After(w, a), b)
    ensures Run(w, a + b) && AllHonest(w, a + b)
    decreases |a|
  {
    RunConcat(w, a, b);
    if a == [] {
      assert a + b == b;
    } else {
      HonestConcat(Apply(w, a[0]), a[1..], b);
      assert (a + b)[0] == a[0] && (a + b)[1..] == a[1..] + b;
    }
  }

  /** No honest continuation lets a completion land wrongly. */
  ghost predicate Safe(w: World) {
    forall acts :: !LandsWrongly(w, acts)
  }

  /** A failed reply leaves generation safety intact if and only if it is honest. */
  lemma HonestyIsExact(w: World)
    requires Inv(w) && Tracked(w) && Enabled(w, Reply(false))
    ensures Honest(w, Reply(false)) <==> Safe(Apply(w, Reply(false)))
  {
    var w' := Apply(w, Reply(false));
    if Honest(w, Reply(false)) {
      StepKeepsTracked(w, Reply(false));
      forall acts
        ensures !LandsWrongly(w', acts)
      {
        if Run(w', acts) && AllHonest(w', acts) {
          TrackedOverRuns(w', acts);
          NotMisdirected(After(w', acts));
        }
      }
    } else {
      var acts := StaleCompletionLands(w);
    }
  }
}
