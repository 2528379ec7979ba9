/**
 What DQBUF hands back: which buffer, and whose `m` values.
 */
module QueueIdentity {
  import opened QueueSpec
  import opened QueueRuns

  // ----- what DQBUF hands back

  /** The next DQBUF returns the oldest QBUF completed and not yet returned. */
  predicate ReturnsOldest(v: World, arg: DqbufArg)
    requires Enabled(v, Dqbuf(arg))
  {
    var i := DqbufTake(v.q, arg).1.index;
    && i < |v.gens|
    && |v.returned| < |v.arrived|
    && v.returned == v.arrived[..|v.returned|]
    && v.arrived[|v.returned|] == Token(i, v.gens[i])
  }

  /** DQBUF returns the `m` that QBUF was given: that of the buffer, or those of the planes on a multiplanar queue. */
  predicate HandsBack(mplane: bool, d: Dequeued, m: int, planeMs: seq<int>) {
    if mplane
    then forall j :: 0 <= j < |d.planes| && j < |planeMs| ==> d.planes[j].m == planeMs[j]
    else d.m == m
  }

  /** The slot held these values already, as far as `n` planes go. */
  predicate HeldAlready(mplane: bool, g: Given, n: nat) {
    if mplane
    then forall j :: 0 <= j < n && j < |g.planeMs| && j < |g.oldMs| ==> g.oldMs[j] == g.planeMs[j]
    else g.oldM == g.m
  }

  lemma HeadReturned(v: World, arg: DqbufArg)
    requires Inv(v) && Enabled(v, Dqbuf(arg))
    ensures ReturnsOldest(v, arg)
    ensures var d := DqbufTake(v.q, arg).1;
            && v.gens[d.index] in v.given
            && var g := v.given[v.gens[d.index]];
            && KeepsGiven(v.q, v.q.slots[d.index], g)
            && HandsBackIf(v.q.mplane, d, g)
  {
    var tokens := PendingTokens(v.q, v.gens);
    var i := v.q.pending[0];
    assert v.arrived == v.returned + tokens;
    assert tokens[0] == Token(i, v.gens[i]);
    assert !v.q.slots[i].Free();
    HandedBack(v.q, arg, v.given[v.gens[i]]);
  }

  lemma HandedBack(q: Queue, arg: DqbufArg, g: Given)
    requires Shaped(q) && q.pending != [] && q.pending[0] < |q.slots| && KeepsGiven(q, q.slots[q.pending[0]], g)
    ensures var d := DqbufTake(q, arg).1;
            HandsBackIf(q.mplane, d, g)
  {
    var d := DqbufTake(q, arg).1;
    var planes := q.slots[q.pending[0]].planes;
    assert forall j :: 0 <= j < |d.planes| ==> d.planes[j] == planes[j];
    if g.prepared {
      assert forall j :: 0 <= j < |d.planes| ==> d.planes[j].m == g.oldMs[j];
    }
  }

  /** The record of a QBUF is never changed. */
  lemma {:induction false} GivenStays(w: World, acts: seq<Action>, gen: nat)
    requires Inv(w) && Run(w, acts) && gen < w.nextGen && gen in w.given
    ensures gen in After(w, acts).given && After(w, acts).given[gen] == w.given[gen]
    decreases |acts|
  {
    if acts != [] {
      StepKeeps(w, acts[0]);
      GivenStaysStep(w, acts[0], gen);
      GivenStays(Apply(w, acts[0]), acts[1..], gen);
    }
  }

  lemma GivenStaysStep(w: World, a: Action, gen: nat)
    requires Enabled(w, a) && gen < w.nextGen && gen in w.given
    ensures var v := Apply(w, a); gen < v.nextGen && gen in v.given && v.given[gen] == w.given[gen]
  {
  }

  /**
   QBUF/DQBUF identity, in every run: DQBUF returns buffers in the order in which they were completed.
   If the one it returns was queued by the QBUF `b` after `pre`, it hands back the `m` of `b`, or on a
   multiplanar queue those of its planes, whatever the device wrote into events, if and only if the
   slot was not PREPARED at that QBUF or held the same values before. The `m` of a multiplanar buffer
   is the caller's own.
   */
  lemma DequeueIdentity(w: World, pre: seq<Action>, b: QbufArg, importsPrepared: bool, post: seq<Action>, arg: DqbufArg)
    requires Init(w) && Run(w, pre) && Enabled(After(w, pre), Qbuf(b, importsPrepared))
    requires var u := After(w, pre);
             var u' := Apply(u, Qbuf(b, importsPrepared));
             && u'.ioctl.Marking?
             && Run(u', post) && Enabled(After(u', post), Dqbuf(arg))
             && var v := After(u', post);
             v.q.pending[0] < |v.gens| && v.gens[v.q.pending[0]] == u.nextGen
    ensures var u := After(w, pre);
            var v := After(Apply(u, Qbuf(b, importsPrepared)), post);
            var d := DqbufTake(v.q, arg).1;
            && ReturnsOldest(v, arg)
            && b.index < |u.q.slots|
            && var g := GivenTo(u.q.slots[b.index], b);
            && (v.q.mplane ==> d.m == arg.m)
            && (HandsBack(v.q.mplane, d, b.m, b.planeMs) <==>
                  !u.q.slots[b.index].flags.prepared || HeldAlready(v.q.mplane, g, |d.planes|))
  {
    InvariantOverRuns(w, pre);
    var u := After(w, pre);
    MatchingQbuf(u, b, importsPrepared, post, arg);
  }

  /** The same from any state of a run. */
  lemma MatchingQbuf(u: World, b: QbufArg, importsPrepared: bool, post: seq<Action>, arg: DqbufArg)
    requires Inv(u) && Enabled(u, Qbuf(b, importsPrepared)) && ApplyQbuf(u, b, importsPrepared).ioctl.Marking?
    requires var u' := ApplyQbuf(u, b, importsPrepared);
             && Run(u', post) && Enabled(After(u', post), Dqbuf(arg))
             && var v := After(u', post);
             v.q.pending[0] < |v.gens| && v.gens[v.q.pending[0]] == u.nextGen
    ensures var v := After(ApplyQbuf(u, b, importsPrepared), post);
            && ReturnsOldest(v, arg)
            && b.index < |u.q.slots|
            && HandsBackIf(v.q.mplane, DqbufTake(v.q, arg).1, GivenTo(u.q.slots[b.index], b))
  {
    var u' := ApplyQbuf(u, b, importsPrepared);
    QbufKeeps(u, b, importsPrepared);
    QbufRecords(u, b, importsPrepared);
    InvariantOverRuns(u', post);
    GivenStays(u', post, u.nextGen);
    HeadReturned(After(u', post), arg);
  }

  lemma QbufRecords(u: World, b: QbufArg, importsPrepared: bool)
    requires Enabled(u, Qbuf(b, importsPrepared)) && ApplyQbuf(u, b, importsPrepared).ioctl.Marking?
    ensures var u' := ApplyQbuf(u, b, importsPrepared);
            && b.index < |u.q.slots| && u'.nextGen == u.nextGen + 1
            && u.nextGen in u'.given && u'.given[u.nextGen] == GivenTo(u.q.slots[b.index], b)
  {
  }

  /** The values of the QBUF come back if and only if they were stored or were there already. */
  predicate HandsBackIf(mplane: bool, d: Dequeued, g: Given) {
    HandsBack(mplane, d, g.m, g.planeMs) <==> !g.prepared || HeldAlready(mplane, g, |d.planes|)
  }

  // PREPARED can only come from the device.

  predicate NothingPrepared(w: World) {
    && (forall i :: 0 <= i < |w.q.slots| ==> !w.q.slots[i].flags.prepared)
    && (forall k :: 0 <= k < |w.events| ==> !w.events[k].event.flags.prepared)
    && (w.ioctl.Marking? || w.ioctl.InFlight? ==> !w.ioctl.oldFlags.prepared)
    && (forall i :: 0 <= i < |w.q.slots| && i < |w.gens| && !w.q.slots[i].Free() && w.gens[i] in w.given ==>
          !w.given[w.gens[i]].prepared)
  }

  predicate PreparesNothing(acts: seq<Action>) {
    forall k :: 0 <= k < |acts| && acts[k].Complete? ==> !acts[k].event.flags.prepared
  }

  lemma QbufPreparesNothing(w: World, b: QbufArg, importsPrepared: bool)
    requires Inv(w) && NothingPrepared(w) && Enabled(w, Qbuf(b, importsPrepared))
    ensures NothingPrepared(ApplyQbuf(w, b, importsPrepared))
  {
    var w' := ApplyQbuf(w, b, importsPrepared);
    if QbufMark(w.q, b, importsPrepared).1.Marked? {
      MarkedKeepsGiven(w.q, b, importsPrepared);
      assert forall i :: 0 <= i < |w.q.slots| && i != b.index ==>
          w'.q.slots[i] == w.q.slots[i] && w'.gens[i] == w.gens[i];
    }
  }

  lemma DeliverPreparesNothing(w: World)
    requires Inv(w) && NothingPrepared(w) && Enabled(w, Deliver)
    ensures NothingPrepared(ApplyDeliver(w))
  {
    var w' := ApplyDeliver(w);
    assert forall k :: 0 <= k < |w'.events| ==> w'.events[k] == w.events[k + 1];
    assert forall i :: 0 <= i < |w'.q.slots| && !w'.q.slots[i].Free() ==> !w.q.slots[i].Free();
  }

  lemma ReplyPreparesNothing(w: World, ok: bool)
    requires Inv(w) && NothingPrepared(w) && Enabled(w, Reply(ok))
    ensures NothingPrepared(Apply(w, Reply(ok)))
  {
    var w' := Apply(w, Reply(ok));
    if !ok {
      var i := w.ioctl.token.slot;
      FailureTakesBack(w.q, i, w.ioctl.oldFlags);
      assert !w'.q.slots[i].flags.prepared && (!w'.q.slots[i].Free() ==> !w.q.slots[i].Free());
    }
  }

  lemma NothingPreparedStep(w: World, a: Action)
    requires Inv(w) && NothingPrepared(w) && Enabled(w, a) && (a.Complete? ==> !a.event.flags.prepared)
    ensures NothingPrepared(Apply(w, a))
  {
    match a
    case Qbuf(b, importsPrepared) => QbufPreparesNothing(w, b, importsPrepared);
    case Deliver => DeliverPreparesNothing(w);
    case Reply(ok) => ReplyPreparesNothing(w, ok);
    case ClearQueue => ClearedPreparesNothing(w);
    case _ =>
  }

  lemma {:induction false} NothingPreparedRun(w: World, acts: seq<Action>)
    requires Inv(w) && NothingPrepared(w) && Run(w, acts) && PreparesNothing(acts)
    ensures NothingPrepared(After(w, acts))
    decreases |acts|
  {
    if acts != [] {
      NothingPreparedStep(w, acts[0]);
      StepKeeps(w, acts[0]);
      NothingPreparedRun(Apply(w, acts[0]), acts[1..]);
    }
  }

  /** The buffer at the head of the list was not PREPARED when it was queued. */
  lemma UnpreparedHead(v: World, arg: DqbufArg)
    requires Inv(v) && NothingPrepared(v) && Enabled(v, Dqbuf(arg))
    ensures ReturnsOldest(v, arg) && HandsBackGiven(v, arg)
  {
    HeadReturned(v, arg);
    assert !v.q.slots[v.q.pending[0]].Free();
  }

  predicate HandsBackGiven(v: World, arg: DqbufArg)
    requires Enabled(v, Dqbuf(arg))
  {
    var d := DqbufTake(v.q, arg).1;
    && d.index < |v.gens| && v.gens[d.index] in v.given
    && HandsBack(v.q.mplane, d, v.given[v.gens[d.index]].m, v.given[v.gens[d.index]].planeMs)
  }

  /**
   As long as no completion since the last clear carried PREPARED, every DQBUF hands back what the
   matching QBUF was given.
   */
  lemma UnpreparedHandsBack(w: World, pre: seq<Action>, post: seq<Action>, arg: DqbufArg)
    requires Init(w) && Run(w, pre) && Enabled(After(w, pre), ClearQueue)
    requires var u := Apply(After(w, pre), ClearQueue);
             Run(u, post) && PreparesNothing(post) && Enabled(After(u, post), Dqbuf(arg))
    ensures var v := After(Apply(After(w, pre), ClearQueue), post);
            ReturnsOldest(v, arg) && HandsBackGiven(v, arg)
  {
    InvariantOverRuns(w, pre);
    var z := After(w, pre);
    var u := Apply(z, ClearQueue);
    StepKeeps(z, ClearQueue);
    ClearedPreparesNothing(z);
    NothingPreparedRun(u, post);
    InvariantOverRuns(u, post);
    UnpreparedHead(After(u, post), arg);
  }

  lemma ClearedPreparesNothing(w: World)
    requires Inv(w) && Enabled(w, ClearQueue)
    ensures NothingPrepared(Apply(w, ClearQueue))
  {
    CancelEmpties(w.q, w.ioctl.cancel);
  }

  // ----- a run that hands back stale values

  const NO_ARG := DqbufArg(0, 0)

  function Arg(m: int): (b: QbufArg) {
    QbufArg(0, Mmap, m, [])
  }

  /** A QBUF with value `m` that the device takes. */
  function Queueing(m: int): (acts: seq<Action>) {
    [Qbuf(Arg(m), true), Count, Accept]
  }

  /** Its completion, by an event with the given PREPARED flag, and the reply. */
  function Completing(gen: nat, prepares: bool): (acts: seq<Action>) {
    [Complete(Token(0, gen), Event(0, Mmap, NO_FLAGS.(prepared := prepares), 0, [])), Deliver, Reply(true)]
  }

  predicate OneSlot(w: World, m: int, flags: Flags) {
    && |w.q.slots| == 1 && |w.gens| == 1 && Shaped(w.q) && w.q.memory == Mmap && !w.q.mplane && !w.q.needsCancel
    && w.q.slots[0].flags == flags && w.q.slots[0].m == m
    && w.events == []
  }

  lemma QueueingRuns(w: World, m: int, before: int, prepared: bool)
    requires OneSlot(w, before, NO_FLAGS.(prepared := prepared)) && w.ioctl == Idle
    ensures Run(w, Queueing(m))
    ensures var v := After(w, Queueing(m));
            && OneSlot(v, if prepared then before else m, NO_FLAGS.(queued := true))
            && v.ioctl.InFlight? && v.ioctl.accepted
            && v.ioctl.token == Token(0, w.nextGen) && v.ioctl.token in v.device
            && v.gens == [w.nextGen] && v.nextGen == w.nextGen + 1 && v.q.pending == w.q.pending
            && w.nextGen in v.given && v.given[w.nextGen].m == m
  {
    var acts := Queueing(m);
    var w1 := Apply(w, acts[0]);
    var w2 := Apply(w1, Count);
    RunCons(w2, Accept, []);
    RunCons(w1, Count, [Accept]);
    RunCons(w, acts[0], [Count, Accept]);
    assert acts == [acts[0]] + [Count, Accept] && [Count, Accept] == [Count] + [Accept];
  }

  lemma CompletingRuns(w: World, m: int, gen: nat, prepares: bool)
    requires OneSlot(w, m, NO_FLAGS.(queued := true)) && w.q.pending == []
    requires w.ioctl.InFlight? && w.ioctl.accepted && w.ioctl.token == Token(0, gen) && w.ioctl.token in w.device
    ensures Run(w, Completing(gen, prepares))
    ensures var v := After(w, Completing(gen, prepares));
            && OneSlot(v, m, NO_FLAGS.(done := true, prepared := prepares)) && v.ioctl == Idle && v.q.pending == [0]
            && v.gens == w.gens && v.nextGen == w.nextGen && v.given == w.given
  {
    var acts := Completing(gen, prepares);
    var w1 := Apply(w, acts[0]);
    assert w1.events == [Delivery(Token(0, gen), acts[0].event)];
    var w2 := Apply(w1, Deliver);
    RunCons(w2, Reply(true), []);
    RunCons(w1, Deliver, [Reply(true)]);
    RunCons(w, acts[0], [Deliver, Reply(true)]);
    assert acts == [acts[0]] + [Deliver, Reply(true)] && [Deliver, Reply(true)] == [Deliver] + [Reply(true)];
  }

  /** From a free slot to one that waits to be dequeued. */
  lemma CycleRuns(w: World, m: int, before: int, prepared: bool, prepares: bool) returns (acts: seq<Action>)
    requires OneSlot(w, before, NO_FLAGS.(prepared := prepared)) && w.ioctl == Idle && w.q.pending == []
    ensures Run(w, acts) && forall k :: 0 <= k < |acts| ==> !acts[k].Dqbuf?
    ensures var v := After(w, acts);
            && OneSlot(v, if prepared then before else m, NO_FLAGS.(done := true, prepared := prepares))
            && v.ioctl == Idle && v.q.pending == [0]
            && v.gens == [w.nextGen] && v.nextGen == w.nextGen + 1
            && w.nextGen in v.given && v.given[w.nextGen].m == m
  {
    QueueingRuns(w, m, before, prepared);
    CompletingRuns(After(w, Queueing(m)), if prepared then before else m, w.nextGen, prepares);
    acts := Queueing(m) + Completing(w.nextGen, prepares);
    RunConcat(w, Queueing(m), Completing(w.nextGen, prepares));
  }

  lemma DequeueRuns(w: World, m: int, prepared: bool)
    requires OneSlot(w, m, NO_FLAGS.(done := true, prepared := prepared)) && w.ioctl == Idle && w.q.pending == [0]
    ensures Enabled(w, Dqbuf(NO_ARG)) && DqbufTake(w.q, NO_ARG).1.m == m
    ensures var v := Apply(w, Dqbuf(NO_ARG));
            && OneSlot(v, m, NO_FLAGS.(prepared := prepared))
            && v.ioctl == Idle && v.q.pending == [] && v.nextGen == w.nextGen
  {
  }

  /**
   A completion that carries PREPARED makes the next QBUF of its slot keep the old `m`: queued with 2,
   the buffer comes back with 1.
   */
  lemma PreparedEventKeepsOldValue() returns (acts: seq<Action>)
    ensures Run(Fresh(), acts) && Enabled(After(Fresh(), acts), Dqbuf(NO_ARG))
    ensures var v := After(Fresh(), acts);
            && v.q.pending == [0] && v.gens == [2] && 2 in v.given && v.given[2].m == 2
            && DqbufTake(v.q, NO_ARG).1.m == 1
  {
    Allocated();
    var w := After(Fresh(), Allocate());
    var first := CycleRuns(w, 1, 0, false, true);
    DequeueRuns(After(w, first), 1, true);
    RunSnoc(w, first, Dqbuf(NO_ARG));
    first := first + [Dqbuf(NO_ARG)];
    var second := CycleRuns(After(w, first), 2, 1, true, false);
    DequeueRuns(After(After(w, first), second), 1, false);
    RunConcat(w, first, second);
    acts := Allocate() + (first + second);
    RunConcat(Fresh(), Allocate(), first + second);
  }
}
