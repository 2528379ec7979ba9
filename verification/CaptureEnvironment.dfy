/**
 The guest's queue together with a session of the simple capture device. What `QueueRuns` assumes of a
 device, and `QueueGenerations` of its replies, is proved here of this one: whatever user space does, the
 driver and the device together make a run whose replies can be trusted.
 */
module CaptureEnvironment {
  import opened Prelude
  import opened QueueSpec
  import opened QueueRuns
  import opened QueueGenerations
  import opened CaptureSession

  /** What user space does; `granted` says that no other session of the device owns buffers. */
  datatype Call =
    | CallQbuf(b: QbufArg)
    | CallStreamon
    | CallStreamoff
    | CallReqbufs(count: nat, granted: bool, gotMemory: bool)
    | CallDqbuf(arg: DqbufArg)
    | EventsArrive

  /** The event that the device sends for a completed buffer. */
  function EventFor(i: nat): (e: Event) {
    Event(i, Mmap, NO_FLAGS, BUFFER_SIZE, [])
  }

  function TokenFor(gens: seq<nat>, i: nat): (t: Token)
    requires i < |gens|
  {
    Token(i, gens[i])
  }

  predicate AllBelow(queue: seq<nat>, n: nat) {
    forall k :: 0 <= k < |queue| ==> queue[k] < n
  }

  /** The QBUFs behind the buffers in the device's FIFO. */
  function TokensOf(gens: seq<nat>, queue: seq<nat>): (r: set<Token>)
    requires AllBelow(queue, |gens|)
  {
    set k | 0 <= k < |queue| :: TokenFor(gens, queue[k])
  }

  /** The device completes the buffers in order. */
  function Completes(gens: seq<nat>, queue: seq<nat>): (acts: seq<Action>)
    requires AllBelow(queue, |gens|)
  {
    seq(|queue|, k requires 0 <= k < |queue| => Complete(TokenFor(gens, queue[k]), EventFor(queue[k])))
  }

  // ----- what the two sides do in a call

  function QbufActions(w: World, f: Face, b: QbufArg): (r: (seq<Action>, Face))
    requires Enabled(w, Qbuf(b, true))
  {
    var w1 := Apply(w, Qbuf(b, true));
    if !w1.ioctl.Marking? then ([Qbuf(b, true)], f)
    else
      var (f', ok, done) := FaceQbuf(f, b.index);
      if !ok || !AllBelow(done, |w1.gens|) then ([Qbuf(b, true), Count, Reply(false)], f')
      else ([Qbuf(b, true), Count, Accept] + (Completes(w1.gens, done) + [Reply(true)]), f')
  }

  function StreamonActions(w: World, f: Face): (r: (seq<Action>, Face))
    requires AllBelow(f.queue, |w.gens|)
  {
    var (f', ok, done) := FaceStreamon(f);
    (Completes(w.gens, done) + [QueueRuns.Streamon(ok)], f')
  }

  /** The driver drains the events delivered so far and clears the queue. */
  function CancelActions(w: World, c: Cancel): (r: seq<Action>) {
    [CancelAcked(c)] + (Delivers(|w.events|) + [ClearQueue])
  }

  function ReqbufsActions(w: World, f: Face, count: nat, granted: bool, gotMemory: bool): (r: (seq<Action>, Face)) {
    if w.q.streaming && count > 0 then ([], f)
    else
      var (f', ok) := FaceReqbufs(f, count, granted);
      if ok then (CancelActions(w, QueueRuns.Reqbufs(Mmap, f'.count, gotMemory)), f')
      else ([CancelFailed(w.device)], f)
  }

  function Actions(w: World, f: Face, c: Call): (r: (seq<Action>, Face))
    requires Linked(w, f)
  {
    match c
    case CallQbuf(b) => QbufActions(w, f, b)
    case CallStreamon => StreamonActions(w, f)
    case CallStreamoff => (CancelActions(w, QueueRuns.Streamoff), FaceStreamoff(f))
    case CallReqbufs(count, granted, gotMemory) => ReqbufsActions(w, f, count, granted, gotMemory)
    case CallDqbuf(arg) => (if w.q.pending != [] then [Dqbuf(arg)] else [], f)
    case EventsArrive => (if w.events != [] then [Deliver] else [], f)
  }

  // ----- the two sides agree

  /** The device holds exactly the QBUFs whose buffers are in its FIFO. */
  predicate Agree(w: World, f: Face) {
    && |w.gens| == |w.q.slots| <= f.count
    && w.ioctl == Idle && !w.q.mplane && (w.q.slots != [] ==> w.q.memory == Mmap)
    && NoDuplicates(f.queue) && AllBelow(f.queue, |w.gens|)
    && w.device == TokensOf(w.gens, f.queue)
    && (f.streaming ==> f.queue == [])
  }

  predicate Linked(w: World, f: Face) {
    Inv(w) && Tracked(w) && Agree(w, f)
  }

  // ----- pieces of runs

  /** The honest steps `acts` lead from `w` to `v`. */
  ghost predicate Leads(w: World, acts: seq<Action>, v: World) {
    Run(w, acts) && AllHonest(w, acts) && After(w, acts) == v
  }

  lemma LeadsCons(w: World, a: Action, acts: seq<Action>, v: World)
    requires Enabled(w, a) && Honest(w, a) && Leads(Apply(w, a), acts, v)
    ensures Leads(w, [a] + acts, v)
  {
    HonestCons(w, a, acts);
  }

  lemma LeadsOne(w: World, a: Action)
    requires Enabled(w, a) && Honest(w, a)
    ensures Leads(w, [a], Apply(w, a))
  {
    LeadsCons(w, a, [], Apply(w, a));
    assert [a] + [] == [a];
  }

  lemma LeadsConcat(w: World, a: seq<Action>, u: World, b: seq<Action>, v: World)
    requires Leads(w, a, u) && Leads(u, b, v)
    ensures Leads(w, a + b, v)
  {
    RunConcat(w, a, b);
    HonestConcat(w, a, b);
  }

  /** The world after the completions of `queue`. */
  function Completed(w: World, queue: seq<nat>): (v: World)
    requires AllBelow(queue, |w.gens|)
  {
    var sent := seq(|queue|, k requires 0 <= k < |queue| => Delivery(TokenFor(w.gens, queue[k]), EventFor(queue[k])));
    w.(device := w.device - TokensOf(w.gens, queue), events := w.events + sent)
  }

  lemma {:induction false} CompletesLead(w: World, queue: seq<nat>)
    requires Shaped(w.q) && |w.gens| == |w.q.slots| && AllBelow(queue, |w.gens|) && NoDuplicates(queue)
    requires TokensOf(w.gens, queue) <= w.device
    ensures Leads(w, Completes(w.gens, queue), Completed(w, queue))
    decreases |queue|
  {
    if queue == [] {
      assert Completed(w, queue) == w;
    } else {
      var a := Complete(TokenFor(w.gens, queue[0]), EventFor(queue[0]));
      var w1, rest := Apply(w, a), queue[1..];
      FirstCompleted(w, queue);
      CompletesLead(w1, rest);
      LeadsCons(w, a, Completes(w1.gens, rest), Completed(w1, rest));
      assert Completes(w.gens, queue) == [a] + Completes(w1.gens, rest);
    }
  }

  lemma FirstCompleted(w: World, queue: seq<nat>)
    requires |w.gens| == |w.q.slots| && Shaped(w.q) && AllBelow(queue, |w.gens|) && NoDuplicates(queue) && queue != []
    requires TokensOf(w.gens, queue) <= w.device
    ensures var a := Complete(TokenFor(w.gens, queue[0]), EventFor(queue[0]));
            && Enabled(w, a)
            && AllBelow(queue[1..], |w.gens|) && NoDuplicates(queue[1..])
            && TokensOf(w.gens, queue[1..]) <= Apply(w, a).device
            && Completed(Apply(w, a), queue[1..]) == Completed(w, queue)
  {
    var t := TokenFor(w.gens, queue[0]);
    var w1, rest := Apply(w, Complete(t, EventFor(queue[0]))), queue[1..];
    assert t in TokensOf(w.gens, queue);
    assert TokensOf(w.gens, queue) == {t} + TokensOf(w.gens, rest) by {
      TokensCons(w.gens, queue);
    }
    assert Completed(w1, rest).events == Completed(w, queue).events;
    assert Completed(w1, rest).device == Completed(w, queue).device;
  }

  lemma TokensCons(gens: seq<nat>, queue: seq<nat>)
    requires AllBelow(queue, |gens|) && queue != []
    ensures AllBelow(queue[1..], |gens|)
    ensures TokensOf(gens, queue) == {TokenFor(gens, queue[0])} + TokensOf(gens, queue[1..])
  {
    forall t | t in TokensOf(gens, queue)
      ensures t in {TokenFor(gens, queue[0])} + TokensOf(gens, queue[1..])
    {
      var k :| 0 <= k < |queue| && t == TokenFor(gens, queue[k]);
      if k > 0 {
        assert queue[1..][k - 1] == queue[k];
      }
    }
    forall t | t in TokensOf(gens, queue[1..])
      ensures t in TokensOf(gens, queue)
    {
      var k :| 0 <= k < |queue[1..]| && t == TokenFor(gens, queue[1..][k]);
      assert queue[k + 1] == queue[1..][k];
    }
  }

  lemma {:induction false} DeliversLead(w: World, n: nat) returns (v: World)
    requires Inv(w) && n <= |w.events|
    ensures Leads(w, Delivers(n), v)
    ensures v.events == w.events[n..] && v.device == w.device && v.ioctl == w.ioctl && v.gens == w.gens
    ensures |v.q.slots| == |w.q.slots| && Shaped(v.q)
    ensures v.q.mplane == w.q.mplane && v.q.memory == w.q.memory
    decreases n
  {
    if n == 0 {
      assert Delivers(0) == [];
      v := w;
    } else {
      var w1 := Apply(w, Deliver);
      DeliverKeeps(w);
      v := DeliversLead(w1, n - 1);
      LeadsCons(w, Deliver, Delivers(n - 1), v);
      DeliversCons(n);
    }
  }

  // ----- every call keeps the two sides in agreement

  /** The buffers in the device's FIFO are on the device for the driver as well. */
  lemma HeldIsActive(w: World, f: Face, k: nat)
    requires Linked(w, f) && k < |f.queue|
    ensures f.queue[k] < |w.q.slots| && w.q.slots[f.queue[k]].Active()
  {
    var t := TokenFor(w.gens, f.queue[k]);
    assert t in TokensOf(w.gens, f.queue);
    assert TokenOk(w, t);
  }

  /** A buffer that user space owns is not in the device's FIFO. */
  lemma FreeIsNotHeld(w: World, f: Face, i: nat)
    requires Linked(w, f) && i < |w.q.slots| && w.q.slots[i].Free()
    ensures i !in f.queue
  {
    forall k | 0 <= k < |f.queue|
      ensures f.queue[k] != i
    {
      HeldIsActive(w, f, k);
    }
  }

  /** One more buffer in the FIFO, by a new QBUF. */
  lemma TokensSnoc(gens: seq<nat>, queue: seq<nat>, i: nat, gen: nat)
    requires AllBelow(queue, |gens|) && i < |gens| && i !in queue
    ensures AllBelow(queue + [i], |gens|)
    ensures TokensOf(gens[i := gen], queue + [i]) == TokensOf(gens, queue) + {Token(i, gen)}
    ensures TokensOf(gens[i := gen], queue) == TokensOf(gens, queue)
  {
    var gens', queue' := gens[i := gen], queue + [i];
    assert forall k :: 0 <= k < |queue| ==>
        queue'[k] == queue[k] && TokenFor(gens', queue[k]) == TokenFor(gens, queue[k]);
    assert queue'[|queue|] == i;
    forall t | t in TokensOf(gens, queue)
      ensures t in TokensOf(gens', queue') && t in TokensOf(gens', queue)
    {
      var k :| 0 <= k < |queue| && t == TokenFor(gens, queue[k]);
      assert t == TokenFor(gens', queue'[k]) && t == TokenFor(gens', queue[k]);
    }
    assert Token(i, gen) == TokenFor(gens', queue'[|queue|]);
  }

  /** The state in which the device has taken the buffer of QBUF `b`. */
  lemma TakenByDevice(w: World, f: Face, b: QbufArg) returns (v: World)
    requires Linked(w, f) && Apply(w, Qbuf(b, true)).ioctl.Marking?
    ensures Leads(w, [Qbuf(b, true), Count, Accept], v)
    ensures v.gens == Apply(w, Qbuf(b, true)).gens
    ensures b.index < |w.gens| && v.gens == w.gens[b.index := w.nextGen] && |v.q.slots| == |w.q.slots| && Shaped(v.q)
    ensures v.device == w.device + {Token(b.index, w.nextGen)}
    ensures v.ioctl.InFlight? && v.ioctl.accepted && v.ioctl.token.slot == b.index
    ensures v.q.mplane == w.q.mplane && v.q.memory == w.q.memory
    ensures w.q.slots[b.index].Free()
  {
    var a := Qbuf(b, true);
    var w1 := Apply(w, a);
    var w2 := Apply(w1, Count);
    v := Apply(w2, Accept);
    LeadsOne(w2, Accept);
    LeadsCons(w1, Count, [Accept], v);
    LeadsCons(w, a, [Count] + [Accept], v);
    assert [a, Count, Accept] == [a] + ([Count] + [Accept]);
  }

  /** The device accepts the buffer; while streaming it completes it at once, and nothing else. */
  lemma AcceptsFree(w: World, f: Face, b: QbufArg)
    requires Linked(w, f) && b.index < |w.q.slots| && w.q.slots[b.index].Free()
    ensures b.index !in f.queue
    ensures FaceQbuf(f, b.index)
         == (f.(queue := if f.streaming then [] else f.queue + [b.index]), true, Done(f, b.index))
  {
    FreeIsNotHeld(w, f, b.index);
    assert f.streaming ==> f.queue + [b.index] == [b.index];
  }

  /** The buffers that a QBUF completes. */
  function Done(f: Face, i: nat): (r: seq<nat>) {
    if f.streaming then [i] else []
  }

  /** The completions that follow an accepted QBUF, and its reply. */
  lemma RepliesTo(u: World, done: seq<nat>) returns (v: World)
    requires Shaped(u.q) && |u.gens| == |u.q.slots| && u.ioctl.InFlight?
    requires u.ioctl.accepted && u.ioctl.token.slot < |u.q.slots|
    requires AllBelow(done, |u.gens|) && NoDuplicates(done) && TokensOf(u.gens, done) <= u.device
    ensures Leads(u, Completes(u.gens, done) + [Reply(true)], v)
    ensures v == Completed(u, done).(ioctl := Idle)
  {
    CompletesLead(u, done);
    var completed := Completed(u, done);
    v := Apply(completed, Reply(true));
    LeadsOne(completed, Reply(true));
    LeadsConcat(u, Completes(u.gens, done), completed, [Reply(true)], v);
  }

  lemma TokensOfDone(gens: seq<nat>, f: Face, i: nat, gen: nat)
    requires i < |gens| && AllBelow(Done(f, i), |gens|)
    ensures TokensOf(gens[i := gen], Done(f, i)) == if f.streaming then {Token(i, gen)} else {}
  {
    if f.streaming {
      TokensSnoc(gens, [], i, gen);
      assert [] + [i] == [i] && TokensOf(gens, []) == {};
    }
  }

  /** A QBUF that the driver sends is accepted, and the two sides agree afterwards. */
  lemma SentIsAccepted(w: World, f: Face, b: QbufArg) returns (v: World)
    requires Linked(w, f) && Apply(w, Qbuf(b, true)).ioctl.Marking?
    ensures var (acts, f') := QbufActions(w, f, b); Leads(w, acts, v) && Agree(v, f')
    ensures FaceQbuf(f, b.index).1
  {
    var i := b.index;
    var taken := TakenByDevice(w, f, b);
    AcceptsFree(w, f, b);
    TokensOfDone(w.gens, f, i, w.nextGen);
    v := RepliesTo(taken, Done(f, i));
    LeadsConcat(w, [Qbuf(b, true), Count, Accept], taken, Completes(taken.gens, Done(f, i)) + [Reply(true)], v);
    TokensSnoc(w.gens, f.queue, i, w.nextGen);
    AgreesAfterQbuf(w, f, i, v);
  }

  lemma AgreesAfterQbuf(w: World, f: Face, i: nat, v: World)
    requires Agree(w, f) && i < |w.gens| && i !in f.queue
    requires v.gens == w.gens[i := w.nextGen] && |v.q.slots| == |w.q.slots| && v.ioctl == Idle
    requires v.q.mplane == w.q.mplane && v.q.memory == w.q.memory
    requires v.device == w.device + {Token(i, w.nextGen)} - (if f.streaming then {Token(i, w.nextGen)} else {})
    ensures Agree(v, f.(queue := if f.streaming then [] else f.queue + [i]))
  {
    TokensSnoc(w.gens, f.queue, i, w.nextGen);
    assert f.streaming ==> TokensOf(v.gens, []) == {} && TokensOf(w.gens, f.queue) == {};
    assert AllBelow(f.queue + [i], |v.gens|);
  }

  /** The driver refuses a QBUF by itself. */
  lemma RefusedAgrees(w: World, f: Face, b: QbufArg)
    requires Linked(w, f) && !Apply(w, Qbuf(b, true)).ioctl.Marking?
    ensures Leads(w, [Qbuf(b, true)], Apply(w, Qbuf(b, true))) && Agree(Apply(w, Qbuf(b, true)), f)
  {
    LeadsOne(w, Qbuf(b, true));
  }

  lemma StreamonAgrees(w: World, f: Face) returns (v: World)
    requires Linked(w, f)
    ensures var (acts, f') := StreamonActions(w, f); Leads(w, acts, v) && Agree(v, f')
  {
    var (f', ok, done) := FaceStreamon(f);
    assert done == [] ==> TokensOf(w.gens, done) == {};
    CompletesLead(w, done);
    var completed := Completed(w, done);
    v := Apply(completed, QueueRuns.Streamon(ok));
    LeadsOne(completed, QueueRuns.Streamon(ok));
    LeadsConcat(w, Completes(w.gens, done), completed, [QueueRuns.Streamon(ok)], v);
    assert f'.queue == [] ==> TokensOf(v.gens, f'.queue) == {};
  }

  /** The device acknowledged a cancel: it holds nothing any more, and the driver's queue is cleared. */
  lemma CancelLeads(w: World, c: Cancel) returns (v: World)
    requires Inv(w) && Enabled(w, CancelAcked(c))
    ensures Leads(w, CancelActions(w, c), v)
    ensures v.ioctl == Idle && v.device == {} && v.events == [] && |v.gens| == |v.q.slots| && v.q.mplane == w.q.mplane
    ensures c.Streamoff? ==> |v.q.slots| == |w.q.slots| && v.q.memory == w.q.memory
    ensures c.Reqbufs? ==> v.q.memory == c.memory && |v.q.slots| <= c.count
  {
    var acked := Apply(w, CancelAcked(c));
    StepKeeps(w, CancelAcked(c));
    var drained := DeliversLead(acked, |w.events|);
    v := Apply(drained, ClearQueue);
    LeadsOne(drained, ClearQueue);
    LeadsConcat(acked, Delivers(|w.events|), drained, [ClearQueue], v);
    LeadsCons(w, CancelAcked(c), Delivers(|w.events|) + [ClearQueue], v);
  }

  lemma CancelAgrees(w: World, f: Face, c: Cancel, f': Face) returns (v: World)
    requires Linked(w, f) && Enabled(w, CancelAcked(c)) && f'.queue == []
    requires c.Streamoff? ==> f'.count == f.count
    requires c.Reqbufs? ==> c.memory == Mmap && c.count <= f'.count
    ensures Leads(w, CancelActions(w, c), v) && Agree(v, f')
  {
    v := CancelLeads(w, c);
    assert TokensOf(v.gens, []) == {};
  }

  lemma ReqbufsAgrees(w: World, f: Face, count: nat, granted: bool, gotMemory: bool) returns (v: World)
    requires Linked(w, f)
    ensures var (acts, f') := ReqbufsActions(w, f, count, granted, gotMemory); Leads(w, acts, v) && Agree(v, f')
  {
    var (f', ok) := FaceReqbufs(f, count, granted);
    if w.q.streaming && count > 0 {
      v := w;
    } else if ok {
      v := CancelAgrees(w, f, QueueRuns.Reqbufs(Mmap, f'.count, gotMemory), f');
    } else {
      v := Apply(w, CancelFailed(w.device));
      LeadsOne(w, CancelFailed(w.device));
      assert w.device * w.device == w.device;
    }
  }

  lemma SimpleAgrees(w: World, f: Face, a: Action)
    requires Linked(w, f) && Enabled(w, a) && (a == Deliver || a.Dqbuf?)
    ensures Leads(w, [a], Apply(w, a)) && Agree(Apply(w, a), f)
  {
    LeadsOne(w, a);
  }

  /** One call: an honest run, which no QBUF of the driver fails in, and the two sides agree afterwards. */
  lemma CallAgrees(w: World, f: Face, c: Call) returns (v: World)
    requires Linked(w, f)
    ensures var (acts, f') := Actions(w, f, c); Leads(w, acts, v) && Linked(v, f')
  {
    match c {
      case CallQbuf(b) =>
        if Apply(w, Qbuf(b, true)).ioctl.Marking? {
          v := SentIsAccepted(w, f, b);
        } else {
          v := Apply(w, Qbuf(b, true));
          RefusedAgrees(w, f, b);
        }
      case CallStreamon => v := StreamonAgrees(w, f);
      case CallStreamoff => v := CancelAgrees(w, f, QueueRuns.Streamoff, FaceStreamoff(f));
      case CallReqbufs(count, granted, gotMemory) => v := ReqbufsAgrees(w, f, count, granted, gotMemory);
      case CallDqbuf(arg) =>
        v := w;
        if w.q.pending != [] {
          v := Apply(w, Dqbuf(arg));
          SimpleAgrees(w, f, Dqbuf(arg));
        }
      case EventsArrive =>
        v := w;
        if w.events != [] {
          v := Apply(w, Deliver);
          SimpleAgrees(w, f, Deliver);
        }
    }
    TrackedOverRuns(w, Actions(w, f, c).0);
  }

  // ----- all calls

  lemma CallLinked(w: World, f: Face, c: Call)
    requires Linked(w, f)
    ensures var (acts, f') := Actions(w, f, c);
            Run(w, acts) && AllHonest(w, acts) && Linked(After(w, acts), f')
  {
    var v := CallAgrees(w, f, c);
  }

  /** The steps of driver and device in a sequence of calls, and where they end. */
  ghost function Together(w: World, f: Face, calls: seq<Call>): (r: (seq<Action>, World, Face))
    requires Linked(w, f)
    decreases |calls|
  {
    if calls == [] then ([], w, f)
    else
      CallLinked(w, f, calls[0]);
      var (acts, f') := Actions(w, f, calls[0]);
      var (more, v, g) := Together(After(w, acts), f', calls[1..]);
      (acts + more, v, g)
  }

  lemma {:induction false} TogetherLeads(w: World, f: Face, calls: seq<Call>)
    requires Linked(w, f)
    ensures var (acts, v, g) := Together(w, f, calls); Leads(w, acts, v) && Linked(v, g)
    decreases |calls|
  {
    if calls != [] {
      CallLinked(w, f, calls[0]);
      var (acts, f') := Actions(w, f, calls[0]);
      var w1 := After(w, acts);
      TogetherLeads(w1, f', calls[1..]);
      var (more, v, g) := Together(w1, f', calls[1..]);
      LeadsConcat(w, acts, w1, more, v);
    }
  }

  lemma {:induction false} PrefixHonest(w: World, acts: seq<Action>, k: nat)
    requires Run(w, acts) && AllHonest(w, acts) && k <= |acts|
    ensures Run(w, acts[..k]) && AllHonest(w, acts[..k])
    decreases k
  {
    if k > 0 {
      PrefixHonest(Apply(w, acts[0]), acts[1..], k - 1);
      assert acts[..k][1..] == acts[1..][..k - 1];
      HonestCons(w, acts[0], acts[..k][1..]);
      assert acts[..k] == [acts[0]] + acts[..k][1..];
    }
  }

  /**
   The driver and a session of the simple capture device, from their creation on and through any calls:
   the device keeps to what is assumed of devices, its replies can be trusted, and so at every moment
   no completion lands on a QBUF that it does not answer, and the counter is not negative.
   */
  lemma CaptureDeviceIsSafe(w: World, calls: seq<Call>, k: nat)
    requires Init(w) && !w.q.mplane
    ensures var f := Face(0, [], false);
            && Linked(w, f)
            && var acts := Together(w, f, calls).0;
            && Run(w, acts) && AllHonest(w, acts)
            && (k <= |acts| ==>
                  && Run(w, acts[..k])
                  && !Misdirected(After(w, acts[..k]))
                  && After(w, acts[..k]).q.queuedBufs >= 0)
  {
    var f := Face(0, [], false);
    NewAgrees(w, f);
    TogetherLeads(w, f, calls);
    var acts := Together(w, f, calls).0;
    if k <= |acts| {
      PrefixHonest(w, acts, k);
      GenerationSafety(w, acts[..k]);
      CounterOfHonestRuns(w, acts[..k]);
    }
  }

  lemma NewAgrees(w: World, f: Face)
    requires Init(w) && !w.q.mplane && f == Face(0, [], false)
    ensures Linked(w, f)
  {
    assert TokensOf(w.gens, f.queue) == {};
  }

  /** The device never refuses a QBUF that the driver sends it. */
  lemma NeverRefused(w: World, f: Face, b: QbufArg)
    requires Linked(w, f) && Apply(w, Qbuf(b, true)).ioctl.Marking?
    ensures FaceQbuf(f, b.index).1
  {
    var v := SentIsAccepted(w, f, b);
  }
}
