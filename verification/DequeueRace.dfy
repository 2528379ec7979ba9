/**
 Several callers of DQBUF on one queue. A caller sleeps, without the device lock, until the list is not
 empty; then it takes the lock again and removes the first buffer without looking at the list again.
 */
module DequeueRace {
  import opened QueueSpec
  import opened QueueRuns
  import opened QueueIdentity

  datatype Caller = Outside | Sleeping | Awake

  /** `undefined` says that a caller has taken from an empty list; nothing is known after that. */
  datatype State = State(w: World, callers: seq<Caller>, undefined: bool)

  datatype Step = Do(a: Action) | Begin(t: nat) | WakeUp(t: nat) | Take(t: nat, arg: DqbufArg)

  predicate IsCaller(s: State, t: nat, c: Caller) {
    t < |s.callers| && s.callers[t] == c
  }

  predicate CanStep(s: State, x: Step) {
    && !s.undefined
    && match x
       case Do(a) => !a.Dqbuf? && Enabled(s.w, a)
       case Begin(t) =>
         IsCaller(s, t, Outside) && s.w.ioctl.Idle? && !s.w.q.captureLast && s.w.q.slots != [] && s.w.q.streaming
       case WakeUp(t) => IsCaller(s, t, Sleeping) && s.w.q.pending != []
       case Take(t, arg) =>
         IsCaller(s, t, Awake) && s.w.ioctl.Idle? && (s.w.q.pending != [] ==> Enabled(s.w, Dqbuf(arg)))
  }

  function Next(s: State, x: Step): (r: State)
    requires CanStep(s, x)
  {
    match x
    case Do(a) => s.(w := Apply(s.w, a))
    case Begin(t) => s.(callers := s.callers[t := Sleeping])
    case WakeUp(t) => s.(callers := s.callers[t := Awake])
    case Take(t, arg) =>
      if s.w.q.pending == [] then s.(undefined := true)
      else s.(w := Apply(s.w, Dqbuf(arg)), callers := s.callers[t := Outside])
  }

  ghost predicate Goes(s: State, steps: seq<Step>)
    decreases |steps|
  {
    steps != [] ==> CanStep(s, steps[0]) && Goes(Next(s, steps[0]), steps[1..])
  }

  ghost function Reach(s: State, steps: seq<Step>): (r: State)
    requires Goes(s, steps)
    decreases |steps|
  {
    if steps == [] then s else Reach(Next(s, steps[0]), steps[1..])
  }

  lemma NextKeeps(s: State, x: Step)
    requires Inv(s.w) && CanStep(s, x)
    ensures Inv(Next(s, x).w)
  {
    match x
    case Do(a) => StepKeeps(s.w, a);
    case Take(_, arg) =>
      if s.w.q.pending != [] {
        StepKeeps(s.w, Dqbuf(arg));
      }
    case _ =>
  }

  lemma {:induction false} ReachKeeps(s: State, steps: seq<Step>)
    requires Inv(s.w) && Goes(s, steps)
    ensures Inv(Reach(s, steps).w)
    decreases |steps|
  {
    if steps != [] {
      NextKeeps(s, steps[0]);
      ReachKeeps(Next(s, steps[0]), steps[1..]);
    }
  }

  lemma GoesCons(s: State, x: Step, steps: seq<Step>)
    requires CanStep(s, x) && Goes(Next(s, x), steps)
    ensures Goes(s, [x] + steps) && Reach(s, [x] + steps) == Reach(Next(s, x), steps)
  {
    assert ([x] + steps)[1..] == steps;
  }

  // ----- how long the list is

  predicate Arrives(s: State, x: Step) {
    x == Do(Deliver) && s.w.events != [] && Accepts(s.w.q, s.w.events[0].event)
  }

  predicate NoClear(steps: seq<Step>) {
    forall k :: 0 <= k < |steps| ==> steps[k] != Do(ClearQueue)
  }

  /** Completions added to the list along the steps. */
  ghost function Arrivals(s: State, steps: seq<Step>): (n: nat)
    requires Goes(s, steps)
    decreases |steps|
  {
    if steps == [] then 0
    else (if Arrives(s, steps[0]) then 1 else 0) + Arrivals(Next(s, steps[0]), steps[1..])
  }

  /** Buffers that callers took. */
  function Takes(steps: seq<Step>): (n: nat) {
    if steps == [] then 0 else (if steps[0].Take? then 1 else 0) + Takes(steps[1..])
  }

  lemma ListStep(s: State, x: Step)
    requires Inv(s.w) && CanStep(s, x) && !Next(s, x).undefined && x != Do(ClearQueue)
    ensures |Next(s, x).w.q.pending|
         == |s.w.q.pending| + (if Arrives(s, x) then 1 else 0) - (if x.Take? then 1 else 0)
  {
    if x.Do? && x.a != Deliver {
      OtherActionsKeepList(s.w, x.a);
    }
  }

  lemma OtherActionsKeepList(w: World, a: Action)
    requires Enabled(w, a) && a != Deliver && a != ClearQueue && !a.Dqbuf?
    ensures Apply(w, a).q.pending == w.q.pending
  {
    match a
    case Qbuf(b, importsPrepared) => QbufKeepsList(w.q, b, importsPrepared);
    case _ =>
  }

  lemma QbufKeepsList(q: Queue, b: QbufArg, importsPrepared: bool)
    requires Shaped(q)
    ensures QbufMark(q, b, importsPrepared).0.pending == q.pending
  {
  }

  lemma {:induction false} StaysDefined(s: State, steps: seq<Step>)
    requires Goes(s, steps) && !Reach(s, steps).undefined
    ensures !s.undefined
    decreases |steps|
  {
    if steps != [] {
      StaysDefined(Next(s, steps[0]), steps[1..]);
    }
  }

  lemma {:induction false} ListLength(s: State, steps: seq<Step>)
    requires Inv(s.w) && Goes(s, steps) && NoClear(steps) && !Reach(s, steps).undefined
    ensures |Reach(s, steps).w.q.pending| == |s.w.q.pending| + Arrivals(s, steps) - Takes(steps)
    decreases |steps|
  {
    if steps != [] {
      var s' := Next(s, steps[0]);
      StaysDefined(s', steps[1..]);
      ListStep(s, steps[0]);
      NextKeeps(s, steps[0]);
      ListLength(s', steps[1..]);
    }
  }

  // ----- when a caller takes from an empty list

  /**
   Caller `t` wakes up in `s`, `mid` happens, and it takes. Without a clear in between, the list is
   empty then if and only if others have taken as many buffers as were there and have arrived.
   */
  lemma EmptyWithoutClear(s: State, t: nat, mid: seq<Step>, arg: DqbufArg)
    requires Inv(s.w) && CanStep(s, WakeUp(t)) && Goes(Next(s, WakeUp(t)), mid) && NoClear(mid)
    requires CanStep(Reach(Next(s, WakeUp(t)), mid), Take(t, arg))
    ensures var u := Next(s, WakeUp(t));
            Next(Reach(u, mid), Take(t, arg)).undefined <==> Takes(mid) == |s.w.q.pending| + Arrivals(u, mid)
  {
    ListLength(Next(s, WakeUp(t)), mid);
  }

  /** After a clear, if and only if others have taken as many as have arrived since the last clear. */
  lemma EmptyAfterClear(s: State, t: nat, before: seq<Step>, since: seq<Step>, arg: DqbufArg)
    requires Inv(s.w) && CanStep(s, WakeUp(t)) && Goes(Next(s, WakeUp(t)), before)
    requires var u := Reach(Next(s, WakeUp(t)), before);
             CanStep(u, Do(ClearQueue)) && Goes(Next(u, Do(ClearQueue)), since) && NoClear(since)
    requires var u := Reach(Next(s, WakeUp(t)), before);
             CanStep(Reach(Next(u, Do(ClearQueue)), since), Take(t, arg))
    ensures var u := Next(Reach(Next(s, WakeUp(t)), before), Do(ClearQueue));
            Next(Reach(u, since), Take(t, arg)).undefined <==> Takes(since) == Arrivals(u, since)
  {
    var v := Reach(Next(s, WakeUp(t)), before);
    ReachKeeps(Next(s, WakeUp(t)), before);
    NextKeeps(v, Do(ClearQueue));
    ListLength(Next(v, Do(ClearQueue)), since);
  }

  lemma {:induction false} NoTakes(steps: seq<Step>)
    requires forall k :: 0 <= k < |steps| ==> !steps[k].Take?
    ensures Takes(steps) == 0
  {
    if steps != [] {
      NoTakes(steps[1..]);
    }
  }

  /** So a caller that nobody overtakes, neither by a take nor by a clear, always finds a buffer. */
  lemma AloneIsDefined(s: State, t: nat, mid: seq<Step>, arg: DqbufArg)
    requires Inv(s.w) && CanStep(s, WakeUp(t)) && Goes(Next(s, WakeUp(t)), mid) && NoClear(mid)
    requires forall k :: 0 <= k < |mid| ==> !mid[k].Take?
    requires CanStep(Reach(Next(s, WakeUp(t)), mid), Take(t, arg))
    ensures !Next(Reach(Next(s, WakeUp(t)), mid), Take(t, arg)).undefined
  {
    EmptyWithoutClear(s, t, mid, arg);
    NoTakes(mid);
  }

  // ----- both do happen

  /** Two sleepers and one buffer: both wake up, and the second takes from an empty list. */
  lemma TwoCallers(s: State, t: nat, u: nat, arg: DqbufArg)
    requires Inv(s.w) && !s.undefined && t != u && IsCaller(s, t, Sleeping) && IsCaller(s, u, Sleeping)
    requires |s.w.q.pending| == 1 && s.w.ioctl.Idle?
    ensures var steps := [WakeUp(t), WakeUp(u), Take(u, arg), Take(t, arg)];
            Goes(s, steps) && Reach(s, steps).undefined
  {
    var s1 := Next(s, WakeUp(t));
    var s2 := Next(s1, WakeUp(u));
    var s3 := Next(s2, Take(u, arg));
    assert s3.w.q.pending == [] && s3.w.ioctl.Idle?;
    GoesCons(s3, Take(t, arg), []);
    GoesCons(s2, Take(u, arg), [Take(t, arg)]);
    GoesCons(s1, WakeUp(u), [Take(u, arg), Take(t, arg)]);
    GoesCons(s, WakeUp(t), [WakeUp(u), Take(u, arg), Take(t, arg)]);
    assert [WakeUp(t), WakeUp(u), Take(u, arg), Take(t, arg)]
        == [WakeUp(t)] + ([WakeUp(u)] + ([Take(u, arg)] + ([Take(t, arg)] + [])));
  }

  /** One caller: it wakes up, the queue is streamed off, and it takes from an empty list. */
  lemma StreamoffOvertakes(s: State, t: nat, arg: DqbufArg)
    requires Inv(s.w) && !s.undefined && IsCaller(s, t, Sleeping)
    requires s.w.q.pending != [] && s.w.ioctl.Idle? && s.w.events == []
    ensures var steps := [WakeUp(t), Do(CancelAcked(Streamoff)), Do(ClearQueue), Take(t, arg)];
            Goes(s, steps) && Reach(s, steps).undefined
  {
    var ack, clear := Do(CancelAcked(Streamoff)), Do(ClearQueue);
    var s1 := Next(s, WakeUp(t));
    var s2 := Next(s1, ack);
    var s3 := Next(s2, clear);
    assert s3.w.q.pending == [] && s3.w.ioctl.Idle?;
    GoesCons(s3, Take(t, arg), []);
    GoesCons(s2, clear, [Take(t, arg)]);
    GoesCons(s1, ack, [clear, Take(t, arg)]);
    GoesCons(s, WakeUp(t), [ack, clear, Take(t, arg)]);
    assert [WakeUp(t), ack, clear, Take(t, arg)] == [WakeUp(t)] + ([ack] + ([clear] + ([Take(t, arg)] + [])));
  }

  function Lift(acts: seq<Action>): (steps: seq<Step>) {
    seq(|acts|, i requires 0 <= i < |acts| => Do(acts[i]))
  }

  /** Steps of the queue alone, then others. */
  lemma {:induction false} LiftThen(s: State, acts: seq<Action>, rest: seq<Step>)
    requires !s.undefined && Run(s.w, acts) && forall k :: 0 <= k < |acts| ==> !acts[k].Dqbuf?
    requires Goes(s.(w := After(s.w, acts)), rest)
    ensures Goes(s, Lift(acts) + rest) && Reach(s, Lift(acts) + rest) == Reach(s.(w := After(s.w, acts)), rest)
    decreases |acts|
  {
    if acts == [] {
      assert Lift(acts) + rest == rest;
    } else {
      LiftThen(Next(s, Do(acts[0])), acts[1..], rest);
      GoesCons(s, Do(acts[0]), Lift(acts[1..]) + rest);
      assert Lift(acts) + rest == [Do(acts[0])] + (Lift(acts[1..]) + rest);
    }
  }

  /** A new queue, with two threads that may call DQBUF. */
  function NewState(): (s: State)
    ensures Init(s.w)
  {
    State(Fresh(), [Outside, Outside], false)
  }

  /** STREAMON, and both threads go to sleep in DQBUF. */
  const SLEEP: seq<Step> := [Do(Streamon(true)), Begin(0), Begin(1)]

  /** Both wake up and take. */
  const RACE: seq<Step> := [WakeUp(0), WakeUp(1), Take(1, NO_ARG), Take(0, NO_ARG)]

  /** One slot, allocated and free. */
  predicate Ready(s: State) {
    && s.callers == [Outside, Outside] && !s.undefined
    && OneSlot(s.w, 0, NO_FLAGS) && s.w.ioctl == Idle && s.w.q.pending == [] && !s.w.q.captureLast
  }

  function Asleep(s: State): (r: State) {
    s.(w := s.w.(q := s.w.q.(streaming := true)), callers := [Sleeping, Sleeping])
  }

  lemma ThenSleep(s: State, rest: seq<Step>)
    requires Ready(s) && !s.w.q.needsCancel && Goes(Asleep(s), rest)
    ensures Goes(s, SLEEP + rest) && Reach(s, SLEEP + rest) == Reach(Asleep(s), rest)
  {
    var s1 := Next(s, Do(Streamon(true)));
    var s2 := Next(s1, Begin(0));
    assert Next(s2, Begin(1)) == Asleep(s);
    GoesCons(s2, Begin(1), rest);
    GoesCons(s1, Begin(0), [Begin(1)] + rest);
    GoesCons(s, Do(Streamon(true)), [Begin(0)] + ([Begin(1)] + rest));
    assert SLEEP + rest == [Do(Streamon(true))] + ([Begin(0)] + ([Begin(1)] + rest));
  }

  /** While both sleep, one buffer is queued and completed; then both wake up. */
  lemma SleepersRace(s: State) returns (cycle: seq<Action>)
    requires Ready(s) && Inv(s.w)
    ensures Goes(Asleep(s), Lift(cycle) + RACE) && Reach(Asleep(s), Lift(cycle) + RACE).undefined
  {
    var u := Asleep(s);
    StepKeeps(s.w, Streamon(true));
    assert u.w == Apply(s.w, Streamon(true));
    cycle := CycleRuns(u.w, 0, 0, false, false);
    InvariantOverRuns(u.w, cycle);
    TwoCallers(u.(w := After(u.w, cycle)), 0, 1, NO_ARG);
    LiftThen(u, cycle, RACE);
  }

  /** Taking from an empty list is reachable, from a new queue with two callers. */
  lemma EmptyTakeReached() returns (steps: seq<Step>)
    ensures Goes(NewState(), steps) && Reach(NewState(), steps).undefined
  {
    Allocated();
    InvariantOverRuns(Fresh(), Allocate());
    var s := NewState().(w := After(Fresh(), Allocate()));
    var cycle := SleepersRace(s);
    ThenSleep(s, Lift(cycle) + RACE);
    LiftThen(NewState(), Allocate(), SLEEP + (Lift(cycle) + RACE));
    steps := Lift(Allocate()) + (SLEEP + (Lift(cycle) + RACE));
  }
}
