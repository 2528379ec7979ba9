/**
 Commands against queue teardown. A submitter lends the device a descriptor chain and a callback
 parameter that both live in its own stack frame, and waits for the reply, for the queues to stop,
 or for a timeout that makes it stop the queues itself. Whoever stops the queues then waits for the
 event worker and wakes those who sleep until a buffer is completed. Several submitters, removals,
 event workers and sleepers, the command callback and the device run concurrently; one action is one
 step of one of them between two points at which another may run.

 Kernel services assumed: mutual exclusion of the locks, and that deleting the virtqueues waits for
 a running callback and takes every descriptor back from the device. A sleeper cannot miss a wake-up
 between its last check and going to sleep.
 */
module CommandTeardown {
  import opened Prelude

  datatype Outcome = Replied | NoDevice | AddFailed | TornDown | Processed | Dequeued

  /**
   Program counters. `Start`..`Waiting` is a command; `Disconnecting`..`Waking` is the teardown,
   entered by a timeout or directly by the driver's removal; `WorkerStart` and `WorkerHolds` are
   the event worker; `Looking` and `Asleep` wait for a completed buffer, in DQBUF or poll(2).
   */
  datatype Pc =
    | Start
    | Locked
    | Checked
    | Waiting
    | Disconnecting
    | WantEvents
    | WantCommand
    | Stopping
    | Cancelling
    | Waking
    | Looking
    | Asleep
    | WorkerStart
    | WorkerHolds
    | Returned(outcome: Outcome)

  /**
   `exposed` are the threads whose descriptors the device may still use, `used` those it handed
   back, `callback` the one whose parameter the callback is writing, `done` those whose reply is in,
   `delivered` those that the event worker has given a buffer.
   */
  datatype State = State(
    pcs: seq<Pc>,
    disconnected: bool,
    stopped: bool,
    commandLock: Option<nat>,
    eventsLock: Option<nat>,
    exposed: set<nat>,
    used: set<nat>,
    callback: Option<nat>,
    done: set<nat>,
    delivered: set<nat>)

  datatype Action =
    | LockCommand(t: nat)
    | Check(t: nat)
    | Add(t: nat, ok: bool)
    | Wake(t: nat)
    | Timeout(t: nat)
    | Disconnect(t: nat)
    | LockEvents(t: nat)
    | LockBoth(t: nat)
    | Stop(t: nat)
    | CancelWork(t: nat)
    | WakeSleepers(t: nat)
    | Look(t: nat)
    | Deliver(t: nat, worker: nat)
    | WorkerLock(t: nat)
    | WorkerUnlock(t: nat)
    | DeviceUse(t: nat)
    | CallbackPop(t: nat)
    | CallbackWrite

  predicate At(s: State, t: nat, pc: Pc) {
    t < |s.pcs| && s.pcs[t] == pc
  }

  /** No event work is running or queued. */
  predicate NoWorker(s: State) {
    forall i :: 0 <= i < |s.pcs| ==> !s.pcs[i].WorkerStart? && !s.pcs[i].WorkerHolds?
  }

  /** Thread `t` returns from the teardown, and every sleeper looks again. */
  function Woken(pcs: seq<Pc>, t: nat): (r: seq<Pc>)
    ensures |r| == |pcs|
    ensures forall i :: 0 <= i < |pcs| ==> r[i] == if i == t then Returned(TornDown) else Stirred(pcs[i])
  {
    seq(|pcs|, i requires 0 <= i < |pcs| => if i == t then Returned(TornDown) else Stirred(pcs[i]))
  }

  function Stirred(pc: Pc): (r: Pc) {
    if pc.Asleep? then Looking else pc
  }

  predicate Enabled(s: State, a: Action) {
    match a
    case LockCommand(t) => At(s, t, Start) && s.commandLock.None?
    case Check(t) => At(s, t, Locked)
    case Add(t, _) => At(s, t, Checked)
    case Wake(t) => At(s, t, Waiting) && (t in s.done || s.stopped)
    case Timeout(t) => At(s, t, Waiting) && t !in s.done && !s.stopped
    case Disconnect(t) => At(s, t, Disconnecting)
    case LockEvents(t) => At(s, t, WantEvents) && s.eventsLock.None?
    case LockBoth(t) => At(s, t, WantCommand) && s.commandLock.None?
    case Stop(t) => At(s, t, Stopping) && (s.stopped || s.callback.None?)
    case CancelWork(t) => At(s, t, Cancelling) && NoWorker(s)
    case WakeSleepers(t) => At(s, t, Waking)
    case Look(t) => At(s, t, Looking)
    case Deliver(t, worker) => At(s, worker, WorkerHolds) && (At(s, t, Looking) || At(s, t, Asleep))
    case WorkerLock(t) => At(s, t, WorkerStart) && s.eventsLock.None?
    case WorkerUnlock(t) => At(s, t, WorkerHolds)
    case DeviceUse(t) => t in s.exposed
    case CallbackPop(t) => t in s.used && s.callback.None?
    case CallbackWrite => s.callback.Some?
  }

  function Apply(s: State, a: Action): (r: State)
    requires Enabled(s, a)
  {
    match a
    case LockCommand(t) => s.(pcs := s.pcs[t := Locked], commandLock := Some(t))
    case Check(t) =>
      if s.disconnected then s.(pcs := s.pcs[t := Returned(NoDevice)], commandLock := None)
      else s.(pcs := s.pcs[t := Checked])
    case Add(t, ok) =>
      if ok then s.(pcs := s.pcs[t := Waiting], commandLock := None, exposed := s.exposed + {t})
      else s.(pcs := s.pcs[t := Returned(AddFailed)], commandLock := None)
    case Wake(t) => s.(pcs := s.pcs[t := Returned(if s.stopped then NoDevice else Replied)])
    case Timeout(t) => s.(pcs := s.pcs[t := Disconnecting])
    case Disconnect(t) => s.(pcs := s.pcs[t := WantEvents], disconnected := true)
    case LockEvents(t) => s.(pcs := s.pcs[t := WantCommand], eventsLock := Some(t))
    case LockBoth(t) => s.(pcs := s.pcs[t := Stopping], commandLock := Some(t))
    case Stop(t) =>
      s.(pcs := s.pcs[t := Cancelling], commandLock := None, eventsLock := None,
         stopped := true,
         exposed := if s.stopped then s.exposed else {},
         used := if s.stopped then s.used else {})
    case CancelWork(t) => s.(pcs := s.pcs[t := Waking])
    case WakeSleepers(t) => s.(pcs := Woken(s.pcs, t))
    case Look(t) => s.(pcs := s.pcs[t := if s.disconnected then Returned(NoDevice) else Asleep])
    case Deliver(t, _) => s.(pcs := s.pcs[t := Returned(Dequeued)], delivered := s.delivered + {t})
    case WorkerLock(t) => s.(pcs := s.pcs[t := WorkerHolds], eventsLock := Some(t))
    case WorkerUnlock(t) => s.(pcs := s.pcs[t := Returned(Processed)], eventsLock := None)
    case DeviceUse(t) => s.(exposed := s.exposed - {t}, used := s.used + {t})
    case CallbackPop(t) => s.(used := s.used - {t}, callback := Some(t))
    case CallbackWrite => s.(callback := None, done := s.done + {s.callback.value})
  }

  ghost predicate Run(s: State, acts: seq<Action>)
    decreases |acts|
  {
    acts != [] ==> Enabled(s, acts[0]) && Run(Apply(s, acts[0]), acts[1..])
  }

  ghost function After(s: State, acts: seq<Action>): (r: State)
    requires Run(s, acts)
    decreases |acts|
  {
    if acts == [] then s else After(Apply(s, acts[0]), acts[1..])
  }

  /** Any number of submitters, removals, event workers and sleepers, none of which has begun. */
  predicate Init(s: State) {
    && (forall t :: 0 <= t < |s.pcs| ==>
          s.pcs[t] == Start || s.pcs[t] == Disconnecting || s.pcs[t] == WorkerStart || s.pcs[t] == Looking)
    && !s.disconnected && !s.stopped && s.commandLock == None && s.eventsLock == None
    && s.exposed == {} && s.used == {} && s.callback == None && s.done == {} && s.delivered == {}
  }

  // ----- the invariant

  /** The device or the callback can still reach the stack frame of thread `t`. */
  predicate Lent(s: State, t: nat) {
    t in s.exposed || t in s.used || s.callback == Some(t)
  }

  predicate InCommandLock(pc: Pc) {
    pc.Locked? || pc.Checked? || pc.Stopping?
  }

  predicate InEventsLock(pc: Pc) {
    pc.WantCommand? || pc.Stopping? || pc.WorkerHolds?
  }

  predicate Tearing(pc: Pc) {
    pc.WantEvents? || pc.WantCommand? || pc.Stopping?
  }

  /** A mutex belongs to exactly the thread that is between its lock and its unlock. */
  predicate CommandLockOk(s: State) {
    && (forall t :: 0 <= t < |s.pcs| ==> (InCommandLock(s.pcs[t]) <==> s.commandLock == Some(t)))
    && (s.commandLock.Some? ==> s.commandLock.value < |s.pcs|)
  }

  predicate EventsLockOk(s: State) {
    && (forall t :: 0 <= t < |s.pcs| ==> (InEventsLock(s.pcs[t]) <==> s.eventsLock == Some(t)))
    && (s.eventsLock.Some? ==> s.eventsLock.value < |s.pcs|)
  }

  predicate LocksOk(s: State) {
    CommandLockOk(s) && EventsLockOk(s)
  }

  ghost predicate LoansOk(s: State) {
    && (forall t: nat :: Lent(s, t) ==>
          t < |s.pcs| && t !in s.done && (s.pcs[t].Waiting? || s.pcs[t].Disconnecting? || Tearing(s.pcs[t])))
    && (forall t :: t in s.exposed ==> t !in s.used && s.callback != Some(t))
    && (forall t :: t in s.used ==> s.callback != Some(t))
    && (forall t :: t in s.done ==> t < |s.pcs| && !s.pcs[t].Start? && !s.pcs[t].Locked? && !s.pcs[t].Checked?)
  }

  predicate StopOk(s: State) {
    && (s.stopped ==> s.disconnected && s.exposed == {} && s.used == {} && s.callback == None)
    && (forall t :: 0 <= t < |s.pcs| ==>
          && (s.pcs[t].Checked? ==> !s.stopped)
          && (WillWake(s.pcs[t]) ==> s.disconnected))
  }

  /** On its way to waking the sleepers. */
  predicate WillWake(pc: Pc) {
    Tearing(pc) || pc.Cancelling? || pc.Waking?
  }

  /** Once disconnected, whoever sleeps is going to be woken. */
  ghost predicate SleepersOk(s: State) {
    s.disconnected && (exists t :: 0 <= t < |s.pcs| && s.pcs[t].Asleep?) ==>
      exists u :: 0 <= u < |s.pcs| && WillWake(s.pcs[u])
  }

  ghost predicate Inv(s: State) {
    LocksOk(s) && LoansOk(s) && StopOk(s) && SleepersOk(s)
  }

  lemma StepKeepsCommandLock(s: State, a: Action)
    requires CommandLockOk(s) && Enabled(s, a)
    ensures CommandLockOk(Apply(s, a))
  {
  }

  lemma StepKeepsEventsLock(s: State, a: Action)
    requires EventsLockOk(s) && Enabled(s, a)
    ensures EventsLockOk(Apply(s, a))
  {
  }

  /** Steps of a submitter up to the end of its wait; the rest are those of all others. */
  predicate OfSubmitter(a: Action) {
    a.LockCommand? || a.Check? || a.Add? || a.Wake? || a.Timeout?
  }

  lemma SubmitterKeepsLoans(s: State, a: Action)
    requires Inv(s) && Enabled(s, a) && OfSubmitter(a)
    ensures LoansOk(Apply(s, a))
  {
    var s' := Apply(s, a);
    forall t: nat | Lent(s', t)
      ensures t < |s'.pcs| && t !in s'.done
      ensures s'.pcs[t].Waiting? || s'.pcs[t].Disconnecting? || Tearing(s'.pcs[t])
    {
      assert Lent(s, t) || a == Add(t, true);
    }
  }

  lemma OthersKeepLoans(s: State, a: Action)
    requires Inv(s) && Enabled(s, a) && !OfSubmitter(a)
    ensures LoansOk(Apply(s, a))
  {
    var s' := Apply(s, a);
    forall t: nat | Lent(s', t)
      ensures t < |s'.pcs| && t !in s'.done
      ensures s'.pcs[t].Waiting? || s'.pcs[t].Disconnecting? || Tearing(s'.pcs[t])
    {
      assert Lent(s, t);
    }
  }

  lemma SubmitterKeepsStop(s: State, a: Action)
    requires Inv(s) && Enabled(s, a) && OfSubmitter(a)
    ensures StopOk(Apply(s, a))
  {
  }

  lemma OthersKeepStop(s: State, a: Action)
    requires Inv(s) && Enabled(s, a) && !OfSubmitter(a)
    ensures StopOk(Apply(s, a))
  {
  }

  lemma StepKeepsSleepers(s: State, a: Action)
    requires Inv(s) && Enabled(s, a)
    ensures SleepersOk(Apply(s, a))
  {
    var s' := Apply(s, a);
    if t :| 0 <= t < |s'.pcs| && s'.pcs[t].Asleep? && s'.disconnected {
      if a.Disconnect? {
        assert WillWake(s'.pcs[a.t]);
      } else {
        assert s.disconnected && s.pcs[t].Asleep? && !a.WakeSleepers?;
        var u :| 0 <= u < |s.pcs| && WillWake(s.pcs[u]);
        assert WillWake(s'.pcs[u]);
      }
    }
  }

  lemma StepKeeps(s: State, a: Action)
    requires Inv(s) && Enabled(s, a)
    ensures Inv(Apply(s, a))
  {
    StepKeepsCommandLock(s, a);
    StepKeepsEventsLock(s, a);
    StepKeepsSleepers(s, a);
    if OfSubmitter(a) {
      SubmitterKeepsLoans(s, a);
      SubmitterKeepsStop(s, a);
    } else {
      OthersKeepLoans(s, a);
      OthersKeepStop(s, a);
    }
  }

  lemma {:induction false} InvariantOverRuns(s: State, acts: seq<Action>)
    requires Inv(s) && Run(s, acts)
    ensures Inv(After(s, acts))
    decreases |acts|
  {
    if acts != [] {
      StepKeeps(s, acts[0]);
      InvariantOverRuns(Apply(s, acts[0]), acts[1..]);
    }
  }

  // ----- safety

  /**
   Command lifetime: at every moment of every interleaving, nothing reaches the stack frame of a
   thread that has returned, and what the callback writes to is a frame still in use.
   */
  lemma NoDanglingFrame(s: State, acts: seq<Action>)
    requires Init(s) && Run(s, acts)
    ensures var v := After(s, acts);
            && (forall t :: 0 <= t < |v.pcs| && v.pcs[t].Returned? ==> !Lent(v, t))
            && (v.callback.Some? ==> v.callback.value < |v.pcs| && !v.pcs[v.callback.value].Returned?)
  {
    InvariantOverRuns(s, acts);
    var v := After(s, acts);
    assert v.callback.Some? ==> Lent(v, v.callback.value);
  }

  /** No command is added once the queues are stopped, and from then on nothing is lent any more. */
  lemma NoCommandAfterStop(s: State, acts: seq<Action>, t: nat, ok: bool)
    requires Init(s) && Run(s, acts)
    ensures var v := After(s, acts);
            v.stopped ==> !Enabled(v, Add(t, ok)) && !Lent(v, t)
  {
    InvariantOverRuns(s, acts);
  }

  // ----- every waiter is released

  /** A sleeper that looks again after the disconnection does not go back to sleep. */
  function Rank(s: State, pc: Pc): (n: nat) {
    match pc
    case Start => 14
    case Locked => 13
    case Checked => 12
    case Waiting => 8
    case Disconnecting => 7
    case WantEvents => 6
    case WantCommand => 5
    case Stopping => 4
    case Cancelling => 2
    case Waking => 1
    case Looking => if s.disconnected then 1 else 3
    case Asleep => 2
    case WorkerStart => 2
    case WorkerHolds => 1
    case Returned(_) => 0
  }

  function LoanRank(s: State, t: nat): (n: nat) {
    if t in s.exposed then 3 else if t in s.used then 2 else if s.callback == Some(t) then 1 else 0
  }

  /** Steps that the first `n` threads, and the device and callback on their behalf, can still make. */
  function StepsLeft(s: State, n: nat): (r: nat)
    requires n <= |s.pcs|
  {
    if n == 0 then 0 else StepsLeft(s, n - 1) + Left(s, n - 1)
  }

  lemma {:induction false} StepsLeftDecreases(s: State, s': State, t: nat, n: nat)
    requires n <= |s.pcs| == |s'.pcs|
    requires forall i :: 0 <= i < n ==> Left(s', i) <= Left(s, i)
    requires t < n ==> Left(s', t) < Left(s, t)
    ensures StepsLeft(s', n) <= StepsLeft(s, n)
    ensures t < n ==> StepsLeft(s', n) < StepsLeft(s, n)
  {
    if n > 0 {
      StepsLeftDecreases(s, s', t, n - 1);
    }
  }

  function Actor(s: State, a: Action): (t: nat)
    requires Enabled(s, a)
  {
    if a.CallbackWrite? then s.callback.value else a.t
  }

  /** What thread `t`, and the device and callback on its behalf, can still do. */
  function Left(s: State, t: nat): (n: nat)
    requires t < |s.pcs|
  {
    Rank(s, s.pcs[t]) + LoanRank(s, t)
  }

  lemma OthersRank(s: State, a: Action, i: nat)
    requires Inv(s) && Enabled(s, a) && i < |s.pcs| && i != Actor(s, a)
    ensures i < |Apply(s, a).pcs| && Left(Apply(s, a), i) <= Left(s, i)
  {
    var s' := Apply(s, a);
    assert s'.pcs[i] == s.pcs[i] || (a.WakeSleepers? && s.pcs[i].Asleep? && s'.pcs[i].Looking?);
    assert LoanRank(s', i) <= LoanRank(s, i);
    assert a.WakeSleepers? ==> WillWake(s.pcs[a.t]) && s'.disconnected;
  }

  lemma LoanStepRank(s: State, a: Action)
    requires Inv(s) && Enabled(s, a) && (a.DeviceUse? || a.CallbackPop? || a.CallbackWrite?) && Actor(s, a) < |s.pcs|
    ensures Left(Apply(s, a), Actor(s, a)) < Left(s, Actor(s, a))
  {
  }

  lemma ThreadStepRank(s: State, a: Action)
    requires Inv(s) && Enabled(s, a) && !(a.DeviceUse? || a.CallbackPop? || a.CallbackWrite?)
    ensures a.t < |Apply(s, a).pcs| == |s.pcs| && Left(Apply(s, a), a.t) < Left(s, a.t)
  {
    var s' := Apply(s, a);
    assert LoanRank(s', a.t) <= LoanRank(s, a.t) || (a.Add? && LoanRank(s', a.t) <= LoanRank(s, a.t) + 3);
    assert Rank(s', s'.pcs[a.t]) < Rank(s, s.pcs[a.t]);
  }

  lemma StepConsumes(s: State, a: Action)
    requires Inv(s) && Enabled(s, a)
    ensures var s' := Apply(s, a);
            |s'.pcs| == |s.pcs| && StepsLeft(s', |s.pcs|) < StepsLeft(s, |s.pcs|)
  {
    var t := Actor(s, a);
    assert a.DeviceUse? || a.CallbackPop? || a.CallbackWrite? ==> Lent(s, t);
    if a.DeviceUse? || a.CallbackPop? || a.CallbackWrite? {
      LoanStepRank(s, a);
    } else {
      ThreadStepRank(s, a);
    }
    forall i | 0 <= i < |s.pcs| && i != t {
      OthersRank(s, a, i);
    }
    StepsLeftDecreases(s, Apply(s, a), t, |s.pcs|);
  }

  /** Every run ends: it has no more steps than the initial state has left. */
  lemma {:induction false} RunsAreFinite(s: State, acts: seq<Action>)
    requires Inv(s) && Run(s, acts)
    ensures |acts| <= StepsLeft(s, |s.pcs|)
    decreases |acts|
  {
    if acts != [] {
      StepConsumes(s, acts[0]);
      StepKeeps(s, acts[0]);
      RunsAreFinite(Apply(s, acts[0]), acts[1..]);
    }
  }

  /** Steps that need the device: taking a command, or completing a buffer. */
  predicate NeedsDevice(a: Action) {
    a.DeviceUse? || a.Deliver?
  }

  /** Sleeping until a buffer is completed, with nothing that would end the sleep. */
  predicate SleepsOn(s: State, pc: Pc) {
    pc.Asleep? && !s.disconnected
  }

  /** Some thread or the callback can move, without any help from the device. */
  lemma SomeoneCanMove(s: State, t: nat) returns (a: Action)
    requires Inv(s) && t < |s.pcs| && !s.pcs[t].Returned? && !SleepsOn(s, s.pcs[t])
    ensures Enabled(s, a) && !NeedsDevice(a)
  {
    if s.callback.Some? {
      return CallbackWrite;
    }
    if s.commandLock.Some? {
      a := MoveCommandHolder(s, s.commandLock.value);
      return;
    }
    if s.eventsLock.Some? {
      var h := s.eventsLock.value;
      return if s.pcs[h].WorkerHolds? then WorkerUnlock(h) else LockBoth(h);
    }
    var u := t;
    if s.pcs[t].Asleep? {
      u :| 0 <= u < |s.pcs| && WillWake(s.pcs[u]);
    }
    a := MoveUnlocked(s, u);
  }

  /** With all locks free, a thread that is not asleep can move, or the worker it waits for can. */
  lemma MoveUnlocked(s: State, t: nat) returns (a: Action)
    requires Inv(s) && s.commandLock.None? && s.eventsLock.None?
    requires t < |s.pcs| && !s.pcs[t].Returned? && !s.pcs[t].Asleep?
    ensures Enabled(s, a) && !NeedsDevice(a)
  {
    assert forall i :: 0 <= i < |s.pcs| ==> !InCommandLock(s.pcs[i]) && !InEventsLock(s.pcs[i]);
    if s.pcs[t].Cancelling? && !NoWorker(s) {
      var w :| 0 <= w < |s.pcs| && s.pcs[w].WorkerStart?;
      return WorkerLock(w);
    }
    a := if s.pcs[t].Start? then LockCommand(t)
         else if s.pcs[t].Waiting? then (if t in s.done || s.stopped then Wake(t) else Timeout(t))
         else if s.pcs[t].Disconnecting? then Disconnect(t)
         else if s.pcs[t].WantEvents? then LockEvents(t)
         else if s.pcs[t].Cancelling? then CancelWork(t)
         else if s.pcs[t].Waking? then WakeSleepers(t)
         else if s.pcs[t].Looking? then Look(t)
         else WorkerLock(t);
  }

  lemma MoveCommandHolder(s: State, h: nat) returns (a: Action)
    requires Inv(s) && s.callback.None? && s.commandLock == Some(h)
    ensures Enabled(s, a) && !NeedsDevice(a)
  {
    assert InCommandLock(s.pcs[h]);
    match s.pcs[h]
    case Locked => return Check(h);
    case Checked => return Add(h, true);
    case Stopping => return Stop(h);
  }

  /**
   Every waiter is released: runs are finite, and one that cannot be continued, even if the device
   never answers, has brought every thread to its return. Only if nobody has disconnected the device
   may a thread still sleep until a buffer is completed.
   */
  lemma EveryWaiterReleased(s: State, acts: seq<Action>)
    requires Init(s) && Run(s, acts)
    requires forall a: Action :: Enabled(After(s, acts), a) ==> NeedsDevice(a)
    ensures var v := After(s, acts);
            forall t :: 0 <= t < |v.pcs| ==> v.pcs[t].Returned? || SleepsOn(v, v.pcs[t])
  {
    InvariantOverRuns(s, acts);
    var v := After(s, acts);
    forall t | 0 <= t < |v.pcs|
      ensures v.pcs[t].Returned? || SleepsOn(v, v.pcs[t])
    {
      if !v.pcs[t].Returned? && !SleepsOn(v, v.pcs[t]) {
        var a := SomeoneCanMove(v, t);
      }
    }
  }
}
