/**
 What the threads of the teardown protocol return, and that it is true.
 */
module CommandOutcomes {
  import opened Prelude
  import opened CommandTeardown

  // ----- an outcome is the truth

  /** A reply or a buffer is reported only to those who got one, and a missing device only if it is gone. */
  predicate OutcomesOk(s: State) {
    forall t :: 0 <= t < |s.pcs| ==> OutcomeOk(s, s.pcs[t], t)
  }

  predicate OutcomeOk(s: State, pc: Pc, t: nat) {
    && (pc == Returned(Replied) ==> t in s.done)
    && (pc == Returned(Dequeued) <==> t in s.delivered)
    && (pc == Returned(NoDevice) ==> s.disconnected)
    && (TornDownOrNearly(pc) || pc.Cancelling? ==> s.stopped)
  }

  predicate TornDownOrNearly(pc: Pc) {
    pc == Returned(TornDown) || pc.Waking?
  }

  lemma SubmitterKeepsOutcome(s: State, a: Action, t: nat)
    requires OfSubmitter(a) && Enabled(s, a) && t < |s.pcs| && OutcomeOk(s, s.pcs[t], t)
    requires s.stopped ==> s.disconnected
    ensures t < |Apply(s, a).pcs| && OutcomeOk(Apply(s, a), Apply(s, a).pcs[t], t)
  {
  }

  lemma OthersKeepOutcome(s: State, a: Action, t: nat)
    requires !OfSubmitter(a) && Enabled(s, a) && t < |s.pcs| && OutcomeOk(s, s.pcs[t], t)
    ensures t < |Apply(s, a).pcs| && OutcomeOk(Apply(s, a), Apply(s, a).pcs[t], t)
  {
  }

  lemma StepKeepsOutcomes(s: State, a: Action)
    requires Inv(s) && OutcomesOk(s) && Enabled(s, a)
    ensures OutcomesOk(Apply(s, a))
  {
    forall t | 0 <= t < |Apply(s, a).pcs|
      ensures OutcomeOk(Apply(s, a), Apply(s, a).pcs[t], t)
    {
      if OfSubmitter(a) {
        SubmitterKeepsOutcome(s, a, t);
      } else {
        OthersKeepOutcome(s, a, t);
      }
    }
  }

  /** Whoever has waited for the event worker leaves none behind. */
  predicate WorkersOk(s: State) {
    (exists t :: 0 <= t < |s.pcs| && TornDownOrNearly(s.pcs[t])) ==> NoWorker(s)
  }

  lemma StepKeepsWorkers(s: State, a: Action)
    requires WorkersOk(s) && Enabled(s, a)
    ensures WorkersOk(Apply(s, a))
  {
    var s' := Apply(s, a);
    if t :| 0 <= t < |s'.pcs| && TornDownOrNearly(s'.pcs[t]) {
      assert TornDownOrNearly(s.pcs[t]) || a == CancelWork(t);
      assert NoWorker(s);
    }
  }

  /** Until the queues stop, a command that is waited for is with the device or the callback, or answered. */
  predicate WaitersOk(s: State) {
    forall t :: 0 <= t < |s.pcs| && s.pcs[t].Waiting? && !s.stopped ==> Lent(s, t) || t in s.done
  }

  lemma StepKeepsWaiters(s: State, a: Action)
    requires WaitersOk(s) && Enabled(s, a)
    ensures WaitersOk(Apply(s, a))
  {
    var s' := Apply(s, a);
    forall t | 0 <= t < |s'.pcs| && s'.pcs[t].Waiting? && !s'.stopped
      ensures Lent(s', t) || t in s'.done
    {
      assert s.pcs[t].Waiting? || a == Add(t, true);
    }
  }

  lemma {:induction false} TruthOverRuns(s: State, acts: seq<Action>)
    requires Inv(s) && OutcomesOk(s) && WorkersOk(s) && WaitersOk(s) && Run(s, acts)
    ensures var v := After(s, acts); OutcomesOk(v) && WorkersOk(v) && WaitersOk(v)
    decreases |acts|
  {
    if acts != [] {
      StepKeeps(s, acts[0]);
      StepKeepsOutcomes(s, acts[0]);
      StepKeepsWorkers(s, acts[0]);
      StepKeepsWaiters(s, acts[0]);
      TruthOverRuns(Apply(s, acts[0]), acts[1..]);
    }
  }

  /**
   In every run: a thread that returns a reply has got one, one that returns a buffer was given one, one
   that returns that there is no device does so after a disconnection, and one that returns from a
   teardown leaves stopped queues and no event work. Until the queues stop no command is lost. At the end
   of its wait a submitter returns its reply if and only if the queues have not been stopped.
   */
  lemma Outcomes(s: State, acts: seq<Action>, t: nat)
    requires Init(s) && Run(s, acts)
    ensures var v := After(s, acts); OutcomesOk(v) && WorkersOk(v) && WaitersOk(v)
    ensures var v := After(s, acts);
            Enabled(v, Wake(t)) ==>
              && (Apply(v, Wake(t)).pcs[t] == Returned(Replied) <==> !v.stopped)
              && (Apply(v, Wake(t)).pcs[t] == Returned(NoDevice) <==> v.stopped)
              && (!v.stopped ==> t in v.done)
  {
    TruthOverRuns(s, acts);
  }

  // ----- what a thread may return

  datatype Role = Submitter | Teardown | Worker | Sleeper

  predicate TearsDown(pc: Pc) {
    pc.Disconnecting? || WillWake(pc) || pc == Returned(TornDown)
  }

  /** The thread is somewhere in the code of its role, or has returned with an outcome of that role. */
  predicate Plays(pc: Pc, role: Role) {
    match role
    case Submitter =>
      || pc.Start? || pc.Locked? || pc.Checked? || pc.Waiting? || TearsDown(pc)
      || pc == Returned(Replied) || pc == Returned(NoDevice) || pc == Returned(AddFailed)
    case Teardown => TearsDown(pc)
    case Worker => pc.WorkerStart? || pc.WorkerHolds? || pc == Returned(Processed)
    case Sleeper => pc.Looking? || pc.Asleep? || pc == Returned(NoDevice) || pc == Returned(Dequeued)
  }

  /** A command that is not on the queue yet, or was refused for want of a device. */
  predicate Refused(pc: Pc) {
    pc.Start? || pc.Locked? || pc == Returned(NoDevice)
  }

  lemma TeardownStays(s: State, a: Action, t: nat)
    requires Enabled(s, a) && t < |s.pcs| && TearsDown(s.pcs[t])
    ensures |Apply(s, a).pcs| == |s.pcs| && TearsDown(Apply(s, a).pcs[t])
  {
  }

  lemma CommandStays(s: State, a: Action, t: nat)
    requires Enabled(s, a) && t < |s.pcs| && Plays(s.pcs[t], Submitter) && !TearsDown(s.pcs[t])
    ensures |Apply(s, a).pcs| == |s.pcs| && Plays(Apply(s, a).pcs[t], Submitter)
  {
  }

  lemma EventSideStays(s: State, a: Action, t: nat, role: Role)
    requires Enabled(s, a) && t < |s.pcs| && (role == Worker || role == Sleeper) && Plays(s.pcs[t], role)
    ensures |Apply(s, a).pcs| == |s.pcs| && Plays(Apply(s, a).pcs[t], role)
  {
  }

  lemma StepKeepsRole(s: State, a: Action, t: nat, role: Role)
    requires Enabled(s, a) && t < |s.pcs| && Plays(s.pcs[t], role)
    ensures |Apply(s, a).pcs| == |s.pcs| && Plays(Apply(s, a).pcs[t], role)
  {
    if TearsDown(s.pcs[t]) {
      TeardownStays(s, a, t);
    } else if role == Submitter {
      CommandStays(s, a, t);
    } else {
      EventSideStays(s, a, t, role);
    }
  }

  lemma StepKeepsRefused(s: State, a: Action, t: nat)
    requires Enabled(s, a) && t < |s.pcs| && s.disconnected && Refused(s.pcs[t])
    ensures var v := Apply(s, a); v.disconnected && t < |v.pcs| && Refused(v.pcs[t])
  {
  }

  /**
   Over any steps: a command ends with its reply, ENODEV, the error of adding it, or, timed out, after
   tearing the device down; a removal after tearing it down; a worker after processing its events; a
   sleeper with a buffer or ENODEV. A command that begins after the disconnection ends with ENODEV.
   */
  lemma {:induction false} RolesOverRuns(s: State, acts: seq<Action>, t: nat, role: Role)
    requires Run(s, acts) && t < |s.pcs| && Plays(s.pcs[t], role)
    ensures var v := After(s, acts);
            && t < |v.pcs| && Plays(v.pcs[t], role)
            && (s.disconnected && Refused(s.pcs[t]) ==> Refused(v.pcs[t]))
    decreases |acts|
  {
    if acts != [] {
      StepKeepsRole(s, acts[0], t, role);
      if s.disconnected && Refused(s.pcs[t]) {
        StepKeepsRefused(s, acts[0], t);
      }
      RolesOverRuns(Apply(s, acts[0]), acts[1..], t, role);
    }
  }
}
