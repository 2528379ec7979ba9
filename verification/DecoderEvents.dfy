/**
 What the client of a decoding session gets to see: every event queued is delivered in order, except the
 frame completions that were waiting when the output buffers were cleared.
 */
module DecoderEvents {
  import opened Prelude
  import opened DecoderSpec
  import opened DecoderRuns

  /** The events of the log with the given fate, in order. */
  function Having(log: seq<Entry>, fate: Fate): (r: seq<Event>) {
    if log == [] then []
    else (if log[0].fate == fate then [log[0].event] else []) + Having(log[1..], fate)
  }

  /** The events of the log that were not dropped, in order. */
  function Kept(log: seq<Entry>): (r: seq<Event>) {
    if log == [] then []
    else (if log[0].fate != Dropped then [log[0].event] else []) + Kept(log[1..])
  }

  /** No event is taken before an older one that still waits. */
  predicate TakenFirst(log: seq<Entry>) {
    forall i, j :: 0 <= i < j < |log| && log[i].fate == Unread ==> log[j].fate != Taken
  }

  predicate OnlyFramesDropped(log: seq<Entry>) {
    forall k :: 0 <= k < |log| && log[k].fate == Dropped ==> log[k].event.FrameCompleted?
  }

  // ----- what events tell

  function Inputs(events: seq<Event>): (r: seq<nat>) {
    if events == [] then []
    else (if events[0].InputBufferDone? then [events[0].index] else []) + Inputs(events[1..])
  }

  function Frames(events: seq<Event>): (r: seq<nat>) {
    if events == [] then []
    else
      var n := |events| - 1;
      Frames(events[..n]) +
      (if events[n].FrameCompleted? && events[n].frame.Some? then [events[n].frame.value] else [])
  }

  function Lasts(events: seq<Event>): (r: nat) {
    if events == [] then 0
    else
      var n := |events| - 1;
      Lasts(events[..n]) + (if events[n].FrameCompleted? && events[n].frame.None? then 1 else 0)
  }

  function Buffers(events: seq<Event>): (r: multiset<nat>) {
    if events == [] then multiset{}
    else
      var n := |events| - 1;
      Buffers(events[..n]) + (if events[n].FrameCompleted? then multiset{events[n].buffer} else multiset{})
  }

  function AllEvents(log: seq<Entry>): (r: seq<Event>) {
    seq(|log|, k requires 0 <= k < |log| => log[k].event)
  }

  /** The history counts exactly what the events ever queued tell. */
  ghost predicate Counted(h: History) {
    var all := AllEvents(h.log);
    h.done == Inputs(all) && h.shown == Frames(all) && h.lasts == Lasts(all) && h.completed == Buffers(all)
  }

  ghost predicate EventsOk(w: World) {
    && w.s.events == Having(w.h.log, Unread)
    && w.h.taken == Having(w.h.log, Taken)
    && TakenFirst(w.h.log) && OnlyFramesDropped(w.h.log)
    && Counted(w.h)
  }

  // ----- lemmas about logs

  lemma {:induction false} HavingSnoc(log: seq<Entry>, x: Entry, fate: Fate)
    ensures Having(log + [x], fate) == Having(log, fate) + (if x.fate == fate then [x.event] else [])
  {
    var all := log + [x];
    if log == [] {
      assert all[1..] == [];
    } else {
      HavingSnoc(log[1..], x, fate);
      assert all[1..] == log[1..] + [x] && all[0] == log[0];
      var first := if log[0].fate == fate then [log[0].event] else [];
      var last := if x.fate == fate then [x.event] else [];
      var middle := Having(log[1..], fate);
      assert Having(all, fate) == first + (middle + last);
      assert first + (middle + last) == (first + middle) + last;
    }
  }

  lemma {:induction false} NoneHaving(log: seq<Entry>, fate: Fate)
    requires forall k :: 0 <= k < |log| ==> log[k].fate != fate
    ensures Having(log, fate) == []
  {
    if log != [] {
      NoneHaving(log[1..], fate);
    }
  }

  /** What was taken, then what waits, is what was not dropped. */
  lemma {:induction false} KeptSplits(log: seq<Entry>)
    requires TakenFirst(log)
    ensures Kept(log) == Having(log, Taken) + Having(log, Unread)
  {
    if log != [] {
      KeptSplits(log[1..]);
      if log[0].fate == Unread {
        NoneHaving(log[1..], Taken);
      }
    }
  }

  /** Taking an event changes the fate of that one only. */
  lemma {:induction false} TakeFirstEntries(log: seq<Entry>)
    ensures var log' := TakeFirst(log);
            && |log'| == |log|
            && forall k :: 0 <= k < |log| ==>
                 && log'[k].event == log[k].event
                 && (log'[k].fate == log[k].fate || (log[k].fate == Unread && log'[k].fate == Taken))
  {
    if log != [] && log[0].fate != Unread {
      TakeFirstEntries(log[1..]);
    }
  }

  lemma {:induction false} FirstTaken(log: seq<Entry>)
    requires TakenFirst(log) && Having(log, Unread) != []
    ensures var log' := TakeFirst(log);
            && Having(log', Unread) == Having(log, Unread)[1..]
            && Having(log', Taken) == Having(log, Taken) + [Having(log, Unread)[0]]
            && TakenFirst(log')
  {
    var log' := TakeFirst(log);
    TakeFirstEntries(log);
    if log[0].fate == Unread {
      NoneHaving(log[1..], Taken);
      assert log'[1..] == log[1..];
    } else {
      FirstTaken(log[1..]);
      assert log'[1..] == TakeFirst(log[1..]) && log'[0] == log[0];
      assert forall k :: 0 < k < |log| ==> log'[k] == log'[1..][k - 1] && log[k] == log[1..][k - 1];
    }
  }

  lemma NotFramesCons(e: Event, rest: seq<Event>)
    ensures NotFrames([e] + rest) == (if e.FrameCompleted? then [] else [e]) + NotFrames(rest)
  {
    assert ([e] + rest)[1..] == rest;
  }

  lemma {:induction false} FramesDropped(log: seq<Entry>)
    ensures Having(DropWaiting(log), Unread) == NotFrames(Having(log, Unread))
    ensures Having(DropWaiting(log), Taken) == Having(log, Taken)
  {
    var log' := DropWaiting(log);
    if log != [] {
      FramesDropped(log[1..]);
      assert log'[1..] == DropWaiting(log[1..]);
      NotFramesCons(log[0].event, Having(log[1..], Unread));
      assert [] + Having(log[1..], Unread) == Having(log[1..], Unread);
    }
  }

  // ----- every call keeps it

  /** Nothing that the client could notice has changed. */
  predicate SameEvents(w: World, v: World) {
    && v.s.events == w.s.events && v.h.log == w.h.log && v.h.taken == w.h.taken
    && v.h.done == w.h.done && v.h.shown == w.h.shown && v.h.lasts == w.h.lasts && v.h.completed == w.h.completed
  }

  lemma EmitKeepsEvents(w: World, e: Event)
    requires EventsOk(w)
    ensures EventsOk(Emit(w, e))
  {
    var x := Entry(e, Unread);
    HavingSnoc(w.h.log, x, Unread);
    HavingSnoc(w.h.log, x, Taken);
    RecordCounts(w.h, e);
    RecordLogs(w.h, e);
    assert Having(w.h.log, Taken) + [] == Having(w.h.log, Taken);
  }

  lemma RecordLogs(h: History, e: Event)
    ensures Record(h, e).log == h.log + [Entry(e, Unread)] && Record(h, e).taken == h.taken
  {
  }

  lemma {:induction false} InputsSnoc(events: seq<Event>, e: Event)
    ensures Inputs(events + [e]) == Inputs(events) + (if e.InputBufferDone? then [e.index] else [])
  {
    if events == [] {
      assert events + [e] == [e];
    } else {
      InputsSnoc(events[1..], e);
      assert (events + [e])[1..] == events[1..] + [e] && (events + [e])[0] == events[0];
    }
  }

  lemma RecordCounts(h: History, e: Event)
    requires Counted(h)
    ensures Counted(Record(h, e))
  {
    var n := |h.log|;
    var all := AllEvents(Record(h, e).log);
    assert all[..n] == AllEvents(h.log) && all[n] == e && |all| == n + 1;
    if !e.FrameCompleted? || e.frame.None? {
      assert Frames(all[..n]) + [] == h.shown;
    }
    assert all == all[..n] + [e];
    InputsSnoc(all[..n], e);
  }

  /** One attempt of the work loop queues one event or none. */
  ghost predicate AtMostOne(w: World, v: World) {
    SameEvents(w, v) || exists u, e :: SameEvents(w, u) && SameEvents(Emit(u, e), v)
  }

  lemma AtMostOneKeeps(w: World, v: World)
    requires EventsOk(w) && AtMostOne(w, v)
    ensures EventsOk(v)
  {
    if !SameEvents(w, v) {
      var u, e :| SameEvents(w, u) && SameEvents(Emit(u, e), v);
      EmitKeepsEvents(u, e);
    }
  }

  lemma SendQueues(w: World)
    ensures AtMostOne(w, TrySend(w).0)
  {
    if w.s.jobs != [] && w.s.jobs[0].Decode? {
      var rest, p := w.s.jobs[1..], w.s.jobs[0].packet;
      var u :=
        if p.verdict == Accepted
        then World(w.s.(jobs := rest, codec := w.s.codec.(ready := w.s.codec.ready + p.results)),
                   w.h.(produced := w.h.produced + p.results))
        else World(w.s.(jobs := rest), w.h);
      assert SameEvents(w, u);
      assert SameEvents(w, TrySend(w).0) || SameEvents(Emit(u, InputBufferDone(w.s.jobs[0].index)), TrySend(w).0);
    }
  }

  lemma HoldQueues(w: World, f: Frame)
    ensures AtMostOne(w, Hold(w, f))
  {
    if f.format != w.s.format {
      var u := World(w.s.(held := Some(f), format := f.format, accepting := false, available := []),
                     w.h.(discarded := w.h.discarded + multiset(w.s.available)));
      assert SameEvents(w, u) && SameEvents(Emit(u, StreamFormatChanged), Hold(w, f));
    }
  }

  lemma ReadQueues(w: World)
    requires w.s.codec.ready != []
    ensures AtMostOne(w, Read(w).0)
  {
    var x := w.s.codec.ready[0];
    var w1 := World(w.s.(codec := w.s.codec.(ready := w.s.codec.ready[1..])), w.h.(consumed := w.h.consumed + [x]));
    if x.Picture? {
      HoldQueues(w1, x.frame);
      if !SameEvents(w1, Hold(w1, x.frame)) {
        var u, e :| SameEvents(w1, u) && SameEvents(Emit(u, e), Hold(w1, x.frame));
        assert SameEvents(w, u);
      }
    }
  }

  lemma ReceiveQueues(w: World)
    ensures AtMostOne(w, TryReceive(w).0)
    decreases !w.s.codec.flushed
  {
    if w.s.held.None? {
      if w.s.codec.ready != [] {
        ReadQueues(w);
      } else if !w.s.codec.flushed && w.s.drain == Initiated && w.s.codec.flushOk {
        var f := Flush(w);
        ReceiveQueues(f);
        assert SameEvents(w, f) && TryReceive(w) == TryReceive(f);
        if !SameEvents(f, TryReceive(f).0) {
          var u, e :| SameEvents(f, u) && SameEvents(Emit(u, e), TryReceive(f).0);
          assert SameEvents(w, u);
        }
      }
    }
  }

  lemma OutputQueues(w: World)
    ensures AtMostOne(w, TryOutput(w).0)
  {
    if w.s.available != [] {
      var rest := w.s.available[1..];
      if w.s.drain == AwaitingFinal {
        var u := World(w.s.(available := rest, drain := NoDrain), w.h);
        assert SameEvents(w, u);
        assert SameEvents(w, TryOutput(w).0)
            || SameEvents(Emit(u, FrameCompleted(w.s.available[0], None)), TryOutput(w).0);
      } else if w.s.held.Some? {
        var u := World(w.s.(available := rest, held := None), w.h);
        var e := FrameCompleted(w.s.available[0], Some(w.s.held.value.id));
        assert SameEvents(w, u);
        assert SameEvents(w, TryOutput(w).0) || SameEvents(Emit(u, e), TryOutput(w).0);
      }
    }
  }

  lemma TurnKeepsEvents(w: World)
    requires EventsOk(w)
    ensures EventsOk(Turn(w).0)
  {
    OutputQueues(w);
    AtMostOneKeeps(w, TryOutput(w).0);
    var w1 := TryOutput(w).0;
    ReceiveQueues(w1);
    AtMostOneKeeps(w1, TryReceive(w1).0);
    var w2 := TryReceive(w1).0;
    SendQueues(w2);
    AtMostOneKeeps(w2, TrySend(w2).0);
  }

  lemma {:induction false} WorkKeepsEvents(w: World)
    requires EventsOk(w) && CodecOk(w.s.codec)
    ensures EventsOk(Work(w).0)
    decreases |w.s.jobs|, ResultsLeft(w.s.codec), DrainRank(w.s.drain), |w.s.available|
  {
    TurnKeepsEvents(w);
    TurnConsumes(w);
    if Turn(w).1 == Progress {
      WorkKeepsEvents(Turn(w).0);
    }
  }

  lemma SameKeepsEvents(w: World, v: World)
    requires EventsOk(w) && SameEvents(w, v)
    ensures EventsOk(v)
  {
  }

  lemma TakingKeepsEvents(w: World)
    requires EventsOk(w)
    ensures EventsOk(NextEvent(w).0)
  {
    if w.s.events != [] {
      FirstTaken(w.h.log);
      TakeFirstEntries(w.h.log);
      assert AllEvents(TakeFirst(w.h.log)) == AllEvents(w.h.log);
    }
  }

  lemma ClearingKeepsEvents(w: World)
    requires EventsOk(w)
    ensures EventsOk(ClearOutputBuffers(w))
  {
    FramesDropped(w.h.log);
    assert AllEvents(DropWaiting(w.h.log)) == AllEvents(w.h.log);
  }

  lemma CallKeepsEvents(w: World, c: Call)
    requires EventsOk(w) && CodecOk(w.s.codec)
    ensures EventsOk(Apply(w, c))
  {
    match c
    case CallDecode(index, packet) =>
      SameKeepsEvents(w, Submitted(w, index, packet));
      WorkKeepsEvents(Submitted(w, index, packet));
    case CallDrain =>
      if w.s.hasContext {
        SameKeepsEvents(w, World(w.s.(jobs := w.s.jobs + [Drain]), w.h));
        WorkKeepsEvents(World(w.s.(jobs := w.s.jobs + [Drain]), w.h));
      }
    case CallUseAsOutput(index) => SameKeepsEvents(w, UseAsOutput(w, index));
    case CallClear => ClearingKeepsEvents(w);
    case CallNextEvent => TakingKeepsEvents(w);
    case CallStreaming => SameKeepsEvents(w, CaptureStreaming(w));
  }

  lemma {:induction false} EventsOverCalls(w: World, calls: seq<Call>)
    requires Inv(w) && EventsOk(w)
    ensures EventsOk(After(w, calls))
    decreases |calls|
  {
    if calls != [] {
      CallKeeps(w, calls[0]);
      CallKeepsEvents(w, calls[0]);
      EventsOverCalls(Apply(w, calls[0]), calls[1..]);
    }
  }

  lemma InitEvents(w: World)
    requires Init(w)
    ensures EventsOk(w)
  {
  }

  // ----- what the client gets

  lemma {:induction false} KeptInputs(log: seq<Entry>)
    requires OnlyFramesDropped(log)
    ensures Inputs(Kept(log)) == Inputs(AllEvents(log))
  {
    if log != [] {
      var rest := log[1..];
      KeptInputs(rest);
      assert AllEvents(log)[1..] == AllEvents(rest);
      if log[0].fate != Dropped {
        assert Kept(log)[1..] == Kept(rest);
      } else {
        assert Kept(log) == Kept(rest);
      }
    }
  }

  /**
   Over any calls: what the client has taken, followed by what waits for it, is exactly what was ever
   queued, in order, without what was dropped; only frame completions are dropped, so that every input
   buffer done is reported or about to be; and the counts of the history are those of the events.
   */
  lemma EventsReachClient(w: World, calls: seq<Call>)
    requires Init(w)
    ensures Inv(w)
    ensures var v := After(w, calls);
            && v.h.taken + v.s.events == Kept(v.h.log)
            && OnlyFramesDropped(v.h.log)
            && Inputs(v.h.taken + v.s.events) == v.h.done
            && Counted(v.h)
  {
    InitInv(w);
    InitEvents(w);
    EventsOverCalls(w, calls);
    var v := After(w, calls);
    KeptSplits(v.h.log);
    KeptInputs(v.h.log);
  }

  /** What a call may do to the events queued before it. */
  predicate Drops(before: seq<Entry>, after: seq<Entry>, clears: bool) {
    && |before| <= |after|
    && forall k :: 0 <= k < |before| ==>
         && after[k].event == before[k].event
         && (after[k].fate == Dropped <==>
               before[k].fate == Dropped || (clears && before[k].fate == Unread && before[k].event.FrameCompleted?))
  }

  lemma TurnOnlyAdds(w: World)
    ensures w.h.log <= Turn(w).0.h.log
  {
    OutputQueues(w);
    OneAdded(w, TryOutput(w).0);
    var w1 := TryOutput(w).0;
    ReceiveQueues(w1);
    OneAdded(w1, TryReceive(w1).0);
    var w2 := TryReceive(w1).0;
    SendQueues(w2);
    OneAdded(w2, TrySend(w2).0);
  }

  lemma OneAdded(w: World, v: World)
    requires AtMostOne(w, v)
    ensures w.h.log <= v.h.log
  {
    if !SameEvents(w, v) {
      var u, e :| SameEvents(w, u) && SameEvents(Emit(u, e), v);
    }
  }

  lemma {:induction false} WorkOnlyAdds(w: World)
    requires CodecOk(w.s.codec)
    ensures w.h.log <= Work(w).0.h.log
    decreases |w.s.jobs|, ResultsLeft(w.s.codec), DrainRank(w.s.drain), |w.s.available|
  {
    TurnOnlyAdds(w);
    TurnConsumes(w);
    if Turn(w).1 == Progress {
      WorkOnlyAdds(Turn(w).0);
    }
  }

  /**
   A clear drops exactly the frame completions that wait, so that none waits afterwards; no other call
   drops anything.
   */
  lemma OnlyClearDrops(w: World, c: Call)
    requires Inv(w) && EventsOk(w)
    ensures Drops(w.h.log, Apply(w, c).h.log, c.CallClear?)
    ensures c.CallClear? ==>
              forall k :: 0 <= k < |Apply(w, c).s.events| ==> !Apply(w, c).s.events[k].FrameCompleted?
  {
    match c
    case CallDecode(index, packet) => WorkOnlyAdds(Submitted(w, index, packet));
    case CallDrain =>
      if w.s.hasContext {
        WorkOnlyAdds(World(w.s.(jobs := w.s.jobs + [Drain]), w.h));
      }
    case CallNextEvent => TakeFirstEntries(w.h.log);
    case CallClear => NoFramesLeft(w.s.events);
    case _ =>
  }

  lemma {:induction false} NoFramesLeft(events: seq<Event>)
    ensures forall k :: 0 <= k < |NotFrames(events)| ==> !NotFrames(events)[k].FrameCompleted?
  {
    if events != [] {
      NoFramesLeft(events[1..]);
    }
  }
}
