/**
 The session as it runs: queues popped and pushed back, the drain state changed in place, and the
 work loop. Every method is proved to do what `DecoderSpec` says.
 */
module DecoderSession {
  import opened Prelude
  import opened DecoderSpec
  import opened DecoderRuns

  class FfmpegDecoderSession {
    var hasContext: bool
    var jobs: seq<Job>
    var codec: Codec
    var accepting: bool
    var held: Option<Frame>
    var drain: DrainState
    var available: seq<nat>
    var events: seq<Event>
    var format: nat
    ghost var history: History

    function State(): (s: Session)
      reads this
    {
      Session(hasContext, jobs, codec, accepting, held, drain, available, events, format)
    }

    ghost function Now(): (w: World)
      reads this
    {
      World(State(), history)
    }

    /** `codec` is what the context created by the first `decode` will use. */
    constructor (codec: Codec, format: nat)
      ensures State() == Session(false, [], codec, true, None, NoDrain, [], [], format)
      ensures history == NO_HISTORY
    {
      hasContext, jobs, this.codec, accepting := false, [], codec, true;
      held, drain, available, events, this.format := None, NoDrain, [], [], format;
      history := NO_HISTORY;
    }

    method QueueEvent(e: Event)
      modifies this`events, this`history
      ensures events == old(events) + [e] && history == Record(old(history), e)
    {
      events := events + [e];
      history := Record(history, e);
    }

    method TrySendInputJob() returns (r: Attempt)
      modifies this
      ensures (Now(), r) == TrySend(old(Now()))
    {
      if jobs == [] {
        return Nothing;
      }
      var job := jobs[0];
      jobs := jobs[1..];
      match job
      case Drain =>
        drain := Initiated;
        history := history.(drains := history.drains + 1);
        return Progress;
      case Decode(index, packet) =>
        var consumed := SendPacket(packet);
        match consumed
        case None =>
          history := history.(failed := true);
          return Failure;
        case Some(false) =>
          jobs := [job] + jobs;
          assert jobs == old(jobs);
          return Nothing;
        case Some(true) =>
          QueueEvent(InputBufferDone(index));
          return Progress;
    }

    /** `try_send_packet` with its error handling: consumed, to be retried, or a fatal error. */
    method SendPacket(p: Packet) returns (consumed: Option<bool>)
      modifies this`codec, this`history
      ensures consumed == Some(false) <==> old(codec).flushed || |old(codec).ready| > p.room
      ensures consumed == None <==> !(old(codec).flushed || |old(codec).ready| > p.room) && p.verdict == Fatal
      ensures consumed == Some(true) && p.verdict == Accepted ==>
                && codec == old(codec).(ready := old(codec).ready + p.results)
                && history == old(history).(produced := old(history).produced + p.results)
      ensures !(consumed == Some(true) && p.verdict == Accepted) ==> codec == old(codec) && history == old(history)
    {
      if codec.flushed || |codec.ready| > p.room {
        return Some(false);
      }
      match p.verdict
      case Fatal => return None;
      case Invalid => return Some(true);
      case Accepted =>
        codec := codec.(ready := codec.ready + p.results);
        history := history.(produced := history.produced + p.results);
        return Some(true);
    }

    /** The next result of the codec, of which there is at least one. */
    method ReadResult() returns (r: Attempt)
      requires codec.ready != []
      modifies this
      ensures (Now(), r) == Read(old(Now()))
    {
      var x := codec.ready[0];
      codec := codec.(ready := codec.ready[1..]);
      history := history.(consumed := history.consumed + [x]);
      match x
      case Picture(f) =>
        HoldFrame(f);
        return Progress;
      case Corrupt => return Progress;
      case Broken =>
        history := history.(failed := true);
        return Failure;
    }

    /** Keep the picture; when its format is new, drop the output buffers and tell the client. */
    method HoldFrame(f: Frame)
      modifies this
      ensures Now() == Hold(old(Now()), f)
    {
      if f.format != format {
        format := f.format;
        history := history.(discarded := history.discarded + multiset(available));
        available := [];
        accepting := false;
        QueueEvent(StreamFormatChanged);
      }
      held := Some(f);
    }

    method TryReceiveFrame() returns (r: Attempt)
      modifies this
      ensures (Now(), r) == TryReceive(old(Now()))
      ensures old(Inv(Now())) ==> Inv(Now()) && Received(old(Now()), Now(), r)
      decreases !codec.flushed
    {
      ghost var before := Now();
      if Inv(before) {
        ReceiveKeeps(before);
        ReceiveMeaning(before);
      }
      if held.Some? {
        return Nothing;
      }
      if codec.ready != [] {
        r := ReadResult();
        return;
      }
      if !codec.flushed {
        if drain != Initiated {
          return Nothing;
        }
        if !codec.flushOk {
          drain := NoDrain;
          history := history.(failed := true);
          return Failure;
        }
        history := history.(produced := history.produced + codec.tail);
        codec := codec.(flushed := true, ready := codec.ready + codec.tail, tail := []);
        r := TryReceiveFrame();
        return;
      }
      if drain == Initiated {
        drain := AwaitingFinal;
        return Progress;
      }
      r := Nothing;
    }

    method TryOutputFrame() returns (r: Attempt)
      modifies this
      ensures (Now(), r) == TryOutput(old(Now()))
    {
      if available == [] {
        return Nothing;
      }
      var buffer := available[0];
      available := available[1..];
      if drain == AwaitingFinal {
        if held.Some? {
          available := [buffer] + available;
          assert available == old(available);
          return Nothing;
        }
        drain := NoDrain;
        QueueEvent(FrameCompleted(buffer, None));
        return Progress;
      }
      match held
      case None =>
        available := [buffer] + available;
        assert available == old(available);
        return Nothing;
      case Some(f) =>
        held := None;
        if !f.convertible {
          history := history.(lost := history.lost + multiset{buffer}, failed := true);
          return Failure;
        }
        QueueEvent(FrameCompleted(buffer, Some(f.id)));
        return Progress;
    }

    /** `try_decode`: the loop ends because every turn that does something uses up a bounded resource. */
    method TryDecode() returns (ok: bool)
      requires CodecOk(codec)
      modifies this
      ensures CodecOk(codec)
      ensures (Now(), ok) == Work(old(Now()))
    {
      while true
        invariant CodecOk(codec) && Work(Now()) == Work(old(Now()))
        decreases |jobs|, ResultsLeft(codec), DrainRank(drain), |available|
      {
        TurnConsumes(Now());
        ghost var before := Now();
        var r := TryOutputFrame();
        if r == Nothing {
          r := TryReceiveFrame();
          if r == Nothing {
            r := TrySendInputJob();
          }
        }
        assert (Now(), r) == Turn(before);
        if r == Failure {
          return false;
        }
        if r == Nothing {
          return true;
        }
      }
    }

    method DecodeBuffer(index: nat, packet: Packet) returns (ok: bool)
      requires CodecOk(codec)
      modifies this
      ensures CodecOk(codec) && (Now(), ok) == DoDecode(old(Now()), index, packet)
    {
      hasContext := true;
      history := history.(decoded := history.decoded + [index]);
      jobs := jobs + [Decode(index, packet)];
      ok := TryDecode();
    }

    method StartDrain() returns (ok: bool)
      requires CodecOk(codec)
      modifies this
      ensures CodecOk(codec) && (Now(), ok) == DoDrain(old(Now()))
    {
      if !hasContext {
        return true;
      }
      jobs := jobs + [Drain];
      ok := TryDecode();
    }

    method UseAsOutput(index: nat)
      modifies this
      ensures Now() == DecoderSpec.UseAsOutput(old(Now()), index)
    {
      if hasContext && !accepting {
        return;
      }
      available := available + [index];
      history := history.(offered := history.offered + multiset{index});
    }

    method ClearOutputBuffers()
      modifies this
      ensures Now() == DecoderSpec.ClearOutputBuffers(old(Now()))
    {
      history := history.(discarded := history.discarded + multiset(available), log := DropWaiting(history.log));
      available := [];
      var kept := DropFrames(events);
      events := kept;
    }

    method NextEvent() returns (e: Option<Event>)
      modifies this
      ensures (Now(), e) == DecoderSpec.NextEvent(old(Now()))
    {
      if events == [] {
        return None;
      }
      history := history.(taken := history.taken + [events[0]], log := TakeFirst(history.log));
      e := Some(events[0]);
      events := events[1..];
    }

    static method DropFrames(events: seq<Event>) returns (kept: seq<Event>)
      ensures kept == NotFrames(events)
    {
      kept := [];
      var i := 0;
      while i < |events|
        invariant i <= |events| && kept + NotFrames(events[i..]) == NotFrames(events)
      {
        assert events[i..][1..] == events[i + 1..];
        if !events[i].FrameCompleted? {
          kept := kept + [events[i]];
        }
        i := i + 1;
      }
      assert kept + [] == kept;
    }
  }
}
