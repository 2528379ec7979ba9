/**
 A decoding session of the FFmpeg device: a queue of jobs, a codec, the latest decoded frame, the
 buffers that frames can be written to, and the drain state. Each function is one of the three
 attempts the work loop makes, or one call of the client.

 The codec is abstract. An accepted packet makes finitely many results available, and so does a
 flush; what they are is arbitrary. The codec may refuse a packet while results wait to be read.
 After a flush it never asks for more input and stays at the end of the stream, since the session
 never resets it.
 */
module DecoderSpec {
  import opened Prelude

  /** A picture: its identity, its stream format, and whether conversion into a buffer succeeds. */
  datatype Frame = Frame(id: nat, format: nat, convertible: bool)

  /** What receiving from the codec may give: a picture, invalid data, or a fatal error. */
  datatype CodecResult = Picture(frame: Frame) | Corrupt | Broken

  datatype Verdict = Accepted | Invalid | Fatal

  /** A packet: what the codec thinks of it, what it yields, and how many unread results it tolerates. */
  datatype Packet = Packet(verdict: Verdict, results: seq<CodecResult>, room: nat)

  datatype Job = Decode(index: nat, packet: Packet) | Drain

  /** `ready` are the results to be read; `tail` those that a flush will add. */
  datatype Codec = Codec(ready: seq<CodecResult>, flushed: bool, tail: seq<CodecResult>, flushOk: bool)

  datatype DrainState = NoDrain | Initiated | AwaitingFinal

  /** A completed frame without a picture is the empty one that carries the LAST flag. */
  datatype Event = InputBufferDone(index: nat) | StreamFormatChanged | FrameCompleted(buffer: nat, frame: Option<nat>)

  datatype Session = Session(
    hasContext: bool,
    jobs: seq<Job>,
    codec: Codec,
    accepting: bool,
    held: Option<Frame>,
    drain: DrainState,
    available: seq<nat>,
    events: seq<Event>,
    format: nat)

  /**
   What has happened so far. `done`, `shown`, `lasts` and `completed` are what the events ever queued
   tell the client: input buffers done, pictures delivered, LAST markers, output buffers given back.
   The rest: indices passed to `decode`; codec results put into and read from the codec; drain jobs
   taken; output buffers accepted, discarded by a clear or a format change, lost to a failed
   conversion. `log` has every event ever queued and what became of it, `taken` those that the client
   was given.
   */
  datatype History = History(
    done: seq<nat>,
    shown: seq<nat>,
    lasts: nat,
    completed: multiset<nat>,
    decoded: seq<nat>,
    produced: seq<CodecResult>,
    consumed: seq<CodecResult>,
    drains: nat,
    offered: multiset<nat>,
    discarded: multiset<nat>,
    lost: multiset<nat>,
    failed: bool,
    log: seq<Entry>,
    taken: seq<Event>)

  /** An event waits for the client, was taken by it, or was dropped by a clear. */
  datatype Fate = Unread | Taken | Dropped

  datatype Entry = Entry(event: Event, fate: Fate)

  const NO_HISTORY :=
    History([], [], 0, multiset{}, [], [], [], 0, multiset{}, multiset{}, multiset{}, false, [], [])

  /** What an event adds to the history. */
  function Record(h: History, e: Event): (r: History) {
    var log := h.log + [Entry(e, Unread)];
    match e
    case InputBufferDone(i) => h.(log := log, done := h.done + [i])
    case StreamFormatChanged => h.(log := log)
    case FrameCompleted(b, Some(id)) =>
      h.(log := log, shown := h.shown + [id], completed := h.completed + multiset{b})
    case FrameCompleted(b, None) => h.(log := log, lasts := h.lasts + 1, completed := h.completed + multiset{b})
  }

  /** The event that has waited longest is taken. */
  function TakeFirst(log: seq<Entry>): (r: seq<Entry>) {
    if log == [] then []
    else if log[0].fate == Unread then [log[0].(fate := Taken)] + log[1..]
    else [log[0]] + TakeFirst(log[1..])
  }

  /** The frame completions that wait are dropped. */
  function DropWaiting(log: seq<Entry>): (r: seq<Entry>)
    ensures |r| == |log|
    ensures forall k :: 0 <= k < |log| ==>
              r[k] == if log[k].fate == Unread && log[k].event.FrameCompleted? then log[k].(fate := Dropped) else log[k]
  {
    seq(|log|, k requires 0 <= k < |log| =>
      if log[k].fate == Unread && log[k].event.FrameCompleted? then log[k].(fate := Dropped) else log[k])
  }

  datatype World = World(s: Session, h: History)

  /** Outcome of one attempt: it did something, nothing could be done, or a fatal error. */
  datatype Attempt = Progress | Nothing | Failure

  /** `queue_event`. */
  function Emit(w: World, e: Event): (r: World) {
    World(w.s.(events := w.s.events + [e]), Record(w.h, e))
  }

  // ----- the three attempts

  function TrySend(w: World): (r: (World, Attempt)) {
    var s, h := w.s, w.h;
    if s.jobs == [] then (w, Nothing)
    else
      var rest := s.jobs[1..];
      match s.jobs[0]
      case Drain => (World(s.(jobs := rest, drain := Initiated), h.(drains := h.drains + 1)), Progress)
      case Decode(i, p) =>
        if s.codec.flushed || |s.codec.ready| > p.room then (w, Nothing)
        else
          match p.verdict
          case Fatal => (World(s.(jobs := rest), h.(failed := true)), Failure)
          case Invalid => (Emit(World(s.(jobs := rest), h), InputBufferDone(i)), Progress)
          case Accepted =>
            var sent := World(s.(jobs := rest, codec := s.codec.(ready := s.codec.ready + p.results)),
                              h.(produced := h.produced + p.results));
            (Emit(sent, InputBufferDone(i)), Progress)
  }

  /** The picture becomes the held frame; a new format makes the present output buffers useless. */
  function Hold(w: World, f: Frame): (r: World) {
    if f.format == w.s.format then World(w.s.(held := Some(f)), w.h)
    else Emit(World(w.s.(held := Some(f), format := f.format, accepting := false, available := []),
                    w.h.(discarded := w.h.discarded + multiset(w.s.available))),
              StreamFormatChanged)
  }

  function Read(w: World): (r: (World, Attempt))
    requires w.s.codec.ready != []
  {
    var x := w.s.codec.ready[0];
    var w1 := World(w.s.(codec := w.s.codec.(ready := w.s.codec.ready[1..])), w.h.(consumed := w.h.consumed + [x]));
    match x
    case Picture(f) => (Hold(w1, f), Progress)
    case Corrupt => (w1, Progress)
    case Broken => (World(w1.s, w1.h.(failed := true)), Failure)
  }

  function Flush(w: World): (r: World) {
    World(w.s.(codec := w.s.codec.(flushed := true, ready := w.s.codec.ready + w.s.codec.tail, tail := [])),
          w.h.(produced := w.h.produced + w.s.codec.tail))
  }

  function TryReceive(w: World): (r: (World, Attempt))
    decreases !w.s.codec.flushed
  {
    if w.s.held.Some? then (w, Nothing)
    else if w.s.codec.ready != [] then Read(w)
    else if w.s.codec.flushed then
      if w.s.drain == Initiated then (World(w.s.(drain := AwaitingFinal), w.h), Progress) else (w, Nothing)
    else if w.s.drain == Initiated then
      if w.s.codec.flushOk then TryReceive(Flush(w))
      else (World(w.s.(drain := NoDrain), w.h.(failed := true)), Failure)
    else (w, Nothing)
  }

  function TryOutput(w: World): (r: (World, Attempt)) {
    var s, h := w.s, w.h;
    if s.available == [] then (w, Nothing)
    else
      var b, rest := s.available[0], s.available[1..];
      if s.drain == AwaitingFinal then
        if s.held.Some? then (w, Nothing)
        else
          (Emit(World(s.(available := rest, drain := NoDrain), h), FrameCompleted(b, None)), Progress)
      else
        match s.held
        case None => (w, Nothing)
        case Some(f) =>
          if !f.convertible then
            (World(s.(available := rest, held := None), h.(lost := h.lost + multiset{b}, failed := true)), Failure)
          else
            (Emit(World(s.(available := rest, held := None), h), FrameCompleted(b, Some(f.id))), Progress)
  }

  // ----- the work loop

  function ResultsLeft(c: Codec): (n: nat) {
    |c.ready| + (if c.flushed then 0 else |c.tail|)
  }

  function DrainRank(d: DrainState): (n: nat) {
    match d
    case NoDrain => 0
    case AwaitingFinal => 1
    case Initiated => 2
  }

  /** The lexicographic measure of the loop goes down. */
  predicate Less(a: Session, b: Session) {
    || |a.jobs| < |b.jobs|
    || (|a.jobs| == |b.jobs| &&
        (|| ResultsLeft(a.codec) < ResultsLeft(b.codec)
         || (ResultsLeft(a.codec) == ResultsLeft(b.codec) &&
             (|| DrainRank(a.drain) < DrainRank(b.drain)
              || (DrainRank(a.drain) == DrainRank(b.drain) && |a.available| < |b.available|)))))
  }

  /** A flushed codec has nothing more to add. */
  predicate CodecOk(c: Codec) {
    c.flushed ==> c.tail == []
  }

  lemma SendConsumes(w: World)
    requires CodecOk(w.s.codec)
    ensures var (w', r) := TrySend(w);
            CodecOk(w'.s.codec) && (r == Progress ==> Less(w'.s, w.s)) && (r == Nothing ==> w' == w)
  {
  }

  lemma ReceiveConsumes(w: World)
    requires CodecOk(w.s.codec)
    ensures var (w', r) := TryReceive(w);
            CodecOk(w'.s.codec) && (r == Progress ==> Less(w'.s, w.s)) && (r == Nothing ==> w' == w)
    decreases !w.s.codec.flushed
  {
    var c := w.s.codec;
    if w.s.held.None? && c.ready == [] && !c.flushed && w.s.drain == Initiated && c.flushOk {
      ReceiveConsumes(Flush(w));
      assert ResultsLeft(Flush(w).s.codec) == ResultsLeft(c);
    }
  }

  lemma OutputConsumes(w: World)
    requires CodecOk(w.s.codec)
    ensures var (w', r) := TryOutput(w);
            CodecOk(w'.s.codec) && (r == Progress ==> Less(w'.s, w.s)) && (r == Nothing ==> w' == w)
  {
  }

  /** One turn of the loop: output first, then receive, then send. */
  function Turn(w: World): (r: (World, Attempt)) {
    var (w1, r1) := TryOutput(w);
    if r1 != Nothing then (w1, r1)
    else
      var (w2, r2) := TryReceive(w1);
      if r2 != Nothing then (w2, r2) else TrySend(w2)
  }

  lemma TurnConsumes(w: World)
    requires CodecOk(w.s.codec)
    ensures var (w', r) := Turn(w);
            CodecOk(w'.s.codec) && (r == Progress ==> Less(w'.s, w.s)) && (r == Nothing ==> w' == w)
  {
    OutputConsumes(w);
    ReceiveConsumes(w);
    SendConsumes(w);
  }

  /** `try_decode`: turns until one does nothing or fails. */
  function Work(w: World): (r: (World, bool))
    requires CodecOk(w.s.codec)
    decreases |w.s.jobs|, ResultsLeft(w.s.codec), DrainRank(w.s.drain), |w.s.available|
  {
    var (w', r) := Turn(w);
    TurnConsumes(w);
    match r
    case Nothing => (w', true)
    case Failure => (w', false)
    case Progress => Work(w')
  }

  // ----- the client's calls

  /** The session with one more job, before it is worked on. */
  function Submitted(w: World, index: nat, packet: Packet): (r: World) {
    World(w.s.(hasContext := true, jobs := w.s.jobs + [Decode(index, packet)]),
          w.h.(decoded := w.h.decoded + [index]))
  }

  function DoDecode(w: World, index: nat, packet: Packet): (r: (World, bool))
    requires CodecOk(w.s.codec)
  {
    Work(Submitted(w, index, packet))
  }

  function DoDrain(w: World): (r: (World, bool))
    requires CodecOk(w.s.codec)
  {
    if !w.s.hasContext then (w, true) else Work(World(w.s.(jobs := w.s.jobs + [Drain]), w.h))
  }

  /** Buffers offered while the session does not accept any are ignored. */
  function UseAsOutput(w: World, index: nat): (r: World) {
    if w.s.hasContext && !w.s.accepting then w
    else World(w.s.(available := w.s.available + [index]), w.h.(offered := w.h.offered + multiset{index}))
  }

  function NotFrames(events: seq<Event>): (r: seq<Event>) {
    if events == [] then []
    else (if events[0].FrameCompleted? then [] else [events[0]]) + NotFrames(events[1..])
  }

  function ClearOutputBuffers(w: World): (r: World) {
    World(w.s.(available := [], events := NotFrames(w.s.events)),
          w.h.(discarded := w.h.discarded + multiset(w.s.available), log := DropWaiting(w.h.log)))
  }

  function NextEvent(w: World): (r: (World, Option<Event>)) {
    if w.s.events == [] then (w, None)
    else
      var e := w.s.events[0];
      (World(w.s.(events := w.s.events[1..]), w.h.(taken := w.h.taken + [e], log := TakeFirst(w.h.log))), Some(e))
  }

  function CaptureStreaming(w: World): (r: World) {
    if w.s.hasContext then World(w.s.(accepting := true), w.h) else w
  }
}
