/**
 When the proxy device polls its host device for CAPTURE buffers. Polling an idle queue would spin, so
 the event is enabled and disabled as buffers are queued, dequeued and cancelled. Calls to the host
 device may fail; calls to the poller succeed.
 */
module ProxyPolling {

  datatype Dequeue = NotReady | EndOfStream | Error | Buffer(last: bool)

  class CaptureSide {
    var streaming: bool
    var queued: int
    /** Whether the poller reports CaptureReady. */
    var polling: bool
    /** A LAST buffer came back with others still queued, and nothing has been cancelled since. */
    ghost var stopped: bool

    predicate ShouldPoll()
      reads this
    {
      streaming && queued > 0
    }

    /** Polling is on exactly when it should be, except after LAST; the count never goes below zero. */
    ghost predicate Valid()
      reads this
    {
      && queued >= 0
      && (polling <==> ShouldPoll() && !stopped)
      && (stopped ==> ShouldPoll())
    }

    constructor ()
      ensures Valid() && !streaming && queued == 0 && !polling && !stopped
    {
      streaming, queued, polling, stopped := false, 0, false, false;
    }

    /** REQBUFS on the CAPTURE queue; asking for no buffers is an implicit STREAMOFF. */
    method Reqbufs(ok: bool, count: nat)
      requires Valid()
      modifies this
      ensures Valid()
      ensures ok && count == 0 ==> !streaming && queued == 0 && !stopped
      ensures !(ok && count == 0) ==> unchanged(this)
    {
      if ok && count == 0 {
        Cancel();
      }
    }

    method Streamoff(ok: bool)
      requires Valid()
      modifies this
      ensures Valid()
      ensures ok ==> !streaming && queued == 0 && !stopped
      ensures !ok ==> unchanged(this)
    {
      if ok {
        Cancel();
      }
    }

    method Cancel()
      requires Valid()
      modifies this
      ensures Valid() && !streaming && queued == 0 && !polling && !stopped
    {
      var wasPolling := ShouldPoll();
      streaming, queued := false, 0;
      stopped := false;
      if wasPolling {
        polling := false;
      }
    }

    method Streamon(ok: bool)
      requires Valid()
      modifies this
      ensures Valid() && queued == old(queued) && stopped == old(stopped)
      ensures streaming == (old(streaming) || ok)
    {
      if ok && !streaming {
        streaming := true;
        if ShouldPoll() {
          polling := true;
        }
      }
    }

    method Qbuf(ok: bool)
      requires Valid()
      modifies this
      ensures Valid() && streaming == old(streaming) && stopped == old(stopped)
      ensures queued == old(queued) + (if ok then 1 else 0)
    {
      if ok {
        var wasPolling := ShouldPoll();
        queued := queued + 1;
        if !wasPolling && ShouldPoll() {
          polling := true;
        }
      }
    }

    /** The poller reports CaptureReady, which it does only while that event is enabled. */
    method CaptureReady(d: Dequeue)
      requires Valid() && polling
      modifies this
      ensures Valid() && streaming == old(streaming)
      ensures queued == old(queued) - (if d.Buffer? then 1 else 0) >= 0
      ensures stopped <==> d == Buffer(true) && queued > 0
    {
      if !d.Buffer? {
        return;
      }
      var pollingActive := ShouldPoll();
      queued := queued - 1;
      if (pollingActive && queued == 0) || d.last {
        polling := false;
      }
      stopped := d.last && queued > 0;
    }
  }
}
