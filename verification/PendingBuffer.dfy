/**
The consumer handle of the C API (capi/xproc_c.cpp): a message that does not fit the caller's
buffer is retained in the handle and offered again; the language bindings size their buffers
with a zero-capacity probe first.
*/
module PendingBuffer {
  import opened Common

  datatype Status = OK | AGAIN | BUFFER_TOO_SMALL | INVALID_ARGUMENT | FAILURE

  // What the transport's poll does: hand out the oldest message if it sees one, or throw.
  datatype Transport = Sees | SeesNothing | Throws

  datatype Reply = Reply(status: Status, outLen: nat, copied: Bytes)

  // The caller's side of one call.
  datatype Call = Call(capacity: nat, nullBuffer: bool, nullOutLen: bool)

  // The handle as its user sees it: the messages owed, oldest first, and whether the oldest has been
  // taken out of the ring already.
  datatype Queue = Queue(owed: seq<Bytes>, retained: bool)

  // Whether a poll finds a message.
  predicate Visible(q: Queue, transport: Transport) { q.owed != [] && (q.retained || transport.Sees?) }

  // A poll of the queue: the oldest message goes if it fits, and is retained if it does not.
  function PollQueue(q: Queue, call: Call, transport: Transport): (Reply, Queue) {
    if call.nullOutLen || (call.nullBuffer && call.capacity != 0) then (Reply(INVALID_ARGUMENT, 0, []), q)
    else if Visible(q, transport) then
      if |q.owed[0]| <= call.capacity then (Reply(OK, |q.owed[0]|, q.owed[0]), Queue(q.owed[1..], false))
      else (Reply(BUFFER_TOO_SMALL, |q.owed[0]|, []), q.(retained := true))
    else if transport.Throws? && !q.retained then (Reply(FAILURE, 0, []), q)
    else (Reply(AGAIN, 0, []), q)
  }

  class ConsumerHandle {
    var ring: seq<Bytes>        // committed messages not yet taken by impl->poll
    var pending: Bytes          // the retained message; empty means none

    // Everything still owed to the caller, oldest first.
    ghost function Owed(): seq<Bytes>
      reads this
    {
      (if pending == [] then [] else [pending]) + ring
    }

    ghost function AsQueue(): Queue
      reads this
    {
      Queue(Owed(), pending != [])
    }

    ghost predicate Valid()
      reads this
    {
      |pending| < Wrap32 && forall i :: 0 <= i < |ring| ==> |ring[i]| < Wrap32
    }

    constructor ()
      ensures Valid() && Owed() == [] && pending == []
    {
      ring, pending := [], [];
    }

    // The producer commits a message.
    method Commit(m: Bytes)
      requires Valid() && |m| < Wrap32
      modifies this`ring
      ensures Valid() && pending == old(pending) && ring == old(ring) + [m]
      ensures Owed() == old(Owed()) + [m]
    {
      ring := ring + [m];
    }

    // xproc_c_consumer_poll_copy. An OK call hands over the oldest message owed and no other
    // call changes what is owed; a message is reported too small for exactly the buffers it
    // does not fit, and is then the retained one.
    method PollCopy(call: Call, transport: Transport) returns (r: Reply)
      requires Valid()
      modifies this
      ensures Valid()
      ensures (r, AsQueue()) == PollQueue(old(AsQueue()), call, transport)
      ensures r.status == INVALID_ARGUMENT <==> call.nullOutLen || (call.nullBuffer && call.capacity != 0)
      ensures r.status == FAILURE <==> r.status != INVALID_ARGUMENT && old(pending) == [] && transport.Throws?
      ensures r.status == OK ==>
                && old(Owed()) != [] && r.copied == old(Owed())[0] && r.outLen == |r.copied| <= call.capacity
                && Owed() == old(Owed())[1..] && pending == []
      ensures r.status != OK ==> Owed() == old(Owed())
      ensures r.status == BUFFER_TOO_SMALL ==>
                && Owed() != [] && pending == Owed()[0] && r.outLen == |pending| > call.capacity
      ensures r.status == AGAIN ==>
                && pending == [] && r.outLen == 0 && (transport.SeesNothing? || Owed() == [])
      ensures r.status == FAILURE ==> pending == [] && transport.Throws?
      ensures r.status != OK ==> r.copied == []
      ensures r.status != BUFFER_TOO_SMALL && r.status != OK ==> pending == old(pending) && ring == old(ring)
    {
      if call.nullOutLen {
        return Reply(INVALID_ARGUMENT, 0, []);
      }
      if call.nullBuffer && call.capacity != 0 {
        return Reply(INVALID_ARGUMENT, 0, []);
      }
      if pending != [] {
        var outLen := |pending|;
        if call.capacity < outLen {
          return Reply(BUFFER_TOO_SMALL, outLen, []);
        }
        var buffer := pending;
        pending := [];
        assert Owed() == old(Owed())[1..];
        return Reply(OK, outLen, buffer);
      }
      if transport.Throws? {
        return Reply(FAILURE, 0, []);
      }
      if ring == [] || transport.SeesNothing? {
        return Reply(AGAIN, 0, []);
      }
      // the handler runs on the oldest message, then the ring advances
      var len := |ring[0]|;
      var tooSmall := false;
      var retained: Bytes := [];
      var buffer: Bytes := [];
      if len > call.capacity {
        tooSmall := true;
        retained := ring[0];
      } else {
        buffer := ring[0];
      }
      ring := ring[1..];
      if tooSmall {
        pending := retained;
        assert Owed() == old(Owed());
        return Reply(BUFFER_TOO_SMALL, len, []);
      }
      assert Owed() == old(Owed())[1..];
      return Reply(OK, len, buffer);
    }

    // xproc_c_consumer_pending_len
    method PendingLen() returns (len: nat)
      requires Valid()
      ensures len == |pending| && (len == 0 ==> Owed() == ring) && (len != 0 ==> Owed() == [pending] + ring)
    {
      len := |pending|;
    }

    // xproc_c_consumer_wait blocks in the transport only when nothing is retained.
    method Wait() returns (blocks: bool)
      requires Valid()
      ensures blocks <==> pending == []
      ensures !blocks ==> Owed() != []
    {
      blocks := pending == [];
    }

    // The bindings' poll: a probe without a buffer, then a copy into one of the reported size.
    // The producer may commit between the two calls. Together they dequeue exactly one
    // message, of any length, or none.
    method ProbeThenCopy(probeSees: Transport, copySees: Transport, between: seq<Bytes>)
      returns (result: Status, message: Bytes)
      requires Valid() && forall i :: 0 <= i < |between| ==> |between[i]| < Wrap32
      modifies this
      ensures Valid()
      ensures result == OK <==> old(Visible(AsQueue(), probeSees))
      ensures result == FAILURE <==> old(pending) == [] && probeSees.Throws?
      ensures AsQueue() == if old(Visible(AsQueue(), probeSees)) then Queue(old(Owed())[1..] + between, false)
                           else Queue(old(Owed()) + between, old(pending) != [])
      ensures result == OK || result == AGAIN || result == FAILURE
      ensures result == OK ==>
                old(Owed()) != [] && message == old(Owed())[0] && Owed() == old(Owed())[1..] + between
      ensures result != OK ==> Owed() == old(Owed()) + between
      ensures result == AGAIN ==> probeSees.SeesNothing? || old(Owed()) == []
      ensures result == FAILURE ==> probeSees.Throws?
      ensures result == OK ==> pending == []
    {
      var probe := PollCopy(Call(0, true, false), probeSees);
      ghost var owed := Owed();
      CommitAll(between);
      if probe.status == OK {
        return OK, [];
      }
      if probe.status != BUFFER_TOO_SMALL {
        return probe.status, [];
      }
      var copy := PollCopy(Call(probe.outLen, false, false), copySees);
      assert (owed + between)[1..] == owed[1..] + between;
      return copy.status, copy.copied;
    }

    method CommitAll(ms: seq<Bytes>)
      requires Valid() && forall i :: 0 <= i < |ms| ==> |ms[i]| < Wrap32
      modifies this`ring
      ensures Valid() && pending == old(pending) && Owed() == old(Owed()) + ms
    {
      for i := 0 to |ms|
        invariant Valid() && pending == old(pending) && Owed() == old(Owed()) + ms[..i]
      {
        Commit(ms[i]);
        assert ms[..i + 1] == ms[..i] + [ms[i]];
      }
      assert ms[..|ms|] == ms;
    }
  }

  // ---------------------------------------------------------------------
  // Whole sessions
  // ---------------------------------------------------------------------

  datatype Event =
    | Send(m: Bytes)
    | Poll(call: Call, transport: Transport)
    | Probe(probeSees: Transport, copySees: Transport, between: seq<Bytes>)

  ghost predicate ValidEvent(e: Event) {
    match e
    case Send(m) => |m| < Wrap32
    case Poll(_, _) => true
    case Probe(_, _, ms) => forall i :: 0 <= i < |ms| ==> |ms[i]| < Wrap32
  }

  // What the producer sends in one event, and during a session.
  function SentBy(e: Event): seq<Bytes> {
    match e
    case Send(m) => [m]
    case Poll(_, _) => []
    case Probe(_, _, ms) => ms
  }

  function Sent(events: seq<Event>): seq<Bytes> {
    if events == [] then [] else Sent(events[..|events| - 1]) + SentBy(events[|events| - 1])
  }

  // What one event returns and what the queue is then.
  function Serve(q: Queue, e: Event): (seq<Bytes>, Queue) {
    match e
    case Send(m) => ([], q.(owed := q.owed + [m]))
    case Poll(call, transport) =>
      var (r, q') := PollQueue(q, call, transport);
      (if r.status == OK then [r.copied] else [], q')
    case Probe(probe, _, ms) =>
      if Visible(q, probe) then ([q.owed[0]], Queue(q.owed[1..] + ms, false)) else ([], q.(owed := q.owed + ms))
  }

  // One event on the handle is one on the queue: what it returns and what is then owed is what was owed
  // and what it sent.
  method Handle(handle: ConsumerHandle, e: Event) returns (got: seq<Bytes>)
    requires handle.Valid() && ValidEvent(e)
    modifies handle
    ensures handle.Valid()
    ensures (got, handle.AsQueue()) == Serve(old(handle.AsQueue()), e)
    ensures got + handle.Owed() == old(handle.Owed()) + SentBy(e)
  {
    got := [];
    ghost var owed := handle.Owed();
    match e {
      case Send(m) =>
        handle.Commit(m);
      case Poll(call, transport) =>
        var r := handle.PollCopy(call, transport);
        if r.status == OK {
          got := [r.copied];
        }
      case Probe(probe, copy, ms) =>
        var status, m := handle.ProbeThenCopy(probe, copy, ms);
        if status == OK {
          got := [m];
          Regroup(got, owed[1..], ms);
        }
    }
  }

  lemma Regroup(a: seq<Bytes>, b: seq<Bytes>, c: seq<Bytes>)
    ensures a + b + c == a + (b + c)
  {}

  // A whole session on the queue.
  function Served(events: seq<Event>): (seq<Bytes>, Queue) {
    if events == [] then ([], Queue([], false))
    else
      var n := |events| - 1;
      var before := Served(events[..n]);
      var (got, q) := Serve(before.1, events[n]);
      (before.0 + got, q)
  }

  // For every sequence of sends, polls with arbitrary buffers and probes: the session is that of the
  // queue, and the messages returned so far, then the retained one, then the ring, are exactly the
  // messages sent, in order.
  method Session(events: seq<Event>) returns (returned: seq<Bytes>, handle: ConsumerHandle)
    requires forall i :: 0 <= i < |events| ==> ValidEvent(events[i])
    ensures handle.Valid()
    ensures (returned, handle.AsQueue()) == Served(events)
    ensures returned + handle.Owed() == Sent(events)
  {
    handle := new ConsumerHandle();
    returned := [];
    for i := 0 to |events|
      invariant fresh(handle) && handle.Valid()
      invariant (returned, handle.AsQueue()) == Served(events[..i])
      invariant returned + handle.Owed() == Sent(events[..i])
    {
      ghost var owed := handle.Owed();
      var got := Handle(handle, events[i]);
      assert events[..i + 1][..i] == events[..i];
      Regroup(returned, got, handle.Owed());
      Regroup(returned, owed, SentBy(events[i]));
      returned := returned + got;
    }
    assert events[..|events|] == events;
  }
}
