/**
The TCP transport as a whole (src/ipc/socket_channel.cpp): producers that connect, send and
reconnect, and a consumer that accepts one connection at a time and reads frames from it.
Every system call is one step, so a run is any interleaving of sends and receives, any
chunking and any point of failure.
*/
module SocketLink {
  import opened Common
  import opened SocketFraming

  // One connection, seen from both ends.
  datatype Conn = Conn(
    open: bool,                 // the sender has not closed it
    msgs: seq<Bytes>,           // messages written in full
    pending: Option<Bytes>,     // the message being written, or torn off by a failed send
    left: Bytes,                // its bytes not yet accepted by the kernel
    wire: Bytes,                // all bytes accepted by the kernel
    read: nat,                  // how many of them the consumer has received
    buf: Bytes,                 // the received part of an unfinished frame
    got: seq<Bytes>             // messages delivered to the handler
  )

  const Fresh := Conn(true, [], None, [], [], 0, [], [])

  datatype State = State(
    conns: seq<Conn>,           // in the order the peers connected
    accepted: nat,              // how many of them have been accepted: the oldest first
    current: bool,              // sock_ holds the last accepted one
    delivered: seq<Bytes>       // everything handed to the handler
  )

  const Initial := State([], 0, false, [])

  datatype Step =
    | Connect                               // connect_with_retries
    | SendBegin(conn: nat, m: Bytes)        // send_varlen / send_fixed_*
    | SendChunk(conn: nat, n: nat)          // one ::send accepted n bytes
    | SendClose(conn: nat)                  // a failed ::send, reconnect, or destruction
    | Accept                                // ensure_peer_connected
    | Receive(n: nat)                       // one ::recv returned n bytes
    | Drop                                  // ::recv failed or reported the peer closed

  function Last(s: State): nat
    requires 0 < s.accepted
  {
    s.accepted - 1
  }

  ghost predicate Enabled(kind: Kind, s: State, step: Step) {
    match step
    case Connect => true
    case SendBegin(i, m) =>
      i < |s.conns| && s.conns[i].open && s.conns[i].pending.None? && Sendable(kind, m)
    case SendChunk(i, n) =>
      i < |s.conns| && s.conns[i].open && 1 <= n <= |s.conns[i].left|
    case SendClose(i) => i < |s.conns| && s.conns[i].open
    case Accept => !s.current && s.accepted < |s.conns|
    case Receive(n) =>
      && s.current && 0 < s.accepted <= |s.conns|
      && var c := s.conns[Last(s)];
         c.read <= |c.wire| && 1 <= n <= Wanted(kind, c.buf) && n <= |c.wire| - c.read
    case Drop => s.current
  }

  ghost function AfterSend(c: Conn, n: nat): Conn
    requires n <= |c.left| && c.pending.Some?
  {
    var c' := c.(wire := c.wire + c.left[..n], left := c.left[n..]);
    if c'.left == [] then c'.(msgs := c.msgs + [c.pending.value], pending := None) else c'
  }

  // The frame is complete: it goes to the handler.
  predicate Complete(kind: Kind, buf: Bytes) {
    !Oversized(kind, buf) && Wanted(kind, buf) == 0
  }

  ghost function Deliver(kind: Kind, c: Conn, read: nat, buf: Bytes): Conn {
    if Complete(kind, buf) then c.(read := read, buf := [], got := c.got + [BufferPayload(kind, buf)])
    else c.(read := read, buf := buf)
  }

  ghost function AfterReceive(kind: Kind, c: Conn, n: nat): Conn
    requires c.read + n <= |c.wire|
  {
    Deliver(kind, c, c.read + n, c.buf + c.wire[c.read..c.read + n])
  }

  ghost function Apply(kind: Kind, s: State, step: Step): State
    requires Enabled(kind, s, step)
    requires step.SendChunk? ==> s.conns[step.conn].pending.Some?
  {
    match step
    case Connect => s.(conns := s.conns + [Fresh])
    case SendBegin(i, m) => s.(conns := s.conns[i := s.conns[i].(pending := Some(m), left := Frame(kind, m))])
    case SendChunk(i, n) => s.(conns := s.conns[i := AfterSend(s.conns[i], n)])
    case SendClose(i) => s.(conns := s.conns[i := s.conns[i].(open := false)])
    case Accept => s.(accepted := s.accepted + 1, current := true)
    case Receive(n) =>
      var c := s.conns[Last(s)];
      var c' := AfterReceive(kind, c, n);
      State(s.conns[Last(s) := c'], s.accepted,
            !Oversized(kind, c'.buf),       // an impossible length closes the connection
            s.delivered + c'.got[|c.got|..])
    case Drop => s.(current := false)
  }

  // ---------------------------------------------------------------------
  // What every step keeps
  // ---------------------------------------------------------------------

  // What the sender of a connection has undertaken to write.
  ghost function Intended(c: Conn): seq<Bytes> {
    if c.pending.Some? then c.msgs + [c.pending.value] else c.msgs
  }

  ghost predicate SenderInvariant(kind: Kind, c: Conn) {
    && AllSendable(kind, Intended(c))
    && c.wire + c.left == Wire(kind, Intended(c))
    && (c.pending.Some? <==> c.left != [])
    && (c.pending.Some? ==> Sendable(kind, c.pending.value) && |c.left| <= |Frame(kind, c.pending.value)|)
  }

  ghost predicate ReceiverInvariant(kind: Kind, c: Conn) {
    && AllDeliverable(kind, c.got)
    && c.read <= |c.wire|
    && c.wire[..c.read] == Wire(kind, c.got) + c.buf
    && 0 < Wanted(kind, c.buf)
  }

  ghost predicate ConnInvariant(kind: Kind, c: Conn) {
    SenderInvariant(kind, c) && ReceiverInvariant(kind, c)
  }

  // The messages delivered from the connections accepted so far, in accept order.
  ghost function Gathered(conns: seq<Conn>): seq<Bytes> {
    if conns == [] then [] else Gathered(conns[..|conns| - 1]) + conns[|conns| - 1].got
  }

  ghost predicate Invariant(kind: Kind, s: State) {
    && s.accepted <= |s.conns|
    && (s.current ==> 0 < s.accepted)
    && (forall i :: 0 <= i < |s.conns| ==> ConnInvariant(kind, s.conns[i]))
    && (forall i :: s.accepted <= i < |s.conns| ==> s.conns[i].got == [])
    && s.delivered == Gathered(s.conns[..s.accepted])
  }

  lemma FreshInvariant(kind: Kind)
    requires ValidKind(kind)
    ensures ConnInvariant(kind, Fresh)
  {}

  lemma SendBeginKeeps(kind: Kind, c: Conn, m: Bytes)
    requires ValidKind(kind) && ConnInvariant(kind, c) && c.pending.None? && Sendable(kind, m)
    ensures ConnInvariant(kind, c.(pending := Some(m), left := Frame(kind, m)))
  {
    WireAppend(kind, c.msgs, m);
    FrameNotEmpty(kind, m);
    assert c.wire + c.left == c.wire;
  }

  lemma SendChunkKeeps(kind: Kind, c: Conn, n: nat)
    requires ConnInvariant(kind, c) && 1 <= n <= |c.left|
    ensures c.pending.Some? && ConnInvariant(kind, AfterSend(c, n))
    ensures AfterSend(c, n).got == c.got
  {
    var c' := AfterSend(c, n);
    assert c.left == c.left[..n] + c.left[n..];
    assert c'.wire + c'.left == c.wire + c.left;
    assert c'.wire[..c.read] == c.wire[..c.read];
    assert Intended(c') == Intended(c);
  }

  // The frames received so far are those of the first messages.
  lemma ReceivedFrames(kind: Kind, c: Conn)
    requires ValidKind(kind) && ConnInvariant(kind, c)
    ensures c.got <= Payloads(kind, Intended(c))
    ensures Wire(kind, c.got) == Wire(kind, Intended(c)[..|c.got|])
  {
    var all := Intended(c);
    var w, g := Wire(kind, all), Wire(kind, c.got);
    assert c.wire[..c.read] == w[..c.read];
    assert g == w[..|g|];
    DecodePrefix(kind, c.got, all);
    var k := |c.got|;
    assert AllSendable(kind, all[..k]);
    assert c.got == Payloads(kind, all[..k]);
    SamePayloadsSameWire(kind, c.got, all[..k]);
  }

  lemma SameStart(total: Bytes, n: nat, g: Bytes, buf: Bytes, f: Bytes)
    requires n <= |total| && total[..n] == g + buf && g + f <= total
    ensures Comparable(buf, f)
  {
    assert buf == total[..n][|g|..] == total[|g|..n];
    assert f == total[..|g| + |f|][|g|..] == total[|g|..|g| + |f|];
  }

  // What the receiver holds of an unfinished frame is the start of a frame that was sent.
  lemma BufferStartsFrame(kind: Kind, c: Conn)
    requires ValidKind(kind) && ConnInvariant(kind, c)
    ensures c.got <= Payloads(kind, Intended(c))
    ensures |c.got| == |Intended(c)| ==> c.buf == []
    ensures |c.got| < |Intended(c)| ==> Comparable(c.buf, Frame(kind, Intended(c)[|c.got|]))
  {
    ReceivedFrames(kind, c);
    var all, k := Intended(c), |c.got|;
    if k == |all| {
      assert all[..k] == all;
      assert |c.wire[..c.read]| <= |c.wire + c.left|;
    } else {
      WireAt(kind, all, k);
      var total := c.wire + c.left;
      assert total[..c.read] == c.wire[..c.read];
      SameStart(total, c.read, Wire(kind, c.got), c.buf, Frame(kind, all[k]));
    }
  }

  // So a length over the limit is never seen.
  lemma NeverOversized(kind: Kind, c: Conn)
    requires ValidKind(kind) && ConnInvariant(kind, c)
    ensures !Oversized(kind, c.buf)
  {
    BufferStartsFrame(kind, c);
    var all, k := Intended(c), |c.got|;
    if k < |all| && kind.Varlen? && 4 <= |c.buf| {
      var f := Frame(kind, all[k]);
      assert f[..4] == StoreLe32(|all[k]|);
      assert c.buf[..4] == f[..4];
      LoadStore(|all[k]|);
    }
  }

  // A buffer that wanted at least n bytes is, with n more, still a frame in the making or
  // exactly one frame.
  lemma GrownBuffer(kind: Kind, buf: Bytes, chunk: Bytes)
    requires ValidKind(kind) && 1 <= |chunk| <= Wanted(kind, buf) && !Oversized(kind, buf)
    ensures if Complete(kind, buf + chunk) then WholeFrame(kind, buf + chunk) else 0 < Wanted(kind, buf + chunk)
  {
    var b := buf + chunk;
    if kind.Varlen? && 4 <= |buf| {
      assert b[..4] == buf[..4];
    }
    if Complete(kind, b) {
      CompleteBuffer(kind, b);
    }
  }

  ghost predicate WholeFrame(kind: Kind, buf: Bytes) {
    var m := BufferPayload(kind, buf);
    Deliverable(kind, m) && Sendable(kind, m) && Frame(kind, m) == buf
  }

  lemma ReceivedBytes(kind: Kind, c: Conn, n: nat)
    requires ReceiverInvariant(kind, c) && n <= |c.wire| - c.read
    ensures c.wire[..c.read + n] == Wire(kind, c.got) + (c.buf + c.wire[c.read..c.read + n])
  {
    assert c.wire[..c.read + n] == c.wire[..c.read] + c.wire[c.read..c.read + n];
  }

  lemma FrameReceived(kind: Kind, c: Conn, read: nat, m: Bytes)
    requires ValidKind(kind) && AllDeliverable(kind, c.got) && read <= |c.wire|
    requires Deliverable(kind, m) && Sendable(kind, m)
    requires c.wire[..read] == Wire(kind, c.got) + Frame(kind, m)
    ensures ReceiverInvariant(kind, c.(read := read, buf := [], got := c.got + [m]))
  {
    AppendDeliverable(kind, c.got, m);
    assert Wire(kind, c.got + [m]) + [] == Wire(kind, c.got + [m]);
    var none: Bytes := [];
    assert 0 < Wanted(kind, none);
  }

  // Receiving does not touch the sender's side.
  lemma SenderUnaffected(kind: Kind, c: Conn, c': Conn)
    requires SenderInvariant(kind, c)
    requires c'.msgs == c.msgs && c'.pending == c.pending && c'.left == c.left && c'.wire == c.wire
    ensures SenderInvariant(kind, c')
  {
    assert Intended(c') == Intended(c);
  }

  lemma DeliverKeeps(kind: Kind, c: Conn, read: nat, buf: Bytes)
    requires ValidKind(kind) && AllDeliverable(kind, c.got) && read <= |c.wire|
    requires c.wire[..read] == Wire(kind, c.got) + buf
    requires if Complete(kind, buf) then WholeFrame(kind, buf) else 0 < Wanted(kind, buf)
    ensures ReceiverInvariant(kind, Deliver(kind, c, read, buf))
  {
    if Complete(kind, buf) {
      FrameReceived(kind, c, read, BufferPayload(kind, buf));
    }
  }

  lemma ReceiverKeeps(kind: Kind, c: Conn, n: nat, buf: Bytes)
    requires ValidKind(kind) && ReceiverInvariant(kind, c) && !Oversized(kind, c.buf)
    requires 1 <= n <= Wanted(kind, c.buf) && n <= |c.wire| - c.read
    requires buf == c.buf + c.wire[c.read..c.read + n]
    ensures ReceiverInvariant(kind, Deliver(kind, c, c.read + n, buf))
  {
    assert c.wire[..c.read + n] == Wire(kind, c.got) + buf by {
      ReceivedBytes(kind, c, n);
    }
    assert if Complete(kind, buf) then WholeFrame(kind, buf) else 0 < Wanted(kind, buf) by {
      GrownBuffer(kind, c.buf, c.wire[c.read..c.read + n]);
    }
    DeliverKeeps(kind, c, c.read + n, buf);
  }

  lemma SenderKeeps(kind: Kind, c: Conn, n: nat)
    requires SenderInvariant(kind, c) && c.read + n <= |c.wire|
    ensures SenderInvariant(kind, AfterReceive(kind, c, n))
  {
    SenderUnaffected(kind, c, AfterReceive(kind, c, n));
  }

  lemma ReceiveKeeps(kind: Kind, c: Conn, n: nat)
    requires ValidKind(kind) && ConnInvariant(kind, c)
    requires 1 <= n <= Wanted(kind, c.buf) && n <= |c.wire| - c.read
    ensures ConnInvariant(kind, AfterReceive(kind, c, n))
  {
    assert ReceiverInvariant(kind, AfterReceive(kind, c, n)) by {
      NeverOversized(kind, c);
      ReceiverKeeps(kind, c, n, c.buf + c.wire[c.read..c.read + n]);
    }
    assert SenderInvariant(kind, AfterReceive(kind, c, n)) by {
      SenderKeeps(kind, c, n);
    }
  }

  lemma {:induction false} GatheredUpdate(conns: seq<Conn>, c: Conn)
    requires conns != [] && conns[|conns| - 1].got <= c.got
    ensures Gathered(conns[|conns| - 1 := c]) == Gathered(conns) + c.got[|conns[|conns| - 1].got|..]
  {
    var n := |conns| - 1;
    assert conns[n := c][..n] == conns[..n];
  }

  lemma {:induction false} GatheredSame(a: seq<Conn>, b: seq<Conn>)
    requires |a| == |b| && forall i :: 0 <= i < |a| ==> a[i].got == b[i].got
    ensures Gathered(a) == Gathered(b)
  {
    if a != [] {
      GatheredSame(a[..|a| - 1], b[..|b| - 1]);
    }
  }

  // Replacing a connection by one that has delivered the same changes nothing gathered.
  lemma KeepsGathered(kind: Kind, s: State, i: nat, c: Conn)
    requires Invariant(kind, s) && i < |s.conns| && ConnInvariant(kind, c) && c.got == s.conns[i].got
    ensures Invariant(kind, s.(conns := s.conns[i := c]))
  {
    GatheredSame(s.conns[..s.accepted], s.conns[i := c][..s.accepted]);
  }

  // The connection being read may only have delivered more.
  lemma CurrentMoves(kind: Kind, s: State, c: Conn, current: bool)
    requires Invariant(kind, s) && 0 < s.accepted && ConnInvariant(kind, c)
    requires s.conns[Last(s)].got <= c.got
    ensures Invariant(kind, State(s.conns[Last(s) := c], s.accepted, current,
                                  s.delivered + c.got[|s.conns[Last(s)].got|..]))
  {
    var k := Last(s);
    GatheredUpdate(s.conns[..s.accepted], c);
    assert s.conns[k := c][..s.accepted] == s.conns[..s.accepted][k := c];
  }

  lemma ReceiveStepKeeps(kind: Kind, s: State, n: nat)
    requires ValidKind(kind) && Invariant(kind, s) && Enabled(kind, s, Receive(n))
    ensures Invariant(kind, Apply(kind, s, Receive(n)))
  {
    var c := s.conns[Last(s)];
    ReceiveKeeps(kind, c, n);
    var c' := AfterReceive(kind, c, n);
    assert c.got <= c'.got;
    CurrentMoves(kind, s, c', !Oversized(kind, c'.buf));
  }

  lemma ConnectKeeps(kind: Kind, s: State)
    requires ValidKind(kind) && Invariant(kind, s)
    ensures Invariant(kind, Apply(kind, s, Connect))
  {
    FreshInvariant(kind);
    assert (s.conns + [Fresh])[..s.accepted] == s.conns[..s.accepted];
  }

  lemma AcceptKeeps(kind: Kind, s: State)
    requires ValidKind(kind) && Invariant(kind, s) && Enabled(kind, s, Accept)
    ensures Invariant(kind, Apply(kind, s, Accept))
  {
    assert s.conns[..s.accepted + 1][..s.accepted] == s.conns[..s.accepted];
  }

  lemma SenderStepKeeps(kind: Kind, s: State, step: Step)
    requires ValidKind(kind) && Invariant(kind, s) && Enabled(kind, s, step)
    requires step.SendBegin? || step.SendChunk? || step.SendClose?
    ensures step.SendChunk? ==> s.conns[step.conn].pending.Some?
    ensures Invariant(kind, Apply(kind, s, step))
  {
    var c := s.conns[step.conn];
    match step
    case SendBegin(i, m) =>
      SendBeginKeeps(kind, c, m);
      KeepsGathered(kind, s, i, c.(pending := Some(m), left := Frame(kind, m)));
    case SendChunk(i, n) =>
      SendChunkKeeps(kind, c, n);
      KeepsGathered(kind, s, i, AfterSend(c, n));
    case SendClose(i) =>
      assert Intended(c.(open := false)) == Intended(c);
      KeepsGathered(kind, s, i, c.(open := false));
  }

  lemma StepKeepsInvariant(kind: Kind, s: State, step: Step)
    requires ValidKind(kind) && Invariant(kind, s) && Enabled(kind, s, step)
    ensures step.SendChunk? ==> s.conns[step.conn].pending.Some?
    ensures Invariant(kind, Apply(kind, s, step))
  {
    match step
    case Connect => ConnectKeeps(kind, s);
    case SendBegin(_, _) => SenderStepKeeps(kind, s, step);
    case SendChunk(_, _) => SenderStepKeeps(kind, s, step);
    case SendClose(_) => SenderStepKeeps(kind, s, step);
    case Accept => AcceptKeeps(kind, s);
    case Receive(n) => ReceiveStepKeeps(kind, s, n);
    case Drop =>
  }

  // Runs: every step enabled where it is taken. The invariant makes Apply total on them.
  ghost predicate CanRun(kind: Kind, s: State, run: seq<Step>)
    requires ValidKind(kind) && Invariant(kind, s)
    decreases |run|
  {
    if run == [] then true
    else if !Enabled(kind, s, run[0]) then false
    else
      StepKeepsInvariant(kind, s, run[0]);
      CanRun(kind, Apply(kind, s, run[0]), run[1..])
  }

  ghost function After(kind: Kind, s: State, run: seq<Step>): (t: State)
    requires ValidKind(kind) && Invariant(kind, s) && CanRun(kind, s, run)
    ensures Invariant(kind, t)
    decreases |run|
  {
    if run == [] then s
    else
      StepKeepsInvariant(kind, s, run[0]);
      After(kind, Apply(kind, s, run[0]), run[1..])
  }

  // ---------------------------------------------------------------------
  // What a run delivers
  // ---------------------------------------------------------------------

  // One connection: the delivered messages are the start of those written in full, and when
  // everything written has been received, all of them.
  lemma DeliveredIsPrefix(kind: Kind, c: Conn)
    requires ValidKind(kind) && ConnInvariant(kind, c)
    ensures AllSendable(kind, c.msgs)
    ensures c.got <= Payloads(kind, c.msgs)
    ensures c.pending.None? && c.read == |c.wire| ==> c.got == Payloads(kind, c.msgs)
  {
    var all := Intended(c);
    BufferStartsFrame(kind, c);
    assert AllSendable(kind, c.msgs) by {
      assert forall i :: 0 <= i < |c.msgs| ==> c.msgs[i] == all[i];
    }
    assert Payloads(kind, c.msgs) == Payloads(kind, all)[..|c.msgs|];
    if |c.got| > |c.msgs| {
      // the torn message would have been received whole, with bytes of it still unsent
      assert c.got == Payloads(kind, all);
      SamePayloadsSameWire(kind, c.got, all);
      assert false;
    }
    if c.pending.None? && c.read == |c.wire| && |c.got| < |all| {
      AllReceived(kind, c);
      assert false;
    }
  }

  // With nothing unsent and nothing unread, no frame can be unfinished.
  lemma AllReceived(kind: Kind, c: Conn)
    requires ValidKind(kind) && ConnInvariant(kind, c) && c.pending.None? && c.read == |c.wire|
    ensures |c.got| == |c.msgs|
  {
    BufferStartsFrame(kind, c);
    var all, k := Intended(c), |c.got|;
    if k < |all| {
      assert AllSendable(kind, all[..k]);
      assert c.got == Payloads(kind, all[..k]);
      SamePayloadsSameWire(kind, c.got, all[..k]);
      WireAt(kind, all, k);
      var f := Frame(kind, all[k]);
      assert c.wire + c.left == c.wire == c.wire[..c.read];
      assert |f| <= |c.buf| && f <= c.buf;
      FrameIsEnough(kind, all[k], c.buf);
      assert false;
    }
  }

  // At most the last thing on a connection is a torn frame: the bytes on the wire are the
  // frames of the complete messages followed by a proper part of one more.
  lemma TornFrameIsLast(kind: Kind, c: Conn)
    requires ValidKind(kind) && ConnInvariant(kind, c)
    ensures AllSendable(kind, c.msgs)
    ensures Wire(kind, c.msgs) <= c.wire
    ensures var torn := c.wire[|Wire(kind, c.msgs)|..];
            if c.pending.None? then torn == []
            else Sendable(kind, c.pending.value) && torn <= Frame(kind, c.pending.value)
                 && |torn| < |Frame(kind, c.pending.value)|
  {
    var all := Intended(c);
    assert AllSendable(kind, c.msgs) by {
      assert forall i :: 0 <= i < |c.msgs| ==> c.msgs[i] == all[i];
    }
    if c.pending.Some? {
      WireAppend(kind, c.msgs, c.pending.value);
      var w, f := Wire(kind, c.msgs), Frame(kind, c.pending.value);
      var total := c.wire + c.left;
      assert total == w + f;
      assert w == total[..|w|] && f == total[|w|..] && c.wire == total[..|c.wire|];
    } else {
      assert c.wire + c.left == c.wire;
    }
  }

  // A closed connection carries no further bytes and starts no further message.
  lemma ClosedStaysClosed(kind: Kind, s: State, step: Step, i: nat)
    requires Enabled(kind, s, step)
    requires step.SendChunk? ==> s.conns[step.conn].pending.Some?
    requires i < |s.conns| && !s.conns[i].open
    ensures i < |Apply(kind, s, step).conns|
    ensures var c, c' := s.conns[i], Apply(kind, s, step).conns[i];
            !c'.open && c'.wire == c.wire && c'.msgs == c.msgs && c'.pending == c.pending
  {}

  // SendClose closes one connection, for good: in no continuation does it carry another byte.
  lemma SendCloseCloses(kind: Kind, s: State, i: nat)
    requires i < |s.conns| && s.conns[i].open
    ensures Enabled(kind, s, SendClose(i))
    ensures var t := Apply(kind, s, SendClose(i));
            && !t.conns[i].open && t.conns[i].(open := true) == s.conns[i]
            && t == s.(conns := s.conns[i := t.conns[i]])
  {}

  lemma {:induction false} ClosedForGood(kind: Kind, s: State, run: seq<Step>, i: nat)
    requires ValidKind(kind) && Invariant(kind, s) && CanRun(kind, s, run) && i < |s.conns| && !s.conns[i].open
    ensures var t := After(kind, s, run);
            && i < |t.conns| && !t.conns[i].open && t.conns[i].wire == s.conns[i].wire
            && t.conns[i].msgs == s.conns[i].msgs
    decreases |run|
  {
    if run != [] {
      StepKeepsInvariant(kind, s, run[0]);
      ClosedStaysClosed(kind, s, run[0], i);
      ClosedForGood(kind, Apply(kind, s, run[0]), run[1..], i);
    }
  }

  // The connection was accepted and is not the one being read any more.
  ghost predicate Past(s: State, i: nat) { i < s.accepted <= |s.conns| && (i + 1 < s.accepted || !s.current) }

  lemma {:induction false} PastIsNeverRead(kind: Kind, s: State, run: seq<Step>, i: nat)
    requires ValidKind(kind) && Invariant(kind, s) && CanRun(kind, s, run) && Past(s, i)
    ensures var t := After(kind, s, run);
            Past(t, i) && t.conns[i].got == s.conns[i].got && t.conns[i].read == s.conns[i].read
    decreases |run|
  {
    if run != [] {
      StepKeepsInvariant(kind, s, run[0]);
      PastStays(kind, s, run[0], i);
      PastIsNeverRead(kind, Apply(kind, s, run[0]), run[1..], i);
    }
  }

  lemma PastStays(kind: Kind, s: State, step: Step, i: nat)
    requires Enabled(kind, s, step) && Past(s, i)
    requires step.SendChunk? ==> s.conns[step.conn].pending.Some?
    ensures var t := Apply(kind, s, step);
            Past(t, i) && t.conns[i].got == s.conns[i].got && t.conns[i].read == s.conns[i].read
  {}

  // Dropping the current connection makes it past, and the next one waiting can be accepted.
  lemma DropMakesRoom(kind: Kind, s: State)
    requires s.current
    ensures Enabled(kind, s, Drop)
    ensures var t := Apply(kind, s, Drop);
            && t.conns == s.conns && t.accepted == s.accepted && t.delivered == s.delivered
            && (forall n :: !Enabled(kind, t, Receive(n)))
            && (forall i: nat :: i < s.accepted <= |s.conns| ==> Past(t, i))
            && (Enabled(kind, t, Accept) <==> s.accepted < |s.conns|)
  {}

  // The whole transport, over any run: what the handler has seen is the concatenation, in
  // accept order, of one prefix per connection of the messages sent on it; a connection read
  // to its end without a torn frame contributes all of them, one not yet accepted none.
  lemma DeliveredOverRun(kind: Kind, run: seq<Step>)
    requires ValidKind(kind) && CanRun(kind, Initial, run)
    ensures var t := After(kind, Initial, run);
            && t.accepted <= |t.conns|
            && t.delivered == Gathered(t.conns[..t.accepted])
    ensures var t := After(kind, Initial, run);
            forall i :: 0 <= i < |t.conns| ==>
              var c := t.conns[i];
              && AllSendable(kind, c.msgs)
              && c.got <= Payloads(kind, c.msgs)
              && (c.pending.None? && c.read == |c.wire| ==> c.got == Payloads(kind, c.msgs))
              && (t.accepted <= i ==> c.got == [])
  {
    var t := After(kind, Initial, run);
    forall i | 0 <= i < |t.conns|
      ensures AllSendable(kind, t.conns[i].msgs)
      ensures t.conns[i].got <= Payloads(kind, t.conns[i].msgs)
      ensures t.conns[i].pending.None? && t.conns[i].read == |t.conns[i].wire|
              ==> t.conns[i].got == Payloads(kind, t.conns[i].msgs)
    {
      DeliveredIsPrefix(kind, t.conns[i]);
    }
  }

  // ---------------------------------------------------------------------
  // What an unbroken connection delivers
  // ---------------------------------------------------------------------

  // A receive never costs the connection: only a failing one does.
  lemma CurrentLostOnlyByDrop(kind: Kind, s: State, step: Step)
    requires ValidKind(kind) && Invariant(kind, s) && Enabled(kind, s, step)
    requires step.SendChunk? ==> s.conns[step.conn].pending.Some?
    ensures s.current && step != Drop ==> Apply(kind, s, step).current && Apply(kind, s, step).accepted == s.accepted
  {
    if step.Receive? {
      var c := s.conns[Last(s)];
      ReceiveKeeps(kind, c, step.n);
      NeverOversized(kind, AfterReceive(kind, c, step.n));
    }
  }

  // While bytes are unread on the current connection, some of them can be received.
  lemma UnreadCanBeReceived(kind: Kind, s: State)
    requires ValidKind(kind) && Invariant(kind, s) && s.current
    requires s.conns[Last(s)].read < |s.conns[Last(s)].wire|
    ensures Enabled(kind, s, Receive(1))
  {
    assert ConnInvariant(kind, s.conns[Last(s)]);
  }

  lemma OneStep(kind: Kind, s: State, run: seq<Step>)
    requires ValidKind(kind) && Invariant(kind, s) && run != [] && Enabled(kind, s, run[0])
    ensures run[0].SendChunk? ==> s.conns[run[0].conn].pending.Some?
    ensures Invariant(kind, Apply(kind, s, run[0]))
    ensures CanRun(kind, s, run) <==> CanRun(kind, Apply(kind, s, run[0]), run[1..])
    ensures CanRun(kind, s, run) ==> After(kind, s, run) == After(kind, Apply(kind, s, run[0]), run[1..])
  {
    StepKeepsInvariant(kind, s, run[0]);
  }

  lemma {:induction false} RunConcat(kind: Kind, s: State, one: seq<Step>, two: seq<Step>)
    requires ValidKind(kind) && Invariant(kind, s) && CanRun(kind, s, one) && CanRun(kind, After(kind, s, one), two)
    ensures CanRun(kind, s, one + two) && After(kind, s, one + two) == After(kind, After(kind, s, one), two)
    decreases |one|
  {
    if one == [] {
      assert one + two == two;
    } else {
      assert (one + two)[0] == one[0] && (one + two)[1..] == one[1..] + two;
      OneStep(kind, s, one);
      RunConcat(kind, Apply(kind, s, one[0]), one[1..], two);
      OneStep(kind, s, one + two);
    }
  }

  // The same connection is current, and its sender has done nothing.
  ghost predicate SameCurrent(s: State, t: State) {
    && s.current && t.current && t.accepted == s.accepted && |t.conns| == |s.conns| && 0 < s.accepted <= |s.conns|
    && var c, c' := s.conns[Last(s)], t.conns[Last(s)];
       c'.wire == c.wire && c'.msgs == c.msgs && c'.pending == c.pending
  }

  lemma ReceiveOne(kind: Kind, s: State)
    requires ValidKind(kind) && Invariant(kind, s) && s.current && Enabled(kind, s, Receive(1))
    ensures var t := Apply(kind, s, Receive(1));
            SameCurrent(s, t) && t.conns[Last(s)].read == s.conns[Last(s)].read + 1
  {
    CurrentLostOnlyByDrop(kind, s, Receive(1));
  }

  // From every reachable state with a current connection, receiving alone reads it to its end.
  lemma {:induction false} CatchUp(kind: Kind, s: State) returns (run: seq<Step>)
    requires ValidKind(kind) && Invariant(kind, s) && s.current
    ensures CanRun(kind, s, run) && forall i :: 0 <= i < |run| ==> run[i].Receive?
    ensures var t := After(kind, s, run);
            SameCurrent(s, t) && t.conns[Last(s)].read == |t.conns[Last(s)].wire|
    decreases |s.conns[Last(s)].wire| - s.conns[Last(s)].read
  {
    assert ConnInvariant(kind, s.conns[Last(s)]);
    if s.conns[Last(s)].read == |s.conns[Last(s)].wire| {
      run := [];
    } else {
      UnreadCanBeReceived(kind, s);
      run := [Receive(1)];
      OneStep(kind, s, run);
      ReceiveOne(kind, s);
      var t := Apply(kind, s, Receive(1));
      var rest := CatchUp(kind, t);
      run := [Receive(1)] + rest;
      assert run[1..] == rest;
      OneStep(kind, s, run);
    }
  }

  // So every message written in full on a connection that is not broken can still be delivered: from
  // every reachable state with a current connection on which nothing is half written, there is a
  // continuation of receives after which all its messages have been handed over, exactly.
  lemma AllCanBeDelivered(kind: Kind, s: State) returns (run: seq<Step>)
    requires ValidKind(kind) && Invariant(kind, s) && s.current && s.conns[Last(s)].pending.None?
    ensures CanRun(kind, s, run) && forall i :: 0 <= i < |run| ==> run[i].Receive?
    ensures var t := After(kind, s, run);
            && t.accepted == s.accepted && |t.conns| == |s.conns| && AllSendable(kind, s.conns[Last(s)].msgs)
            && t.conns[Last(s)].got == Payloads(kind, s.conns[Last(s)].msgs)
  {
    run := CatchUp(kind, s);
    var t := After(kind, s, run);
    assert ConnInvariant(kind, t.conns[Last(t)]);
    DeliveredIsPrefix(kind, t.conns[Last(t)]);
  }

  // The only connection, on which nothing is half written; and that these messages, and nothing
  // else, happened between two states.
  ghost predicate ReadyToSend(s: State) { |s.conns| == 1 && s.conns[0].open && s.conns[0].pending.None? }

  ghost predicate Wrote(s: State, t: State, ms: seq<Bytes>) {
    && ReadyToSend(s) && ReadyToSend(t) && t.conns[0].msgs == s.conns[0].msgs + ms
    && t.accepted == s.accepted && t.current == s.current && t.delivered == s.delivered
  }

  lemma WroteBoth(s: State, t: State, u: State, one: seq<Bytes>, two: seq<Bytes>)
    requires Wrote(s, t, one) && Wrote(t, u, two)
    ensures Wrote(s, u, one + two)
  {
    assert s.conns[0].msgs + (one + two) == s.conns[0].msgs + one + two;
  }

  ghost predicate Sends(kind: Kind, s: State, run: seq<Step>, ms: seq<Bytes>)
    requires ValidKind(kind) && Invariant(kind, s)
  {
    CanRun(kind, s, run) && Wrote(s, After(kind, s, run), ms)
  }

  lemma SendsBoth(kind: Kind, s: State, one: seq<Step>, a: seq<Bytes>, two: seq<Step>, b: seq<Bytes>)
    requires ValidKind(kind) && Invariant(kind, s) && Sends(kind, s, one, a) && Sends(kind, After(kind, s, one), two, b)
    ensures Sends(kind, s, one + two, a + b)
  {
    var t := After(kind, s, one);
    RunConcat(kind, s, one, two);
    WroteBoth(s, t, After(kind, t, two), a, b);
  }

  lemma SendRun(kind: Kind, s: State, m: Bytes) returns (run: seq<Step>)
    requires ValidKind(kind) && Invariant(kind, s) && Sendable(kind, m) && ReadyToSend(s)
    ensures Sends(kind, s, run, [m])
  {
    FrameNotEmpty(kind, m);
    var f := Frame(kind, m);
    run := [SendBegin(0, m), SendChunk(0, |f|)];
    OneStep(kind, s, run);
    var s1 := Apply(kind, s, run[0]);
    OneStep(kind, s1, run[1..]);
    assert After(kind, Apply(kind, s1, run[1]), run[1..][1..]) == Apply(kind, s1, run[1]);
  }

  lemma {:induction false} SendAllRun(kind: Kind, s: State, ms: seq<Bytes>) returns (run: seq<Step>)
    requires ValidKind(kind) && Invariant(kind, s) && AllSendable(kind, ms) && ReadyToSend(s)
    ensures Sends(kind, s, run, ms)
    decreases |ms|
  {
    run := [];
    if ms == [] {
      assert s.conns[0].msgs + ms == s.conns[0].msgs;
    } else {
      var one := SendRun(kind, s, ms[0]);
      var two := SendAllRun(kind, After(kind, s, one), ms[1..]);
      SendsBoth(kind, s, one, [ms[0]], two, ms[1..]);
      assert ms == [ms[0]] + ms[1..];
      run := one + two;
    }
  }

  lemma OpenRun(kind: Kind)
    requires ValidKind(kind)
    ensures CanRun(kind, Initial, [Connect, Accept])
    ensures After(kind, Initial, [Connect, Accept]) == State([Fresh], 1, true, [])
  {
    var open := [Connect, Accept];
    OneStep(kind, Initial, open);
    OneStep(kind, State([Fresh], 0, false, []), open[1..]);
  }

  // The transport carries any traffic: for every list of messages there is a run from the start at
  // whose end exactly their payloads have been delivered.
  lemma AnyTrafficIsCarried(kind: Kind, ms: seq<Bytes>) returns (run: seq<Step>)
    requires ValidKind(kind) && AllSendable(kind, ms)
    ensures CanRun(kind, Initial, run) && After(kind, Initial, run).delivered == Payloads(kind, ms)
  {
    var open := [Connect, Accept];
    OpenRun(kind);
    var s := After(kind, Initial, open);
    var sends := SendAllRun(kind, s, ms);
    RunConcat(kind, Initial, open, sends);
    var t := After(kind, s, sends);
    assert t.conns[0].msgs == [] + ms == ms;
    var receives := AllCanBeDelivered(kind, t);
    RunConcat(kind, Initial, open + sends, receives);
    run := open + sends + receives;
    OnlyConnection(kind, After(kind, t, receives));
  }

  lemma OnlyConnection(kind: Kind, s: State)
    requires Invariant(kind, s) && |s.conns| == 1 && s.accepted == 1
    ensures s.delivered == s.conns[0].got
  {
    assert s.conns[..1] == [s.conns[0]];
    assert Gathered([s.conns[0]]) == Gathered([]) + s.conns[0].got;
  }
}
