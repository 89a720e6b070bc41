/**
The byte format of the TCP transport (src/ipc/socket_channel.cpp): little-endian length
prefixes, padded fixed-size items, and the read and write loops that cope with short
transfers.
*/
module SocketFraming {
  import opened Common

  const MAX_VARLEN: nat := 16 * 1024 * 1024   // k_max_varlen

  // ---------------------------------------------------------------------
  // store_le32 / load_le32
  // ---------------------------------------------------------------------

  function StoreLe32(v: nat): (b: Bytes)
    requires v < Wrap32
    ensures |b| == 4
  {
    [v % 256, v / 256 % 256, v / 65536 % 256, v / 16777216 % 256]
  }

  function LoadLe32(b: Bytes): (v: nat)
    requires |b| == 4
    ensures v < Wrap32
  {
    b[0] as nat + 256 * (b[1] as nat + 256 * (b[2] as nat + 256 * (b[3] as nat)))
  }

  // Least significant byte first.
  lemma LittleEndian(b: Bytes)
    requires |b| == 4
    ensures var v := b[0] as nat + 0x100 * (b[1] as nat) + 0x1_0000 * (b[2] as nat) + 0x100_0000 * (b[3] as nat);
            v < Wrap32 && LoadLe32(b) == v && StoreLe32(v) == b
  {
    StoreLoad(b);
  }

  lemma LowByte(lo: nat, hi: nat)
    requires lo < 256
    ensures (lo + 256 * hi) % 256 == lo && (lo + 256 * hi) / 256 == hi
  {}

  lemma HighBytes(v: nat)
    ensures v / 65536 == v / 256 / 256 && v / 16777216 == v / 256 / 256 / 256
  {}

  lemma LoadStore(v: nat)
    requires v < Wrap32
    ensures LoadLe32(StoreLe32(v)) == v
  {
    HighBytes(v);
    var w := v / 256;
    var x := w / 256;
    assert v == v % 256 + 256 * w && w == w % 256 + 256 * x && x == x % 256 + 256 * (x / 256);
  }

  lemma StoreLoad(b: Bytes)
    requires |b| == 4
    ensures StoreLe32(LoadLe32(b)) == b
  {
    var x := b[2] as nat + 256 * (b[3] as nat);
    var w := b[1] as nat + 256 * x;
    LowByte(b[0], w);
    LowByte(b[1], x);
    LowByte(b[2], b[3]);
    HighBytes(LoadLe32(b));
  }

  // ---------------------------------------------------------------------
  // Frames
  // ---------------------------------------------------------------------

  datatype Kind = Fixed(itemSize: nat) | Varlen

  // A fixed channel has a non-zero item size (validate_transport_options).
  ghost predicate ValidKind(kind: Kind) { kind.Fixed? ==> 1 <= kind.itemSize < Wrap32 }

  // What send_fixed_bytes, send_fixed_sized and send_varlen accept.
  predicate Sendable(kind: Kind, m: Bytes) {
    match kind
    case Fixed(n) => |m| <= n
    case Varlen => |m| <= MAX_VARLEN
  }

  // The payload the receiver is meant to see: fixed items are zero-padded to the item size.
  function Payload(kind: Kind, m: Bytes): Bytes
    requires Sendable(kind, m)
  {
    match kind
    case Fixed(n) => m + Zeros(n - |m|)
    case Varlen => m
  }

  function Frame(kind: Kind, m: Bytes): Bytes
    requires Sendable(kind, m)
  {
    match kind
    case Fixed(_) => Payload(kind, m)
    case Varlen => StoreLe32(|m|) + m
  }

  // A fixed item is the message followed by zeros, up to the item size; a variable one is its length
  // in four bytes, least significant first, and the message.
  lemma FrameShape(kind: Kind, m: Bytes)
    requires Sendable(kind, m)
    ensures var f := Frame(kind, m);
            match kind
            case Fixed(n) => |f| == n && m <= f && forall i :: |m| <= i < n ==> f[i] == 0
            case Varlen => |f| == 4 + |m| && LoadLe32(f[..4]) == |m| && f[4..] == m
  {
    if kind.Varlen? {
      assert Frame(kind, m)[..4] == StoreLe32(|m|);
      LoadStore(|m|);
    }
  }

  ghost predicate AllSendable(kind: Kind, ms: seq<Bytes>) {
    forall i :: 0 <= i < |ms| ==> Sendable(kind, ms[i])
  }

  function Flatten(fs: seq<Bytes>): Bytes {
    if fs == [] then [] else fs[0] + Flatten(fs[1..])
  }

  function Frames(kind: Kind, ms: seq<Bytes>): (fs: seq<Bytes>)
    requires AllSendable(kind, ms)
    ensures |fs| == |ms|
  {
    seq(|ms|, i requires 0 <= i < |ms| => Frame(kind, ms[i]))
  }

  // The bytes of consecutive messages.
  function Wire(kind: Kind, ms: seq<Bytes>): Bytes
    requires AllSendable(kind, ms)
  {
    Flatten(Frames(kind, ms))
  }

  lemma {:induction false} FlattenAppend(fs: seq<Bytes>, f: Bytes)
    ensures Flatten(fs + [f]) == Flatten(fs) + f
  {
    if fs == [] {
      assert fs + [f] == [f];
    } else {
      assert (fs + [f])[1..] == fs[1..] + [f];
      FlattenAppend(fs[1..], f);
    }
  }

  lemma {:induction false} FlattenConcat(fs: seq<Bytes>, hs: seq<Bytes>)
    ensures Flatten(fs + hs) == Flatten(fs) + Flatten(hs)
  {
    if fs == [] {
      assert fs + hs == hs;
    } else {
      assert (fs + hs)[1..] == fs[1..] + hs;
      FlattenConcat(fs[1..], hs);
    }
  }

  lemma FlattenAt(fs: seq<Bytes>, k: nat)
    requires k < |fs|
    ensures Flatten(fs[..k]) + fs[k] <= Flatten(fs)
  {
    assert fs == fs[..k] + fs[k..];
    FlattenConcat(fs[..k], fs[k..]);
  }

  // The frame of message k sits right behind the frames of its predecessors.
  lemma WireAt(kind: Kind, ms: seq<Bytes>, k: nat)
    requires AllSendable(kind, ms) && k < |ms|
    ensures Wire(kind, ms[..k]) + Frame(kind, ms[k]) <= Wire(kind, ms)
  {
    assert Frames(kind, ms[..k]) == Frames(kind, ms)[..k];
    FlattenAt(Frames(kind, ms), k);
  }

  lemma WireAppend(kind: Kind, ms: seq<Bytes>, m: Bytes)
    requires AllSendable(kind, ms) && Sendable(kind, m)
    ensures AllSendable(kind, ms + [m])
    ensures Wire(kind, ms + [m]) == Wire(kind, ms) + Frame(kind, m)
  {
    assert Frames(kind, ms + [m]) == Frames(kind, ms) + [Frame(kind, m)];
    FlattenAppend(Frames(kind, ms), Frame(kind, m));
  }

  // ---------------------------------------------------------------------
  // Reading a frame incrementally
  // ---------------------------------------------------------------------

  // How many bytes the receiver still wants before it has a frame (or knows its length).
  function Wanted(kind: Kind, buf: Bytes): nat {
    match kind
    case Fixed(n) => if |buf| < n then n - |buf| else 0
    case Varlen =>
      if |buf| < 4 then 4 - |buf|
      else
        var len := LoadLe32(buf[..4]);
        if |buf| < 4 + len then 4 + len - |buf| else 0
  }

  // The length prefix is complete and over the limit: the receiver gives up.
  predicate Oversized(kind: Kind, buf: Bytes) {
    kind.Varlen? && 4 <= |buf| && LoadLe32(buf[..4]) > MAX_VARLEN
  }

  function BufferPayload(kind: Kind, buf: Bytes): Bytes {
    if kind.Varlen? && 4 <= |buf| then buf[4..] else buf
  }

  // A message as a receiver delivers it.
  ghost predicate Deliverable(kind: Kind, g: Bytes) {
    match kind
    case Fixed(n) => |g| == n
    case Varlen => |g| <= MAX_VARLEN
  }

  lemma DeliverableIsFixpoint(kind: Kind, m: Bytes)
    requires Sendable(kind, m)
    ensures Deliverable(kind, Payload(kind, m))
    ensures Frame(kind, Payload(kind, m)) == Frame(kind, m)
  {
    if kind.Fixed? {
      var p := Payload(kind, m);
      assert p + Zeros(0) == p;
    }
  }

  // A buffer that wants nothing more is exactly the frame of the payload it holds.
  lemma CompleteBuffer(kind: Kind, buf: Bytes)
    requires ValidKind(kind)
    requires kind.Fixed? ==> |buf| == kind.itemSize
    requires kind.Varlen? ==> 4 <= |buf| && |buf| == 4 + LoadLe32(buf[..4]) && !Oversized(kind, buf)
    ensures Deliverable(kind, BufferPayload(kind, buf))
    ensures Frame(kind, BufferPayload(kind, buf)) == buf
  {
    match kind
    case Fixed(n) => assert buf + Zeros(0) == buf;
    case Varlen =>
      StoreLoad(buf[..4]);
      assert buf == buf[..4] + buf[4..];
  }

  // A buffer that starts with a whole frame wants nothing more.
  lemma FrameIsEnough(kind: Kind, m: Bytes, buf: Bytes)
    requires Sendable(kind, m) && Frame(kind, m) <= buf
    ensures Wanted(kind, buf) == 0
  {
    if kind.Varlen? {
      assert buf[..4] == Frame(kind, m)[..4] == StoreLe32(|m|);
      LoadStore(|m|);
    }
  }

  // Two frames of which one starts the other carry the same payload.
  lemma FramesArePrefixFree(kind: Kind, g: Bytes, m: Bytes)
    requires Deliverable(kind, g) && Sendable(kind, m)
    requires Frame(kind, g) <= Frame(kind, m) || Frame(kind, m) <= Frame(kind, g)
    ensures g == Payload(kind, m)
  {
    match kind
    case Fixed(n) => assert g + Zeros(0) == g;
    case Varlen =>
      var a, b := Frame(kind, g), Frame(kind, m);
      assert a[..4] == StoreLe32(|g|) && b[..4] == StoreLe32(|m|);
      assert a[..4] == b[..4];
      LoadStore(|g|);
      LoadStore(|m|);
      assert a[4..] == g && b[4..] == m;
  }

  function Payloads(kind: Kind, ms: seq<Bytes>): (ps: seq<Bytes>)
    requires AllSendable(kind, ms)
    ensures |ps| == |ms|
  {
    seq(|ms|, i requires 0 <= i < |ms| => Payload(kind, ms[i]))
  }

  ghost predicate Comparable(a: Bytes, b: Bytes) { a <= b || b <= a }

  // Unique decoding: if corresponding blocks never are proper prefixes of each other, one
  // concatenation starts another only if its blocks do.
  lemma {:induction false} FlattenPrefix(fs: seq<Bytes>, hs: seq<Bytes>)
    requires forall i :: 0 <= i < |fs| ==> fs[i] != []
    requires forall i :: 0 <= i < |fs| && i < |hs| && Comparable(fs[i], hs[i]) ==> fs[i] == hs[i]
    requires Flatten(fs) <= Flatten(hs)
    ensures fs <= hs
    decreases |fs|
  {
    if fs != [] {
      var a, w := fs[0], Flatten(hs);
      var f := Flatten(fs);
      assert f[..|a|] == a && f[|a|..] == Flatten(fs[1..]);
      assert a == w[..|a|];
      assert hs != [];
      var b := hs[0];
      assert b == w[..|b|];
      assert Comparable(a, b);
      assert w[|a|..] == Flatten(hs[1..]);
      assert Flatten(fs[1..]) == w[|a|..][..|f| - |a|];
      FlattenPrefix(fs[1..], hs[1..]);
      assert fs == [fs[0]] + fs[1..] && hs == [hs[0]] + hs[1..];
    }
  }

  ghost predicate AllDeliverable(kind: Kind, gs: seq<Bytes>) {
    forall i :: 0 <= i < |gs| ==> Deliverable(kind, gs[i]) && Sendable(kind, gs[i])
  }

  lemma AppendDeliverable(kind: Kind, gs: seq<Bytes>, m: Bytes)
    requires AllDeliverable(kind, gs) && Deliverable(kind, m)
    ensures AllDeliverable(kind, gs + [m])
    ensures Wire(kind, gs + [m]) == Wire(kind, gs) + Frame(kind, m)
  {
    WireAppend(kind, gs, m);
  }

  lemma FrameNotEmpty(kind: Kind, m: Bytes)
    requires ValidKind(kind) && Sendable(kind, m)
    ensures Frame(kind, m) != []
  {}

  // If a receiver has taken the frames of gs out of what a sender wrote for ms, then gs is the
  // start of the payloads of ms.
  lemma DecodePrefix(kind: Kind, gs: seq<Bytes>, ms: seq<Bytes>)
    requires ValidKind(kind) && AllSendable(kind, ms) && AllDeliverable(kind, gs)
    requires Wire(kind, gs) <= Wire(kind, ms)
    ensures gs <= Payloads(kind, ms)
  {
    var fs, hs := Frames(kind, gs), Frames(kind, ms);
    forall i | 0 <= i < |fs|
      ensures fs[i] != []
    {
      FrameNotEmpty(kind, gs[i]);
    }
    forall i | 0 <= i < |fs| && i < |hs| && Comparable(fs[i], hs[i])
      ensures fs[i] == hs[i] && gs[i] == Payload(kind, ms[i])
    {
      FramesArePrefixFree(kind, gs[i], ms[i]);
      DeliverableIsFixpoint(kind, ms[i]);
    }
    FlattenPrefix(fs, hs);
    forall i | 0 <= i < |gs|
      ensures gs[i] == Payload(kind, ms[i])
    {
      assert Comparable(fs[i], hs[i]);
    }
  }

  // ---------------------------------------------------------------------
  // The transfer loops
  // ---------------------------------------------------------------------

  lemma VarlenFrameParts(m: Bytes)
    requires |m| <= MAX_VARLEN
    ensures forall k :: 0 <= k < 4 ==> StoreLe32(|m|)[..k] == Frame(Varlen, m)[..k]
    ensures forall k :: 0 <= k < |m| ==> StoreLe32(|m|) + m[..k] == Frame(Varlen, m)[..4 + k]
    ensures |Frame(Varlen, m)| == 4 + |m|
    ensures |m| == 0 ==> Frame(Varlen, m) == StoreLe32(|m|)
  {}

  // Reading one more frame reads on in the bytes.
  lemma OneMoreFrame(kind: Kind, out: seq<Bytes>, m: Bytes, bytes: Bytes, before: nat, pos: nat)
    requires ValidKind(kind) && AllDeliverable(kind, out) && Deliverable(kind, m) && before <= pos <= |bytes|
    requires Wire(kind, out) == bytes[..before] && bytes[before..pos] == Frame(kind, m)
    ensures AllDeliverable(kind, out + [m]) && Wire(kind, out + [m]) == bytes[..pos] && before < pos
  {
    AppendDeliverable(kind, out, m);
    FrameNotEmpty(kind, m);
    assert bytes[..pos] == bytes[..before] + bytes[before..pos];
  }

  lemma SamePayloadsSameWire(kind: Kind, gs: seq<Bytes>, ms: seq<Bytes>)
    requires AllSendable(kind, gs) && AllSendable(kind, ms) && gs == Payloads(kind, ms)
    ensures Wire(kind, gs) == Wire(kind, ms)
  {
    forall i | 0 <= i < |ms|
      ensures Frame(kind, gs[i]) == Frame(kind, ms[i])
    {
      DeliverableIsFixpoint(kind, ms[i]);
    }
    assert Frames(kind, gs) == Frames(kind, ms);
  }

  // Bytes read from where a frame begins: never oversized, and wanting nothing once past its end.
  lemma StartOfFrame(kind: Kind, m: Bytes, all: Bytes, w: nat, pos: nat)
    requires Sendable(kind, m) && w <= pos <= |all| && w + |Frame(kind, m)| <= |all|
    requires all[..w] + Frame(kind, m) <= all
    ensures !Oversized(kind, all[w..pos])
    ensures w + |Frame(kind, m)| <= pos ==> Wanted(kind, all[w..pos]) == 0
  {
    var f, rest := Frame(kind, m), all[w..pos];
    assert f == (all[..w] + f)[w..] == all[w..w + |f|];
    FrameShape(kind, m);
    if kind.Varlen? && 4 <= |rest| {
      assert rest[..4] == all[w..w + 4] == f[..4];
    }
    if w + |f| <= pos {
      assert f <= rest;
      FrameIsEnough(kind, m, rest);
    }
  }

  lemma DeliveredFirst(kind: Kind, out: seq<Bytes>, ms: seq<Bytes>)
    requires ValidKind(kind) && AllSendable(kind, ms) && AllDeliverable(kind, out) && out <= Payloads(kind, ms)
    ensures |out| <= |ms| && AllSendable(kind, ms[..|out|]) && Wire(kind, out) == Wire(kind, ms[..|out|])
  {
    var k := |out|;
    assert AllSendable(kind, ms[..k]);
    assert out == Payloads(kind, ms[..k]);
    SamePayloadsSameWire(kind, out, ms[..k]);
  }

  // What follows the delivered frames is the start of the next frame sent, or nothing: never a length
  // over the limit; and if all that was sent has been read and no frame is left, all is delivered.
  lemma NotOversized(kind: Kind, out: seq<Bytes>, ms: seq<Bytes>, bytes: Bytes, pos: nat)
    requires ValidKind(kind) && AllSendable(kind, ms) && AllDeliverable(kind, out) && out <= Payloads(kind, ms)
    requires bytes <= Wire(kind, ms) && Wire(kind, out) <= bytes && |Wire(kind, out)| <= pos <= |bytes|
    requires 0 < Wanted(kind, bytes[|Wire(kind, out)|..pos])
    ensures !Oversized(kind, bytes[|Wire(kind, out)|..pos])
    ensures bytes == Wire(kind, ms) && pos == |bytes| ==> out == Payloads(kind, ms)
  {
    var k, w := |out|, |Wire(kind, out)|;
    var rest := bytes[w..pos];
    DeliveredFirst(kind, out, ms);
    if k < |ms| {
      WireAt(kind, ms, k);
      assert rest == Wire(kind, ms)[w..pos];
      StartOfFrame(kind, ms[k], Wire(kind, ms), w, pos);
    } else {
      assert ms[..k] == ms;
    }
  }

  // Of n bytes asked for, how many a call that answers `reply` transfers.
  function Transferred(reply: int, n: nat): nat { if reply <= 0 then 0 else if reply <= n then reply else n }

  ghost predicate AllPositive(replies: nat -> int, start: nat, end: nat) {
    forall i: nat :: start <= i < end ==> 0 < replies(i)
  }

  // The sending end of a connection: `sent` is what the kernel has accepted, and `replies` says how
  // each call of ::send goes: how much it takes if it can, nothing or less if it fails.
  class Sink {
    const replies: nat -> int
    var calls: nat
    var sent: Bytes
    var open: bool

    constructor (replies: nat -> int)
      ensures this.replies == replies && calls == 0 && sent == [] && open
    {
      this.replies := replies;
      calls, sent, open := 0, [], true;
    }

    // A call succeeds if the socket is open and the reply is positive. None of the calls since the
    // n-th has failed; or the last one has, and it alone.
    ghost predicate AllTaken(n: nat)
      reads this
    {
      n <= calls && AllPositive(replies, n, calls) && (n < calls ==> open)
    }

    ghost predicate LastFailed(n: nat, wasOpen: bool)
      reads this
    {
      && n < calls && AllPositive(replies, n, calls - 1) && (n < calls - 1 ==> wasOpen)
      && !(wasOpen && 0 < replies(calls - 1))
    }

    // ::send
    method Send(data: Bytes) returns (r: nat)
      modifies this`sent, this`calls
      ensures calls == old(calls) + 1 && r == if open then Transferred(replies(old(calls)), |data|) else 0
      ensures sent == old(sent) + data[..r]
    {
      r := if open then Transferred(replies(calls), |data|) else 0;
      calls := calls + 1;
      sent := sent + data[..r];
    }

    // write_full_sock, and write_full's close_sock on failure.
    method WriteFull(data: Bytes) returns (ok: bool)
      modifies this
      ensures ok ==> AllTaken(old(calls)) && open == old(open) && sent == old(sent) + data
      ensures !ok ==> LastFailed(old(calls), old(open)) && !open
      ensures !ok ==> exists k :: 0 <= k < |data| && sent == old(sent) + data[..k]
    {
      var done := 0;
      while done < |data|
        invariant 0 <= done <= |data| && old(calls) <= calls
        invariant sent == old(sent) + data[..done] && open == old(open) && AllTaken(old(calls))
      {
        var r := Send(data[done..]);
        if r == 0 {
          open := false;
          assert sent == old(sent) + data[..done];
          return false;
        }
        assert data[..done] + data[done..][..r] == data[..done + r];
        done := done + r;
      }
      assert data[..done] == data;
      return true;
    }

    // send_varlen: the prefix and the payload are two writes.
    method SendVarlen(m: Bytes) returns (ok: bool)
      requires |m| <= MAX_VARLEN
      modifies this
      ensures ok ==> AllTaken(old(calls)) && open == old(open) && sent == old(sent) + Frame(Varlen, m)
      ensures !ok ==> LastFailed(old(calls), old(open)) && !open
      ensures !ok ==> exists k :: 0 <= k < |Frame(Varlen, m)| && sent == old(sent) + Frame(Varlen, m)[..k]
    {
      ghost var before := sent;
      VarlenFrameParts(m);
      var prefix := StoreLe32(|m|);
      ok := WriteFull(prefix);
      if !ok {
        ghost var k :| 0 <= k < |prefix| && sent == before + prefix[..k];
        assert sent == before + Frame(Varlen, m)[..k];
        return;
      }
      if |m| > 0 {
        ok := WriteFull(m);
        if !ok {
          ghost var k :| 0 <= k < |m| && sent == before + prefix + m[..k];
          assert before + prefix + m[..k] == before + (prefix + m[..k]);
          assert sent == before + Frame(Varlen, m)[..4 + k];
        }
      }
    }

    // send_fixed_bytes and send_fixed_sized: one zero-padded item.
    method SendFixed(itemSize: nat, m: Bytes) returns (ok: bool)
      requires |m| <= itemSize
      modifies this
      ensures ok ==> AllTaken(old(calls)) && open == old(open) && sent == old(sent) + Frame(Fixed(itemSize), m)
      ensures !ok ==> LastFailed(old(calls), old(open)) && !open
      ensures !ok ==> exists k :: 0 <= k < itemSize && sent == old(sent) + Frame(Fixed(itemSize), m)[..k]
    {
      var buf := m + Zeros(itemSize - |m|);
      assert buf == Frame(Fixed(itemSize), m);
      ok := WriteFull(buf);
    }
  }

  // The receiving end: `bytes` is all that will ever arrive on the connection, `pos` how far it has been
  // read, and `replies` says how each call of ::recv goes: how much it returns if that much is there,
  // nothing or less if it fails.
  class Source {
    const bytes: Bytes
    const replies: nat -> int
    var calls: nat
    var pos: nat
    var open: bool

    ghost predicate Valid()
      reads this
    {
      pos <= |bytes|
    }

    constructor (bytes: Bytes, replies: nat -> int)
      ensures Valid() && this.bytes == bytes && this.replies == replies && calls == 0 && pos == 0 && open
    {
      this.bytes, this.replies := bytes, replies;
      calls, pos, open := 0, 0, true;
    }

    // The last of the calls since the n-th has failed, or found the peer gone and nothing left to read.
    ghost predicate LastFailed(n: nat)
      reads this
    {
      n < calls && (replies(calls - 1) <= 0 || pos == |bytes|)
    }

    // ::recv: with nothing left on the connection it reports the peer closed.
    method Recv(left: nat) returns (data: Bytes)
      requires Valid()
      modifies this`pos, this`calls
      ensures Valid() && calls == old(calls) + 1 && pos == old(pos) + |data|
      ensures |data| == Transferred(Transferred(replies(old(calls)), left), |bytes| - old(pos))
      ensures data == bytes[old(pos)..pos]
    {
      var n := Transferred(Transferred(replies(calls), left), |bytes| - pos);
      data := bytes[pos..pos + n];
      pos, calls := pos + n, calls + 1;
    }

    // read_exact_sock
    method ReadExact(len: nat) returns (ok: bool, data: Bytes)
      requires Valid()
      modifies this`pos, this`calls
      ensures Valid() && old(pos) <= pos && pos - old(pos) <= len && old(calls) <= calls
      ensures data == bytes[old(pos)..pos]
      ensures ok == (|data| == len) && (!ok ==> LastFailed(old(calls)))
    {
      data := [];
      while |data| < len
        invariant Valid() && old(pos) <= pos && |data| == pos - old(pos) <= len && old(calls) <= calls
        invariant data == bytes[old(pos)..pos]
        decreases len - |data|
      {
        var chunk := Recv(len - |data|);
        if chunk == [] {
          return false, data;
        }
        data := data + chunk;
      }
      return true, data;
    }

    // poll_impl once the socket is readable: one whole frame is delivered and consumed, or
    // the connection is dropped, because a read failed or the announced length is over the
    // limit.
    method PollFrame(kind: Kind) returns (delivered: bool, m: Bytes)
      requires Valid() && ValidKind(kind)
      modifies this
      ensures Valid() && old(pos) <= pos && old(calls) <= calls
      ensures delivered ==> open == old(open)
      ensures delivered ==> Deliverable(kind, m) && bytes[old(pos)..pos] == Frame(kind, m)
      ensures !delivered ==> !open && (LastFailed(old(calls)) || Oversized(kind, bytes[old(pos)..pos]))
      ensures !delivered ==> 0 < Wanted(kind, bytes[old(pos)..pos])
    {
      if kind.Fixed? {
        delivered, m := ReadExact(kind.itemSize);
        if delivered {
          CompleteBuffer(kind, m);
        } else {
          open := false;
        }
        return;
      }
      ghost var start := pos;
      var ok, prefix := ReadExact(4);
      if !ok {
        open := false;
        return false, [];
      }
      var len := LoadLe32(prefix);
      if len > MAX_VARLEN {
        open := false;
        return false, [];
      }
      delivered, m := true, [];
      if len > 0 {
        delivered, m := ReadExact(len);
        if !delivered {
          open := false;
          return;
        }
      }
      StoreLoad(prefix);
      assert bytes[start..pos] == bytes[start..start + 4] + bytes[start + 4..pos];
    }

    // Polling one connection until it is dropped: the messages handed out are the start of
    // what the peer sent, byte for byte, however the transfers were cut up and wherever the
    // connection broke; and if it did not break, they are all of it.
    method DrainConnection(kind: Kind, ghost ms: seq<Bytes>) returns (out: seq<Bytes>)
      requires Valid() && pos == 0 && open && ValidKind(kind)
      requires AllSendable(kind, ms) && bytes <= Wire(kind, ms)
      modifies this
      ensures out <= Payloads(kind, ms)
      ensures !open && |Wire(kind, out)| <= pos <= |bytes| && LastFailed(old(calls))
      ensures 0 < Wanted(kind, bytes[|Wire(kind, out)|..pos])
      ensures bytes == Wire(kind, ms) && pos == |bytes| ==> out == Payloads(kind, ms)
      ensures bytes == Wire(kind, ms) && (forall i: nat :: 0 < replies(i)) ==> out == Payloads(kind, ms)
    {
      out := [];
      while open
        invariant Valid() && old(calls) <= calls
        invariant AllDeliverable(kind, out)
        invariant open ==> Wire(kind, out) == bytes[..pos]
        invariant Wire(kind, out) <= bytes && |Wire(kind, out)| <= pos
        invariant !open ==> 0 < Wanted(kind, bytes[|Wire(kind, out)|..pos])
        invariant !open ==> LastFailed(old(calls)) || Oversized(kind, bytes[|Wire(kind, out)|..pos])
        decreases open, |bytes| - pos
      {
        ghost var before := pos;
        var delivered, m := PollFrame(kind);
        if delivered {
          OneMoreFrame(kind, out, m, bytes, before, pos);
          out := out + [m];
        }
      }
      DecodePrefix(kind, out, ms);
      NotOversized(kind, out, ms, bytes, pos);
    }
  }
}
