/**
The consumer run loop of `runtime` (include/xproc/ipc/runtime.hpp) together with
the two ways it sleeps: on the shared `commit_seq` word, or in `select` on a wake
socket (src/ipc/socket_channel.cpp). The loop thread, one producer and any number
of `stop()` callers interleave; each step below is one atomic access or system call, under
sequential consistency. A poll of a shared ring is one access. A poll of a socket
accepts a peer if there is none, looks whether the peer's socket is readable and then
reads one frame with blocking receives, each of them a step.
*/
module RunLoop {
  import opened Common

  import opened SocketFraming

  datatype Transport =
    | SharedHeader                              // sleep until commit_seq changes
    | WakeSocket(wakeCapacity: nat, kind: Kind) // sleep in select; the wake socket buffers this many bytes

  // `run` is the case maxBatch == 1: one poll between two loads of running_.
  datatype Config = Config(transport: Transport, maxBatch: nat, backpressure: bool)

  ghost predicate ValidConfig(cfg: Config) {
    && 1 <= cfg.maxBatch
    && (cfg.backpressure ==> cfg.maxBatch == 1)
    && (cfg.transport.WakeSocket? ==> 1 <= cfg.transport.wakeCapacity && ValidKind(cfg.transport.kind))
  }

  // Where the loop thread stands: the access it performs next.
  datatype Pc =
    | Idle                            // outside run()
    | CheckRunning                    // `while (running_.load())`
    | Poll(batch: nat)                // dispatch_poll, after `batch` successes in this batch
    | Reading(batch: nat, buf: Bytes) // ... of a socket: in recv, with this much of a frame
    | LoadSeq                         // wait_for_shared_header: load commit_seq
    | RecheckSeq(last: nat)           // ... then load running_ again
    | WaitSeq(last: nat)              // ... then sleep until commit_seq != last
    | RecheckSocket                   // wait_for_data, socket path: load running_ again
    | Select                          // socket_consumer::wait
    | Drain                           // socket_wait_interruptor::drain

  // The accepted connection, if any: bytes that have arrived and not been received, and whether the
  // peer may still send.
  datatype Peer = Peer(connected: bool, open: bool, arrived: Bytes)

  const NoPeer := Peer(false, false, [])

  datatype State = State(
    running: bool,                // running_
    pc: Pc,
    published: nat,               // messages made visible by the producer of a ring
    dispatched: nat,              // messages handed to the executor
    commitSeq: nat,               // the notify word, taken as not wrapping
    bumpPending: bool,            // the producer has published but not yet bumped commit_seq
    pendingStops: nat,            // stop() calls between their store and their wake-up
    wakeBytes: nat,               // bytes buffered in the wake socket
    peer: Peer,
    backlog: nat,                 // peers waiting to be accepted
    queued: nat,                  // the backpressure counter
    reported: nat,                // total passed to the backpressure callback
    failMark: nat,                // published, when a poll last found nothing
    loadMark: nat                 // published, when commit_seq was last loaded
  )

  const Initial := State(false, Idle, 0, 0, 0, false, 0, 0, NoPeer, 0, 0, 0, 0, 0)

  datatype Step =
    | Start                       // run() stores true into running_
    | LoopStep(found: bool)       // the loop thread's next access; `found` is the outcome of a poll or select
    | Accept(peer: Peer)          // a socket poll accepts a waiting peer, which may have sent or closed
    | Recv(n: nat)                // a blocking receive returns n bytes
    | RecvFails                   // ... or an error, such as an interruption by a signal
    | SelectFails                 // select returned with an error
    | Publish                     // ring commit: the message becomes visible
    | BumpCommit                  // ... and commit_seq is bumped
    | PeerConnects
    | Arrive(data: Bytes)         // bytes from the peer
    | PeerCloses
    | StopStore                   // stop(): running_.store(false)
    | StopWake                    // ... then bump commit_seq / notify the wake socket

  // How many bytes the frame being read still lacks: of its prefix, and then of its payload.
  function Missing(cfg: Config, buf: Bytes): nat {
    if cfg.transport.SharedHeader? || Oversized(cfg.transport.kind, buf) then 0 else Wanted(cfg.transport.kind, buf)
  }

  // The frame has been read. A length over the limit makes the poll fail instead.
  predicate Complete(cfg: Config, buf: Bytes) {
    cfg.transport.WakeSocket? && !Oversized(cfg.transport.kind, buf) && Wanted(cfg.transport.kind, buf) == 0
  }

  predicate Readable(p: Peer) { p.arrived != [] || !p.open }

  // What select waits for besides the wake socket.
  predicate SourceReady(s: State) { if s.peer.connected then Readable(s.peer) else 0 < s.backlog }

  predicate Enabled(cfg: Config, s: State, step: Step) {
    match step
    case Start => s.pc.Idle?
    case LoopStep(found) =>
      (match s.pc
       case Idle => false
       case Poll(_) =>
         if cfg.transport.SharedHeader? then found == (s.dispatched < s.published)
         else found ==> s.peer.connected && Readable(s.peer)
       case Reading(_, buf) => Missing(cfg, buf) == 0 || (s.peer.arrived == [] && !s.peer.open)
       case WaitSeq(last) => s.commitSeq != last
       case Select => 0 < s.wakeBytes || SourceReady(s)
       case _ => true)
    case Accept(_) => cfg.transport.WakeSocket? && s.pc.Poll? && !s.peer.connected && 0 < s.backlog
    case Recv(n) => s.pc.Reading? && 0 < n <= |s.peer.arrived| && n <= Missing(cfg, s.pc.buf)
    case RecvFails => s.pc.Reading?
    case SelectFails => s.pc.Select?
    case Publish => cfg.transport.SharedHeader? && !s.bumpPending
    case BumpCommit => s.bumpPending
    case PeerConnects => cfg.transport.WakeSocket?
    case Arrive(data) => s.peer.connected && s.peer.open && data != []
    case PeerCloses => s.peer.connected && s.peer.open
    case StopStore => true
    case StopWake => 0 < s.pendingStops
  }

  function Min(a: nat, b: nat): nat { if a <= b then a else b }

  // A poll that finds a message, and one that does not.
  function Found(cfg: Config, s: State, b: nat): State {
    s.(dispatched := s.dispatched + 1,
       queued := if cfg.backpressure then s.queued + 1 else s.queued,
       pc := if b + 1 < cfg.maxBatch then Poll(b + 1) else CheckRunning)
  }

  function NotFound(cfg: Config, s: State, b: nat): State {
    if 0 < b then s.(pc := CheckRunning)
    else
      var t := s.(failMark := s.published, pc := if cfg.transport.SharedHeader? then LoadSeq else RecheckSocket);
      if cfg.backpressure then t.(reported := s.reported + s.queued, queued := 0) else t
  }

  // The loop thread's next access.
  function LoopEffect(cfg: Config, s: State, found: bool): State
    requires Enabled(cfg, s, LoopStep(found))
  {
    match s.pc
    case CheckRunning =>
      if s.running then s.(pc := Poll(0))
      else if cfg.backpressure then s.(pc := Idle, reported := s.reported + s.queued, queued := 0)
      else s.(pc := Idle)
    case Poll(b) =>
      if !found then NotFound(cfg, s, b)
      else if cfg.transport.SharedHeader? then Found(cfg, s, b)
      else s.(pc := Reading(b, []))
    case Reading(b, buf) =>
      if Complete(cfg, buf) then Found(cfg, s, b)
      else NotFound(cfg, s.(peer := NoPeer), b)         // close_sock
    case LoadSeq => s.(pc := RecheckSeq(s.commitSeq), loadMark := s.published)
    case RecheckSeq(last) => s.(pc := if s.running then WaitSeq(last) else CheckRunning)
    case WaitSeq(_) => s.(pc := CheckRunning)
    case RecheckSocket => s.(pc := if s.running then Select else CheckRunning)
    case Select => s.(pc := if 0 < s.wakeBytes then Drain else CheckRunning)
    case Drain =>
      if s.wakeBytes == 0 then s.(pc := CheckRunning)   // recv would block
      else s.(wakeBytes := s.wakeBytes - Min(64, s.wakeBytes))
  }

  function Apply(cfg: Config, s: State, step: Step): State
    requires Enabled(cfg, s, step)
  {
    match step
    case Start => s.(running := true, pc := CheckRunning)
    case LoopStep(found) => LoopEffect(cfg, s, found)
    case Accept(peer) => s.(peer := peer.(connected := true), backlog := s.backlog - 1)
    case Recv(n) =>
      s.(pc := Reading(s.pc.batch, s.pc.buf + s.peer.arrived[..n]), peer := s.peer.(arrived := s.peer.arrived[n..]))
    case RecvFails => NotFound(cfg, s.(peer := NoPeer), s.pc.batch)
    case SelectFails => s.(pc := CheckRunning)
    case Publish => s.(published := s.published + 1, bumpPending := true)
    case BumpCommit => s.(commitSeq := s.commitSeq + 1, bumpPending := false)
    case PeerConnects => s.(backlog := s.backlog + 1)
    case Arrive(data) => s.(peer := s.peer.(arrived := s.peer.arrived + data))
    case PeerCloses => s.(peer := s.peer.(open := false))
    case StopStore => s.(running := false, pendingStops := s.pendingStops + 1)
    case StopWake =>
      match cfg.transport
      case SharedHeader => s.(pendingStops := s.pendingStops - 1, commitSeq := s.commitSeq + 1)
      case WakeSocket(cap, _) =>   // a full buffer drops the byte: the send result is ignored
        s.(pendingStops := s.pendingStops - 1,
           wakeBytes := if s.wakeBytes < cap then s.wakeBytes + 1 else s.wakeBytes)
  }

  // A run is a list of steps, each enabled where it is taken.
  predicate CanRun(cfg: Config, s: State, run: seq<Step>)
    decreases |run|
  {
    run == [] || (Enabled(cfg, s, run[0]) && CanRun(cfg, Apply(cfg, s, run[0]), run[1..]))
  }

  function After(cfg: Config, s: State, run: seq<Step>): State
    requires CanRun(cfg, s, run)
    decreases |run|
  {
    if run == [] then s else After(cfg, Apply(cfg, s, run[0]), run[1..])
  }

  lemma {:induction false} RunConcat(cfg: Config, s: State, r1: seq<Step>, r2: seq<Step>)
    requires CanRun(cfg, s, r1 + r2)
    ensures CanRun(cfg, s, r1)
    ensures CanRun(cfg, After(cfg, s, r1), r2)
    ensures After(cfg, s, r1 + r2) == After(cfg, After(cfg, s, r1), r2)
    decreases |r1|
  {
    if r1 == [] {
      assert r1 + r2 == r2;
    } else {
      assert (r1 + r2)[1..] == r1[1..] + r2;
      RunConcat(cfg, Apply(cfg, s, r1[0]), r1[1..], r2);
    }
  }

  // ---------------------------------------------------------------------
  // What every step keeps
  // ---------------------------------------------------------------------

  ghost predicate Invariant(cfg: Config, s: State) {
    && (cfg.transport.SharedHeader? ==> s.dispatched <= s.published)
    && (s.pc.Poll? ==> s.pc.batch < cfg.maxBatch)
    && (s.pc.Reading? ==> cfg.transport.WakeSocket? && ReadingOk(cfg, s, s.pc.batch, s.pc.buf))
    && (s.pc.LoadSeq? || s.pc.RecheckSeq? || s.pc.WaitSeq? ==> cfg.transport.SharedHeader?)
    && (s.pc.RecheckSocket? || s.pc.Select? || s.pc.Drain? ==> cfg.transport.WakeSocket?)
    && (s.pc.LoadSeq? || s.pc.RecheckSeq? || s.pc.WaitSeq? ==> s.failMark == s.dispatched)
    && (s.pc.RecheckSeq? ==> LoadedBefore(s, s.pc.last))
    && (s.pc.WaitSeq? ==> LoadedBefore(s, s.pc.last))
    && (cfg.backpressure ==> s.reported + s.queued == s.dispatched)
    && ((s.pc.Idle? || IsWaiting(s.pc)) && cfg.backpressure ==> s.queued == 0)
    && StopReachesSleeper(s)
  }

  // The longest frame.
  function FrameBound(cfg: Config): nat {
    match cfg.transport
    case SharedHeader => 0
    case WakeSocket(_, Fixed(n)) => n
    case WakeSocket(_, Varlen) => 4 + MAX_VARLEN
  }

  // A frame is read from a connected peer, and only once something can be received.
  ghost predicate ReadingOk(cfg: Config, s: State, batch: nat, buf: Bytes)
    requires cfg.transport.WakeSocket?
  {
    && batch < cfg.maxBatch && s.peer.connected && |buf| <= FrameBound(cfg)
    && (buf == [] ==> Readable(s.peer))
    && (cfg.transport == WakeSocket(cfg.transport.wakeCapacity, Varlen) && 4 <= |buf| && !Oversized(Varlen, buf) ==>
          |buf| <= 4 + LoadLe32(buf[..4]))
  }

  // `last` was read from commit_seq when loadMark messages were published: while the
  // word still holds `last`, at most one later message is visible and its bump is due.
  ghost predicate LoadedBefore(s: State, last: nat) {
    && last <= s.commitSeq
    && s.failMark <= s.loadMark <= s.published
    && (s.commitSeq == last ==> s.published <= s.loadMark + (if s.bumpPending then 1 else 0))
  }

  // A sleeper that a stop has already overtaken has been, or is about to be, woken.
  ghost predicate StopReachesSleeper(s: State) {
    && (s.pc.WaitSeq? && !s.running ==> s.commitSeq != s.pc.last || 0 < s.pendingStops)
    && (s.pc.Select? && !s.running ==> 0 < s.wakeBytes || 0 < s.pendingStops)
  }

  lemma MissingFits(cfg: Config, buf: Bytes)
    requires ValidConfig(cfg) && |buf| <= FrameBound(cfg)
    ensures |buf| + Missing(cfg, buf) <= FrameBound(cfg)
  {}

  lemma LoopStepKeeps(cfg: Config, s: State, found: bool)
    requires ValidConfig(cfg) && Invariant(cfg, s) && Enabled(cfg, s, LoopStep(found))
    ensures Invariant(cfg, Apply(cfg, s, LoopStep(found)))
  {}

  lemma SocketStepKeeps(cfg: Config, s: State, step: Step)
    requires ValidConfig(cfg) && Invariant(cfg, s) && Enabled(cfg, s, step)
    requires step.Accept? || step.Recv? || step.RecvFails? || step.PeerConnects? || step.Arrive? || step.PeerCloses?
    ensures Invariant(cfg, Apply(cfg, s, step))
  {
    if step.Recv? {
      MissingFits(cfg, s.pc.buf);
      var buf := s.pc.buf + s.peer.arrived[..step.n];
      if 4 <= |s.pc.buf| {
        assert buf[..4] == s.pc.buf[..4];
      }
    }
  }

  lemma OtherStepKeeps(cfg: Config, s: State, step: Step)
    requires ValidConfig(cfg) && Invariant(cfg, s) && Enabled(cfg, s, step)
    requires step.Start? || step.SelectFails? || step.Publish? || step.BumpCommit? || step.StopStore? || step.StopWake?
    ensures Invariant(cfg, Apply(cfg, s, step))
  {}

  lemma StepKeepsInvariant(cfg: Config, s: State, step: Step)
    requires ValidConfig(cfg) && Invariant(cfg, s) && Enabled(cfg, s, step)
    ensures Invariant(cfg, Apply(cfg, s, step))
  {
    match step
    case LoopStep(found) => LoopStepKeeps(cfg, s, found);
    case Start => OtherStepKeeps(cfg, s, step);
    case SelectFails => OtherStepKeeps(cfg, s, step);
    case Publish => OtherStepKeeps(cfg, s, step);
    case BumpCommit => OtherStepKeeps(cfg, s, step);
    case StopStore => OtherStepKeeps(cfg, s, step);
    case StopWake => OtherStepKeeps(cfg, s, step);
    case _ => SocketStepKeeps(cfg, s, step);
  }

  lemma {:induction false} InvariantHolds(cfg: Config, s: State, run: seq<Step>)
    requires ValidConfig(cfg) && Invariant(cfg, s) && CanRun(cfg, s, run)
    ensures Invariant(cfg, After(cfg, s, run))
    decreases |run|
  {
    if run != [] {
      StepKeepsInvariant(cfg, s, run[0]);
      InvariantHolds(cfg, Apply(cfg, s, run[0]), run[1..]);
    }
  }

  // ---------------------------------------------------------------------
  // Which stop counts
  // ---------------------------------------------------------------------

  // The last store into running_ along a run.
  function LastStore(before: bool, run: seq<Step>): bool {
    if run == [] then before
    else
      var last := run[|run| - 1];
      if last == Start then true else if last == StopStore then false
      else LastStore(before, run[..|run| - 1])
  }

  // running_ is decided by whichever of run() and stop() stored last: in particular a
  // stop() that precedes run() is overwritten.
  lemma {:induction false} RunningIsLastStore(cfg: Config, s: State, run: seq<Step>)
    requires CanRun(cfg, s, run)
    ensures After(cfg, s, run).running == LastStore(s.running, run)
  {
    if run != [] {
      var n := |run| - 1;
      assert run == run[..n] + [run[n]];
      RunConcat(cfg, s, run[..n], [run[n]]);
      RunningIsLastStore(cfg, s, run[..n]);
      var t := After(cfg, s, run[..n]);
      assert After(cfg, t, [run[n]]) == Apply(cfg, t, run[n]);
    }
  }

  lemma {:induction false} StaysStopped(before: bool, run: seq<Step>)
    requires Start !in run
    ensures LastStore(before, run) ==> before
  {
    if run != [] {
      assert run[|run| - 1] in run;
      StaysStopped(before, run[..|run| - 1]);
    }
  }

  // ---------------------------------------------------------------------
  // A stop is never lost
  // ---------------------------------------------------------------------

  // The loop thread is in one of the two waits that a stop() is to end, and has not been woken.
  ghost predicate Sleeping(s: State) {
    || (s.pc.WaitSeq? && s.commitSeq == s.pc.last)
    || (s.pc.Select? && s.wakeBytes == 0)
  }

  // The loop thread is in a blocking receive, inside a frame, with nothing arrived from a peer that
  // may still send.
  ghost predicate MidFrame(cfg: Config, s: State) {
    s.pc.Reading? && 0 < Missing(cfg, s.pc.buf) && s.peer.arrived == [] && s.peer.open
  }

  // The loop thread has a step of its own.
  ghost predicate CanStep(cfg: Config, s: State) {
    (exists found :: Enabled(cfg, s, LoopStep(found))) || (exists n :: Enabled(cfg, s, Recv(n)))
  }

  // After a stop() has stored and then woken, nothing short of a new run() puts the loop
  // back into such a wait.
  ghost predicate StoppedForGood(s: State) { !s.running && !Sleeping(s) }

  lemma {:induction false} StoppedForGoodPersists(cfg: Config, s: State, run: seq<Step>)
    requires ValidConfig(cfg) && Invariant(cfg, s) && StoppedForGood(s)
    requires CanRun(cfg, s, run) && Start !in run
    ensures StoppedForGood(After(cfg, s, run))
    decreases |run|
  {
    if run != [] {
      StepKeepsInvariant(cfg, s, run[0]);
      var t := Apply(cfg, s, run[0]);
      assert run[0] in run;
      assert StoppedForGood(t);
      assert Start !in run[1..];
      StoppedForGoodPersists(cfg, t, run[1..]);
    }
  }

  // Once it is not waiting to be woken, the loop thread can go on unless it is inside a frame whose
  // rest is missing.
  lemma StepUnlessMidFrame(cfg: Config, s: State)
    requires ValidConfig(cfg) && Invariant(cfg, s) && !Sleeping(s)
    ensures s.pc.Idle? || CanStep(cfg, s) <==> !MidFrame(cfg, s)
    ensures cfg.transport.SharedHeader? || cfg.transport.kind == Fixed(1) ==> !MidFrame(cfg, s)
    ensures MidFrame(cfg, s) ==> 0 < |s.pc.buf|
  {
    match s.pc
    case Idle =>
    case Poll(_) =>
      var found := cfg.transport.SharedHeader? && s.dispatched < s.published;
      assert Enabled(cfg, s, LoopStep(found));
    case Reading(_, buf) =>
      if 0 < Missing(cfg, buf) && s.peer.arrived != [] {
        assert Enabled(cfg, s, Recv(1));
      } else if !MidFrame(cfg, s) {
        assert Enabled(cfg, s, LoopStep(false));
      }
    case _ => assert Enabled(cfg, s, LoopStep(false));
  }

  // For every run in which a stop() stores false, no run() starts afterwards and the wake-up
  // half of a stop() is executed after the store, the loop thread is not waiting to be woken at the
  // end, whatever happened before, in between and after. It has a step to take, or has returned, if
  // and only if it is not inside a frame whose remaining bytes are missing on an open connection: so
  // always, on shared memory.
  lemma StopIsNeverLost(cfg: Config, before: seq<Step>, between: seq<Step>, rest: seq<Step>)
    requires ValidConfig(cfg)
    requires CanRun(cfg, Initial, before + [StopStore] + between + [StopWake] + rest)
    requires Start !in between && Start !in rest
    ensures var s := After(cfg, Initial, before + [StopStore] + between + [StopWake] + rest);
            && StoppedForGood(s)
            && (s.pc.Idle? || CanStep(cfg, s) <==> !MidFrame(cfg, s))
            && (cfg.transport.SharedHeader? ==> s.pc.Idle? || CanStep(cfg, s))
  {
    var toStore := before + [StopStore];
    var toWake := toStore + between + [StopWake];
    RunConcat(cfg, Initial, toWake, rest);
    RunConcat(cfg, Initial, toStore + between, [StopWake]);
    RunConcat(cfg, Initial, toStore, between);
    InvariantHolds(cfg, Initial, toStore + between);
    RunningIsLastStore(cfg, Initial, toStore);
    var stored := After(cfg, Initial, toStore);
    assert !stored.running;
    RunningIsLastStore(cfg, stored, between);
    StaysStopped(stored.running, between);
    var u := After(cfg, Initial, toStore + between);
    assert !u.running;
    StepKeepsInvariant(cfg, u, StopWake);
    var w := Apply(cfg, u, StopWake);
    assert After(cfg, u, [StopWake]) == w;
    StoppedForGoodPersists(cfg, w, rest);
    InvariantHolds(cfg, w, rest);
    StepUnlessMidFrame(cfg, After(cfg, w, rest));
  }

  // Only the peer, or a failing receive, gets the loop thread out of a frame: not a stop().
  predicate IsPeerStep(step: Step) { step.Arrive? || step.PeerCloses? || step.RecvFails? }

  lemma {:induction false} MidFrameStays(cfg: Config, s: State, run: seq<Step>)
    requires MidFrame(cfg, s) && CanRun(cfg, s, run) && forall i :: 0 <= i < |run| ==> !IsPeerStep(run[i])
    ensures MidFrame(cfg, After(cfg, s, run))
    decreases |run|
  {
    if run != [] {
      assert !IsPeerStep(run[0]);
      assert forall i :: 0 <= i < |run| - 1 ==> run[1..][i] == run[i + 1];
      MidFrameStays(cfg, Apply(cfg, s, run[0]), run[1..]);
    }
  }

  // And a peer's next byte, or its closing, lets it go on.
  lemma PeerEndsMidFrame(cfg: Config, s: State, step: Step)
    requires ValidConfig(cfg) && Invariant(cfg, s) && MidFrame(cfg, s) && Enabled(cfg, s, step) && IsPeerStep(step)
    ensures CanStep(cfg, Apply(cfg, s, step))
  {
    var t := Apply(cfg, s, step);
    StepKeepsInvariant(cfg, s, step);
    if t.pc.Reading? {
      StepUnlessMidFrame(cfg, t);
    } else {
      assert Enabled(cfg, t, LoopStep(false));
    }
  }

  // A loop that polls has accepted a peer and received its first byte.
  lemma FirstByteRun(cfg: Config, s: State)
    requires ValidConfig(cfg) && cfg.transport.WakeSocket? && s.pc == Poll(0) && !s.peer.connected && s.backlog == 0
    ensures var run := [PeerConnects, Accept(Peer(true, true, [1])), LoopStep(true), Recv(1)];
            && CanRun(cfg, s, run)
            && After(cfg, s, run) == s.(peer := Peer(true, true, []), pc := Reading(0, [1]))
  {
    var run := [PeerConnects, Accept(Peer(true, true, [1])), LoopStep(true), Recv(1)];
    var s2 := s.(peer := Peer(true, true, [1]));
    var s3 := s2.(pc := Reading(0, []));
    OneStep(cfg, s, run);
    OneStep(cfg, s.(backlog := 1), run[1..]);
    OneStep(cfg, s2, run[2..]);
    FirstByte(cfg, s3);
    OneStep(cfg, s3, run[3..]);
  }

  lemma FirstByte(cfg: Config, s: State)
    requires ValidConfig(cfg) && cfg.transport.WakeSocket? && s.pc == Reading(0, []) && s.peer == Peer(true, true, [1])
    ensures Enabled(cfg, s, Recv(1))
    ensures Apply(cfg, s, Recv(1)) == s.(peer := Peer(true, true, []), pc := Reading(0, [1]))
  {
    var none: Bytes, byte: Bytes := [], [1];
    assert none + byte[..1] == byte && byte[1..] == none;
  }

  lemma StopRun(cfg: Config, s: State)
    requires cfg.transport.WakeSocket? && 1 <= cfg.transport.wakeCapacity && s.wakeBytes == 0 && s.pendingStops == 0
    ensures CanRun(cfg, s, [StopStore, StopWake])
    ensures After(cfg, s, [StopStore, StopWake]) == s.(running := false, wakeBytes := 1)
  {
    var stop := [StopStore, StopWake];
    OneStep(cfg, s, stop);
    OneStep(cfg, s.(running := false, pendingStops := 1), stop[1..]);
  }

  // Such a run exists for every kind of frame longer than a byte: a peer sends one byte and stays, a
  // stop() stores and wakes, and the loop thread is still in the receive.
  lemma StopLeavesLoopMidFrame(cfg: Config) returns (before: seq<Step>)
    requires ValidConfig(cfg) && cfg.transport.WakeSocket? && cfg.transport.kind != Fixed(1)
    ensures CanRun(cfg, Initial, before + [StopStore, StopWake])
    ensures var s := After(cfg, Initial, before + [StopStore, StopWake]);
            !s.running && s.pendingStops == 0 && 0 < s.wakeBytes && MidFrame(cfg, s)
  {
    var start := [Start, LoopStep(false)];
    var s1 := Initial.(running := true, pc := CheckRunning);
    OneStep(cfg, Initial, start);
    OneStep(cfg, s1, start[1..]);
    var s2 := s1.(pc := Poll(0));
    var first := [PeerConnects, Accept(Peer(true, true, [1])), LoopStep(true), Recv(1)];
    FirstByteRun(cfg, s2);
    Joined(cfg, Initial, start, first);
    before := start + first;
    StopRun(cfg, After(cfg, Initial, before));
    Joined(cfg, Initial, before, [StopStore, StopWake]);
  }

  lemma OneStep(cfg: Config, s: State, run: seq<Step>)
    requires run != [] && Enabled(cfg, s, run[0])
    ensures CanRun(cfg, s, run) <==> CanRun(cfg, Apply(cfg, s, run[0]), run[1..])
    ensures CanRun(cfg, s, run) ==> After(cfg, s, run) == After(cfg, Apply(cfg, s, run[0]), run[1..])
  {}

  lemma {:induction false} Joined(cfg: Config, s: State, r1: seq<Step>, r2: seq<Step>)
    requires CanRun(cfg, s, r1) && CanRun(cfg, After(cfg, s, r1), r2)
    ensures CanRun(cfg, s, r1 + r2) && After(cfg, s, r1 + r2) == After(cfg, After(cfg, s, r1), r2)
    decreases |r1|
  {
    if r1 == [] {
      assert r1 + r2 == r2;
    } else {
      assert (r1 + r2)[0] == r1[0] && (r1 + r2)[1..] == r1[1..] + r2;
      Joined(cfg, Apply(cfg, s, r1[0]), r1[1..], r2);
    }
  }

  // The work of a whole poll of a socket: accept, select, a receive for each byte, and the end.
  function PollWork(cfg: Config, polls: nat): nat {
    if polls == 0 then 0 else FrameBound(cfg) + 3 + PollWork(cfg, polls - 1)
  }

  // How many loop-thread steps remain at most once running_ is false.
  function Rank(cfg: Config, s: State): nat {
    match s.pc
    case Idle => 0
    case CheckRunning => 1
    case RecheckSeq(_) | WaitSeq(_) | RecheckSocket => 2
    case LoadSeq => 3
    case Drain => 2 + s.wakeBytes
    case Select => 3 + s.wakeBytes
    case Poll(b) => 5 + PollWork(cfg, Left(cfg, b)) - (if s.peer.connected then 1 else 0)
    case Reading(b, buf) =>
      5 + PollWork(cfg, Left(cfg, b + 1)) + (if |buf| < FrameBound(cfg) then FrameBound(cfg) - |buf| else 0)
  }

  function Left(cfg: Config, b: nat): nat { if b < cfg.maxBatch then cfg.maxBatch - b else 0 }

  predicate IsLoopStep(step: Step) {
    step.LoopStep? || step.Accept? || step.Recv? || step.RecvFails? || step.SelectFails?
  }

  function CountSteps(p: Step -> bool, run: seq<Step>): nat {
    if run == [] then 0 else (if p(run[0]) then 1 else 0) + CountSteps(p, run[1..])
  }

  lemma RankFalls(cfg: Config, s: State, step: Step)
    requires ValidConfig(cfg) && Invariant(cfg, s) && StoppedForGood(s) && Enabled(cfg, s, step) && step != Start
    ensures Rank(cfg, Apply(cfg, s, step)) + (if IsLoopStep(step) then 1 else 0)
            <= Rank(cfg, s) + (if step == StopWake then 1 else 0)
  {
    if s.pc.Reading? {
      MissingFits(cfg, s.pc.buf);
    }
  }

  // Once stopped, the loop thread takes boundedly many steps, each concurrent stop() adding
  // at most the one byte it puts in the wake socket; and until run() returns it has a step to take
  // if and only if it is not inside a frame whose rest is missing.
  lemma {:induction false} StoppedLoopReturns(cfg: Config, s: State, run: seq<Step>)
    requires ValidConfig(cfg) && Invariant(cfg, s) && StoppedForGood(s)
    requires CanRun(cfg, s, run) && Start !in run
    ensures CountSteps(IsLoopStep, run) + Rank(cfg, After(cfg, s, run))
            <= Rank(cfg, s) + CountSteps((x: Step) => x == StopWake, run)
    ensures var t := After(cfg, s, run);
            && (t.pc.Idle? || CanStep(cfg, t) <==> !MidFrame(cfg, t))
            && (cfg.transport.SharedHeader? ==> t.pc.Idle? || CanStep(cfg, t))
    decreases |run|
  {
    if run == [] {
      StepUnlessMidFrame(cfg, s);
    } else {
      var t := Apply(cfg, s, run[0]);
      assert run[0] in run;
      StepKeepsInvariant(cfg, s, run[0]);
      StoppedForGoodPersists(cfg, s, [run[0]]);
      assert After(cfg, s, [run[0]]) == t;
      RankFalls(cfg, s, run[0]);
      StoppedLoopReturns(cfg, t, run[1..]);
    }
  }

  // ---------------------------------------------------------------------
  // How much is dispatched after a stop
  // ---------------------------------------------------------------------

  // Messages the batch in progress may still dispatch.
  function BatchLeft(cfg: Config, s: State): nat {
    if s.pc.Poll? || s.pc.Reading? then Left(cfg, s.pc.batch) else 0
  }

  lemma {:induction false} StoppedBudget(cfg: Config, s: State, run: seq<Step>)
    requires ValidConfig(cfg) && Invariant(cfg, s) && !s.running
    requires CanRun(cfg, s, run) && Start !in run
    ensures var t := After(cfg, s, run);
            t.dispatched + BatchLeft(cfg, t) <= s.dispatched + BatchLeft(cfg, s)
    decreases |run|
  {
    if run != [] {
      assert run[0] in run;
      StepKeepsInvariant(cfg, s, run[0]);
      StoppedBudget(cfg, Apply(cfg, s, run[0]), run[1..]);
    }
  }

  // From the moment stop() stores false until the next run(), at most maxBatch more messages
  // are dispatched: at most one by `run`.
  lemma DispatchedAfterStop(cfg: Config, before: seq<Step>, rest: seq<Step>)
    requires ValidConfig(cfg)
    requires CanRun(cfg, Initial, before + [StopStore] + rest)
    requires Start !in rest
    ensures CanRun(cfg, Initial, before)
    ensures After(cfg, Initial, before + [StopStore] + rest).dispatched
            <= After(cfg, Initial, before).dispatched + cfg.maxBatch
  {
    RunConcat(cfg, Initial, before + [StopStore], rest);
    RunConcat(cfg, Initial, before, [StopStore]);
    var s := After(cfg, Initial, before);
    InvariantHolds(cfg, Initial, before + [StopStore]);
    assert After(cfg, s, [StopStore]) == Apply(cfg, s, StopStore);
    StoppedBudget(cfg, Apply(cfg, s, StopStore), rest);
  }

  // The bound is met: a loop caught at the start of a full batch dispatches all of it. On shared
  // memory each poll is one step.
  lemma {:induction false} BatchRunsOut(cfg: Config, s: State, run: seq<Step>)
    requires ValidConfig(cfg) && cfg.transport.SharedHeader? && s.pc.Poll? && s.pc.batch < cfg.maxBatch
    requires s.dispatched + BatchLeft(cfg, s) <= s.published
    requires |run| == BatchLeft(cfg, s) && forall i :: 0 <= i < |run| ==> run[i] == LoopStep(true)
    ensures CanRun(cfg, s, run)
    ensures After(cfg, s, run).dispatched == s.dispatched + BatchLeft(cfg, s)
    ensures After(cfg, s, run).pc == CheckRunning
    decreases |run|
  {
    var t := Apply(cfg, s, run[0]);
    if t.pc.Poll? {
      BatchRunsOut(cfg, t, run[1..]);
    } else {
      assert run[1..] == [];
    }
  }

  // A proper part of a frame lacks something, and a whole one nothing.
  lemma PartOfFrame(cfg: Config, m: Bytes, k: nat)
    requires ValidConfig(cfg) && cfg.transport.WakeSocket? && Sendable(cfg.transport.kind, m)
    requires k <= |Frame(cfg.transport.kind, m)|
    ensures var f := Frame(cfg.transport.kind, m);
            && (k < |f| ==> 0 < Missing(cfg, f[..k]))
            && (k == |f| ==> Missing(cfg, f[..k]) == 0 && Complete(cfg, f[..k]))
  {
    var f := Frame(cfg.transport.kind, m);
    if cfg.transport.kind.Varlen? && 4 <= k {
      assert f[..k][..4] == StoreLe32(|m|);
      LoadStore(|m|);
    }
  }

  function ReadingAt(s: State, b: nat, f: Bytes, rest: Bytes, k: nat): State
    requires k <= |f|
  {
    s.(pc := Reading(b, f[..k]), peer := Peer(true, s.peer.open, f[k..] + rest))
  }

  // The rest of a frame that has arrived is received, byte by byte.
  lemma {:induction false} ReceiveRun(cfg: Config, s: State, b: nat, m: Bytes, rest: Bytes, k: nat)
    returns (run: seq<Step>)
    requires ValidConfig(cfg) && cfg.transport.WakeSocket? && Sendable(cfg.transport.kind, m)
    requires k <= |Frame(cfg.transport.kind, m)|
    ensures var f := Frame(cfg.transport.kind, m);
            && CanRun(cfg, ReadingAt(s, b, f, rest, k), run)
            && After(cfg, ReadingAt(s, b, f, rest, k), run) == ReadingAt(s, b, f, rest, |f|)
    decreases |Frame(cfg.transport.kind, m)| - k
  {
    var f := Frame(cfg.transport.kind, m);
    if k == |f| {
      run := [];
    } else {
      var more := ReceiveRun(cfg, s, b, m, rest, k + 1);
      PartOfFrame(cfg, m, k);
      ReceiveByte(cfg, s, b, f, rest, k);
      run := [Recv(1)] + more;
      assert run[1..] == more;
      OneStep(cfg, ReadingAt(s, b, f, rest, k), run);
    }
  }

  lemma ReceiveByte(cfg: Config, s: State, b: nat, f: Bytes, rest: Bytes, k: nat)
    requires k < |f| && 0 < Missing(cfg, f[..k])
    ensures Enabled(cfg, ReadingAt(s, b, f, rest, k), Recv(1))
    ensures Apply(cfg, ReadingAt(s, b, f, rest, k), Recv(1)) == ReadingAt(s, b, f, rest, k + 1)
  {
    var arrived := f[k..] + rest;
    assert f[..k] + arrived[..1] == f[..k + 1] && arrived[1..] == f[k + 1..] + rest;
  }

  // A frame that has arrived is dispatched.
  lemma FrameRun(cfg: Config, s: State, m: Bytes, rest: Bytes) returns (run: seq<Step>)
    requires ValidConfig(cfg) && cfg.transport.WakeSocket? && Sendable(cfg.transport.kind, m) && s.pc.Poll?
    requires s.peer.connected && s.peer.arrived == Frame(cfg.transport.kind, m) + rest
    ensures CanRun(cfg, s, run)
    ensures After(cfg, s, run) == Found(cfg, s.(peer := s.peer.(arrived := rest)), s.pc.batch)
  {
    var f, b := Frame(cfg.transport.kind, m), s.pc.batch;
    var receives := ReceiveRun(cfg, s, b, m, rest, 0);
    PartOfFrame(cfg, m, 0);
    PartOfFrame(cfg, m, |f|);
    assert f[..0] == [] && f[0..] == f && f[..|f|] == f && f[|f|..] + rest == rest;
    FrameNotEmpty(cfg.transport.kind, m);
    run := [LoopStep(true)] + receives;
    assert run[1..] == receives;
    OneStep(cfg, s, run);
    var done := [LoopStep(true)];
    OneStep(cfg, ReadingAt(s, b, f, rest, |f|), done);
    Joined(cfg, s, run, done);
    run := run + done;
  }

  // On a socket, a loop caught at the start of a full batch whose frames have arrived dispatches all
  // of it.
  lemma {:induction false} SocketBatchRunsOut(cfg: Config, s: State, ms: seq<Bytes>) returns (run: seq<Step>)
    requires ValidConfig(cfg) && cfg.transport.WakeSocket? && s.pc.Poll? && s.pc.batch < cfg.maxBatch
    requires |ms| == BatchLeft(cfg, s) && AllSendable(cfg.transport.kind, ms)
    requires s.peer.connected && s.peer.arrived == Wire(cfg.transport.kind, ms)
    ensures CanRun(cfg, s, run)
    ensures After(cfg, s, run).dispatched == s.dispatched + BatchLeft(cfg, s)
    ensures After(cfg, s, run).pc == CheckRunning
    decreases |ms|
  {
    var kind := cfg.transport.kind;
    assert AllSendable(kind, ms[1..]);
    var rest := Wire(kind, ms[1..]);
    assert Frames(kind, ms)[1..] == Frames(kind, ms[1..]);
    var one := FrameRun(cfg, s, ms[0], rest);
    var t := After(cfg, s, one);
    if t.pc.Poll? {
      var more := SocketBatchRunsOut(cfg, t, ms[1..]);
      Joined(cfg, s, one, more);
      run := one + more;
    } else {
      run := one;
    }
  }

  // ---------------------------------------------------------------------
  // What the loop does until it is stopped
  // ---------------------------------------------------------------------

  // run() returns only when it finds running_ false.
  lemma ReturnsOnlyWhenStopped(cfg: Config, s: State, step: Step)
    requires Enabled(cfg, s, step) && !s.pc.Idle? && Apply(cfg, s, step).pc.Idle?
    ensures !s.running && s.pc == CheckRunning && step.LoopStep?
  {}

  lemma {:induction false} RunsOn(cfg: Config, s: State, run: seq<Step>)
    requires CanRun(cfg, s, run) && s.running && !s.pc.Idle? && Start !in run && StopStore !in run
    ensures After(cfg, s, run).running && !After(cfg, s, run).pc.Idle?
    decreases |run|
  {
    if run != [] {
      assert run[0] in run;
      var t := Apply(cfg, s, run[0]);
      if t.pc.Idle? {
        ReturnsOnlyWhenStopped(cfg, s, run[0]);
      }
      RunsOn(cfg, t, run[1..]);
    }
  }

  // So in every run in which a loop that was started has returned, a stop() stored false after the
  // last start.
  lemma ReturnedAfterStop(cfg: Config, before: seq<Step>, rest: seq<Step>)
    requires CanRun(cfg, Initial, before + [Start] + rest) && Start !in rest
    requires After(cfg, Initial, before + [Start] + rest).pc.Idle?
    ensures StopStore in rest
  {
    if StopStore !in rest {
      RunConcat(cfg, Initial, before + [Start], rest);
      RunConcat(cfg, Initial, before, [Start]);
      var s := After(cfg, Initial, before);
      assert After(cfg, s, [Start]) == Apply(cfg, s, Start);
      RunsOn(cfg, Apply(cfg, s, Start), rest);
    }
  }

  // A poll that finds nothing after some successes is followed by another poll, not by a wait.
  lemma PartialBatchPollsOn(cfg: Config, s: State)
    requires s.running && s.pc.Poll? && 0 < s.pc.batch && Enabled(cfg, s, LoopStep(false))
    ensures CanRun(cfg, s, [LoopStep(false), LoopStep(false)])
    ensures After(cfg, s, [LoopStep(false), LoopStep(false)]) == s.(pc := Poll(0))
  {
    var run := [LoopStep(false), LoopStep(false)];
    OneStep(cfg, s, run);
    OneStep(cfg, s.(pc := CheckRunning), run[1..]);
  }

  // Only a poll that finds nothing at the start of a batch leads to a wait, and the wait of the
  // transport in use.
  lemma WaitsOnlyAfterEmptyPoll(cfg: Config, s: State, step: Step)
    requires Enabled(cfg, s, step) && !IsWaiting(s.pc) && IsWaiting(Apply(cfg, s, step).pc)
    ensures (s.pc.Poll? || s.pc.Reading?) && s.pc.batch == 0 && Apply(cfg, s, step).dispatched == s.dispatched
    ensures Apply(cfg, s, step).pc == if cfg.transport.SharedHeader? then LoadSeq else RecheckSocket
  {}

  // From the first access of a wait to the last.
  predicate IsWaiting(pc: Pc) {
    pc.LoadSeq? || pc.RecheckSeq? || pc.WaitSeq? || pc.RecheckSocket? || pc.Select? || pc.Drain?
  }

  // The loop is on its way to a poll, not in a wait that nothing has ended.
  ghost predicate OnTheMove(s: State) {
    s.pc == CheckRunning || s.pc.Poll? || (s.pc.WaitSeq? && s.commitSeq != s.pc.last)
  }

  // While running on shared memory, a published message is dispatched by the loop's own next steps,
  // three at most.
  lemma NextMessageServed(cfg: Config, s: State) returns (run: seq<Step>)
    requires ValidConfig(cfg) && cfg.transport.SharedHeader? && s.running && OnTheMove(s) && s.dispatched < s.published
    ensures |run| <= 3 && CanRun(cfg, s, run) && forall i :: 0 <= i < |run| ==> run[i].LoopStep?
    ensures After(cfg, s, run).dispatched == s.dispatched + 1
  {
    if s.pc.Poll? {
      run := [LoopStep(true)];
      OneStep(cfg, s, run);
    } else if s.pc == CheckRunning {
      run := [LoopStep(false), LoopStep(true)];
      OneStep(cfg, s, run);
      OneStep(cfg, s.(pc := Poll(0)), run[1..]);
    } else {
      run := [LoopStep(false), LoopStep(false), LoopStep(true)];
      OneStep(cfg, s, run);
      OneStep(cfg, s.(pc := CheckRunning), run[1..]);
      OneStep(cfg, s.(pc := Poll(0)), run[2..]);
    }
  }

  // With nothing to do it does not spin: its next steps take it to sleep.
  lemma IdleLoopSleeps(cfg: Config, s: State) returns (run: seq<Step>)
    requires ValidConfig(cfg) && s.running && s.pc == CheckRunning
    requires if cfg.transport.SharedHeader? then s.dispatched == s.published else s.wakeBytes == 0 && !SourceReady(s)
    ensures CanRun(cfg, s, run) && forall i :: 0 <= i < |run| ==> run[i].LoopStep?
    ensures var t := After(cfg, s, run);
            Sleeping(t) && t.dispatched == s.dispatched && forall found :: !Enabled(cfg, t, LoopStep(found))
  {
    var s1 := NotFound(cfg, s.(pc := Poll(0)), 0);
    run := if cfg.transport.SharedHeader? then [LoopStep(false), LoopStep(false), LoopStep(false), LoopStep(false)]
           else [LoopStep(false), LoopStep(false), LoopStep(false)];
    OneStep(cfg, s, run);
    OneStep(cfg, s.(pc := Poll(0)), run[1..]);
    OneStep(cfg, s1, run[2..]);
    if cfg.transport.SharedHeader? {
      OneStep(cfg, s1.(pc := RecheckSeq(s.commitSeq), loadMark := s.published), run[3..]);
    }
  }

  // A wait on the wake socket ends with the socket drained, unless select fails.
  lemma WaitEndsDrained(cfg: Config, s: State, step: Step)
    requires Enabled(cfg, s, step) && s.pc in {Select, Drain} && Apply(cfg, s, step).pc !in {Select, Drain}
    ensures (step == SelectFails || s.wakeBytes == 0) && Apply(cfg, s, step).pc == CheckRunning
  {}

  // Draining takes 64 bytes at a time, and one more receive to find nothing left.
  lemma {:induction false} DrainRun(cfg: Config, s: State) returns (run: seq<Step>)
    requires s.pc == Drain
    ensures |run| == (s.wakeBytes + 63) / 64 + 1 && forall i :: 0 <= i < |run| ==> run[i] == LoopStep(false)
    ensures CanRun(cfg, s, run) && After(cfg, s, run) == s.(pc := CheckRunning, wakeBytes := 0)
    decreases s.wakeBytes
  {
    var rest: seq<Step> := [];
    var s1 := Apply(cfg, s, LoopStep(false));
    if s.wakeBytes != 0 {
      rest := DrainRun(cfg, s1);
    }
    run := [LoopStep(false)] + rest;
    assert run[1..] == rest;
    OneStep(cfg, s, run);
  }

  // What ends a wait in select, and when a poll of a socket goes on to read: bytes or the end of the
  // peer's stream, or a peer to accept. Either call may also fail.
  lemma SocketOutcomes(cfg: Config, s: State, found: bool)
    requires cfg.transport.WakeSocket?
    ensures s.pc == Select ==>
              (Enabled(cfg, s, LoopStep(found)) <==>
                 || 0 < s.wakeBytes || (s.peer.connected && (s.peer.arrived != [] || !s.peer.open))
                 || (!s.peer.connected && 0 < s.backlog))
    ensures s.pc.Poll? ==>
              (Enabled(cfg, s, LoopStep(true)) <==> s.peer.connected && (s.peer.arrived != [] || !s.peer.open))
    ensures (Enabled(cfg, s, SelectFails) <==> s.pc.Select?) && (Enabled(cfg, s, RecvFails) <==> s.pc.Reading?)
  {}

  // Out of select, past the wake bytes.
  lemma LeaveSelectRun(cfg: Config, s: State) returns (run: seq<Step>)
    requires s.pc == Select && Enabled(cfg, s, LoopStep(false))
    ensures CanRun(cfg, s, run) && After(cfg, s, run) == s.(pc := CheckRunning, wakeBytes := 0)
  {
    run := [LoopStep(false)];
    OneStep(cfg, s, run);
    if 0 < s.wakeBytes {
      var drain := DrainRun(cfg, s.(pc := Drain));
      Joined(cfg, s, run, drain);
      run := run + drain;
    }
  }

  // While running on a socket, a loop asleep in select dispatches a message whose frame has arrived.
  lemma NextFrameServed(cfg: Config, s: State, m: Bytes, rest: Bytes) returns (run: seq<Step>)
    requires ValidConfig(cfg) && cfg.transport.WakeSocket? && Sendable(cfg.transport.kind, m)
    requires s.running && s.pc == Select && s.peer.connected && s.peer.arrived == Frame(cfg.transport.kind, m) + rest
    ensures CanRun(cfg, s, run) && After(cfg, s, run).dispatched == s.dispatched + 1
  {
    FrameNotEmpty(cfg.transport.kind, m);
    run := LeaveSelectRun(cfg, s);
    var s1 := s.(pc := CheckRunning, wakeBytes := 0);
    var s2 := s1.(pc := Poll(0));
    OneStep(cfg, s1, [LoopStep(false)]);
    Joined(cfg, s, run, [LoopStep(false)]);
    run := run + [LoopStep(false)];
    var frame := FrameRun(cfg, s2, m, rest);
    Joined(cfg, s, run, frame);
    run := run + frame;
  }

  // How reading from a peer ends: with one more message dispatched, and the peer kept, exactly when
  // what was read is the frame of a message; otherwise with the peer dropped and nothing dispatched.
  lemma ReadEnds(cfg: Config, s: State, step: Step)
    requires ValidConfig(cfg) && Invariant(cfg, s) && s.pc.Reading? && Enabled(cfg, s, step)
    requires !Apply(cfg, s, step).pc.Reading?
    ensures var t := Apply(cfg, s, step);
            && (t.dispatched == s.dispatched + 1 <==> step.LoopStep? && IsFrame(cfg.transport.kind, s.pc.buf))
            && (t.dispatched == s.dispatched + 1 ==> t.peer == s.peer)
            && (t.dispatched != s.dispatched + 1 ==> t.peer == NoPeer && t.dispatched == s.dispatched)
  {
    var kind, buf := cfg.transport.kind, s.pc.buf;
    if Complete(cfg, buf) {
      CompleteBuffer(kind, buf);
      assert Deliverable(kind, BufferPayload(kind, buf)) && Frame(kind, BufferPayload(kind, buf)) == buf;
    } else if IsFrame(kind, buf) {
      var m :| Deliverable(kind, m) && Frame(kind, m) == buf;
      FrameShape(kind, m);
    }
  }

  ghost predicate IsFrame(kind: Kind, buf: Bytes) { exists m :: Deliverable(kind, m) && Frame(kind, m) == buf }

  // ---------------------------------------------------------------------
  // Sleeping with messages queued
  // ---------------------------------------------------------------------

  // In every reachable state where the shared-memory loop sleeps, each queued message became
  // visible after the poll that found nothing. With no bump outstanding the queue is non-empty
  // exactly when some message was committed between that poll and the load of commit_seq;
  // an outstanding bump, or any other bump, ends the sleep.
  lemma SleepingQueue(cfg: Config, run: seq<Step>)
    requires ValidConfig(cfg) && cfg.transport.SharedHeader?
    requires CanRun(cfg, Initial, run)
    ensures var s := After(cfg, Initial, run);
            Sleeping(s) ==>
              && s.dispatched == s.failMark
              && (!s.bumpPending ==> s.published == s.loadMark)
              && (!s.bumpPending ==> (s.dispatched < s.published <==> s.failMark < s.loadMark))
              && s.published <= s.loadMark + 1
              && forall step :: (step == BumpCommit || step == StopWake) && Enabled(cfg, s, step)
                                ==> !Sleeping(Apply(cfg, s, step))
  {
    InvariantHolds(cfg, Initial, run);
  }

  // Such a state exists: the loop polls an empty ring, a message is committed in full, and only
  // then is commit_seq loaded.
  lemma SleepsWithMessageQueued(cfg: Config) returns (run: seq<Step>)
    requires ValidConfig(cfg) && cfg.transport.SharedHeader?
    ensures CanRun(cfg, Initial, run)
    ensures var s := After(cfg, Initial, run);
            Sleeping(s) && s.running && !s.bumpPending && s.dispatched < s.published
  {
    var one, two := [Start, LoopStep(false), LoopStep(false)], [Publish, BumpCommit, LoopStep(false), LoopStep(false)];
    var s1 := Initial.(running := true, pc := CheckRunning);
    var s3 := s1.(pc := LoadSeq);
    OneStep(cfg, Initial, one);
    OneStep(cfg, s1, one[1..]);
    OneStep(cfg, s1.(pc := Poll(0)), one[2..]);
    LateCommitRun(cfg, s3);
    Joined(cfg, Initial, one, two);
    run := one + two;
  }

  // A message is committed in full before commit_seq is loaded.
  lemma LateCommitRun(cfg: Config, s: State)
    requires cfg.transport.SharedHeader? && s.pc == LoadSeq && s.running && !s.bumpPending
    ensures var run := [Publish, BumpCommit, LoopStep(false), LoopStep(false)];
            && CanRun(cfg, s, run)
            && After(cfg, s, run) == s.(published := s.published + 1, loadMark := s.published + 1,
                                        commitSeq := s.commitSeq + 1, pc := WaitSeq(s.commitSeq + 1))
  {
    var run := [Publish, BumpCommit, LoopStep(false), LoopStep(false)];
    var s2 := s.(published := s.published + 1, commitSeq := s.commitSeq + 1);
    OneStep(cfg, s, run);
    OneStep(cfg, s.(published := s.published + 1, bumpPending := true), run[1..]);
    OneStep(cfg, s2, run[2..]);
    OneStep(cfg, s2.(loadMark := s2.published, pc := RecheckSeq(s2.commitSeq)), run[3..]);
  }

  // ---------------------------------------------------------------------
  // Backpressure
  // ---------------------------------------------------------------------

  // Whenever run() with a backpressure callback waits or has returned, the callback has been told of
  // every message dispatched so far, each once.
  lemma BackpressureReportsAll(cfg: Config, run: seq<Step>)
    requires ValidConfig(cfg) && cfg.backpressure && CanRun(cfg, Initial, run)
    ensures var s := After(cfg, Initial, run);
            s.reported <= s.dispatched && (s.pc.Idle? || IsWaiting(s.pc) ==> s.reported == s.dispatched)
  {
    InvariantHolds(cfg, Initial, run);
  }
}
