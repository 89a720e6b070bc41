/**
How `runtime` hands a polled message to the executor (include/xproc/ipc/runtime.hpp): by a
reference into its reused buffer, by a reference into the ring, or by a captured copy.
*/
module CopyPolicy {
  import opened Common

  datatype Meta = Meta(userData: nat, timestampNs: nat, schemaId: nat, flags: nat)

  datatype Message = Message(meta: Meta, bytes: Bytes)

  datatype Policy = ReuseBuffer | ZeroCopy | Sbo

  const SBO_THRESHOLD: nat := 256

  // What the submitted callable has captured.
  datatype Task =
    | FromReuseBuffer(meta: Meta, n: nat, block: nat) // the address of reuse_buf_'s block, a raw address
    | FromRing(meta: Meta, n: nat)                    // a reference to the slot being polled
    | Inline(meta: Meta, buf: Bytes, n: nat)          // a 256-byte array by value
    | Heap(meta: Meta, bytes: Bytes)                  // a shared vector

  // The reused vector. A growing resize beyond the capacity moves it to a new block and frees
  // the old one; `block` numbers the blocks.
  datatype Buffer = Buffer(bytes: Bytes, capacity: nat, block: nat)

  const Unused := Buffer([], 0, 0)

  // The two pieces of memory the references lead to, at the time a callable runs.
  datatype Memory = Memory(reuse: Buffer, slot: Bytes)

  // Whether the callable finds the memory it refers to. Reading no bytes needs no memory.
  predicate CanRun(task: Task, mem: Memory) {
    match task
    case FromReuseBuffer(_, n, block) => n == 0 || (block == mem.reuse.block && n <= |mem.reuse.bytes|)
    case FromRing(_, n) => n <= |mem.slot|
    case Inline(_, buf, n) => n <= |buf|
    case Heap(_, _) => true
  }

  // What the handler is called with when it runs.
  function Run(task: Task, mem: Memory): Message
    requires CanRun(task, mem)
  {
    match task
    case FromReuseBuffer(meta, n, _) => Message(meta, if n == 0 then [] else mem.reuse.bytes[..n])
    case FromRing(meta, n) => Message(meta, mem.slot[..n])
    case Inline(meta, buf, n) => Message(meta, buf[..n])
    case Heap(meta, bytes) => Message(meta, bytes)
  }

  // The message is copied over the front of the buffer, which grows if it has to.
  function Overwrite(buf: Bytes, m: Bytes): Bytes {
    if |m| <= |buf| then m + buf[|m|..] else m
  }

  // resize and memcpy: a message beyond the capacity moves the vector, which then has room for
  // it and for `spare` bytes more, as the implementation likes.
  function CopyInto(b: Buffer, m: Bytes, spare: nat): Buffer {
    if |m| <= b.capacity then b.(bytes := Overwrite(b.bytes, m))
    else Buffer(Overwrite(b.bytes, m), |m| + spare, b.block + 1)
  }

  class Runtime {
    var reuse: Buffer
    var slot: Bytes            // the ring bytes the last poll exposed

    ghost predicate Valid()
      reads this
    {
      |reuse.bytes| <= reuse.capacity
    }

    ghost function Mem(): Memory
      reads this
    {
      Memory(reuse, slot)
    }

    constructor ()
      ensures Valid() && reuse == Unused
    {
      reuse, slot := Unused, [];
    }

    // resize if need be, then memcpy into the front of the reused buffer
    method CopyToReuse(m: Bytes, spare: nat)
      requires Valid()
      modifies this`reuse
      ensures Valid() && reuse == CopyInto(old(reuse), m, spare)
    {
      var n := |m|;
      if |reuse.bytes| < n {
        if reuse.capacity < n {
          reuse := reuse.(capacity := n + spare, block := reuse.block + 1);
        }
        reuse := reuse.(bytes := reuse.bytes + Zeros(n - |reuse.bytes|));
      }
      reuse := reuse.(bytes := m + reuse.bytes[n..]);
    }

    // One successful poll: the callable that is handed to the executor. Run on the spot it
    // sees the message, under every policy.
    method Submit(policy: Policy, m: Message, spare: nat) returns (task: Task)
      requires Valid()
      modifies this
      ensures Valid() && slot == m.bytes
      ensures reuse == if policy.ReuseBuffer? then CopyInto(old(reuse), m.bytes, spare) else old(reuse)
      ensures policy.ReuseBuffer? ==> task == FromReuseBuffer(m.meta, |m.bytes|, reuse.block)
      ensures policy.ZeroCopy? ==> task == FromRing(m.meta, |m.bytes|)
      ensures policy.Sbo? ==> (if |m.bytes| <= 256 then task.Inline? && |task.buf| == 256 else task.Heap?)
      ensures CanRun(task, Mem()) && Run(task, Mem()) == m
    {
      slot := m.bytes;
      var n := |m.bytes|;
      match policy {
        case ReuseBuffer =>
          CopyToReuse(m.bytes, spare);
          task := FromReuseBuffer(m.meta, n, reuse.block);
        case ZeroCopy =>
          task := FromRing(m.meta, n);
        case Sbo =>
          if n <= SBO_THRESHOLD {
            var buf := m.bytes + Zeros(SBO_THRESHOLD - n);
            task := Inline(m.meta, buf, n);
          } else {
            task := Heap(m.meta, m.bytes);
          }
      }
    }

    // An inline executor runs each task before the next poll: the handler sees the polled
    // sequence, the same for all three policies.
    method RunInline(policy: Policy, messages: seq<Message>, spares: seq<nat>) returns (handled: seq<Message>)
      requires Valid() && |spares| == |messages|
      modifies this
      ensures Valid() && handled == messages
    {
      handled := [];
      for i := 0 to |messages|
        invariant Valid() && handled == messages[..i]
      {
        var task := Submit(policy, messages[i], spares[i]);
        handled := handled + [Run(task, Memory(reuse, slot))];
      }
    }

    // A queueing executor: one callable per message, none run yet.
    method SubmitAll(policy: Policy, messages: seq<Message>, spares: seq<nat>) returns (tasks: seq<Task>)
      requires reuse == Unused && |spares| == |messages|
      modifies this
      ensures |tasks| == |messages|
      ensures policy.Sbo? ==> forall i, mem :: 0 <= i < |tasks| ==>
                CanRun(tasks[i], mem) && Run(tasks[i], mem) == messages[i]
      ensures policy.ReuseBuffer? ==> reuse == Polled(messages, spares)
      ensures policy.ReuseBuffer? ==> forall i :: 0 <= i < |tasks| ==> tasks[i] == ReuseTask(messages, spares, i)
    {
      tasks := [];
      for i := 0 to |messages|
        invariant Valid() && |tasks| == i
        invariant policy.Sbo? ==> forall k :: 0 <= k < i ==> OwnsItsBytes(tasks[k], messages[k])
        invariant policy.ReuseBuffer? ==> reuse == Polled(messages[..i], spares[..i])
        invariant policy.ReuseBuffer? ==> forall k :: 0 <= k < i ==> tasks[k] == ReuseTask(messages, spares, k)
      {
        assert messages[..i + 1][..i] == messages[..i] && spares[..i + 1][..i] == spares[..i];
        var task := Submit(policy, messages[i], spares[i]);
        tasks := tasks + [task];
      }
      assert messages[..|messages|] == messages && spares[..|spares|] == spares;
    }
  }

  // A task that holds its message by value.
  ghost predicate OwnsItsBytes(task: Task, m: Message) {
    match task
    case FromReuseBuffer(_, _, _) => false
    case FromRing(_, _) => false
    case Inline(meta, buf, n) => meta == m.meta && n <= |buf| && buf[..n] == m.bytes
    case Heap(meta, bytes) => meta == m.meta && bytes == m.bytes
  }

  // Under sbo, whatever has happened to the runtime's memory in the meantime and in whatever
  // order the queued tasks are run, each delivers its own message.
  method RunLater(messages: seq<Message>, order: seq<nat>, mems: seq<Memory>) returns (handled: seq<Message>)
    requires |order| == |mems| && forall j :: 0 <= j < |order| ==> order[j] < |messages|
    ensures |handled| == |order|
    ensures forall j :: 0 <= j < |order| ==> handled[j] == messages[order[j]]
  {
    var rt := new Runtime();
    var tasks := rt.SubmitAll(Sbo, messages, seq(|messages|, i => 0));
    handled := [];
    for j := 0 to |order|
      invariant |handled| == j
      invariant forall k :: 0 <= k < j ==> handled[k] == messages[order[k]]
    {
      handled := handled + [Run(tasks[order[j]], mems[j])];
    }
  }

  // ---------------------------------------------------------------------
  // What a late task sees under reuse_buffer
  // ---------------------------------------------------------------------

  // The bytes of the reused buffer after polling all of these messages.
  function Overwritten(messages: seq<Message>): Bytes {
    if messages == [] then []
    else Overwrite(Overwritten(messages[..|messages| - 1]), messages[|messages| - 1].bytes)
  }

  // The reused buffer itself; `spares` are the implementation's choices at each growth.
  function Polled(messages: seq<Message>, spares: seq<nat>): (b: Buffer)
    requires |spares| == |messages|
    ensures b.bytes == Overwritten(messages) && |b.bytes| <= b.capacity
  {
    if messages == [] then Unused
    else
      var n := |messages| - 1;
      CopyInto(Polled(messages[..n], spares[..n]), messages[n].bytes, spares[n])
  }

  // What was submitted for message i.
  function ReuseTask(messages: seq<Message>, spares: seq<nat>, i: nat): Task
    requires |spares| == |messages| && i < |messages|
  {
    FromReuseBuffer(messages[i].meta, |messages[i].bytes|, Polled(messages[..i + 1], spares[..i + 1]).block)
  }

  // m is the latest message with a byte at position k.
  ghost predicate LatestAt(messages: seq<Message>, k: nat, m: nat) {
    && m < |messages| && k < |messages[m].bytes|
    && forall j :: m < j < |messages| ==> |messages[j].bytes| <= k
  }

  // Each byte of the buffer comes from the latest message long enough to have it.
  lemma {:induction false} BufferHoldsLatest(messages: seq<Message>, k: nat, m: nat)
    requires LatestAt(messages, k, m)
    ensures k < |Overwritten(messages)| && Overwritten(messages)[k] == messages[m].bytes[k]
  {
    var n := |messages| - 1;
    if m < n {
      assert LatestAt(messages[..n], k, m);
      BufferHoldsLatest(messages[..n], k, m);
    }
  }

  lemma {:induction false} LatestExists(messages: seq<Message>, i: nat, k: nat) returns (m: nat)
    requires i < |messages| && k < |messages[i].bytes|
    ensures i <= m && LatestAt(messages, k, m)
  {
    var n := |messages| - 1;
    if k < |messages[n].bytes| {
      m := n;
    } else {
      m := LatestExists(messages[..n], i, k);
    }
  }

  lemma BufferCoversAll(messages: seq<Message>, i: nat)
    requires i < |messages|
    ensures |messages[i].bytes| <= |Overwritten(messages)|
  {
    if messages[i].bytes != [] {
      var k := |messages[i].bytes| - 1;
      var m := LatestExists(messages, i, k);
      BufferHoldsLatest(messages, k, m);
    }
  }

  // At every position of message i, the last message to reach it carries the same byte.
  ghost predicate Undisturbed(messages: seq<Message>, i: nat)
    requires i < |messages|
  {
    forall k: nat, m: nat :: k < |messages[i].bytes| && LatestAt(messages, k, m)
                             ==> messages[m].bytes[k] == messages[i].bytes[k]
  }

  // No message after i was longer than the buffer's capacity when i was polled.
  ghost predicate NeverOutgrown(messages: seq<Message>, spares: seq<nat>, i: nat)
    requires |spares| == |messages| && i < |messages|
  {
    forall j :: i < j < |messages| ==> |messages[j].bytes| <= Polled(messages[..i + 1], spares[..i + 1]).capacity
  }

  lemma OutgrownByLast(messages: seq<Message>, spares: seq<nat>, i: nat)
    requires |spares| == |messages| && i < |messages| - 1
    ensures var n := |messages| - 1;
            && messages[..n][..i + 1] == messages[..i + 1] && spares[..n][..i + 1] == spares[..i + 1]
            && (NeverOutgrown(messages, spares, i) <==>
                  && NeverOutgrown(messages[..n], spares[..n], i)
                  && |messages[n].bytes| <= Polled(messages[..i + 1], spares[..i + 1]).capacity)
  {
    var n := |messages| - 1;
    assert messages[..n][..i + 1] == messages[..i + 1] && spares[..n][..i + 1] == spares[..i + 1];
    assert forall j :: i < j < n ==> messages[..n][j] == messages[j];
  }

  // The buffer stays where it was exactly as long as nothing outgrows it.
  lemma {:induction false} BlockStays(messages: seq<Message>, spares: seq<nat>, i: nat)
    requires |spares| == |messages| && i < |messages|
    ensures var at, now := Polled(messages[..i + 1], spares[..i + 1]), Polled(messages, spares);
            && at.block <= now.block
            && (at.block == now.block <==> NeverOutgrown(messages, spares, i))
            && (at.block == now.block ==> at.capacity == now.capacity)
  {
    var n := |messages| - 1;
    if i == n {
      assert messages[..i + 1] == messages && spares[..i + 1] == spares;
    } else {
      BlockStays(messages[..n], spares[..n], i);
      OutgrownByLast(messages, spares, i);
    }
  }

  // The callable of message i, run after all of these polls, finds its memory and sees its own
  // bytes exactly when it has no bytes, or nothing polled later outgrew the buffer's capacity and
  // its bytes are undisturbed.
  lemma LateReuseTask(messages: seq<Message>, spares: seq<nat>, i: nat, slot: Bytes)
    requires |spares| == |messages| && i < |messages|
    ensures var task, mem := ReuseTask(messages, spares, i), Memory(Polled(messages, spares), slot);
            CanRun(task, mem) && Run(task, mem) == messages[i] <==>
            messages[i].bytes == [] || (NeverOutgrown(messages, spares, i) && Undisturbed(messages, i))
  {
    BufferCoversAll(messages, i);
    BlockStays(messages, spares, i);
    BytesAgree(messages, i);
  }

  // The front of the buffer is message i exactly when it is undisturbed.
  lemma BytesAgree(messages: seq<Message>, i: nat)
    requires i < |messages|
    ensures |messages[i].bytes| <= |Overwritten(messages)|
    ensures Overwritten(messages)[..|messages[i].bytes|] == messages[i].bytes <==> Undisturbed(messages, i)
  {
    BufferCoversAll(messages, i);
    var own := messages[i].bytes;
    var seen := Overwritten(messages)[..|own|];
    if Undisturbed(messages, i) {
      forall k | 0 <= k < |own|
        ensures seen[k] == own[k]
      {
        var m := LatestExists(messages, i, k);
        BufferHoldsLatest(messages, k, m);
      }
      assert seen == own;
    } else {
      var k: nat, m: nat :| k < |own| && LatestAt(messages, k, m) && messages[m].bytes[k] != own[k];
      BufferHoldsLatest(messages, k, m);
      assert seen[k] != own[k];
    }
  }

  // Two one-byte messages are enough: run after both polls, the first task does not see its own.
  lemma LateReuseTaskCanFail(meta: Meta, spares: seq<nat>, slot: Bytes)
    requires |spares| == 2
    ensures !SeesItself([Message(meta, [1]), Message(meta, [2])], spares, 0, slot)
  {
    var messages := [Message(meta, [1]), Message(meta, [2])];
    assert LatestAt(messages, 0, 1);
    LateReuseTask(messages, spares, 0, slot);
  }

  // And so is a second message that only adds a byte, if the vector was given no room to spare: the
  // bytes are undisturbed, but the first callable refers to a block that has been freed.
  lemma LateReuseTaskCanDangle(meta: Meta, spare: nat, slot: Bytes)
    ensures var messages, spares := [Message(meta, [1]), Message(meta, [1, 2])], [0, spare];
            && Undisturbed(messages, 0)
            && !CanRun(ReuseTask(messages, spares, 0), Memory(Polled(messages, spares), slot))
  {
    var messages, spares := [Message(meta, [1]), Message(meta, [1, 2])], [0, spare];
    assert messages[..1] == [Message(meta, [1])] && spares[..1] == [0];
    assert messages[..1][..0] == [] && spares[..1][..0] == [];
    assert Polled(messages[..1], spares[..1]) == CopyInto(Unused, [1], 0) == Buffer([1], 1, 1);
    assert Polled(messages, spares) == CopyInto(Buffer([1], 1, 1), [1, 2], spare);
    forall k: nat, m: nat | k < 1 && LatestAt(messages, k, m)
      ensures messages[m].bytes[k] == messages[0].bytes[k]
    {
    }
  }

  function Longest(messages: seq<Message>): nat {
    if messages == [] then 0
    else
      var n := |messages| - 1;
      var before := Longest(messages[..n]);
      if before < |messages[n].bytes| then |messages[n].bytes| else before
  }

  // With no room to spare the capacity is the longest message so far; it is never less.
  lemma {:induction false} CapacityIsLongest(messages: seq<Message>, spares: seq<nat>)
    requires |spares| == |messages|
    ensures Longest(messages) <= Polled(messages, spares).capacity
    ensures (forall i :: 0 <= i < |spares| ==> spares[i] == 0) ==>
              Longest(messages) == Polled(messages, spares).capacity
  {
    if messages != [] {
      CapacityIsLongest(messages[..|messages| - 1], spares[..|spares| - 1]);
    }
  }

  // What a caller can rely on whatever the vector's growth: a late callable is safe for every
  // implementation exactly when it has no bytes, or no later message is longer than all up to it
  // and its bytes are undisturbed.
  lemma SafeForEveryGrowth(messages: seq<Message>, i: nat, slot: Bytes)
    requires i < |messages|
    ensures (forall spares: seq<nat> :: |spares| == |messages| ==> SeesItself(messages, spares, i, slot)) <==>
              || messages[i].bytes == []
              || (&& (forall j :: i < j < |messages| ==> |messages[j].bytes| <= Longest(messages[..i + 1]))
                  && Undisturbed(messages, i))
  {
    forall spares: seq<nat> | |spares| == |messages|
      ensures SeesItself(messages, spares, i, slot) <==>
                messages[i].bytes == [] || (NeverOutgrown(messages, spares, i) && Undisturbed(messages, i))
      ensures Longest(messages[..i + 1]) <= Polled(messages[..i + 1], spares[..i + 1]).capacity
    {
      LateReuseTask(messages, spares, i, slot);
      CapacityIsLongest(messages[..i + 1], spares[..i + 1]);
    }
    var none: seq<nat> := seq(|messages|, k => 0);
    CapacityIsLongest(messages[..i + 1], none[..i + 1]);
    assert SeesItself(messages, none, i, slot) <==>
             messages[i].bytes == [] || (NeverOutgrown(messages, none, i) && Undisturbed(messages, i));
  }

  ghost predicate SeesItself(messages: seq<Message>, spares: seq<nat>, i: nat, slot: Bytes)
    requires |spares| == |messages| && i < |messages|
  {
    var task, mem := ReuseTask(messages, spares, i), Memory(Polled(messages, spares), slot);
    CanRun(task, mem) && Run(task, mem) == messages[i]
  }
}
