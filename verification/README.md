# xproc in Dafny

xproc carries messages between processes, over single-producer single-consumer rings in shared
memory and over TCP sockets. This project models the parts of it where correctness depends on
many things happening in any order, and proves what they promise. Each module is one component:

- `RunLoop`: the consumer's run loop on a ring or a socket, its two ways of sleeping, and `stop()` from
  other threads.
- `CopyPolicy`: the three ways a polled message is handed to an executor.
- `SocketFraming` and `SocketLink`: frames on a TCP stream, and a transport of many connections
  with short sends and receives, breaks and reconnects.
- `PendingBuffer`: the C interface's copy-out poll, which keeps a message that did not fit.
- `Win32Registry`: the process-wide registry of mapped views, shared by reference count.
- `PosixOpen`: `shm_open` and what follows it, by many openers at once.
- `SegmentProtocol`: publication of a segment's header, validation against it while it is being
  written, and `attach_count`.
- `Manifest`: 64-bit sizes, option validation, and recovering a channel's options from its path.
- `ObjectNames`: hashed kernel object names and registry keys.
- `ChildProcess`: ownership, waiting and destruction of spawned processes.
- `CommandLine`: Win32 command-line quoting against the C runtime's splitting rules.
- `Handshake`: the text messages that C++ and Python exchange in the handshake example.
- `Occupancy`: used and available bytes computed from two loads while the ring is in use.
- `Common`: the few types and constants they share.

Protocols are state machines: a `Step` is one atomic access or system call of some thread or
process, `CanRun` and `After` range over every interleaving, and an invariant is proved step by
step. Code that updates objects or runs loops is written as classes and methods proved against
specification functions. What the operating system answers is a parameter or an arbitrary choice
within what it may answer. Verify with `dafny verify dfyconfig.toml`.

The proofs also settle where the code falls short of what one might expect. In each case the
model keeps the code's behaviour, shows an input, and states the exact condition:

- A `stop()` does not reach a socket loop that is inside a frame whose remaining bytes are missing:
  it stays in a blocking receive until the peer sends, closes or fails
  (`RunLoop.StopLeavesLoopMidFrame`, `RunLoop.MidFrameStays`; exactly then, by
  `RunLoop.StopIsNeverLost`).
- A blocking `waitpid` interrupted by a signal is taken for success; the child is then never
  reaped and its exit code is reported as 0 (`ChildProcess.Processes.InterruptedWaitLosesChild`;
  exactly then, by `ChildProcess.Processes.UnheldIsSettled`).
- A message committed between a failed poll and the load of `commit_seq` leaves the loop asleep
  with work queued until the next commit or stop (`RunLoop.SleepsWithMessageQueued`; exactly
  then, by `RunLoop.SleepingQueue`).
- Under `reuse_buffer` a queued task may see a later message's bytes, or refer to memory that a
  growing buffer has freed (`CopyPolicy.LateReuseTaskCanFail`, `CopyPolicy.LateReuseTaskCanDangle`;
  exactly when, by `CopyPolicy.LateReuseTask`).
- A creator whose `ftruncate` fails leaves a name that no later open can use until it is unlinked
  (`PosixOpen.FailedCreateRun`, `PosixOpen.AbandonedNameFails`; exactly when, by
  `PosixOpen.UsableUnlessAbandoned`).
- The error an endpoint reports after a refused attach comes from a second validation, and may be
  "ok" (`SegmentProtocol.ReportCanSayOk`; exactly when, by `SegmentProtocol.ReportsOkExactly`).
- Options read from a segment that is still being created can carry stale creator fields
  (`Manifest.StaleManifest`; exactly when, by `Manifest.ReadOverRun`).
- An observer accepts the one wrapped size that becomes 0 (`Manifest.ObserverMissesOneWrap`).
- Empty arguments disappear from a Win32 command line (`CommandLine.RoundTrip`).
- The C++ and Python parsers keep different values of a repeated key (`Handshake.ReadersAgree`).
- Positions that have passed 2 to the 64 can make an empty ring look full
  (`Occupancy.WrappedReport`).

## Model

| member | source | states |
|---|---|---|
| `RunLoop.InvariantHolds` | include/xproc/ipc/runtime.hpp:55-189 | every interleaving of the loop thread, a producer or socket peers, and any number of `stop()` callers keeps the loop invariant: a ring never has more dispatched than published, a loaded `commit_seq` is stale by at most the one message whose bump is due, a frame is read only from a connected peer once something can be received, and a sleeper that a stop has overtaken has been or is about to be woken |
| `RunLoop.ReturnsOnlyWhenStopped` | include/xproc/ipc/runtime.hpp:116-133 | only a load of `running_` that sees false takes the loop thread out of `run()` |
| `RunLoop.ReturnedAfterStop` | include/xproc/ipc/runtime.hpp:116-133 | in every run that has started and returned, a `stop()` stored after the last start |
| `RunLoop.PartialBatchPollsOn` | include/xproc/ipc/runtime.hpp:117-131 | while running, an empty poll after part of a batch leads back to a poll without a wait |
| `RunLoop.WaitsOnlyAfterEmptyPoll` | include/xproc/ipc/runtime.hpp:128-131 | a wait begins only with a poll that finds nothing at the start of a batch, and is the wait of the transport in use |
| `RunLoop.NextMessageServed` | include/xproc/ipc/runtime.hpp:60-71 | while running on shared memory, a loop not left in a wait dispatches a published message by its own next three steps |
| `RunLoop.NextFrameServed` | src/ipc/socket_channel.cpp:711-807 | while running on a socket, a loop asleep in `select` dispatches a message whose frame has arrived, whatever wake bytes are buffered |
| `RunLoop.IdleLoopSleeps` | include/xproc/ipc/runtime.hpp:162-189 | with nothing to do the loop's own steps take it to sleep |
| `RunLoop.SocketOutcomes` | src/ipc/socket_channel.cpp:711-767 | what ends a wait in `select`, and when a poll goes on to read: bytes, the end of the peer's stream, a peer to accept, or wake bytes |
| `RunLoop.WaitEndsDrained` | src/ipc/socket_channel.cpp:723-733 | a wait that `select` did not fail ends with the wake socket drained |
| `RunLoop.DrainRun` | src/ipc/socket_channel.cpp:437-450 | draining takes 64 bytes a call, and one call more to find nothing left |
| `RunLoop.ReadEnds` | src/ipc/socket_channel.cpp:769-806 | reading from a peer ends with one more message dispatched and the peer kept exactly when what was read is the frame of a message; otherwise the peer is dropped and nothing dispatched |
| `RunLoop.RunningIsLastStore` | include/xproc/ipc/runtime.hpp:59-60 | along every run `running_` is what the last store of `run()` or `stop()` left, so a `stop()` before `run()` is overwritten |
| `RunLoop.StopIsNeverLost` | include/xproc/ipc/runtime.hpp:135-152 | whatever happens before, between and after, once a `stop()` has stored and a wake-up has followed, the loop is in neither of its waits; it has returned or has a step to take if and only if it is not inside a frame whose remaining bytes are missing on an open connection, so always on shared memory |
| `RunLoop.StepUnlessMidFrame` | src/ipc/socket_channel.cpp:741-807 | the same for every reachable state outside the waits, and that the frame must have begun; one-byte items never block |
| `RunLoop.MidFrameStays` | src/ipc/socket_channel.cpp:158-169 | inside such a frame no stop, wake-up or other step helps: only bytes from the peer, its closing or a failing receive |
| `RunLoop.PeerEndsMidFrame` | src/ipc/socket_channel.cpp:158-169 | each of those three does |
| `RunLoop.StopLeavesLoopMidFrame` | src/ipc/socket_channel.cpp:769-798 | for every frame kind longer than a byte there is a run in which a stop has stored and woken and the loop is still in the receive |
| `RunLoop.StoppedForGoodPersists` | include/xproc/ipc/runtime.hpp:162-189 | no step short of a new `run()` puts a stopped and woken loop back into one of its two waits |
| `RunLoop.StoppedLoopReturns` | include/xproc/ipc/runtime.hpp:60-71 | a stopped loop takes at most a bounded number of steps, receives of the frames of one batch included, each concurrent stop adding at most the one wake byte it sends; until `run()` returns it has a step if and only if it is not inside a frame whose rest is missing |
| `RunLoop.DispatchedAfterStop` | include/xproc/ipc/runtime.hpp:110-136 | after `stop()` stores, at most one batch more is dispatched (one message for `run`) |
| `RunLoop.BatchRunsOut` | include/xproc/ipc/runtime.hpp:117-127 | the bound is tight: a loop caught at the start of a batch with enough messages in the ring dispatches all of it |
| `RunLoop.SocketBatchRunsOut` | include/xproc/ipc/runtime.hpp:117-127 | and so does one whose batch of frames has arrived on the socket |
| `RunLoop.SleepingQueue` | include/xproc/ipc/runtime.hpp:177-189 | where the shared-memory loop sleeps, every queued message was committed after its failed poll; with no bump outstanding the queue is non-empty if and only if a message was committed between that poll and the load of `commit_seq`; any later bump ends the sleep |
| `RunLoop.SleepsWithMessageQueued` | include/xproc/ipc/runtime.hpp:60-71 | such a run exists: a message committed between the failed poll and the load leaves the loop asleep with work queued |
| `RunLoop.BackpressureReportsAll` | include/xproc/ipc/runtime.hpp:76-106 | in every run the backpressure callback has been told of no message twice, and of all of them whenever the loop waits or `run()` has returned |
| `CopyPolicy.Runtime.Submit` | include/xproc/ipc/runtime.hpp:193-240 | under every policy a task run on the spot sees its own message; what it has captured; what the reused buffer, its block and the ring slot then are |
| `CopyPolicy.Runtime.RunInline` | include/xproc/ipc/runtime.hpp:243-276 | with an inline executor all three policies hand over the polled sequence unchanged |
| `CopyPolicy.RunLater` | include/xproc/ipc/runtime.hpp:227-240 | under `sbo`, queued tasks run at any later time, in any order and after any change to the runtime's memory, each deliver their own bytes and metadata |
| `CopyPolicy.BufferHoldsLatest` | include/xproc/ipc/runtime.hpp:207-217 | each byte of the reused buffer is that of the latest message long enough to have it |
| `CopyPolicy.LateReuseTask` | include/xproc/ipc/runtime.hpp:207-217 | under `reuse_buffer` a task run late finds its memory and sees its own message if and only if the message is empty, or no later message exceeded the capacity the buffer had at its poll and at each of its positions the last message to reach that position carries the same byte |
| `CopyPolicy.BlockStays` | include/xproc/ipc/runtime.hpp:210-214 | the buffer is still the block a task captured if and only if nothing polled since exceeded its capacity |
| `CopyPolicy.SafeForEveryGrowth` | include/xproc/ipc/runtime.hpp:207-217 | what holds for every growth policy of the vector: safe if and only if the message is empty, or no later message is longer than all up to it and its bytes are undisturbed |
| `CopyPolicy.LateReuseTaskCanFail` | include/xproc/ipc/runtime.hpp:213-215 | two one-byte messages are enough: whatever the growth, the first task, run after both polls, does not see its own message |
| `CopyPolicy.LateReuseTaskCanDangle` | include/xproc/ipc/runtime.hpp:210-215 | so is a second message one byte longer: the bytes are undisturbed, but the captured address is of a freed block |
| `SocketFraming.LoadStore` | src/ipc/socket_channel.cpp:43-55 | reading a stored 32-bit length gives it back |
| `SocketFraming.StoreLoad` | src/ipc/socket_channel.cpp:43-55 | storing a loaded length gives back the four bytes |
| `SocketFraming.LittleEndian` | src/ipc/socket_channel.cpp:43-55 | the length is stored least significant byte first |
| `SocketFraming.FrameShape` | src/ipc/socket_channel.cpp:528-565 | a fixed item is the message and zeros up to the item size; a variable one is its length in four bytes and the message |
| `SocketFraming.FramesArePrefixFree` | src/ipc/socket_channel.cpp:528-565 | no frame is a proper beginning of another, so the receiver's frame boundaries are the sender's |
| `SocketFraming.DecodePrefix` | src/ipc/socket_channel.cpp:741-807 | frames that concatenate to a beginning of the sent bytes carry exactly the first messages sent |
| `SocketFraming.Sink.WriteFull` | src/ipc/socket_channel.cpp:145-156 | however the system splits the transfer: all bytes go out in order and no call has failed, or the last call and it alone has, a proper part of the bytes is out and the connection is closed |
| `SocketFraming.Sink.SendVarlen` | src/ipc/socket_channel.cpp:552-565 | one whole frame is sent, or a call has failed after a proper part of one and the connection is closed |
| `SocketFraming.Sink.SendFixed` | src/ipc/socket_channel.cpp:528-550 | one whole zero-padded item is sent, or a call has failed after a proper part of one and the connection is closed |
| `SocketFraming.Source.ReadExact` | src/ipc/socket_channel.cpp:158-169 | succeeds exactly when all requested bytes arrived, and returns them in order; otherwise its last call has failed or found the peer gone |
| `SocketFraming.Source.PollFrame` | src/ipc/socket_channel.cpp:741-807 | consumes and delivers exactly one frame, or drops the connection because a read failed or the announced length is over the limit |
| `SocketFraming.Source.DrainConnection` | src/ipc/socket_channel.cpp:741-807 | polling a connection until it is dropped delivers a byte-exact beginning of what the peer sent, for every chunking and every break, and all of it if no receive failed |
| `SocketLink.StepKeepsInvariant` | src/ipc/socket_channel.cpp:499-565 | connecting, sending, breaking, accepting, receiving and dropping, in any order and any chunk sizes, keep what ties each receiver to its sender |
| `SocketLink.NeverOversized` | src/ipc/socket_channel.cpp:787-790 | the over-limit check never fires on what this library sent |
| `SocketLink.DeliveredIsPrefix` | src/ipc/socket_channel.cpp:741-807 | on one connection the delivered messages are a beginning of those written in full, and all of them once everything written is received |
| `SocketLink.TornFrameIsLast` | src/ipc/socket_channel.cpp:515-526 | the bytes on a connection are whole frames followed at most by a proper part of one |
| `SocketLink.ClosedStaysClosed` | src/ipc/socket_channel.cpp:515-526 | nothing is written to a connection after a failed write |
| `SocketLink.DeliveredOverRun` | src/ipc/socket_channel.cpp:629-684 | over every run with reconnects the delivered sequence is the concatenation, in accept order, of one beginning per connection |
| `SocketLink.CurrentLostOnlyByDrop` | src/ipc/socket_channel.cpp:769-806 | receiving never costs the connection: only a failing receive does |
| `SocketLink.UnreadCanBeReceived` | src/ipc/socket_channel.cpp:158-169 | while bytes are unread on the current connection some of them can be received |
| `SocketLink.AllCanBeDelivered` | src/ipc/socket_channel.cpp:741-807 | from every reachable state with a current connection and nothing half written, a continuation of receives alone delivers everything sent on it |
| `SocketLink.AnyTrafficIsCarried` | src/ipc/socket_channel.cpp:499-807 | for every list of messages there is a run that connects, sends, accepts and delivers exactly them |
| `SocketLink.SendCloseCloses` | src/ipc/socket_channel.cpp:515-526 | closing changes nothing but that connection's being open |
| `SocketLink.ClosedForGood` | src/ipc/socket_channel.cpp:515-526 | in every continuation a closed connection carries no further byte |
| `SocketLink.DropMakesRoom` | src/ipc/socket_channel.cpp:629-684 | a dropped connection cannot be received from, and the next peer waiting can be accepted |
| `SocketLink.PastIsNeverRead` | src/ipc/socket_channel.cpp:629-684 | in every continuation nothing more is read from a connection once dropped |
| `PendingBuffer.ConsumerHandle.PollCopy` | capi/xproc_c.cpp:633-694 | the reply and the new state are those of a queue whose oldest message goes if it fits and is retained if not: an OK call hands over the oldest message owed, no other call changes what is owed, and each result occurs exactly when |
| `PendingBuffer.ConsumerHandle.PendingLen` | capi/xproc_c.cpp:617-631 | the length of the retained message, 0 exactly when all that is owed is in the ring |
| `PendingBuffer.ConsumerHandle.Wait` | capi/xproc_c.cpp:696-711 | blocks exactly when no message is retained |
| `PendingBuffer.ConsumerHandle.ProbeThenCopy` | Python/src/python_binding.cpp:222-240 | the bindings' pair of calls is one dequeue of the oldest message, of any length including zero, or none, even if the producer commits in between |
| `PendingBuffer.Handle` | capi/xproc_c.cpp:633-694 | one send, poll or probe does what it does to the queue; what it returns and what is then owed is what was owed and what was sent |
| `PendingBuffer.Session` | capi/xproc_c.cpp:633-694 | for every sequence of sends, polls with any buffers and probes: the session is that of the queue, and messages returned, then the retained one, then the ring, are exactly the messages sent |
| `Win32Registry.Process.ChooseSection` | src/core/shm_win32.cpp:199-253 | for each mode, exactly when a section is obtained, and that it is reported created exactly when the name was free |
| `Win32Registry.Process.BeginOpen` | src/core/shm_win32.cpp:181-253 | a failed open leaves the system and both maps as they were; a successful one holds exactly one new handle, of a section of that name |
| `Win32Registry.Process.Share` | src/core/shm_win32.cpp:255-269 | attaching to an entry releases the open's own handle and view, and raises the count by one |
| `Win32Registry.Process.MapView` | src/core/shm_win32.cpp:271-281 | a failed mapping closes the handle and leaves no trace |
| `Win32Registry.Process.Register` | src/core/shm_win32.cpp:282-314 | whoever registers first, the object is attached under the key it asked for, to the very section its open obtained, the entry counts it, and a section it created has not been announced before |
| `Win32Registry.Process.Open` | src/core/shm_win32.cpp:181-315 | the whole open: exactly when it succeeds, for every mode, size and answer of the system; on success the key, the address, the entry's count and the canonical handle, created exactly when the name was free; on failure both maps, all handles and all views are as before |
| `Win32Registry.Process.Detach` | src/core/shm_win32.cpp:317-367 | the count drops by one; the last holder alone erases the entry and its canonical handle, unmaps and closes, and nothing else changes |
| `Win32Registry.Process.MoveAssign` | src/core/shm_win32.cpp:159-179 | the target is detached and takes over everything the source had; self-assignment changes nothing |
| `Win32Registry.Process.Execute` | src/core/shm_win32.cpp:159-367 | every interleaving of any threads' critical sections and system calls, and of other processes, keeps the registry invariant, each operation with its stated effect; the log of sections reported as created only grows, and holds no section twice |
| `Win32Registry.LeaveLastKeeps` | src/core/shm_win32.cpp:324-338 | dropping the last reference keeps every handle and view owned by exactly one entry or open, every count equal to its holders and every canonical handle live |
| `Win32Registry.RegisterKeeps` | src/core/shm_win32.cpp:284-309 | turning an open into an entry keeps the same |
| `Win32Registry.AnnounceKeeps` | src/core/shm_win32.cpp:234-249 | a section's creation is announced at most once in its lifetime |
| `Win32Registry.SharedSection` | src/core/shm_win32.cpp:255-269 | an entry of the name of an open in progress maps the very section that the open obtained |
| `Win32Registry.AttachedIsMapped` | src/core/shm_win32.cpp:255-314 | in every reachable state an attached object's address is mapped, from a living section of its name, and its entry's count is the number of objects holding the key |
| `Win32Registry.EntriesDisjoint` | src/core/shm_win32.cpp:300-304 | entries under different keys never share an address or a handle |
| `Win32Registry.CanonicalIsEntry` | src/core/shm_win32.cpp:199-219 | each canonical handle is the section handle of a live view of the same name |
| `Win32Registry.CanonicalDropped` | src/core/shm_win32.cpp:330-334 | erasing a handle under the entry's own name erases every canonical use of it |
| `Win32Registry.AllDetached` | src/core/shm_win32.cpp:317-367 | once no object is attached and no open is under way, both maps are empty, every handle and view taken has been given back exactly once, and a name is taken only while another process holds its section |
| `PosixOpen.StepKeepsInvariant` | src/core/shm_posix.cpp:75-191 | every system call of every open, detach, move and unlink, in any interleaving, keeps each descriptor and each mapping owned by one object that knows it |
| `PosixOpen.InvariantHolds` | src/core/shm_posix.cpp:75-191 | so does every run |
| `PosixOpen.AttachedFits` | src/core/shm_posix.cpp:149-178 | every successful open maps a non-zero length no longer than the memory object, exactly the size it reports, through a descriptor nobody else holds |
| `PosixOpen.RestingHoldsNothing` | src/core/shm_posix.cpp:106-113 | a failed open or a detach leaves no descriptor and no mapping; with all objects at rest none are left at all |
| `PosixOpen.CreatedOnce` | src/core/shm_posix.cpp:115-142 | creations of a name are its removing unlinks plus one while it is bound, so without unlinks at most one open reports creating it |
| `PosixOpen.DetachKeeps` | src/core/shm_posix.cpp:180-191 | `munmap` gets the length that was mapped, so detaching releases everything |
| `PosixOpen.MoveKeeps` | src/core/shm_posix.cpp:75-93 | a move hands over the descriptor and the mapping, and the duty to release them |
| `PosixOpen.MoveEffect` | src/core/shm_posix.cpp:75-93 | the target has the source's whole record, the source is blank, what the target held is released and nobody else's; a self-move changes nothing |
| `PosixOpen.DetachEffect` | src/core/shm_posix.cpp:180-191 | the object is idle and keeps its name and size; its descriptor and mapping are gone, and nobody else's |
| `PosixOpen.UnlinkOnlyFreesName` | src/core/shm_posix.cpp:193-197 | unlinking frees the name and leaves every attachment, descriptor and memory object as it was |
| `PosixOpen.FreeNameCanBeCreated` | src/core/shm_posix.cpp:115-178 | from every state, a free name can be created: a run binds it to a new memory object of the size asked for and attaches the creator |
| `PosixOpen.UnlinkedNameStartsAfresh` | src/core/shm_posix.cpp:115-197 | after an unlink the name can be created again, with a memory object that did not exist before |
| `PosixOpen.FailedTruncateAbandons` | src/core/shm_posix.cpp:149-152 | a creator whose `ftruncate` fails leaves an empty object that nobody will size, and every name bound as it was |
| `PosixOpen.AbandonedIsNeverAttached` | src/core/shm_posix.cpp:154-168 | from then on, in every continuation, no open ever attaches to that object |
| `PosixOpen.UsableUnlessAbandoned` | src/core/shm_posix.cpp:149-168 | from every reachable state, while a name is not unlinked, some continuation attaches an object to what it is bound to if and only if that is not abandoned |
| `PosixOpen.AbandonedNameFails` | src/core/shm_posix.cpp:124-168 | a name bound to an abandoned object stays bound to it until it is unlinked, and every open of it fails, however often it is tried and whatever else happens |
| `PosixOpen.FailedCreatorBlocksName` | src/core/shm_posix.cpp:149-152 | after any run, a creator of a name nobody unlinked whose `ftruncate` fails leaves the name in that state |
| `PosixOpen.FailedCreateRun` | src/core/shm_posix.cpp:115-152 | a run of four steps that does it |
| `PosixOpen.Object.Open` | src/core/shm_posix.cpp:95-178 | one call, for every mode and every result of its system calls: exactly when it succeeds, exactly when it reports creating, what it maps, and that a failure closes what it opened |
| `PosixOpen.CallIsRun` | src/core/shm_posix.cpp:95-178 | run without interference, that call is a run of the interleaved model's steps and leaves the object in the same state |
| `PosixOpen.Object.Detach` | src/core/shm_posix.cpp:180-191 | everything mapped is unmapped and every descriptor opened is closed |
| `SegmentProtocol.PowersOfTwo` | src/core/layout_manager.cpp:37 | the bit trick accepts exactly the powers of two from 4 up |
| `SegmentProtocol.ValidateIsCompatible` | src/core/layout_manager.cpp:91-125 | validation of a finished header passes if and only if every field agrees with the expectation |
| `SegmentProtocol.VerdictOfHeader` | src/core/layout_manager.cpp:91-125 | the verdict on a finished header names the first field that does not agree |
| `SegmentProtocol.CreatorMatchesItself` | src/core/layout_manager.cpp:135-165 | a creator's own parameters validate if and only if the alignment is a power of two from 4 up and items divide the capacity |
| `SegmentProtocol.SpinUntilReady` | src/core/layout_manager.cpp:83-89 | `is_ready` is loaded at most 1,000,000 times; the wait succeeds if and only if one of those loads sees it set, and stops at the first that does |
| `SegmentProtocol.ValidateDetailed` | src/core/layout_manager.cpp:70-126 | one if-and-only-if per result, on the fields: not attached, not ready, or the first field in the order of comparison that does not agree |
| `SegmentProtocol.StepKeepsInvariant` | src/core/layout_manager.cpp:10-33 | every interleaving of the creator's stores with any clients' loads, joins and departures keeps the protocol invariant |
| `SegmentProtocol.ValidationIsOfFinalHeader` | src/core/layout_manager.cpp:70-165 | in every run a client passes only after `is_ready`, with every header field final and compatible with it; every other verdict that is not about an unfinished header is the one the final header gives; a timeout means exactly a million loads |
| `SegmentProtocol.LateClientIsExact` | src/core/layout_manager.cpp:70-126 | a client that starts after publication is accepted if and only if it is compatible, and otherwise gets the final header's verdict |
| `SegmentProtocol.AttachCountIsLive` | include/xproc/ipc/endpoint.hpp:26-32 | after publication, in every run, `attach_count` is the number of live producer and consumer endpoints modulo 2 to the 32; observers and refused clients never show in it |
| `SegmentProtocol.JoinCounts` | src/core/layout_manager.cpp:28-30 | joining keeps the count, for endpoints and for read-only observers |
| `SegmentProtocol.CompatibleClientJoins` | src/core/layout_manager.cpp:19-31 | from every state with a finished header, a run of its own steps takes a compatible client to joining, counted if it is an endpoint |
| `SegmentProtocol.MembersCanLeave` | include/xproc/ipc/endpoint.hpp:26-32 | whoever has joined can leave, the creator too, and the count falls by one for each that counts |
| `SegmentProtocol.RefusedCreatorIsNeverJoined` | src/core/layout_manager.cpp:138-149 | a segment whose initialisation is refused is never joined |
| `SegmentProtocol.SecondLookAgrees` | include/xproc/ipc/endpoint.hpp:91-96 | the error reported for a refused endpoint is the one that refused it, unless that was about an unfinished header |
| `SegmentProtocol.ReportCanSayOk` | include/xproc/ipc/endpoint.hpp:91-96 | for both of those verdicts there are runs in which the reported error is "ok" |
| `SegmentProtocol.ReportsOkExactly` | include/xproc/ipc/endpoint.hpp:91-96 | a run that refuses a client with a verdict and then reports "ok" exists if and only if the verdict was about an unfinished header and the client is compatible with the finished one |
| `SegmentProtocol.ReaderCopies` | include/xproc/ipc/shm_builders.hpp:60-72 | in every run, a reader whose validation passes has the creator's layout, item size, schema and alignment; each of the two fields that nothing compares is right if and only if it was loaded after its store or is zero |
| `SegmentProtocol.StaleRun` | include/xproc/ipc/shm_builders.hpp:60-72 | a run in which it passes with zeros in both: the fields are copied between the creator's stores of the schema and of the timestamp |
| `Manifest.SizeRoundTrip` | include/xproc/ipc/options.hpp:24-30 | a 64-bit capacity survives the trip through a size if and only if the sum does not wrap; a size survives the other way if and only if it has room for the header |
| `Manifest.ValidateOptions` | include/xproc/ipc/options.hpp:64-89 | the exception thrown is the first that applies, and none exactly for valid options |
| `Manifest.ValidateEndpointOptions` | include/xproc/ipc/options.hpp:107-131 | producers and consumers add the demand for a size when they may create |
| `Manifest.WrapIsRejected` | include/xproc/ipc/options.hpp:107-131 | producers and consumers accept a builder's options if and only if the size does not wrap and the rest is valid |
| `Manifest.ObserverMissesOneWrap` | include/xproc/ipc/options.hpp:133-138 | an observer rejects every wrapped size but the one that wraps to 0 |
| `Manifest.OpenWithRetries` | include/xproc/ipc/shm_builders.hpp:37-47 | ten attempts at most, stopping at the first that succeeds |
| `Manifest.ReadExisting` | include/xproc/ipc/shm_builders.hpp:32-99 | given a copy of the fields and the header they are then compared with: exactly when options are recovered, why not otherwise, and that they describe that header, except for the two creator fields, which are the copy's |
| `Manifest.ReaderIsReadExisting` | include/xproc/ipc/shm_builders.hpp:60-98 | for the copy and the header of a reader in any run of the protocol, the code returns what the protocol's reader does |
| `Manifest.EffectiveAttaches` | include/xproc/ipc/endpoint.hpp:83-98 | recovered options are valid for every role and pass attach validation |
| `Manifest.CreateThenRead` | include/xproc/ipc/shm_builders.hpp:52-98 | create, then read by path: capacity, kind, item size, effective alignment, schema and creator fields come back, and attaching with them always validates |
| `Manifest.ReadOverRun` | include/xproc/ipc/shm_builders.hpp:60-98 | in every run of the creator with any clients, a successful reader returns valid options equal to the creator's, defaults filled in, if and only if each of the two creator fields was loaded after its store or is zero; always if the segment was published when it started |
| `Manifest.StaleManifest` | include/xproc/ipc/shm_builders.hpp:60-72 | a run in which they are not: success with zeros for the creator's timestamp and flags |
| `ObjectNames.Fnv1a64` | src/core/shm_win32.cpp:49-58 | the loop computes 64-bit FNV-1a (section 2 of draft-eastlake-fnv) |
| `ObjectNames.KnownHashes` | src/core/shm_win32.cpp:49-58 | the published values for the empty string and for "a" |
| `ObjectNames.HexReadsBack` | src/core/shm_win32.cpp:62-85 | the digits written for a number read back as it |
| `ObjectNames.MultiplyInjective` | src/core/shm_win32.cpp:53-56 | multiplying by the prime modulo 2 to the 64 loses nothing |
| `ObjectNames.HashSeparates` | src/core/shm_win32.cpp:49-58 | two equal-length paths that differ in exactly one byte never share a hash |
| `ObjectNames.MappingNameFromPath` | src/core/shm_win32.cpp:62-85 | the loops compute the section name as specified |
| `ObjectNames.MappingNameShape` | src/core/shm_win32.cpp:62-85 | namespace, prefix, sixteen digits of the hash and up to 160 characters of the path, all but letters and digits replaced |
| `ObjectNames.NamespaceRefused` | src/core/shm_win32.cpp:62-85 | the name is empty exactly for other namespaces |
| `ObjectNames.MappingNamesDiffer` | src/core/shm_win32.cpp:62-85 | such paths never share a Win32 section name |
| `ObjectNames.ViewKeyInjective` | src/core/shm_win32.cpp:87-90 | the registry key determines name, access and size |
| `ObjectNames.DecimalReadsBack` | src/core/shm_win32.cpp:87-90 | the decimal digits of a size read back as it, without leading zeros |
| `ObjectNames.MappingNameHasNoBar` | src/core/shm_win32.cpp:62-90 | section names never contain the key's separator |
| `ObjectNames.ShmNameForKernel` | src/core/shm_posix.cpp:40-69 | the macOS branch's loops compute the kernel name as specified |
| `ObjectNames.KernelNameShape` | src/core/shm_posix.cpp:41-65 | prefix, sixteen digits of the hash, and the last seven letters and digits after the last slash, last first, padded with zeros |
| `ObjectNames.KernelNameLength` | src/core/shm_posix.cpp:41-65 | every shortened kernel name has exactly 31 characters, and shorter paths are kept |
| `ObjectNames.KernelNamesDiffer` | src/core/shm_posix.cpp:41-65 | two equal-length paths that differ in exactly one byte never share a kernel name |
| `ChildProcess.Processes.Spawn` | src/platform/subprocess_posix.cpp:207-226 | a new child gets exactly one owner |
| `ChildProcess.Processes.PollExit` | src/platform/subprocess_posix.cpp:236-244 | true exactly when the child has been collected, now or before; a finished or empty object is left alone |
| `ChildProcess.Processes.Wait` | src/platform/subprocess_posix.cpp:246-254 | the exit code, or 1 for a signal or an empty object; the child is reaped, unless a signal interrupted the blocking wait while it was still running |
| `ChildProcess.Processes.Terminate` | src/platform/subprocess_posix.cpp:256-262 | nothing for a finished child; a child that has exited is reaped with its own status and no signal; a running one gets SIGKILL, once and nothing else, and is reaped as killed unless the blocking wait was interrupted |
| `ChildProcess.Processes.TerminateThenWait` | src/platform/subprocess_posix.cpp:246-262 | a running child that is terminated has got SIGKILL and is reaped, and a later wait returns 1 |
| `ChildProcess.Processes.SendSignal` | src/platform/subprocess_posix.cpp:264-267 | sent exactly for an active object: the signal asked for, once, to its own child, which has not been reaped |
| `ChildProcess.Processes.MoveAssign` | src/platform/subprocess_posix.cpp:68-76 | the child changes hands, and the target's previous child is killed if running and settled first |
| `ChildProcess.Processes.Reset` | src/platform/subprocess_posix.cpp:282-292 | the object lets go of its child: no signal if it has exited, SIGKILL if not, reaped unless interrupted |
| `ChildProcess.Processes.Destroy` | src/platform/subprocess_posix.cpp:78 | the same on destruction |
| `ChildProcess.Processes.UnheldIsSettled` | src/platform/subprocess_posix.cpp:68-78 | in every reachable state a child no object holds has been reaped, exactly once, if and only if no blocking wait on it was interrupted |
| `ChildProcess.Processes.Execute` | src/platform/subprocess_posix.cpp:236-292 | every sequence of spawns, exits, polls, waits, signals, moves and destructions keeps one owner per child, and pids of active objects name unreaped children, each operation with its stated effect; reaped children stay reaped, and a child on which a wait was interrupted is never reaped |
| `ChildProcess.Processes.InterruptedWaitLosesChild` | src/platform/subprocess_posix.cpp:246-254 | one signal during one wait, from any reachable state and before any further operations: success is reported for a running child that is never reaped |
| `CommandLine.BuildCommandLine` | src/platform/subprocess_win32.cpp:93-113 | the loop computes the specified line followed by NUL |
| `CommandLine.AppendQuoted` | src/platform/subprocess_win32.cpp:98-111 | one argument is appended as specified, quoted or not |
| `CommandLine.TokenShape` | src/platform/subprocess_win32.cpp:98-111 | an argument without blanks and quotes is passed as it is, any other between quotes |
| `CommandLine.ReadToken` | src/platform/subprocess_win32.cpp:98-111 | by the Microsoft C runtime rules any token reads back as its argument, whatever follows it |
| `CommandLine.SplitLine` | src/platform/subprocess_win32.cpp:93-113 | splitting the line gives the non-empty arguments, under each rule for doubled quotes |
| `CommandLine.RoundTrip` | src/platform/subprocess_win32.cpp:93-113 | splitting gives the list back if and only if no argument is empty |
| `CommandLine.SpawnRoundTrip` | src/platform/subprocess_win32.cpp:93-113 | the same for the NUL-terminated buffer the child gets |
| `Handshake.EscapeField` | examples/cpp_python_handshake_progress.cpp:139-165 | the loop computes the escape |
| `Handshake.UnescapeField` | examples/cpp_python_handshake_progress.cpp:167-207 | the loop computes the unescape, a trailing backslash included |
| `Handshake.UnescapeEscape` | examples/cpp_python_handshake_progress.cpp:139-207 | unescaping an escaped value gives it back, for every value |
| `Handshake.EscapedIsClean` | examples/cpp_python_handshake_progress.cpp:139-165 | an escaped value holds no tab, newline, carriage return or equals sign |
| `Handshake.BuildMessage` | examples/cpp_python_handshake_progress.cpp:209-218 | the loop computes the message |
| `Handshake.ParseMessage` | examples/cpp_python_handshake_progress.cpp:220-243 | the loop parses into the type and the first value of each key |
| `Handshake.ParseAnyText` | examples/cpp_python_handshake_progress.cpp:220-243 | what a reader makes of any text: the type is what precedes the first tab, a key is there if and only if some later token has it before its first '=', with the first or last such token's value; other tokens change nothing |
| `Handshake.UnescapePlain` | examples/cpp_python_handshake_progress.cpp:167-207 | text without a backslash is its own unescape |
| `Handshake.UnescapeUnknown` | examples/cpp_python_handshake_progress.cpp:167-207 | an unknown escape stands for its character, and a backslash at the end is kept |
| `Handshake.ParseBuild` | examples/cpp_python_handshake_progress.cpp:209-243 | parsing a built message gives the type and the fields, whatever the values |
| `Handshake.PythonEscapeIsEscape` | Python/examples/cpp_python_handshake_worker.py:16-23 | Python's five replacements in a row are the C++ single pass, on every string |
| `Handshake.PythonParseMessage` | Python/examples/cpp_python_handshake_worker.py:60-70 | the loop parses into the type and the last value of each key |
| `Handshake.PythonBuildMessage` | Python/examples/cpp_python_handshake_worker.py:53-57 | the loop joins the type and one part per field |
| `Handshake.PythonBuildIsBuild` | Python/examples/cpp_python_handshake_worker.py:53-57 | Python's builder writes the text the C++ builder writes, for every type and fields |
| `Handshake.CrossLanguage` | Python/examples/cpp_python_handshake_worker.py:16-70 | with distinct keys either reader gets from either writer the type and exactly the fields written |
| `Handshake.ReadersAgree` | Python/examples/cpp_python_handshake_worker.py:60-70 | with repeated keys, whoever wrote the message, the two readers agree if and only if each key's first and last values are equal |
| `Occupancy.ReportIsBounded` | include/xproc/ipc/channel.hpp:56-69 | whatever happens between the two loads, used bytes lie within the capacity, so available bytes never underflow; while positions have not wrapped, they never exceed what the ring held at either load |
| `Occupancy.ReportLagsByConsumption` | include/xproc/ipc/observer.hpp:139-158 | the report is short by exactly what the consumer released between the loads |
| `Occupancy.WrappedReport` | include/xproc/ipc/observer.hpp:152-158 | with 64-bit positions that have wrapped, the report stays within bounds if and only if the read position has not entered a later lap while looking smaller |
| `Occupancy.WrappedReportCanExceed` | include/xproc/ipc/observer.hpp:152-158 | an empty ring can then be reported full |

## Left out

- The ring library `spscring` is not part of this model; only what it promises is used: commits publish in order and then bump `commit_seq`, the producer never overruns the consumer, and header initialisation leaves the requested fields.
- Weak memory orderings: atomic accesses are sequentially consistent.
- `commit_seq` and the other notify counters are taken not to wrap within one wait.
- `producer_pid`: exact only if opens do not overlap, since a creating consumer clears it after publication.
- Looking up the canonical Win32 handle and duplicating it is one step; the code does it in two, outside the lock.
- Win32Registry.Process.Open: requires a detached object, because neither backend detaches an attached one first.
- PosixOpen.Object.Open: requires a detached object, for the same reason.
- Win32Registry.Process.BeginOpen: `last_os_error` values are not modelled.
- RunLoop.DispatchedAfterStop: batches have at least one message; with a batch size of 0 the loop never polls.
- Manifest.ReadExisting: takes its copy and the header as given; how they arise over time is in Manifest.ReadOverRun.
- CopyPolicy.LateReuseTask: says nothing of tasks under `zero_copy`, whose ring slot the producer may reuse once it is released.
- ChildProcess.Processes.Terminate: a child that exits by itself between the poll and the kill is taken as killed.
- Handlers and executors that throw, during `run()` or inside a socket poll.
- Clocks, timeouts and sleeps: the timed sends, idle durations and the pauses between retries.
- Name resolution, socket options and the retry loop of connecting; a connection is made or not.
- The interrupted `select` call is a return without a wake-up.
- Null handles in the C interface, other than the buffer and length arguments of the copy-out poll, and its last-error strings.
- Pipes, environment blocks and standard streams of child processes, and the child's side of `fork`.
- CommandLine.BuildCommandLine: backslash runs are counted without the 32-bit limit of the counter in the code.
- Handshake.PythonParseMessage: text is a sequence of characters; decoding bytes is not modelled.
- The socket backend's part of option validation, and the attacher classes that only override single options.
- The Rust, C# and Node bindings, apart from the probe-then-copy call shared by the Python and Rust ones.
- Enumeration-to-text tables, statistics and sequence numbers in snapshots.
