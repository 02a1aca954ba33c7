# Protocols, counters and codes of the actor framework, in Dafny

This project models the hardest parts of a copy of the C++ Actor Framework (CAF 0.15.0 alpha) that
carries a design for migrating network-function actors, and proves what those parts are for. To
check it, run `dafny verify dfyconfig.toml`.

**Dining philosophers** (`Philosophers.dfy`, `Dinner.dfy`). Chopsticks and philosophers are objects
that change their behaviour as messages arrive; the system is a bag of messages in flight that are
delivered in any order, on a ring of any size of at least two. A philosopher that has been granted
one chopstick does not store which. The invariant recovers it from the messages, and mutual
exclusion, expected puts, handled messages and the absence of deadlock follow for every run. The
philosophers follow the state diagram of the example, and in every reachable state each of them can
still get to eat.

**Migration of a flow** (`NfActor.dfy`, `Migration.dfy` and the modules named here). Source, switch,
any number of migration targets and the runtime exchange messages while packets keep arriving. Any
number of attempts may be rejected, time out and be abandoned. The main theorem says that all of
them together behave like one actor that processes the packet stream once, in order. `FlowLoss` adds
that only a timeout or a buffer overflow of the target that was given the flow can lose it,
`PacketLog` when the source gives up waiting, `SwitchOrders` that orders to the switch are obeyed
for good, `Reports` that every attempt and every end is reported exactly once, and `Takeover` that a
migration can always succeed (`FlowPaths` and `Paths` hold the paths it uses). `Network` builds the
same system from actor objects and what their handlers send, and performs whole runs. The
environment is assumed as follows.

- Channels are first-in first-out, and the switch emits the start marker where it begins to copy.
- The switch and the runtimes tell attempts apart: a cancel request concerns the attempt it was made
  for, and packets copied for one attempt never reach the target of a later one, also on the same node.
- Acks of abandoned attempts are discarded. Late rejects are not: the source obeys them.
- A waiting source gets neither the marker of an abandoned attempt nor a second migration request. It
  could not tell them from its marker (`misc/interface.cpp:192-212` and `misc/interface.cpp:273-276`
  react to the same atom). `StrayAtoms` drops this assumption: it proves exactly when such a stray
  atom does no harm, that runs with harmless ones behave like one actor, and that there are runs in
  which a stray atom makes a packet be processed by nobody.

**Reference counting** (`RefCount.dfy`, `Lifetimes.dfy`, `SmartPointers.dfy`, `PointerEffects.dfy`).
The first module interleaves the atomic steps of any number of threads, on counters that wrap around
at 2^64: the two-step weak release and the compare-exchange loop included; `Lifetimes` says exactly
when a release or an upgrade succeeds, and that the threads can always release everything.
`SmartPointers` proves the smart pointers above it, as objects and as programs over many pointers
and objects: counts are owners, and nothing a pointer points to is released. The template in
`actor_storage.hpp` calls a misspelt function; it is read as the data destructor followed by the
weak release, which is what `actor_control_block.hpp:56-63` documents and
`actor_control_block.cpp:46-69` does.

**Serialization** (`Bits.dfy`, `Varbyte.dfy`, `Codes.dfy`, `Serializer.dfy`, `Format.dfy`).
Integers, booleans, strings, sequences, arrays, pairs, tuples and object headers, for every schema
and value. The decoder of lengths shifts a 32-bit `int` (`stream_deserializer.hpp:117`), so the
round trip holds exactly for lengths below 2^31, which is proved in both directions. Every proper
prefix is rejected, and the code is unambiguous.

**Scheduler actors** (`Timer.dfy`, `TimerRuns.dfy`, `Sinks.dfy`, `Printer.dfy`, `Lines.dfy`). The
timer delivers the stable sort of what it has accepted, never early and by its next turn; the sink
cache holds exactly the sinks in use; the printer, whose handles are objects that count themselves
in the cache, neither loses, repeats nor reorders the text of an actor, emits complete lines at
once, and follows redirections.

**Curl worker pool** (`CurlPool.dfy`, `CurlService.dfy`), **splitter of template arguments**
(`TypeList.dfy`, `TypeText.dfy`), **base64** (`Base64.dfy`), **type tokens** (`TypeToken.dfy`) and
**string algorithms** (`Strings.dfy`) are smaller algorithms, each with its loops proved against a
specification and the specification against an independent description: the inverse of a rendering,
a decoder in the terms of section 4 of RFC 4648, the exact condition for two type lists to share a
token, maximal runs, leftmost occurrences.

Code that changes state is modelled by classes and loops. Their methods are proved equal to
functions on values, and the theorems over whole runs are about those functions. A run is a sequence
of steps or messages, and `Reaches` says where it ends.

Where the code is looser than its comments, the model follows the code: `split` never keeps empty
tokens although its parameter is called `keep_all`; a migration target whose buffer is full quits
and enqueues the packet all the same, where nobody reads it; the printer does not write the lines
still buffered when it exits.

## Model

| member | source | states |
|---|---|---|
| `Philosophers.Ownership` | actor-framework-0.15.0a1/examples/dynamic_behavior/dining_philosophers.cpp:40-160 | in every reachable state of a ring of any size, a chopstick has philosopher p as user iff exactly one of these holds: a positive reply is on its way to p, p holds it, p's put is on its way back |
| `Philosophers.MutualExclusion` | actor-framework-0.15.0a1/examples/dynamic_behavior/dining_philosophers.cpp:119-160 | whoever eats is the user of both chopsticks, and nobody who shares a chopstick with it eats |
| `Philosophers.EveryPutIsExpected` | actor-framework-0.15.0a1/examples/dynamic_behavior/dining_philosophers.cpp:47-62 | a put in flight always comes from the chopstick's user, so the error branch of an available chopstick is never taken |
| `Philosophers.NothingIsSkipped` | actor-framework-0.15.0a1/examples/dynamic_behavior/dining_philosophers.cpp:104-160 | every message to a philosopher in flight is one its current behaviour handles; skipping and dropping are the same |
| `Philosophers.SameRunsWithoutSkip` | actor-framework-0.15.0a1/examples/message_passing/dining_philosophers.cpp:104-183 | the variant without the skip handler reaches exactly the same states by the same deliveries |
| `Philosophers.NoDeadlock` | actor-framework-0.15.0a1/examples/dynamic_behavior/dining_philosophers.cpp:104-179 | each philosopher has one timer message and no open request or the reverse, and a message about it whose delivery changes the state |
| `Dinner.EveryoneCanEat` | actor-framework-0.15.0a1/examples/dynamic_behavior/dining_philosophers.cpp:96-179 | from every reachable state, on a ring of any size, every philosopher can get to eat |
| `Dinner.FollowsDiagram` | actor-framework-0.15.0a1/examples/dynamic_behavior/dining_philosophers.cpp:65-90 | a philosopher moves along an arrow of the state diagram when it gets a message, and else stays |
| `Dinner.TwoAnswers` | actor-framework-0.15.0a1/examples/dynamic_behavior/dining_philosophers.cpp:119-149 | two answers, in either order, make a hungry philosopher eat iff both are positive; otherwise it thinks and puts down exactly what it got |
| `Philosophers.DeliverKeepsInv` | actor-framework-0.15.0a1/examples/dynamic_behavior/dining_philosophers.cpp:40-179 | every delivery, in any order, keeps the custody invariant although no philosopher stores which chopstick it holds |
| `Philosophers.StartInv` | actor-framework-0.15.0a1/examples/dynamic_behavior/dining_philosophers.cpp:194-209 | the ring as set up satisfies the invariant |
| `Philosophers.RightIsModulo` | actor-framework-0.15.0a1/examples/dynamic_behavior/dining_philosophers.cpp:208-209 | the right chopstick of philosopher p is number (p + 1) mod n |
| `Philosophers.Philosopher.Receive` | actor-framework-0.15.0a1/examples/dynamic_behavior/dining_philosophers.cpp:96-179 | each behaviour handles its one message as in the reaction table, and anything else is skipped without effect |
| `Philosophers.Chopstick.Take` | actor-framework-0.15.0a1/examples/dynamic_behavior/dining_philosophers.cpp:40-57 | succeeds iff the chopstick is available, and then records the sender |
| `Philosophers.Chopstick.Put` | actor-framework-0.15.0a1/examples/dynamic_behavior/dining_philosophers.cpp:47-62 | only the user frees the chopstick; a put to an available one is reported |
| `Philosophers.Table.constructor` | actor-framework-0.15.0a1/examples/dynamic_behavior/dining_philosophers.cpp:194-209 | the actors and start messages of the ring are the initial state of the state machine |
| `Philosophers.Table.Dispatch` | actor-framework-0.15.0a1/examples/dynamic_behavior/dining_philosophers.cpp:40-160 | what the actor objects do with a message is the step of the state machine, so the results hold of the objects |
| `NfActor.Nf.HandlePacket` | actor-framework-0.15.0a1/misc/interface.cpp:175-188 | processing, counting or buffering by mode; the counter and the buffer bound end the wait as in the code, and an overflow is reported |
| `NfActor.Nf.HandleStartAtom` | actor-framework-0.15.0a1/misc/interface.cpp:192-276 | the same atom sends the prepare request, or hands the flow state to the stored peer, by mode |
| `NfActor.Nf.HandleAck` | actor-framework-0.15.0a1/misc/interface.cpp:230-238 | an ack stores the peer, asks the switch to copy and moves on to waiting for the marker, in an actor that waits for it and nobody else |
| `NfActor.Nf.HandleReject` | actor-framework-0.15.0a1/misc/interface.cpp:244-251 | any reject reports, clears the target and restores the default behaviour |
| `NfActor.Nf.HandleTimeout` | actor-framework-0.15.0a1/misc/interface.cpp:256-291 | each waiting behaviour's timeout: back to normal, with the copying cancelled if it was asked for, disaster, or quit |
| `NfActor.Nf.HandleComplete` | actor-framework-0.15.0a1/misc/interface.cpp:305-312 | the source asks the switch to stop sending to it and quits when the target has taken over |
| `NfActor.Nf.HandleFlowState` | actor-framework-0.15.0a1/misc/interface.cpp:440-456 | the completion message, and the flow state and actions of processing the buffered packets in order |
| `NfActor.Nf.TakeOver` | actor-framework-0.15.0a1/misc/interface.cpp:445-453 | the drain loop ends with an empty buffer and the fold of what was buffered |
| `NfActor.Continue` | actor-framework-0.15.0a1/misc/interface.cpp:175-188 | processing a stream in two parts is processing it once |
| `Migration.BehavesLikeOneActor` | actor-framework-0.15.0a1/misc/interface.cpp:175-456 | after every run the executed actions are the first ones of a single actor processing the stream, and the owner, by processing what is on its way to it, ends with that actor's flow state and actions; the flow is lost only if the target has quit |
| `Migration.OnlyTheOwnerProcesses` | actor-framework-0.15.0a1/misc/interface.cpp:217-312 | source and target never both process, only the current target ever does |
| `Migration.TargetBuffersFirst` | actor-framework-0.15.0a1/misc/interface.cpp:426-456 | in every run, a target that has not handled the flow state processes nothing and still has its initial flow state |
| `Migration.AbortIsHarmless` | actor-framework-0.15.0a1/misc/interface.cpp:244-292 | in every run a timeout, or any reject however late, leaves flow state, actions and unprocessed packets alone and forgets the target, and the source is where one actor would be |
| `Migration.NormalMeansNoTarget` | actor-framework-0.15.0a1/misc/interface.cpp:192-292 | the source is in the default behaviour iff it names no target |
| `Migration.StepKeepsInv` | actor-framework-0.15.0a1/misc/interface.cpp:175-456 | every step of source, switch, targets and runtime keeps the migration invariant |
| `Migration.FlowStateLeaves` | actor-framework-0.15.0a1/misc/interface.cpp:268-276 | at the marker everything before it has been processed and the target has exactly the rest |
| `Takeover.MigrationCanSucceed` | actor-framework-0.15.0a1/misc/interface.cpp:192-456 | from every reachable state in which the source processes the flow there is a continuation in which a new target takes over, the source quits and every packet has been processed as by one actor |
| `PacketLog.LogIsBounded` | actor-framework-0.15.0a1/misc/interface.cpp:300-335 | in every run the source waits for the completion message iff no timeout and no completion has come and it has taken at most the allowed number of packets since the hand-over, which it has counted; otherwise one of the three has ended the wait |
| `SwitchOrders.NothingMoreForSource` | actor-framework-0.15.0a1/misc/interface.cpp:305-312 | once the switch has obeyed the order given on completion, no later packet is sent to the source |
| `SwitchOrders.NothingMoreForTarget` | actor-framework-0.15.0a1/misc/interface.cpp:280-291 | once the switch has obeyed the order to cancel an attempt, no later packet is copied to its target |
| `Reports.EverythingIsReportedOnce` | actor-framework-0.15.0a1/misc/interface.cpp:192-312 | every attempt is asked for once, every abandoned one reported once, the flow state sent once, and the success reported and the switch stopped once, when the source quits |
| `Reports.OneNodePerAttempt` | actor-framework-0.15.0a1/misc/interface.cpp:192-292 | all that is sent for one attempt names the same node, and the flow state goes to its target |
| `Reports.TargetsReport` | actor-framework-0.15.0a1/misc/interface.cpp:426-468 | a target has reported its end iff it has quit, and its take-over iff it has taken over |
| `Reports.AbortsSayWhy` | actor-framework-0.15.0a1/misc/interface.cpp:244-291 | an abandoned attempt is reported as rejected, not responding or lost, and the copying cancelled if it was ordered |
| `Reports.EndsSayWhy` | actor-framework-0.15.0a1/misc/interface.cpp:426-468 | a target that quits reports an overflow or a failed transfer |
| `FlowLoss.BufferIsBounded` | actor-framework-0.15.0a1/misc/interface.cpp:426-437 | no buffer ever holds more packets than it may |
| `FlowLoss.PacketIsBufferedIff` | actor-framework-0.15.0a1/misc/interface.cpp:426-437 | a waiting target quits over a packet iff its buffer is full, and keeps the packet otherwise |
| `FlowLoss.TimeoutsEndWaiting` | actor-framework-0.15.0a1/misc/interface.cpp:256-335 | an actor that waits and times out waits no longer |
| `FlowLoss.QuitHasCause` | actor-framework-0.15.0a1/misc/interface.cpp:426-468 | a target that has quit has timed out, or has taken a packet while its buffer was full |
| `FlowLoss.LostIff` | actor-framework-0.15.0a1/misc/interface.cpp:268-312 | the flow is lost iff the source has handed it over and its target has quit |
| `FlowLoss.NeverLost` | actor-framework-0.15.0a1/misc/interface.cpp:426-468 | a run whose latest target neither times out nor overflows never loses the flow |
| `StrayAtoms.StrayStartAtomIff` | actor-framework-0.15.0a1/misc/interface.cpp:192-276 | a start atom that is not its marker does no harm to a waiting source iff the target still waits, the switch copies to it and no packet is ahead of the marker; otherwise the flow breaks at once or with the next packet, whichever it is |
| `StrayAtoms.HarmlessRunsBehaveLikeOneActor` | actor-framework-0.15.0a1/misc/interface.cpp:175-456 | every run in which each stray start atom meets that condition behaves like one actor |
| `StrayAtoms.SecondRequestLosesPacket` | actor-framework-0.15.0a1/misc/interface.cpp:268-276 | a run of six steps in which an early second request makes a packet be processed by nobody |
| `StrayAtoms.StaleMarkerLosesPacket` | actor-framework-0.15.0a1/misc/interface.cpp:268-292 | a run in which the late marker of an abandoned attempt does so |
| `Network.Network.Perform` | actor-framework-0.15.0a1/misc/interface.cpp:175-456 | the actor objects, the switch and the channels perform every step of the protocol, and every target they gain is a new object |
| `Network.PerformAll` | actor-framework-0.15.0a1/misc/interface.cpp:175-456 | a new network performs any run of the protocol and ends where the protocol does |
| `Network.RunProtocol` | actor-framework-0.15.0a1/misc/interface.cpp:175-456 | after any run the objects behave like one actor |
| `Network.Network.Transmit` | actor-framework-0.15.0a1/misc/interface.cpp:207-276 | the requests, orders and flow states that handlers send reach the targets and the switch in order |
| `Network.StartAtomStep` | actor-framework-0.15.0a1/misc/interface.cpp:192-276 | the step of a start atom is the handler followed by the transmission of what it sends |
| `Network.TimeoutStep` | actor-framework-0.15.0a1/misc/interface.cpp:256-291 | the same for a timeout of the source |
| `Network.AckStep` | actor-framework-0.15.0a1/misc/interface.cpp:230-238 | the same for an ack |
| `Network.CompleteStep` | actor-framework-0.15.0a1/misc/interface.cpp:305-312 | the same for the completion message |
| `Network.FlowStateStep` | actor-framework-0.15.0a1/misc/interface.cpp:440-456 | the same for the flow state at the target |
| `RefCount.DestructorsRunOnce` | actor-framework-0.15.0a1/libcaf_core/caf/actor_storage.hpp:95-136 | under every interleaving both destructors run at most once, the block's only after the data's, and the data's exactly when no strong reference is left |
| `RefCount.ReferencesProtect` | actor-framework-0.15.0a1/libcaf_core/caf/actor_control_block.hpp:56-63 | while a thread owns a strong reference nothing is destroyed, while it owns a weak one the block is not freed |
| `RefCount.NoUseAfterFree` | actor-framework-0.15.0a1/libcaf_core/caf/actor_storage.hpp:112-136 | no thread can take a step on a freed block, although the weak release reads and subtracts in two steps |
| `RefCount.NoRevival` | actor-framework-0.15.0a1/libcaf_core/caf/actor_storage.hpp:95-104 | once zero, the strong count is zero in every continuation |
| `RefCount.UpgradeIsSound` | actor-framework-0.15.0a1/libcaf_core/caf/actor_storage.hpp:95-104 | a successful exchange found a non-zero count and living data |
| `Lifetimes.UpgradeIsExact` | actor-framework-0.15.0a1/libcaf_core/caf/actor_storage.hpp:95-104 | an exchange adds one strong reference iff it does not fail by accident and finds the loaded count, which is not zero; it gives up only on a dead actor |
| `Lifetimes.StepMovesHandles` | actor-framework-0.15.0a1/libcaf_core/caf/actor_storage.hpp:95-136 | every step gives, takes or moves exactly the handles its name says, and the strong count counts them |
| `Lifetimes.StrongReleaseIsExact` | actor-framework-0.15.0a1/libcaf_core/caf/actor_storage.hpp:127-136 | a release destroys the data iff it gives up the last strong reference |
| `Lifetimes.WeakReleaseIsExact` | actor-framework-0.15.0a1/libcaf_core/caf/actor_storage.hpp:112-119 | a weak release frees the block iff it gives up the last reference of all, read or subtracted |
| `Lifetimes.CanAlwaysFinish` | actor-framework-0.15.0a1/libcaf_core/caf/actor_control_block.hpp:56-63 | from every reachable state with room for one more handle the threads can finish and release everything, after which data and block are gone |
| `RefCount.NothingLeaks` | actor-framework-0.15.0a1/libcaf_core/caf/actor_control_block.hpp:56-63 | when all threads are done and own nothing, both destructors have run exactly once |
| `RefCount.StepKeepsInv` | actor-framework-0.15.0a1/libcaf_core/caf/actor_storage.hpp:95-136 | every atomic step, with 64-bit wrap-around, keeps counters equal to owners |
| `RefCount.StartInv` | actor-framework-0.15.0a1/libcaf_core/caf/actor_control_block.hpp:69-79 | a new actor starts with one strong reference and one weak one |
| `SmartPointers.CountsAreOwners` | actor-framework-0.15.0a1/libcaf_core/caf/intrusive_ptr.hpp:53-110 | after every program the strong count is the number of strong pointers plus detached references, the weak count likewise plus one while the data lives, and a block exists iff it has an owner |
| `PointerEffects.OperationsMovePointers` | actor-framework-0.15.0a1/libcaf_core/caf/intrusive_ptr.hpp:53-110 | in every program each operation changes exactly the pointers and detached references it should, stated without counts |
| `PointerEffects.OperationsOwnBlocks` | actor-framework-0.15.0a1/libcaf_core/caf/intrusive_ptr.hpp:53-110 | and leaves exactly the blocks that the pointers and references after it own |
| `PointerEffects.NothingLeaks` | actor-framework-0.15.0a1/libcaf_core/caf/intrusive_ptr.hpp:53-110 | a program that ends with no pointer to anything and no detached reference leaves no block |
| `SmartPointers.NoDanglingPointer` | actor-framework-0.15.0a1/libcaf_core/caf/weak_intrusive_ptr.hpp:57-165 | no block is freed while a pointer points to it, and no data while a strong one does |
| `SmartPointers.SelfResetIsNeutral` | actor-framework-0.15.0a1/libcaf_core/caf/intrusive_ptr.hpp:95-110 | resetting a pointer to its own target and self-assignment change nothing |
| `SmartPointers.EveryLegalOpRuns` | actor-framework-0.15.0a1/libcaf_core/caf/intrusive_ptr.hpp:53-110 | no program reaches a state in which a pointer operation has a dead block to act on |
| `SmartPointers.AssignIsCopyAndSwap` | actor-framework-0.15.0a1/libcaf_core/caf/intrusive_ptr.hpp:107-110 | copying into a temporary, swapping and destroying the temporary is one reset to the same target |
| `SmartPointers.LockIsExact` | actor-framework-0.15.0a1/libcaf_core/caf/weak_intrusive_ptr.hpp:151-156 | lock yields a strong pointer iff the weak one has a target whose data is alive, and then exactly one more strong reference; nothing else changes |
| `SmartPointers.ApplyKeepsInv` | actor-framework-0.15.0a1/libcaf_core/caf/intrusive_ptr.hpp:53-159 | every operation keeps the counts balanced |
| `SmartPointers.ResetMatchesObject` | actor-framework-0.15.0a1/libcaf_core/caf/intrusive_ptr.hpp:95-100 | the program model and the pointer object agree on what reset does to any block |
| `SmartPointers.CountedPtr.SetPtr` | actor-framework-0.15.0a1/libcaf_core/caf/intrusive_ptr.hpp:155-159 | stores the pointer and adds one reference if asked to |
| `SmartPointers.CountedPtr.Destroy` | actor-framework-0.15.0a1/libcaf_core/caf/intrusive_ptr.hpp:71-74 | drops the reference of a non-null pointer |
| `SmartPointers.CountedPtr.Swap` | actor-framework-0.15.0a1/libcaf_core/caf/intrusive_ptr.hpp:76-78 | exchanges the pointers and no count |
| `SmartPointers.CountedPtr.Detach` | actor-framework-0.15.0a1/libcaf_core/caf/intrusive_ptr.hpp:82-87 | gives the pointer up without touching a count |
| `SmartPointers.CountedPtr.Reset` | actor-framework-0.15.0a1/libcaf_core/caf/intrusive_ptr.hpp:95-100 | the new target gains its reference before the old one loses its own |
| `SmartPointers.CountedPtr.Assign` | actor-framework-0.15.0a1/libcaf_core/caf/intrusive_ptr.hpp:102-110 | copy and swap: the old target loses one reference and the new one gains one, also for self-assignment |
| `SmartPointers.ActorControlBlock.AddRef` | actor-framework-0.15.0a1/libcaf_core/caf/actor_storage.hpp:106-125 | one more reference of the kind asked for |
| `SmartPointers.ActorControlBlock.Release` | actor-framework-0.15.0a1/libcaf_core/caf/actor_storage.hpp:112-136 | the last strong release destroys the data and drops the implicit weak reference, the last weak one frees the block |
| `SmartPointers.ActorControlBlock.UpgradeWeak` | actor-framework-0.15.0a1/libcaf_core/caf/actor_storage.hpp:95-104 | the exchange loop ends for any number of spurious failures and succeeds iff the count is not zero |
| `Varbyte.EncodeWord` | actor-framework-0.15.0a1/libcaf_core/caf/stream_serializer.hpp:101-117 | the loop over the scratch buffer computes the specified code in at most 10 bytes |
| `Varbyte.EncodeIsRight` | actor-framework-0.15.0a1/libcaf_core/caf/stream_serializer.hpp:101-117 | the code is well formed, minimal and means the number |
| `Varbyte.MinimalCodeIsUnique` | actor-framework-0.15.0a1/libcaf_core/caf/stream_serializer.hpp:101-117 | there is no other minimal code |
| `Varbyte.DecodeOfEncode` | actor-framework-0.15.0a1/libcaf_core/caf/stream_deserializer.hpp:105-121 | what the int-shifting decoder makes of the code of any number: itself below 2^31, its sign extension below 2^32, undefined beyond |
| `Varbyte.RoundTripIff` | actor-framework-0.15.0a1/libcaf_core/caf/stream_deserializer.hpp:105-121 | lengths survive iff they are below 2^31 |
| `Codes.DecodeOfCode` | actor-framework-0.15.0a1/libcaf_core/caf/stream_deserializer.hpp:105-121 | every code of at most five bytes, minimal or not, is read as what it means up to the limits of an int; longer ones are undefined |
| `Varbyte.OnlyConsumed` | actor-framework-0.15.0a1/libcaf_core/caf/stream_deserializer.hpp:105-121 | what is decoded depends only on the bytes consumed: they are a prefix of the input, and with anything behind them they give the same number and leave what is behind |
| `Varbyte.DisjointBits` | actor-framework-0.15.0a1/libcaf_core/caf/stream_deserializer.hpp:117-118 | where the bits read so far lie below the place of the new part, as they do while a code is decoded, the bitwise or of the decoder adds |
| `Serializer.RoundTripIff` | actor-framework-0.15.0a1/libcaf_core/caf/data_processor.hpp:190-325 | a value of any schema, followed by any bytes, decodes to itself and leaves exactly those bytes iff all its lengths are below 2^31 |
| `Serializer.PrefixIsRejected` | actor-framework-0.15.0a1/libcaf_core/caf/stream_deserializer.hpp:96-121 | decoding any proper prefix of an encoding reports the end of the input |
| `Serializer.OnlyConsumed` | actor-framework-0.15.0a1/libcaf_core/caf/stream_deserializer.hpp:96-217 | for every schema and input, the bytes consumed are a prefix of the input, and with anything behind them they give the same value and leave what is behind |
| `Serializer.EncodingsAreUnambiguous` | actor-framework-0.15.0a1/libcaf_core/caf/stream_serializer.hpp:76-162 | no encoding is the beginning of the encoding of another value of the type |
| `Serializer.StrRoundTrip` | actor-framework-0.15.0a1/libcaf_core/caf/stream_deserializer.hpp:157-170 | a string comes back iff its length fits, otherwise no string of its length does |
| `Format.BoolIsByte` | actor-framework-0.15.0a1/libcaf_core/caf/data_processor.hpp:190-201 | a boolean is sent as the 8-bit number 0 or 1, and any other byte is read as true |
| `Format.NegativeIsTwosComplement` | actor-framework-0.15.0a1/libcaf_core/caf/stream_serializer.hpp:190-195 | a negative number is sent as its two's complement |
| `Format.StringIsByteSequence` | actor-framework-0.15.0a1/libcaf_core/caf/data_processor.hpp:204-243 | the short cut for strings and bytes sends what the loop over the bytes sends |
| `Format.SequenceIsLengthAndArray` | actor-framework-0.15.0a1/libcaf_core/caf/data_processor.hpp:204-215 | a sequence is its length and then its elements |
| `Format.ArrayIsTuple` | actor-framework-0.15.0a1/libcaf_core/caf/data_processor.hpp:269-283 | an array is the tuple of its elements |
| `Format.TuplesFollowEachOther` | actor-framework-0.15.0a1/libcaf_core/caf/data_processor.hpp:285-318 | the parts of pairs and tuples follow each other in order |
| `Format.HeaderIsTuple` | actor-framework-0.15.0a1/libcaf_core/caf/stream_serializer.hpp:76-80 | an object header is the type number, and the name if it is zero |
| `Serializer.BigEndianRoundTrip` | actor-framework-0.15.0a1/libcaf_core/caf/stream_serializer.hpp:190-195 | integers of any width survive network byte order |
| `Serializer.BigEndianAt` | actor-framework-0.15.0a1/libcaf_core/caf/stream_serializer.hpp:190-195 | byte i has the weight of its place, most significant first |
| `Serializer.StreamSerializer.Apply` | actor-framework-0.15.0a1/libcaf_core/caf/stream_serializer.hpp:119-162 | appends the encoding of the value, by the recursion of the data processor |
| `Serializer.StreamSerializer.BeginObject` | actor-framework-0.15.0a1/libcaf_core/caf/stream_serializer.hpp:76-80 | the type number, and the name only of a type without one |
| `Serializer.StreamSerializer.ApplyAll` | actor-framework-0.15.0a1/libcaf_core/caf/data_processor.hpp:204-215 | the saving loop appends the elements in order |
| `Serializer.StreamDeserializer.VarbyteDecode` | actor-framework-0.15.0a1/libcaf_core/caf/stream_deserializer.hpp:105-121 | the do-while loop agrees with the decoder, errors included |
| `Serializer.StreamDeserializer.ApplyRaw` | actor-framework-0.15.0a1/libcaf_core/caf/stream_deserializer.hpp:96-101 | yields the next n bytes, or an error iff there are fewer |
| `Serializer.StreamDeserializer.ApplyString` | actor-framework-0.15.0a1/libcaf_core/caf/stream_deserializer.hpp:157-170 | length, bytes and range check agree with the decoder |
| `Serializer.StreamDeserializer.Apply` | actor-framework-0.15.0a1/libcaf_core/caf/stream_deserializer.hpp:123-217 | reads one value and leaves the rest, or fails as the decoder does |
| `Serializer.StreamDeserializer.ApplyMany` | actor-framework-0.15.0a1/libcaf_core/caf/data_processor.hpp:218-232 | the loading loop appends the elements in order and stops at the first error |
| `Serializer.ArrayBuf.Sgetn` | actor-framework-0.15.0a1/libcaf_core/caf/streambuf.hpp:109-116 | reads what there is, up to n bytes, and moves on by that much |
| `Timer.DeliveryIsStableSort` | actor-framework-0.15.0a1/libcaf_core/src/abstract_coordinator.cpp:98-138 | at every point of every run the delivered messages, then the stored ones, are the accepted ones sorted by deadline with ties in order of arrival |
| `Timer.StableSortIsUnique` | actor-framework-0.15.0a1/libcaf_core/src/abstract_coordinator.cpp:98-138 | which determines their order completely |
| `Timer.NothingIsEarly` | actor-framework-0.15.0a1/libcaf_core/src/abstract_coordinator.cpp:115-121 | no message is delivered before its deadline |
| `Timer.NothingIsLate` | actor-framework-0.15.0a1/libcaf_core/src/abstract_coordinator.cpp:111-126 | a stored message that is due is delivered by the next turn |
| `Timer.AcceptedWhenWaiting` | actor-framework-0.15.0a1/libcaf_core/src/abstract_coordinator.cpp:111-136 | a turn takes a delayed message iff nothing is stored or something is not due yet |
| `TimerRuns.DurationsAgree` | actor-framework-0.15.0a1/libcaf_core/caf/duration.hpp:160-176 | seconds, milliseconds and microseconds of the same length give the same deadline; an invalid duration adds nothing |
| `TimerRuns.StopsOnExit` | actor-framework-0.15.0a1/libcaf_core/src/abstract_coordinator.cpp:127-136 | the timer stops iff it takes an exit message with a reason, and never starts again |
| `Timer.RunInv` | actor-framework-0.15.0a1/libcaf_core/src/abstract_coordinator.cpp:67-138 | the invariant holds after every run with a monotone clock |
| `Timer.TimerActor.Act` | actor-framework-0.15.0a1/libcaf_core/src/abstract_coordinator.cpp:98-138 | the loop with its inner delivery loop is the fold of the turns |
| `Timer.TimerActor.Deliver` | actor-framework-0.15.0a1/libcaf_core/src/abstract_coordinator.cpp:115-121 | the multimap loop delivers and erases exactly the due prefix |
| `Timer.TimerActor.InsertDmsg` | actor-framework-0.15.0a1/libcaf_core/src/abstract_coordinator.cpp:67-73 | one accepted message, stored behind those not due later |
| `Sinks.SinkHandle.Assign` | actor-framework-0.15.0a1/libcaf_core/src/abstract_coordinator.cpp:166-176 | releases the old sink, counts the new one, and does nothing for the same sink; the sink released last is erased |
| `Sinks.SinkHandle.Release` | actor-framework-0.15.0a1/libcaf_core/src/abstract_coordinator.cpp:192-197 | the handle that takes the count to zero erases the entry |
| `Sinks.SinkHandle.CopyOf` | actor-framework-0.15.0a1/libcaf_core/src/abstract_coordinator.cpp:162-164 | a copy is one more use of the sink |
| `Sinks.SinkHandle.At` | actor-framework-0.15.0a1/libcaf_core/src/abstract_coordinator.cpp:157-160 | a handle to an entry counts itself |
| `Printer.UseCountsAreExact` | actor-framework-0.15.0a1/libcaf_core/src/abstract_coordinator.cpp:149-232 | after every message sequence the cache holds exactly the sinks with a live handle, each with the number of its handles, and no handle refers to an erased entry |
| `Printer.EveryMessageIsReceived` | actor-framework-0.15.0a1/libcaf_core/src/abstract_coordinator.cpp:234-304 | no message meets a handle that cannot be released |
| `Printer.TextIsConserved` | actor-framework-0.15.0a1/libcaf_core/src/abstract_coordinator.cpp:246-304 | the text emitted for an actor followed by its buffered line is all it added, and deletion loses nothing |
| `Printer.UnforcedTextEndsLines` | actor-framework-0.15.0a1/libcaf_core/src/abstract_coordinator.cpp:256-269 | unforced emissions end in a newline, none is empty |
| `Printer.EmissionsGoToOpenSinks` | actor-framework-0.15.0a1/libcaf_core/src/abstract_coordinator.cpp:256-269 | whatever a message emits, repeated or not, goes to the actor's sink, else the global one, else the console, and that sink is in the cache |
| `Lines.NoCompleteLineBuffered` | actor-framework-0.15.0a1/libcaf_core/src/abstract_coordinator.cpp:256-280 | in every reachable state no complete line waits in a buffer |
| `Lines.LinesAreEmitted` | actor-framework-0.15.0a1/libcaf_core/src/abstract_coordinator.cpp:272-280 | text that ends a line is emitted at once behind what was buffered, to the actor's sink, the global one or the console, and then everything added has been emitted |
| `Lines.FlushEmptiesBuffer` | actor-framework-0.15.0a1/libcaf_core/src/abstract_coordinator.cpp:281-290 | after a flush or a deletion everything the actor added has been emitted |
| `Lines.RedirectionsAreFollowed` | actor-framework-0.15.0a1/libcaf_core/src/abstract_coordinator.cpp:284-298 | redirections change exactly the sinks they name, a deletion ends one, and nothing else changes any |
| `Lines.NothingAfterExit` | actor-framework-0.15.0a1/libcaf_core/src/abstract_coordinator.cpp:299-303 | after an exit message nothing changes |
| `Lines.NothingForInvalidActor` | actor-framework-0.15.0a1/libcaf_core/src/abstract_coordinator.cpp:246-255 | the invalid actor id never gets data or output |
| `Printer.ReceiveKeepsSinks` | actor-framework-0.15.0a1/libcaf_core/src/abstract_coordinator.cpp:271-303 | every message keeps the use counts exact |
| `Printer.PrinterLoop.FlushData` | actor-framework-0.15.0a1/libcaf_core/src/abstract_coordinator.cpp:256-269 | flushing a line, forced or not, as specified |
| `Printer.PrinterLoop.GetSinkHandle` | actor-framework-0.15.0a1/libcaf_core/src/abstract_coordinator.cpp:221-232 | finds or makes the sink and counts the handle it returns |
| `Printer.PrinterLoop.Reassign` | actor-framework-0.15.0a1/libcaf_core/src/abstract_coordinator.cpp:291-298 | a temporary handle object, its assignment and its destructor together |
| `Printer.PrinterLoop.Handle` | actor-framework-0.15.0a1/libcaf_core/src/abstract_coordinator.cpp:271-303 | the printer with its counted handle objects performs each message of the state machine, so the results hold of it |
| `CurlPool.IdleAndBusyPartition` | actor-framework-0.15.0a1/examples/curl/curl_fuse.cpp:284-326 | every worker is in exactly one of the two lists, once |
| `CurlPool.OneMessagePerBusyWorker` | actor-framework-0.15.0a1/examples/curl/curl_fuse.cpp:218-326 | a busy worker has exactly one job or completion under way, an idle one none |
| `CurlPool.WaitingMeansNobodyIdle` | actor-framework-0.15.0a1/examples/curl/curl_fuse.cpp:312-320 | the waiting behaviour is on top iff nobody is idle, and is never stacked twice |
| `CurlService.ReadIsServedIff` | actor-framework-0.15.0a1/examples/curl/curl_fuse.cpp:302-321 | a request gives a job to an idle worker, which is busy from then on, and is dropped iff nobody is idle |
| `CurlService.FinishedServesAgain` | actor-framework-0.15.0a1/examples/curl/curl_fuse.cpp:289-324 | a finished worker is idle again and the master serves |
| `CurlService.CanAlwaysServe` | actor-framework-0.15.0a1/examples/curl/curl_fuse.cpp:218-326 | in every reachable state the pool can serve again within two steps |
| `CurlPool.NeverPopsEmptyIff` | actor-framework-0.15.0a1/examples/curl/curl_fuse.cpp:302-324 | no step of any run pops an empty list iff there is at least one worker |
| `CurlPool.CurlMaster.HandleRead` | actor-framework-0.15.0a1/examples/curl/curl_fuse.cpp:302-321 | moves the last idle worker to the busy list, and waits if it was the last |
| `CurlPool.CurlMaster.HandleFinished` | actor-framework-0.15.0a1/examples/curl/curl_fuse.cpp:314-324 | the worker is idle again, and a waiting master serves again |
| `CurlPool.CurlMaster.Finish` | actor-framework-0.15.0a1/examples/curl/curl_fuse.cpp:289-298 | finds the sender among the busy workers and moves it, or ignores it |
| `TypeList.SplitInvertsRender` | actor-framework-0.15.0a1/scripts/demystify.py:54-63 | splitting a rendered list of nested templates, anywhere in a text, returns exactly its elements |
| `TypeList.MatchingBracket` | actor-framework-0.15.0a1/scripts/demystify.py:20-29 | the position returned is the bracket that closes the list |
| `TypeList.ScanType` | actor-framework-0.15.0a1/scripts/demystify.py:20-29 | a rendered type has balanced brackets |
| `TypeList.NextSkipsType` | actor-framework-0.15.0a1/scripts/demystify.py:31-38 | the next comma found is not inside a type |
| `TypeText.NextStopsAtComma` | actor-framework-0.15.0a1/scripts/demystify.py:31-38 | in any text the search stops at a comma or the limit, and fails only beyond the text or at a bracket that is never closed |
| `TypeList.FindEnd` | actor-framework-0.15.0a1/scripts/demystify.py:20-29 | the loop ends, with the specified position or past the text |
| `TypeList.FindNext` | actor-framework-0.15.0a1/scripts/demystify.py:31-38 | the loop ends and agrees with the specification |
| `TypeList.DecomposeTypeList` | actor-framework-0.15.0a1/scripts/demystify.py:54-63 | the loop ends and returns the specified list |
| `Base64.RoundTrip` | actor-framework-0.15.0a1/tools/caf-run.cpp:44-71 | a text decodes to the bytes under a strict RFC 4648 decoder iff it is the encoder's output |
| `Base64.DecodeOfEncode` | actor-framework-0.15.0a1/tools/caf-run.cpp:44-71 | every byte string comes back |
| `Base64.EncodeOfDecode` | actor-framework-0.15.0a1/tools/caf-run.cpp:44-71 | whatever decodes is the encoding of what it decodes to |
| `Base64.LengthAndPadding` | actor-framework-0.15.0a1/tools/caf-run.cpp:57-71 | four digits for every three bytes begun, and exactly the last (3 - n mod 3) mod 3 of them are padding |
| `Base64.EncodeBase64` | actor-framework-0.15.0a1/tools/caf-run.cpp:44-71 | the loop over chunks, the filled last chunk and the override compute the encoding |
| `Base64.OverrideTail` | actor-framework-0.15.0a1/tools/caf-run.cpp:66-68 | the loop replaces exactly the last n characters |
| `Base64.DigitIsTableEntry` | actor-framework-0.15.0a1/tools/caf-run.cpp:40-42 | the digits are the characters of the table |
| `Base64.MasksAndShifts` | actor-framework-0.15.0a1/tools/caf-run.cpp:47-56 | the masks and shifts of the source, on bytes, are the quotients and remainders of the model |
| `Base64.GroupOfBytes` | actor-framework-0.15.0a1/tools/caf-run.cpp:47-56 | the four digits are the 24-bit group of the three bytes |
| `TypeToken.TokensAgreeIff` | actor-framework-0.15.0a1/libcaf_core/caf/type_nr.hpp:132-166 | two type lists of any length share their token iff their last five types agree and two bits of the type before |
| `TypeToken.InjectiveUpToFive` | actor-framework-0.15.0a1/libcaf_core/caf/type_nr.hpp:132-150 | lists of at most five types are told apart |
| `TypeToken.ShortTokensAreUnique` | actor-framework-0.15.0a1/libcaf_core/caf/type_nr.hpp:145-148 | a list of at most four types, in particular a single type, shares its token with no other list of any length |
| `TypeToken.FiveIsExact` | actor-framework-0.15.0a1/libcaf_core/caf/type_nr.hpp:132-150 | every longer list shares its token with another one |
| `TypeToken.ShiftOrIsSum` | actor-framework-0.15.0a1/libcaf_core/caf/type_nr.hpp:140-152 | the bitwise or with the shifted token adds the type number |
| `TypeToken.RunTimeAgrees` | actor-framework-0.15.0a1/libcaf_core/caf/type_nr.hpp:150-152 | adding a type at run time gives the compile-time token of the longer list |
| `Strings.TokensAreMaximalRuns` | actor-framework-0.15.0a1/libcaf_core/caf/string_algorithms.hpp:43-60 | the tokens are the texts of exactly the maximal runs without delimiter, in order |
| `Strings.SplitOfJoinIff` | actor-framework-0.15.0a1/libcaf_core/caf/string_algorithms.hpp:85-99 | splitting undoes joining non-empty delimiter-free tokens with any glue iff there is at most one token, or the glue is not empty and made of delimiters |
| `Strings.TokensKeepCount` | actor-framework-0.15.0a1/libcaf_core/caf/string_algorithms.hpp:43-60 | the tokens together are as long as the text without its delimiters |
| `Strings.SplitIsStable` | actor-framework-0.15.0a1/libcaf_core/caf/string_algorithms.hpp:43-60 | the tokens of any text, joined and split again, are the same |
| `Strings.Split` | actor-framework-0.15.0a1/libcaf_core/caf/string_algorithms.hpp:43-60 | appends the tokens to the result, whatever keep_all says |
| `Strings.Join` | actor-framework-0.15.0a1/libcaf_core/caf/string_algorithms.hpp:85-99 | the loop puts the glue between the elements only |
| `Strings.ReplaceAll` | actor-framework-0.15.0a1/libcaf_core/caf/string_algorithms.hpp:113-130 | with a non-empty pattern the in-place loop ends with the replaced text |
| `Strings.ReplacedIff` | actor-framework-0.15.0a1/libcaf_core/caf/string_algorithms.hpp:113-130 | that text has the new text in place of the leftmost occurrences that do not overlap, none of them in inserted text, and nothing else changed |
| `Strings.ReplaceAllEndsIff` | actor-framework-0.15.0a1/libcaf_core/caf/string_algorithms.hpp:113-130 | the loop ends iff the pattern is not empty or the text is |

## Left out

- Philosophers: liveness, since the retries can go on forever; the text the philosophers print. Timers are messages that may arrive at any time.
- Migration: local recovery and the replica service behind it (`misc/interface.cpp:343-415`), the replication of packets, shared state of the network function, a later migration away from the target, and several flows at once. A source that needs recovery counts as stopped, and the one-actor theorem then speaks about the target only.
- Attempts: the runtime of a target may reject an attempt before it accepts it, which the code does not forbid either. Misspelt names in the C++ text are read as intended, and the packet enqueued after a full buffer made the target quit is never read.
- Timeouts of ten milliseconds: any waiting actor may time out at any point.
- RefCount: relaxed memory ordering; the steps are sequentially consistent. `Lifetimes.CanAlwaysFinish` asks for room for one more handle, since an upgrade under way needs it. Owners are assumed to fit into the memory of the machine, so that a count below 2^64 counts them.
- SmartPointers: interleaving, which is the subject of RefCount; counts are unbounded there, and the references that the destructor of an object drops in turn are further operations of the program.
- Pointer conversions: those between pointer types, comparison and casts, which do not change a count.
- Serializer: floating-point numbers, 16- and 32-bit strings, atoms, enumerations, durations, optional values, maps and sets. A container that is not empty when it is loaded, and an array buffer that is too short for the output, are not modelled either.
- Serializer.StreamDeserializer.Apply: where the stream stands after an error, which the code leaves open.
- Varbyte.DecodeOfEncode: what a compiler makes of an undefined shift; such a shift is a failure here.
- Timer: the overflow of time points; the clock is assumed never to run backwards. `try_dequeue` is an input of each turn.
- Printer: files, groups and the console, which are append-only logs; whether a file can be opened is part of the message.
- CurlPool: transfers, their retries and the replies to clients; the number of workers is a parameter. A read request that arrives while all workers are busy is dropped, as the default handler does.
- TypeList: the script passes one text to all functions but scans brackets in a global variable that holds the same text; the model has one text.
- Base64: characters are bytes from 0 to 255; the masks of the source make signed characters behave the same, as they keep only the low eight bits.
- TypeToken: how a type gets its number.
- Strings.ReplaceAll: a replacement with an embedded NUL character, after which the source skips more than it has inserted.
- The scheduler, mailboxes, links and monitors, brokers, typed-actor checking, `starts_with`, the small containers and the other examples are outside this model.
