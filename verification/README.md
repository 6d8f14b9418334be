# AstraDB in Dafny

AstraDB is a Redis-compatible server in which every worker thread owns a shard of the key space and
talks to the others through queues. This project models its most intricate parts and proves what they
guarantee for every input, every interleaving and every reachable state:

- the worker executor: routing, forwarding, replies, transactions and the wakeup of the IO thread
  (`Routing`, `TransactionStore`, `KeyVersions`, `Executor*`, `OneStore`, `ResponseWakeup`);
- SINTER across shards (`SetIntersection`, `ScatterGather*`) and publish/subscribe
  across workers (`PubSub`, `PubSubRuns`, `Glob`);
- the byte formats: RESP parsing and writing, the receive and send buffers, the append-only file, RDB
  snapshots and slot texts (`Decimal`, `RespParser`, `RespMalformed`, `ReceiveBuffer`, `RespEncoding`,
  `RespBuilder`, `WriteBuffer`, `Aof`, `AofDecoding`, `Rdb*`, `Slot*`);
- stateful managers: streams with consumer groups, blocking waits, tiered storage, the replication
  backlog and the slot partition (`Streams`, `StreamRuns`, `Blocking*`, `TieredStore`,
  `ReplicationBacklog`, `ShardManager`).

Protocols are state machines whose runs are lists of enabled steps, so a lemma about `After(steps)` is a
statement about every interleaving. Objects that the program updates in place are classes whose methods
are tied to functions of the old state; loops are loops. `Common` holds list helpers.

Time, scheduling, hash-map order, hash functions, the checksum, the value serializer and the conversion of
doubles are parameters or nondeterministic choices.

## What the code does not do

Where a property one would expect is false, the code is modelled as it is, a lemma gives a failing case,
and another says exactly when the property holds.

- The empty key is routed by every worker to itself, so sharding behaves like one store on a key exactly
  when the key is non-empty or there is one worker (`ExecutorRefinement.RefinementExactlyUnlessEmptyKey`).
- Published messages from other workers, and errors found while reading, are queued as replies without a
  notify; such a reply is stranded exactly when the wakeup protocol is at rest
  (`ResponseWakeup.StrandsExactly`, `QuietReplyOnIdleWorkerStrands`).
- A string key's version restarts when the key is deleted or evicted, so EXEC misses a write exactly when the
  key was rebuilt to the watched version since, and is refused without a write when the key was merely
  evicted or loaded (`KeyVersions.WriteMissedExactly`, `FalseAlarmExactly`, `ResetAndSetAgainIsMissed`).
- A worker that waits for the answers to its SINTER serves nobody. A SINTER can be answered without a timeout
  exactly when its worker is in no group of workers that need each other; one that times out answers the empty
  set (`ScatterGatherLiveness.SInterFinishesExactly`, `CrossingSIntersCannotFinish`,
  `ScatterGatherAnswers.SInterExact`).
- The comment at PatternMatches claims glob matching with `*` and `?`; it is that exactly for patterns with
  no `?` and at most one `*`, or of stars only (`Glob.PatternMatchesExactly`).
- A malformed byte stream is never reported as a protocol error, because completeness is decided by the parser
  that already failed: the connection stays wedged exactly when no further bytes could make the pending ones
  parse (`ReceiveBuffer.WedgedExactly`, `MalformedInputsWedge`, `ReceiveBuffer.Connection.ProcessCommands`).
- A simple string or error with a line break, and a double that is printed with too few digits, are written by
  the reply builder and not read back as what they were (`RespBuilder.BuiltReadsExactly`, `LineBreakIsMisread`).
- Lengths of 0x4000 and more are written to a snapshot in a form the reader does not read, and a record with
  an empty key leaves its value unread (`RdbRoundTrip.LengthRoundTripExact`, `KvReads`,
  `EmptyKeyDesynchronizes`).
- The background thread of the append-only file waits without re-checking what it waits for, so a signal
  sent just before it sleeps is lost, also the one of a shutdown (`Aof.AsleepExactlyIfMissed`).
- Reading back a slot text does not end when slots 65534 and 65535 are both in it
  (`SlotParsing.SlotsRoundTripExact`); cluster slots are below 16384.
- A generated stream id goes backwards when the sequence number or the signed clock overflows, for example after
  an explicit id of 2^63 ms; entries stay in order exactly while no such id is added, and otherwise a group can
  be given an entry twice (`StreamRuns.IdsIncrease`, `ClockOverflowGoesBackwards`,
  `BackwardIdIsDeliveredTwice`).
- An explicit stream id is compared with the entries left, not with the ids used; a group misses an entry exactly
  when it is added above the group's start and at or below its cursor (`StreamRuns.NothingRetainedIsSkipped`,
  `RemovingNewestHidesEntries`).
- A deleted key comes back if a copy stayed on disk, and in "Redis" mode a restart loses what is not there
  (`TieredStore.StoreIsAMap`, `DeletedKeyComesBack`, `RestartLosesMemory`).
- PSYNC never compares the replication id with the master's own
  (`ReplicationBacklog.ForeignHistoryIsContinued`), and the backlog size, documented in bytes, counts
  commands. No other code calls GetBacklogData.
- Timers of blocking commands belong to the client, not to the registration: a callback ends another wait exactly
  when its own is over or not queued yet (`BlockingTimers.CallbackEndsOwnExactly`, `LateCallbackEndsNextWait`),
  and a wait loses its timer exactly when another step of its client takes it or its own callback runs before
  the wait is queued (`WaitsKeepTimersExactly`, `LateCallbackDropsNextTimer`, `OwnCallbackIsLost`). Neither happens
  to clients that wait one at a time and are not looked for meanwhile (`BlockingOrder.OrderlyWaitsKeepTimers`). A
  removal looks at one queue only (`Blocking.RemovalExact`).

## Model

| member | source | states |
|---|---|---|
| Routing.MaskIsModulo | src/astra/server/worker.hpp:2234-2238 | For every worker count that passes the power-of-two test, masking a slot is taking it modulo the count |
| Routing.Pow2TestExact | src/astra/server/worker.hpp:2234-2238 | `n & (n - 1) == 0` accepts exactly the powers of two |
| Routing.RouteIsConsistent | src/astra/server/worker.hpp:1686-1697 | All workers agree on a key's owner if and only if the key is non-empty or there is one worker; the owner is the hash of the hashed part modulo 16384 modulo the worker count |
| Routing.TagIsHashed | src/astra/cluster/shard_manager.hpp:58-75 | A key with a non-empty hash tag is hashed by its tag, whatever surrounds it |
| Routing.UntaggedIsHashedWhole | src/astra/cluster/shard_manager.hpp:58-75 | A key without a non-empty tag is hashed whole |
| Routing.SameTagColocates | src/astra/cluster/shard_manager.hpp:58-75 | Keys with the same tag go to the same worker from every worker, for any hash |
| TransactionStore.TransactionStateStore.IsInTransaction | src/astra/server/transaction_state.cpp:11-14 | True exactly when the connection's state has the transaction flag |
| TransactionStore.TransactionStateStore.BeginTransaction | src/astra/server/transaction_state.cpp:16-20 | Only this connection's state changes: flag set, queue emptied, watches kept |
| TransactionStore.TransactionStateStore.QueueCommand | src/astra/server/transaction_state.cpp:22-26 | The command joins the end of this connection's queue; all other connections are untouched |
| TransactionStore.TransactionStateStore.GetQueuedCommands | src/astra/server/transaction_state.cpp:27-34 | The queue of the connection, empty if it has no state |
| TransactionStore.TransactionStateStore.ClearQueuedCommands | src/astra/server/transaction_state.cpp:36-43 | Empties the queue and drops a state that became idle |
| TransactionStore.TransactionStateStore.DiscardTransaction | src/astra/server/transaction_state.cpp:45-55 | Flag, queue and watches of the connection are cleared, others kept |
| TransactionStore.TransactionStateStore.WatchKey | src/astra/server/transaction_state.cpp:57-62 | The key is watched at the given version, replacing an earlier one |
| TransactionStore.TransactionStateStore.GetWatchedKeys | src/astra/server/transaction_state.cpp:64-71 | The keys that have a recorded version, empty without a state |
| TransactionStore.TransactionStateStore.IsWatchedKeyModified | src/astra/server/transaction_state.cpp:73-92 | True if and only if some watched key's version differs from the recorded one |
| TransactionStore.TransactionStateStore.ClearWatchedKeys | src/astra/server/transaction_state.cpp:94-102 | Drops the watches only |
| TransactionStore.TransactionStateStore.ClearConnectionState | src/astra/server/transaction_state.cpp:104-106 | The connection is as if it had never been seen |
| TransactionStore.TransactionStateStore.MaybeErase | src/astra/server/transaction_state.cpp:108-117 | Erasing an idle state is invisible to every query |
| TransactionStore.UpdateUnique | src/astra/server/transaction_state.cpp:108-117 | A store without idle states is determined by what queries see |
| KeyVersions.RunClosedForm | src/astra/commands/database.hpp:706-759 | After any run of Set, Del, eviction and load of a string key, the version is the one rebuilt since the last Del or eviction, or the old one plus the Sets |
| KeyVersions.WatchNotices | src/astra/server/worker.hpp:1873-1924 | EXEC's version test notices what happened to a string key if and only if the version rebuilt since the last Del or eviction differs from the watched one or, with neither, there was a Set or a first load |
| KeyVersions.WriteMissedExactly | src/astra/commands/database.hpp:271-306 | A write, a Set or a Del that finds the key, is missed if and only if the key was deleted or evicted and rebuilt to the watched version |
| KeyVersions.FalseAlarmExactly | src/astra/commands/database.hpp:271-306 | Without a write EXEC is refused if and only if the key was evicted and is not as it was, or an absent key was loaded |
| KeyVersions.ResetAndSetAgainIsMissed | src/astra/commands/database.hpp:941-969 | A watched key at version 1, deleted or evicted and set again, looks untouched |
| Executor.ServerConfigIsValid | src/astra/server/worker.hpp:1686-1697 | The server's routing and command table meet what the executor proofs rely on |
| Executor.ExecuteQueued | src/astra/server/worker.hpp:1888-1918 | The EXEC loop runs the queue in order with one item per command, and a command of another worker is answered CROSSSLOT without running |
| OneStore.ExecuteAgrees | src/astra/server/worker.hpp:1926-1975 | Executing a command on a shard changes its own key, and answers, as the effect of the command alone says, and leaves every other key |
| OneStore.BlockAgrees | src/astra/server/worker.hpp:1888-1918 | A block of EXEC is so many commands one after the other, one item each |
| ExecutorReplies.RunInvariant | src/astra/server/worker.hpp:1791-1992 | In every run each accepted command is in exactly one place and each queued reply is addressed to the worker and connection it came from |
| ExecutorReplies.ReplyConservation | src/astra/server/worker.hpp:1258-1266 | In every run each command a client sent is waiting, or its one reply is under way or was handed to the connection that sent it, although connection ids repeat across workers; and the reply is the text of the run or forwarded command, QUEUED, the null array of an aborted EXEC, or the array of exactly the items of an executed one |
| ExecutorOrder.ClientOrderKept | src/astra/server/worker.hpp:1791-1992 | In every run what was processed for a connection, followed by what is queued for it, is what it sent, in order |
| ExecutorRefinement.ShardingRefinesOneStore | src/astra/server/worker.hpp:1799-1975 | In every run with keys all workers route alike, every executed command, local, forwarded or inside EXEC, gets the reply its own effect gives on what the earlier commands on its key left, in execution order; and each key is held, as those commands left it, by the worker it is routed to and by no other |
| ExecutorRefinement.ProcessQueues | src/astra/server/worker.hpp:1841-1858 | Whatever is true of every command with a local key stays true of every command queued by any connection |
| ExecutorRefinement.EmptyKeyDiverges | src/astra/server/worker.hpp:1686-1697 | With two workers a four-step run on the empty key gives replies no single store gives |
| ExecutorRefinement.RefinementExactlyUnlessEmptyKey | src/astra/server/worker.hpp:1686-1697 | Runs on one key are those of a single store if and only if the key is non-empty or there is one worker |
| ExecutorClients.ClientsSeeOneStore | src/astra/server/worker.hpp:1258-1975 | In every such run, every reply held or handed over answers a command its own client sent, and says what one store says to that command, or to each queued command of an EXEC, when it is executed |
| ExecutorTransactions.ExecAtomicity | src/astra/server/worker.hpp:1837-1924 | For every event of every run: EXEC in an open transaction is aborted if and only if some watched cell has another version than at its last WATCH, or came or went with one other than zero; otherwise it runs exactly the commands answered QUEUED since MULTI, in order, uninterrupted, one item each. A data command in MULTI is QUEUED if its key is local and refused otherwise, outside MULTI it is run or forwarded to its owner, and every control command gets its text |
| ExecutorTransactions.RunKeepsInv | src/astra/server/worker.hpp:1837-1924 | The stored queue and versions always are those of the connection's own commands since MULTI and WATCH |
| ExecutorTransactions.WriteAbortsExec | src/astra/server/worker.hpp:1877-1888 | In every run, if the version of a watched cell changed between the WATCH and the EXEC of an open transaction, whoever changed it, the EXEC is aborted |
| ExecutorTransactions.CellsAreHeld | src/astra/server/worker.hpp:1877-1888 | The cells told from a worker's history are those of its shard |
| ResponseWakeup.RepliesNeverStrand | src/astra/server/worker.hpp:2043-2148 | Under every interleaving of single atomic accesses, while every reply is notified, a non-empty reply queue with no notify owed has a drain posted or before its last size check |
| ResponseWakeup.StrandsExactly | src/astra/server/worker.hpp:2011-2014 | With replies queued without a notify in between, a reply is left to nobody if and only if the last step queued one without a notify at rest |
| ResponseWakeup.StrandedStays | src/astra/server/worker.hpp:2101-2148 | A stranded reply stays queued until the executor queues one with a notify; nothing else can happen meanwhile |
| ResponseWakeup.RestIsEmpty | src/astra/server/worker.hpp:2101-2148 | When neither thread can move, the reply queue is empty if and only if the last step did not queue a reply without a notify at rest |
| ResponseWakeup.DrainingEnds | src/astra/server/worker.hpp:2101-2148 | Without new replies, the steps left are bounded by a decreasing measure |
| ResponseWakeup.QuietReplyOnIdleWorkerStrands | src/astra/server/worker.hpp:1663-1668 | A reply queued without a notify on an idle worker, by the executor or by the IO thread, is stranded |
| SetIntersection.SInterLocal | src/astra/commands/database.hpp:1479-1523 | No duplicates, and exactly the members common to all named sets; a missing set is empty |
| SetIntersection.GroupKeys | src/astra/server/worker.hpp:2453-2457 | Each worker's group is its keys in order, and only workers with keys have a group |
| SetIntersection.Aggregate | src/astra/server/worker.hpp:2558-2586 | No duplicates, and exactly the members common to all partial results, whatever their order |
| ScatterGatherRuns.RunKeepsInv | src/astra/server/worker.hpp:2449-2648 | In every run, every queue entry, ticket, promise and partial result is consistent |
| ScatterGatherRuns.PromisesFulfilledOnce | src/astra/server/worker.hpp:2623-2648 | In every run a response finds its request pending and unfulfilled, so no promise is set twice and none is dropped; each request is waiting, answered or fulfilled |
| ScatterGatherAnswers.SInterExact | src/astra/server/worker.hpp:2449-2587 | For every routing, also one on which workers differ, every arrival order and run: the reply is for exactly the keys the SINTER was started on; it is empty if a wait timed out, and else has no duplicates and is exactly the members common to all named sets, each as its own worker held it at some moment since the start |
| ScatterGatherAnswers.QuietSInterIsIntersection | src/astra/server/worker.hpp:2449-2587 | Without concurrent writes, and unless a wait timed out, the reply is the intersection of the named sets over the whole key space |
| ScatterGatherAnswers.RunTracked | src/astra/server/worker.hpp:2449-2648 | In every run a batch is about the keys it was started on, every answer is of data its worker held since, and a late part means the wait timed out |
| ScatterGatherAnswers.RunApart | src/astra/server/worker.hpp:2472-2508 | In every run each owner is asked at most once in a batch |
| ScatterGatherRuns.CrossingIsReachable | src/astra/server/worker.hpp:2473-2508 | After every run any two idle workers come to wait on each other when each starts a SINTER with a key of the other |
| ScatterGatherLiveness.DoomedStarve | src/astra/server/worker.hpp:2515-2556 | Workers of which each waits for or has yet to ask another of them stay without an answer in every run in which none of them times out |
| ScatterGatherLiveness.RingStarves | src/astra/server/worker.hpp:2515-2556 | So do workers that need each other in a ring of any length, two of them or more |
| ScatterGatherLiveness.FinishingRun | src/astra/server/worker.hpp:2449-2648 | A worker in no such group reaches its answer by sending, serving, receiving, collecting and finishing alone |
| ScatterGatherLiveness.DoomedReachesRing | src/astra/server/worker.hpp:2515-2556 | A worker is in a group of which each needs another if and only if a ring can be reached from it along the needs |
| ScatterGatherLiveness.SInterFinishesExactly | src/astra/server/worker.hpp:2449-2648 | After every run, a SINTER can be answered without any timeout if and only if its worker is in no group of workers that need each other, that is, reaches no ring in the wait graph |
| ScatterGatherLiveness.CrossingSIntersCannotFinish | src/astra/server/worker.hpp:2473-2556 | After every run, two idle workers that each start a SINTER with a key of the other get where neither can be answered without a timeout |
| PubSub.PubSubManager.Subscribe | src/astra/server/worker.hpp:2769-2781 | Exactly the named subscriptions of this connection are added and the two maps stay inverse |
| PubSub.PubSubManager.Unsubscribe | src/astra/server/worker.hpp:2783-2815 | Exactly the named ones, or all if none is named, are removed; the maps stay inverse with no empty subscriber set |
| PubSub.PubSubManager.PSubscribe | src/astra/server/worker.hpp:2817-2829 | The same for patterns |
| PubSub.PubSubManager.PUnsubscribe | src/astra/server/worker.hpp:2831-2862 | The same for patterns |
| PubSub.PubSubManager.Deliver | src/astra/server/worker.hpp:2864-2972 | One copy per channel subscription and per matching pattern subscription, and no other |
| PubSub.AddMirrors | src/astra/server/worker.hpp:2773-2780 | Adding one subscription keeps the maps inverse and changes nothing else |
| PubSub.RemoveMirrors | src/astra/server/worker.hpp:2799-2810 | Removing one keeps them inverse, leaves no empty set and changes nothing else |
| PubSubRuns.PublishedOnceEverywhere | src/astra/server/worker.hpp:2864-2972 | In every run each message published is at each worker exactly once, queued or handed out, and handing out sends exactly the copies due on its channel under subscriptions the worker had since it was published |
| PubSubRuns.FixedSubscribersGetEverything | src/astra/server/worker.hpp:2864-2972 | A worker with fixed subscriptions and an empty inbox has handed out every message published anywhere exactly once, with exactly one copy per matching subscription |
| Glob.SupportedIsRight | src/astra/server/worker.hpp:3021-3057 | On supported patterns the server's matching is glob matching |
| Glob.PatternMatchesExactly | src/astra/server/worker.hpp:3021-3057 | It is glob matching on all channels if and only if the pattern has no `?` and at most one `*`, or only stars |
| RespParser.ParseExtends | src/astra/protocol/resp/resp_parser.cpp:109-137 | A value that parses parses to the same value when more bytes follow, and they are left over |
| RespParser.ParseIsSuffix | src/astra/protocol/resp/resp_parser.cpp:109-137 | What a parse leaves is a proper suffix of its input |
| RespParser.ParseCommand | src/astra/protocol/resp/resp_parser.cpp:166-192 | A command exactly for non-empty arrays of a bulk name and convertible arguments |
| RespParser.ScanDigits | src/astra/protocol/resp/resp_parser.cpp:75-103 | The digit loop accepts exactly digits followed at once by CRLF with a value in int64_t |
| RespParser.ParseIntLineFast | src/astra/protocol/resp/resp_parser.cpp:52-105 | The same with an optional minus sign where allowed |
| RespParser.ReadItems | src/astra/protocol/resp/resp_parser.cpp:215-274 | The element loop builds the command of the elements, or fails if one is malformed or not convertible |
| RespParser.FastIntIsParseInt | src/astra/protocol/resp/resp_parser.cpp:455-464 | Whatever the fast integer line accepts, the general one reads as the same number and rest |
| RespParser.ParseCommandFromArray | src/astra/protocol/resp/resp_parser.cpp:194-278 | The loop computes the fast-path command, and consumes nothing on failure |
| RespParser.FastPathRefinesParser | src/astra/protocol/resp/resp_parser.cpp:194-278 | Whatever the fast path accepts, the general parser reads as the same command leaving the same rest |
| RespBuilder.BuildValue | src/astra/protocol/resp/resp_builder.cpp:12-69 | Writes the RESP form of any value |
| RespBuilder.BuildArray | src/astra/protocol/resp/resp_builder.cpp:110-121 | Writes the count and then every element in order |
| RespBuilder.BuiltReadsExactly | src/astra/protocol/resp/resp_parser.cpp:109-137 | Every value built, nested to any depth and whatever follows it, is parsed as itself leaving exactly what follows, if and only if no simple string or error in it holds a line break and every double in it converts back |
| RespBuilder.LineBreakIsMisread | src/astra/protocol/resp/resp_builder.cpp:16-20 | A simple string is cut at a line break inside it, and the rest is left as the next value |
| RespBuilder.CommandExactly | src/astra/protocol/resp/resp_parser.cpp:36-50 | An array is a command exactly if a bulk string comes first and each other element is a bulk or simple string, a number or a null, passed on with its kind and text |
| RespBuilder.ReceivedExactly | src/astra/server/worker.hpp:1594-1630 | A value on the wire is received as the command it makes, and is a syntax error if and only if it makes none |
| ReceiveBuffer.NextEvent | src/astra/server/worker.hpp:1594-1630 | Fast path then fallback is the general parser alone, and a failure is never followed by a complete value |
| ReceiveBuffer.Connection.Compact | src/astra/server/worker.hpp:1550-1560 | Compaction keeps the pending bytes |
| ReceiveBuffer.Connection.Settle | src/astra/server/worker.hpp:1645-1655 | Drops what was consumed, or everything after a protocol error |
| ReceiveBuffer.Connection.ProcessCommands | src/astra/server/worker.hpp:1580-1661 | Delivers exactly the complete values of the pending bytes, in order, keeps the rest and never reports a protocol error |
| ReceiveBuffer.Connection.Receive | src/astra/server/worker.hpp:1550-1568 | One read delivers the complete values of the pending bytes with the chunk appended |
| ReceiveBuffer.Connection.ReadLoop | src/astra/server/worker.hpp:1528-1569 | Over any chunks the commands delivered and the bytes left are those of the whole stream |
| ReceiveBuffer.DrainExtends | src/astra/server/worker.hpp:1580-1661 | Draining early and again later reads what draining once reads |
| ReceiveBuffer.ChunkingIndependent | src/astra/server/worker.hpp:1550-1661 | However a byte stream is cut, the events and the remainder are those of the whole stream |
| ReceiveBuffer.WedgedExactly | src/astra/server/worker.hpp:1601-1617 | Nothing is ever delivered, whatever follows, if and only if the pending bytes are malformed |
| ReceiveBuffer.MalformedInputsWedge | src/astra/server/worker.hpp:1601-1617 | An unknown type byte and `:x` with its line end are malformed and wedge the connection |
| RespMalformed.BadStartStays | src/astra/protocol/resp/resp_parser.cpp:285-480 | A first line that began wrongly only completes to wrong lines, also when cut inside its line end |
| RespMalformed.Complete | src/astra/protocol/resp/resp_parser.cpp:285-480 | Bytes that are incomplete and not malformed can be completed to exactly one value |
| RespMalformed.MalformedExactly | src/astra/protocol/resp/resp_parser.cpp:280-283 | Bytes are malformed, by type byte, first line or some array element, if and only if no bytes that follow make them parse |
| RespEncoding.LogToAof | src/astra/server/worker.hpp:332-365 | Writes the RESP array of the command |
| RespEncoding.FormatRespCommand | src/astra/persistence/aof_writer.hpp:503-528 | Writes the same bytes |
| RespEncoding.CommandToResp | src/astra/replication/replication_manager.hpp:966-985 | Writes the same with its count passed through a 32-bit int |
| RespEncoding.CommandToRespAgrees | src/astra/replication/replication_manager.hpp:966-985 | It agrees with the others if and only if the count is below 2^31 |
| RespEncoding.EncodedReads | src/astra/protocol/resp/resp_parser.cpp:194-278 | What the writers write is read back as the same command, leaving exactly what follows, by both paths |
| RespEncoding.ChunkedCommandsArrive | src/astra/server/worker.hpp:1580-1661 | Any list of commands, written and cut into chunks anywhere, arrives as exactly those commands with nothing left |
| RespEncoding.EncodeAllInjective | src/astra/server/worker.hpp:332-365 | The concatenated text of a command list determines the list |
| WriteBuffer.Connection.Send | src/astra/network/connection.cpp:108-130 | Appends and starts a write unless one is under way; refused when closing |
| WriteBuffer.Connection.DoWrite | src/astra/network/connection.cpp:163-178 | Starts one write of all that is buffered, never a second |
| WriteBuffer.Connection.OnWritten | src/astra/network/connection.cpp:178-235 | Drops exactly the written bytes, keeps those appended meanwhile and goes on |
| WriteBuffer.Connection.Close | src/astra/network/connection.cpp:84-95 | Nothing is accepted any more; what was delivered and buffered stays |
| WriteBuffer.StreamIsFaithful | src/astra/network/connection.cpp:108-235 | For every interleaving what was delivered is a prefix of what was sent, and until a close or failure it is all of it but the buffer, with a write under way while there is any |
| WriteBuffer.NothingFailsNothingLost | src/astra/network/connection.cpp:163-235 | Until a write fails, delivered bytes followed by the buffer are all bytes sent before a close |
| Aof.AofConservation | src/astra/server/managers.hpp:98-106 | In every interleaving file and buffer are the written commands whole, and what each producer handed to an enabled log is its written commands, the one in hand and its queued ones, in order; a disabled log writes nothing |
| Aof.EveryCommandEnters | src/astra/server/managers.hpp:98-106 | In every run an enabled log takes in every command handed to it, in order, and a disabled one none |
| Aof.NothingHeldBackWhileWaiting | src/astra/server/managers.hpp:345-362 | Whenever the thread waits, every command it took off the queue is in the file |
| Aof.LastLookDrains | src/astra/server/managers.hpp:366-371 | When the thread finds its queue empty for the last time, every command accepted so far is written, in the order of its producer |
| Aof.StopWritesEverything | src/astra/server/managers.hpp:337-373 | After the stop the file is the written commands: all that each producer had handed in at the last look at the queue; the queue holds exactly what came after it |
| Aof.AsleepExactlyIfMissed | src/astra/server/managers.hpp:337-363 | Asleep with no signal to come, the thread has work or a stop request pending if and only if something was signalled after it last looked at its flag and before it was asleep |
| Aof.StaysAsleep | src/astra/server/managers.hpp:79-96 | Then a shutdown waits for it in every run without new commands |
| Aof.SignalsCanBeMissed | src/astra/server/managers.hpp:79-106 | Both a stop and a command can lose their signal |
| AofDecoding.FileDecodesToLog | src/astra/persistence/aof_writer.hpp:141-159 | After the stop the server's parser reads the file as exactly the written commands in order; before it the file is a prefix of that text |
| RdbRoundTrip.LengthRoundTripExact | src/astra/persistence/rdb_writer.hpp:195-221 | A 64-bit length is read back, leaving exactly what follows, if and only if it is below 0x4000 |
| RdbRoundTrip.StringRoundTripExact | src/astra/persistence/rdb_reader.hpp:259-269 | So is a string, if and only if it is shorter than 0x4000 |
| RdbRoundTrip.KvReads | src/astra/persistence/rdb_reader.hpp:281-300 | A record is read back if and only if its key is not empty and key and value are shorter than 0x4000 |
| RdbRoundTrip.EmptyKeyDesynchronizes | src/astra/persistence/rdb_reader.hpp:281-300 | A record with an empty key leaves its value unread |
| RdbRoundTrip.SectionReads | src/astra/persistence/rdb_reader.hpp:96-129 | Every readable operation is read back as one section with its database and its callback |
| RdbRoundTrip.FileRoundTrip | src/astra/persistence/rdb_reader.hpp:81-130 | A written file is read as exactly the records with a value, in order, with database, type and expiry, stopping right before the checksum |
| RdbRoundTrip.CallsNeverEmpty | src/astra/persistence/rdb_reader.hpp:281-300 | No file makes a callback with an empty key or value |
| RdbFiles.RdbWriter.Write | src/astra/persistence/rdb_writer.hpp:170-185 | Appends the bytes and keeps the checksum that of everything written |
| RdbFiles.RdbWriter.WriteLength | src/astra/persistence/rdb_writer.hpp:195-221 | Appends the one-, two- or nine-byte form |
| RdbFiles.RdbWriter.WriteString | src/astra/persistence/rdb_writer.hpp:188-192 | Appends length and bytes |
| RdbFiles.RdbWriter.WriteAux | src/astra/persistence/rdb_writer.hpp:224-229 | Appends an auxiliary field |
| RdbFiles.RdbWriter.SelectDb | src/astra/persistence/rdb_writer.hpp:133-138 | Appends the opcode and the database number |
| RdbFiles.RdbWriter.ResizeDb | src/astra/persistence/rdb_writer.hpp:141-147 | Appends the opcode and both sizes |
| RdbFiles.RdbWriter.WriteKv | src/astra/persistence/rdb_writer.hpp:150-166 | Appends expiry if not negative, type, key and value |
| RdbFiles.RdbWriter.Save | src/astra/persistence/rdb_writer.hpp:93-113 | The file is header, fields, operations and end mark, and the checksum of all of it if the option is on |
| RdbFiles.RdbReader.ReadBytes | src/astra/persistence/rdb_reader.hpp:149-162 | Advances the cursor and keeps the checksum that of everything read |
| RdbFiles.RdbReader.ReadOpcode | src/astra/persistence/rdb_reader.hpp:212-219 | Reads one byte |
| RdbFiles.RdbReader.ReadLength | src/astra/persistence/rdb_reader.hpp:222-256 | Reads what the length function reads, with its three-byte and zero cases |
| RdbFiles.RdbReader.ReadString | src/astra/persistence/rdb_reader.hpp:259-269 | Reads a length and that many bytes |
| RdbFiles.RdbReader.ReadAuxFields | src/astra/persistence/rdb_reader.hpp:194-209 | Skips all auxiliary fields and returns the next opcode |
| RdbFiles.RdbReader.ReadKeyValue | src/astra/persistence/rdb_reader.hpp:281-300 | Calls back exactly for a non-empty key and value |
| RdbFiles.RdbReader.ReadSection | src/astra/persistence/rdb_reader.hpp:102-126 | One turn of the loop: database selected, calls made, bytes consumed |
| RdbFiles.RdbReader.ReadSections | src/astra/persistence/rdb_reader.hpp:95-129 | The loop makes exactly the calls of the sections up to the end mark |
| RdbFiles.RdbReader.ReadHeader | src/astra/persistence/rdb_reader.hpp:165-191 | Accepts exactly the magic text with version 10 |
| RdbFiles.RdbReader.Load | src/astra/persistence/rdb_reader.hpp:63-146 | For any file: the callbacks made, and success exactly if the first six bytes are the magic text and version 10, the content is complete and, where verified, the next four bytes are the checksum of all before them |
| RdbFiles.RdbReader.VerifyChecksum | src/astra/persistence/rdb_reader.hpp:303-319 | True exactly if the next four bytes, least significant first, are the checksum of everything read |
| RdbFiles.LoadWritten | src/astra/persistence/rdb_reader.hpp:63-146 | A written file with any bytes after it calls back exactly the records with a value, in order, and where the checksum is verified it loads if and only if the next four bytes are the checksum of what was written |
| RdbFiles.SaveThenLoad | src/astra/persistence/rdb_writer.hpp:93-113 | For all readable operations what the writer saves the reader loads, with exactly the records that have a value, unless a checksum is verified that was not written |
| RdbFiles.SampleFile | src/astra/persistence/rdb_writer.hpp:115-229 | The bytes of a file with one field, one database and one record that expires |
| SlotSerializer.NormalizeSpec | src/astra/cluster/cluster_config.hpp:225-230 | Strictly increasing, and the same slots |
| SlotSerializer.RangesCover | src/astra/cluster/cluster_config.hpp:235-259 | The ranges, written out, are the slots |
| SlotSerializer.RangesApart | src/astra/cluster/cluster_config.hpp:235-259 | No two ranges touch, so they are maximal |
| SlotSerializer.FindRunEnd | src/astra/cluster/cluster_config.hpp:239-243 | The inner loop finds the end of the maximal run |
| SlotSerializer.Serialize | src/astra/cluster/cluster_config.hpp:219-261 | The nested loops write the text of the maximal ranges |
| SlotSerializer.TextIsCanonical | src/astra/cluster/cluster_config.hpp:219-261 | The text depends on which slots are meant only |
| SlotParsing.SplitByComma | src/astra/cluster/cluster_config.hpp:272-282 | The loop splits at every comma |
| SlotParsing.AddRange | src/astra/cluster/cluster_config.hpp:294-296 | The counting loop appends the slots from low to high, for every range below 65535 |
| SlotParsing.AddPart | src/astra/cluster/cluster_config.hpp:285-301 | Appends the slots of one part, with the blanks and signs that stoul takes, or fails where the call does not return |
| SlotParsing.Deserialize | src/astra/cluster/cluster_config.hpp:265-304 | Computes the parsed slots, or fails where a number throws or a range never ends |
| SlotParsing.SlotsRoundTripExact | src/astra/cluster/cluster_config.hpp:219-304 | Reading the text back gives the distinct slots in order if and only if 65534 and 65535 are not both among them |
| SlotParsing.TextIsStable | src/astra/cluster/cluster_config.hpp:219-304 | Writing what was read back gives the same text |
| SlotParsing.GetStats | src/astra/cluster/cluster_config.hpp:315-357 | The loop adds up the parts |
| SlotParsing.StatsAreExact | src/astra/cluster/cluster_config.hpp:315-357 | On a written text the counts are the distinct slots and the ranges of more than one slot |
| Streams.AutoIdGrowsExactly | src/astra/container/stream_data.hpp:73-89 | A generated id exceeds the last one if and only if neither the sequence number nor the signed clock comparison overflows, for any clock |
| Streams.AutoIdIsLeast | src/astra/container/stream_data.hpp:73-89 | Without overflow a generated id is the least one beyond the last and not before the clock |
| Streams.StreamData.AddAuto | src/astra/container/stream_data.hpp:68-118 | Adds the entry under the id made from the clock, trims from the front |
| Streams.StreamData.AddExplicit | src/astra/container/stream_data.hpp:91-118 | Adds under the given id if it exceeds the newest entry, else returns 0-0 and changes nothing |
| Streams.StreamData.TrimTo | src/astra/container/stream_data.hpp:111-114 | Keeps exactly the newest entries, as many as asked for |
| Streams.StreamData.CreateGroup | src/astra/container/stream_data.hpp:137-146 | Creates a group at the start id unless it exists |
| Streams.StreamData.ReadGroup | src/astra/container/stream_data.hpp:149-181 | Delivers the next entries after the cursor, makes them pending for the consumer and moves the cursor |
| Streams.SelectExactly | src/astra/container/stream_data.hpp:149-181 | A read gives the first entries beyond the cursor, as many as asked for and at least one, or all if there are fewer |
| Streams.WithoutExactly | src/astra/commands/redis/stream_commands.cpp:351-385 | XDEL removes the entry with the id and no other |
| StreamRuns.IdsIncrease | src/astra/container/stream_data.hpp:68-118 | All along a run, with any clock, trimming and deletion, the ids kept are strictly increasing if and only if every generated id met the condition on the clock, the last id and the newest entry |
| StreamRuns.AutoAlwaysRuns | src/astra/container/stream_data.hpp:68-93 | A generated id is accepted in every reachable state at every 64-bit clock |
| StreamRuns.ClockOverflowGoesBackwards | src/astra/container/stream_data.hpp:68-93 | An explicit id of 2^63 ms followed by a generated one puts the entries out of order |
| StreamRuns.NothingDeliveredTwice | src/astra/container/stream_data.hpp:149-181 | In every run whose generated ids met that condition a group is given strictly increasing ids after its start; its pending list is exactly the entries given and not acknowledged, whole, under the right consumer and delivered once; and each consumer is known with the last id it was given |
| StreamRuns.BackwardIdIsDeliveredTwice | src/astra/container/stream_data.hpp:149-181 | After any such run one generated id that fails the condition lets a new group be given an entry twice |
| StreamRuns.NothingRetainedIsSkipped | src/astra/container/stream_data.hpp:149-181 | All along such a run every entry left between start and cursor was itself delivered, if and only if no entry was ever added above a start and at or below its cursor |
| StreamRuns.GrowingIdsSkipNothing | src/astra/container/stream_data.hpp:94-118 | While every id is beyond the last one used, whatever is deleted, ids increase and nothing is skipped |
| StreamRuns.RemovingNewestHidesEntries | src/astra/commands/redis/stream_commands.cpp:351-385 | After the newest entry was read and deleted an explicit id, even the same one, is added behind the cursor and was not delivered |
| Blocking.BlockingManager.AddBlockedClient | src/astra/commands/blocking_manager.cpp:17-54 | Joins the end of the key's queue and replaces the client's timer, armed if there is a timeout |
| Blocking.BlockingManager.WakeUpBlockedClients | src/astra/commands/blocking_manager.cpp:91-124 | Serves the head of the key's queue, drops an empty queue and cancels that client's timer |
| Blocking.BlockingManager.RemoveBlockedClient | src/astra/commands/blocking_manager.cpp:56-89 | Cancels the client's timer and removes all its entries from one queue that holds it |
| Blocking.BlockingManager.HandleTimeout | src/astra/commands/blocking_manager.cpp:185-231 | Removes the client's first entry from some queue that holds it and drops whatever timer the client has |
| Blocking.BlockingManager.CleanQueue | src/astra/commands/blocking_manager.cpp:133-160 | Removes exactly the expired entries of a queue, in order, and the timers of their clients |
| Blocking.BlockingManager.IsClientBlocked | src/astra/commands/blocking_manager.cpp:173-183 | True if and only if some queue holds the client |
| Blocking.BlockingManager.FindQueue | src/astra/commands/blocking_manager.cpp:193-209 | Finds a queue that holds the client if and only if there is one |
| Blocking.RemovalExact | src/astra/commands/blocking_manager.cpp:74-88 | After a removal the client is blocked nowhere if and only if it waited on one key only |
| BlockingRuns.EveryWaitIsOpenOrEnded | src/astra/commands/blocking_manager.cpp:17-231 | In every run, with timers firing at any time, a registration waits on its own key or has ended, never both |
| BlockingAnswers.EndingsAreFinal | src/astra/commands/blocking_manager.cpp:91-231 | Nothing later in a run changes how a wait ended |
| BlockingAnswers.AnsweredOnce | src/astra/commands/blocking_manager.cpp:91-231 | In every run a wait that was served or timed out is answered exactly once, saying how it ended, once no timeout is at work, and any other wait never |
| BlockingAnswers.EndsExactly | src/astra/commands/blocking_manager.cpp:56-231 | In every run a wakeup serves exactly the registration that waited longest on the key, a timeout answers nil to the client's oldest on the key found, a removal ends all of the client's there and a cleaning exactly those whose time is up; nothing else ends a wait |
| BlockingAnswers.RegistrationsAreKept | src/astra/commands/blocking_manager.cpp:17-54 | What is remembered of a registration is what was registered |
| BlockingRuns.WakeIsFifo | src/astra/commands/blocking_manager.cpp:91-124 | In every run a wakeup serves the registration that has waited longest on the key |
| BlockingTimers.RunKeepsClock | src/astra/commands/blocking_manager.cpp:23-44 | In every run every armed timer and posted callback belongs to a registration of its client with a timeout, and no registration has two |
| BlockingTimers.CallbackEndsOwnExactly | src/astra/commands/blocking_manager.cpp:185-210 | A callback ends the wait whose timer it was if and only if that wait is in the queue found, before any other of the client; with one wait at a time it ends another if and only if its own has ended or is not queued yet |
| BlockingTimers.WaitsKeepTimersExactly | src/astra/commands/blocking_manager.cpp:17-231 | All along a run every open wait with a timeout is watched by its timer, its callback or a removal under way, if and only if no step took the last of these without ending the wait |
| BlockingTimers.LateCallbackEndsNextWait | src/astra/commands/blocking_manager.cpp:30-38 | A callback that runs after its wait was served ends the client's next wait, one without a timeout |
| BlockingTimers.LateCallbackDropsNextTimer | src/astra/commands/blocking_manager.cpp:212-216 | A callback that runs while the next wait is being registered drops that wait's timer |
| BlockingTimers.OwnCallbackIsLost | src/astra/commands/blocking_manager.cpp:40-50 | A callback that runs before its own wait is queued leaves that wait without a timer |
| BlockingOrder.OrderlyWaitsKeepTimers | src/astra/commands/blocking_manager.cpp:17-231 | In every run in which clients wait one at a time and are not looked for while they are being registered, every wait with a timeout is watched until it ends and every callback ends its own wait or none |
| TieredStore.Database.PersistKey | src/astra/commands/database.hpp:164-181 | Writes the value in memory to disk, if there is one |
| TieredStore.Database.EvictKey | src/astra/commands/database.hpp:271-306 | Persists, then removes from memory |
| TieredStore.Database.Set | src/astra/commands/database.hpp:706-759 | Insert, any evictions, write-through in all-in mode |
| TieredStore.Database.Get | src/astra/commands/database.hpp:766-879 | The value in memory, else from disk and cached |
| TieredStore.Database.Del | src/astra/commands/database.hpp:941-969 | Removes from memory, and from disk only in all-in mode if it was in memory |
| TieredStore.SetIsSeen | src/astra/commands/database.hpp:706-759 | A write changes what readers see under its key only, whatever is evicted meanwhile |
| TieredStore.DeleteExact | src/astra/commands/database.hpp:941-969 | A deletion hides the key if and only if it was in memory in all-in mode or had no copy on disk |
| TieredStore.StoreIsAMap | src/astra/commands/database.hpp:706-969 | All along a run of writes, reads, evictions, deletions and restarts readers see the last value written under every key, if and only if every deletion reached all copies and every restart found the memory on disk, as it always does in all-in mode |
| TieredStore.RestartLosesMemory | src/astra/commands/database.hpp:726-759 | In "Redis" mode a restart loses a key that was never evicted |
| TieredStore.DeletedKeyComesBack | src/astra/commands/database.hpp:941-969 | An evicted key survives its deletion in both modes |
| ReplicationBacklog.ReplicationManager.PropagateCommand | src/astra/replication/replication_manager.hpp:191-207 | The backlog stays the last commands of the log, up to its capacity |
| ReplicationBacklog.ReplicationManager.HandlePsync | src/astra/replication/replication_manager.hpp:391-421 | CONTINUE for an offset within the backlog and a named id, else a full resync |
| ReplicationBacklog.ReplicationManager.GetBacklogData | src/astra/replication/replication_manager.hpp:425-453 | The commands between the offsets, with the unsigned wrap for an end before the backlog |
| ReplicationBacklog.TailExactly | src/astra/replication/replication_manager.hpp:191-207 | The backlog holds as many of the newest commands as its capacity allows |
| ReplicationBacklog.ContinueExact | src/astra/replication/replication_manager.hpp:391-453 | CONTINUE is granted if and only if the replica names a history and what the backlog serves completes the log from its offset; everybody else is sent a full resync at the master's offset |
| ReplicationBacklog.ServedInPieces | src/astra/replication/replication_manager.hpp:425-453 | What the backlog serves between offsets it holds has the right length and fits together however it is split |
| ReplicationBacklog.PartialResyncCatchesUp | src/astra/replication/replication_manager.hpp:391-453 | For any state and any effect of commands, applying what is served reaches the master's state |
| ReplicationBacklog.ForeignHistoryIsContinued | src/astra/replication/replication_manager.hpp:391-421 | A replica of another history gets CONTINUE too, and reaches the master's log if and only if its history was a prefix of it |
| ShardManager.PartitionIsBalanced | src/astra/cluster/shard_manager.hpp:177-208 | For every count the ranges are contiguous, cover all slots, are non-empty and differ by at most one slot |
| ShardManager.OwnerUnique | src/astra/cluster/shard_manager.hpp:177-208 | A slot has exactly one shard |
| ShardManager.ShardManager.Init | src/astra/cluster/shard_manager.hpp:162-216 | Succeeds exactly for 1 to 16384 shards, then ranges and slot map agree on every slot, also when initialized again; else nothing changes |
| ShardManager.ShardManager.GetShardForSlot | src/astra/cluster/shard_manager.hpp:227-233 | Once initialized, the one shard whose range holds the slot; 0 for a slot out of range or before |
| ShardManager.ShardManager.GetShardForKey | src/astra/cluster/shard_manager.hpp:221-224 | Once initialized, the one shard whose range holds the key's slot; 0 before |
| ShardManager.SameTagSameShard | src/astra/cluster/shard_manager.hpp:221-233 | The shards returned for keys with the same hash tag are the same, for every hash and shard count |

## Left out

- Sockets, coroutines, timers as real time, logging, metrics and configuration: steps may happen in any order and at any time instead.
- Memory: allocation failures, recursion depth and the reallocation of a send buffer while a write is under way are not modelled.
- The CRC16 itself: the hash is an arbitrary function, so nothing is said about compatibility with Redis slots.
- CRC32C, FlatBuffers, RocksDB and zstd: used through contracts only (a checksum computable piece by piece, a lossless serializer, writes that succeed); compressed append-only files and their rewrite are not modelled.
- RESP maps, which the reply builder writes and the parser does not read.
- The vectorized CRLF search: the scalar search is modelled. Arrays of more than 2^31 elements, whose loop counter would overflow, are not.
- Spurious wakeups of condition variables: Aof has none, so a stranded thread may in practice wake by chance.
- Reads past the end of a snapshot leave the reader's variables undefined; the reader then answers Undefined.
- RdbRoundTrip.FileRoundTrip: says nothing about operations with lengths of 0x4000 and more or empty keys, because a misread remainder can happen to look like records; the length, string and record lemmas say exactly what is lost.
- Restarts of the tiered store reload from its disk alone; the append-only file and snapshots are modelled apart.
- Expiry of keys, access statistics and memory accounting: keys live until deleted or evicted. Versions of keys of other types than strings.
- RespMalformed.MalformedExactly: for a double whose line is not complete, whether the conversion of doubles accepts some continuation is left to that conversion, which is a parameter.
- Connections that are gone when a blocked client is answered, and timers as real time: a timer may expire at any moment after it is set.
- StreamRuns.BackwardIdIsDeliveredTwice: leaves out a generated id 0-0, which is beyond no start id and is never given to a group.
- Stream reads without a group, group administration beyond creation, and claiming of pending entries.
- Commands that touch several keys other than SINTER, and scripts.
- The transaction operations of the second connection implementation in src/astra/network/connection.cpp, which repeat those of the worker.
- Cluster gossip, slot migration, failover, access control, vectors and JSON.
