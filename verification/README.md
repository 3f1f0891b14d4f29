# up-cpp: a verified model

up-cpp is the C++ library of Eclipse uProtocol. This project models its three hardest parts in Dafny
and proves what they promise.

**Callbacks.** Any number of threads call a callback through `Connection::operator()` while the callee
severs it with `CalleeHandle::reset()`. `CallbackProtocol` makes every access to the flag, the weak
pointer, the reference count, the mutex and the condition variable one step; a run is any interleaving of
such steps. "Test the predicate" and "block" are two steps, and the notify comes in two disciplines: without
the mutex, as the code does it, and under the mutex, as the sequence diagram in
`docs/design/utils/CallbackConnection.md` draws it. `CallbackTheorems` proves that nothing runs after
reset() has returned, exactly when sever() hangs, and a bound on the work left once it was requested. It
ends in a small specification (`Gate`, with a stuck state) that the rest relies on. `CalleeHandles` follows the
connections through moves, resets and destruction of any number of handles.

**RPC.** `RpcRequest` is one request with everything any thread does to it; `ListenerGate` ties its response
listener to the callback protocol. `RpcRuntime` is the whole client side: clients, requests, transport threads, the
expiry worker, its queue, its mutex, its sleep and its shutdown. `PendingQueue` is the heap vector itself, with push,
pop and the in-place scrub as loops; `ScrubbedListeners` is what a scrub does to the listener handles in it.
`RpcTheorems` holds the results over whole runs, `RpcProgress` who can move and how long a due request waits,
`RpcOutcomes` what caused an outcome, `RpcShutdown` how the worker ends, `RpcOversleep` and `RpcHangs` the runs in
which expiry is late or halts, and `RpcHappens` a run for each outcome. `RpcServer` is the request handler.

**Datamodel.** The UUri and UUID codecs (`UriText`, `UuidText`), UUIDv7 (`UuidTime`), and the message
builder against the independently written validator (`MessageBuilder`, `MessageValidator`). `UriTheorems` and
`UuidTheorems` hold the laws of the codecs, `UriRoles` and `ValidMessages` what exactly the validators accept, and
`BuilderFields` what setters, factories and build() leave in each field.

Concurrent objects are step systems (`Enabled`/`Apply`, with `IsRun` for runs); objects that one thread
changes are classes; exceptions are result values; clocks, random numbers and what the transport answers are
parameters. Where the repository's prose and its code disagree the model follows the code:

* `notify_one` is called without the mutex, so a wake-up can be lost and sever() can hang until a spurious
  wake-up (`StuckIsReachable`); with the documented order it cannot (`QuiescentIsFinishedOrStuck`).
* The expiry worker severs listeners, so it can hang in that way with no callback running and requests due
  (`WorkerCanHang`). A scrub severs listeners with `pending_mtx_` held, so it can wait for callbacks, or hang, and keep
  the worker and every `invokeMethod` from the queue meanwhile (`ScrubCanHang`). `HaltedIff` says exactly when expiry
  has come to a halt, `HangLasts` that only a spurious wake-up of that very wait ends a hang.
* Move assignment of a `CalleeHandle` is documented to disconnect the old handle; the defaulted operator
  drops the callback without severing the connection or running its cleanup (`MoveAssignOrphans`). A scrub does
  this to the listeners of the requests it takes from places below the number of survivors (`ScrubbedHandles`).
* `scrub` does not restore the heap order, so the worker can sleep past a deadline (`WorkerCanOversleep`). The
  conditions are on the vector as `scrub` is called: the queue has been a heap all along if and only if every
  scrub met `SurvivorsOrdered` (`AlwaysHeapIff`, which the scheduler results assume), and the sleep after a scrub
  ends in time if and only if it met `FirstSurvivorIsLeast` (`SleepEndsInTimeIff`).
* A URI whose authority contains `/` prints, but does not read back (`RoundTripIff`, `SlashInAuthority`).
* `withMethod` is accepted by every builder, but only a request builder still builds valid messages
  afterwards (`BuilderSatisfiesValidator`, `MethodSpoilsPublish`).

What callers are assumed to respect: `reset()` is not called from inside the callback, so the callee is a
thread of its own; and, written as guards of the steps concerned, a CallerHandle outlives its own call, a
client is not destroyed while one of its `invokeMethod` calls is under way, and nothing is being enqueued or
scrubbed once the worker has been joined.

## Model

| member | source | states |
|---|---|---|
| CallbackProtocol.StepKeepsInv | include/up-cpp/utils/CallbackConnection.h:150-217 | every step of every caller and of the callee keeps: use count = handle + running bodies, who owns the mutex, what was read, and where notifies since the expiry went |
| CallbackProtocol.RunKeepsInv | include/up-cpp/utils/CallbackConnection.h:150-217 | the invariant holds in every state of every interleaving |
| CallbackProtocol.FlightStep | include/up-cpp/utils/CallbackConnection.h:160-172 | a call past the flag test ends only by notifying or by reading "not expired" |
| CallbackTheorems.NothingRunsAfterReset | include/up-cpp/utils/CallbackConnection.h:304-322 | in every interleaving, once reset() has returned no body runs and none ever runs again |
| CallbackTheorems.CleanupOnceAndDrained | include/up-cpp/utils/CallbackConnection.h:313-321 | the cleanup function runs at most once, after which no body ever runs |
| CallbackTheorems.CleanupRunsIff | include/up-cpp/utils/CallbackConnection.h:304-322 | in every run a reset() that has returned has run the cleanup exactly once if the connection has one and a CallerHandle was left when it was looked up, and not at all otherwise; before that it has not run |
| CallbackTheorems.UnlinkedResetReturns | include/up-cpp/utils/CallbackConnection.h:311-313 | a reachable reset() that returned without severing because no CallerHandle was left |
| CallbackTheorems.DisconnectedIsFinal | include/up-cpp/utils/CallbackConnection.h:126-129 | isConnected() once false stays false |
| CallbackTheorems.BodyMayStartAfterSeverRequested | include/up-cpp/utils/CallbackConnection.h:153-166 | a reachable state in which a body starts after the sever request |
| CallbackTheorems.BlockedAndExpired | include/up-cpp/utils/CallbackConnection.h:168-217 | sever() blocked on an expired callback: some call has yet to notify, or every notify since the expiry (at least one) fell between test and block; impossible with the notify under the mutex |
| CallbackTheorems.StuckStays | include/up-cpp/utils/CallbackConnection.h:213-217 | only a spurious wake-up ends a stuck sever() |
| CallbackTheorems.StuckIsReachable | include/up-cpp/utils/CallbackConnection.h:168-172 | the lost wake-up is reachable as coded |
| CallbackTheorems.ExpiredCallGoesOnToNotify | include/up-cpp/utils/CallbackConnection.h:168-172 | over every run, the call that drops the last strong reference, and every call past the flag once the callback has expired, is still under way or has notified |
| CallbackTheorems.NoNewFlight | include/up-cpp/utils/CallbackConnection.h:153-157 | after the sever request no further call passes the flag test |
| CallbackTheorems.EnergyStep | include/up-cpp/utils/CallbackConnection.h:153-217 | after the sever request every protocol step lowers a measure; a spurious wake-up adds three |
| CallbackTheorems.ProgressIsBounded | include/up-cpp/utils/CallbackConnection.h:153-217 | the protocol steps of the rest of any run are bounded by that measure |
| CallbackTheorems.DrainedAtZero | include/up-cpp/utils/CallbackConnection.h:213-217 | with no work left the weak pointer has expired |
| CallbackTheorems.QuiescentIsFinishedOrStuck | docs/design/utils/CallbackConnection.md:346-369 | after the sever request no step is possible exactly when all calls and reset() are done or sever() missed its wake-up; under the mutex it never does |
| CallbackTheorems.ProtocolRefinesGate | include/up-cpp/utils/CallbackConnection.h:150-217 | the protocol refines the small specification used by its clients, missed wake-ups included |
| CallbackTheorems.StuckIffNoProgress | include/up-cpp/utils/CallbackConnection.h:168-217 | a waiting reset() and all calls can go no further exactly when that specification calls it stuck; never with the notify under the mutex |
| CallbackTheorems.StuckGateIsReachable | include/up-cpp/utils/CallbackConnection.h:168-217 | the stuck state of the specification is reached by the code |
| CalleeHandles.RunKeepsInv | include/up-cpp/utils/CallbackConnection.h:287-322 | at most one handle refers to a connection, and what it holds matches the connection, over any sequence of operations |
| CalleeHandles.ConnectionStep | include/up-cpp/utils/CallbackConnection.h:287-322 | every handle operation moves every connection as the protocol allows; only a reset() that drained it runs the cleanup |
| CalleeHandles.CleanupRunsOnce | include/up-cpp/utils/CallbackConnection.h:313-321 | at most one cleanup per connection over any operations on any handles, and no body runs from then on |
| CalleeHandles.CleanupRunsIff | include/up-cpp/utils/CallbackConnection.h:102-114 | whatever moves came between, a connection that a reset() got past was cleaned up exactly once if its establish was given a cleanup, and no connection else |
| CalleeHandles.ResetEnds | include/up-cpp/utils/CallbackConnection.h:304-322 | what a reset() leaves of handle and connection, found or not |
| CalleeHandles.UnlinkedNeverCleaned | include/up-cpp/utils/CallbackConnection.h:311-313 | a connection that loses its last CallerHandle unsevered is never severed nor cleaned up |
| CalleeHandles.MoveConstructTransfers | include/up-cpp/utils/CallbackConnection.h:287-291 | move construction hands connection and cleanup over and leaves the source without |
| CalleeHandles.DisconnectedForGood | include/up-cpp/utils/CallbackConnection.h:126-129 | a connection reported disconnected is never reported connected again |
| CalleeHandles.MoveAssignOrphans | include/up-cpp/utils/CallbackConnection.h:293-297 | move assignment over a connected handle neither severs nor cleans up the old connection |
| CalleeHandles.OrphanNeverCleaned | include/up-cpp/utils/CallbackConnection.h:293-297 | and its cleanup never runs later |
| CalleeHandles.MoveAssignForgets | include/up-cpp/utils/CallbackConnection.h:293-297 | a run of three operations in which that happens to a connected handle with a cleanup |
| PendingQueue.HeapFrontIsLeast | src/communication/RpcClient.cpp:265-267 | the front of a heap has the least deadline |
| PendingQueue.ScrubablePendingQueue.Top | src/communication/RpcClient.cpp:312-313 | the front, least when the vector is a heap |
| PendingQueue.ScrubablePendingQueue.Push | src/communication/RpcClient.cpp:328-332 | adds exactly the new entry, keeps a heap a heap, and on any vector keeps a least front least |
| PendingQueue.ScrubablePendingQueue.Pop | src/communication/RpcClient.cpp:362-369 | removes exactly the front entry and keeps a heap a heap |
| PendingQueue.ScrubablePendingQueue.Scrub | src/communication/RpcClient.cpp:285-310 | the in-place filter keeps the others in order and returns the client's entries in order, those whose listener handle is overwritten by move assignment and those whose handle is destroyed |
| PendingQueue.ScrubSplits | src/communication/RpcClient.cpp:290-299 | kept and removed entries together are the old entries; only the client's go |
| PendingQueue.ScrubFates | src/communication/RpcClient.cpp:290-299 | every scrubbed entry's handle is overwritten or destroyed |
| PendingQueue.DestroyedIff | src/communication/RpcClient.cpp:290-299 | it is destroyed if and only if the entry stands at or behind the number of survivors |
| ScrubbedListeners.ScrubbedHandles | src/communication/RpcClient.cpp:290-299 | after remove_if a scrubbed entry's connection has no owner, unsevered and uncleaned, or is still owned by the handle erase destroys, by that same condition; survivors own theirs at their new places |
| ScrubbedListeners.DestroyedIsSevered | include/up-cpp/utils/CallbackConnection.h:304-322 | destroying a handle lets go of the callback and severs the connection if a caller is left |
| ScrubbedListeners.OverwrittenNeverCleaned | src/communication/RpcClient.cpp:290-299 | the cleanup of an overwritten listener never runs, whatever follows |
| PendingQueue.ScrubLeavesHeapIff | src/communication/RpcClient.cpp:290-299 | scrub leaves a heap if and only if survivors that become parent and child were in order |
| PendingQueue.ScrubLeavesFrontLeastIff | src/communication/RpcClient.cpp:290-299 | the front is due first after a scrub if and only if the first survivor was due before the other survivors |
| PendingQueue.ScrubCanBreakHeap | src/communication/RpcClient.cpp:290-299 | deadlines [1, 5, 2] without the first become [5, 2] |
| RpcRequest.EventKeepsInv | src/communication/RpcClient.cpp:128-206 | whatever happens to a request: at most one run of the callback, and every outcome has its cause |
| RpcRequest.EventIsMonotone | src/communication/RpcClient.cpp:133-185 | the once flag is spent once |
| RpcRequest.ResolvingEventResolves | src/communication/RpcClient.cpp:153-203 | every call of expire and every matching response resolves the request, with exactly one run if the handle is kept |
| RpcRequest.ShutStays | src/communication/RpcClient.cpp:359-371 | a severed and drained listener never runs again |
| ListenerGate.ListenerFollowsGate | src/communication/RpcClient.cpp:188-206 | the response listener moves as the callback protocol allows |
| ListenerGate.ListenerWaitsForGate | src/communication/RpcClient.cpp:359-371 | bodies begin, waits for the listener end, and wake-ups are missed and made up for, exactly as the callback protocol's specification says |
| ListenerGate.SeverEndsWithGate | src/communication/RpcClient.cpp:359-371 | the waits of the worker, of a scrub and of invokeMethod end exactly when that specification lets reset() through |
| RpcRuntimeProofs.EventNeverMasked | src/communication/RpcClient.cpp:328-383 | the runtime never does to a request what its state does not allow |
| RpcRuntimeProofs.RequestStep | src/communication/RpcClient.cpp:128-410 | every step of the runtime is at most one event of each request |
| RpcRuntimeProofs.StepKeepsInv | src/communication/RpcClient.cpp:285-410 | every step keeps the invariants of requests, queue, cancel lists, handles left to destroy, mutex, worker and sleep |
| RpcRuntimeProofs.RunKeepsInv | src/communication/RpcClient.cpp:285-410 | they hold in every state of every run |
| RpcTheorems.CallbackRunsOnce | src/communication/RpcClient.cpp:133-206 | over every interleaving the callback runs at most once, and exactly once when resolved with its handle kept |
| RpcTheorems.OutcomeIsFinal | src/communication/RpcClient.cpp:133-206 | a resolved request never changes its outcome |
| RpcTheorems.OutcomeIsAttributed | src/communication/RpcClient.cpp:153-185 | DEADLINE_EXCEEDED only after the deadline, CANCELLED only from the own client's discard, a response only with a matching reqid, INTERNAL only after shutdown |
| RpcOutcomes.MadeBy | src/communication/RpcClient.cpp:128-131 | every request was made by one invokeMethod, of its client and with its id, and is due its TTL after that |
| RpcOutcomes.DeadlineTakesTtl | src/communication/RpcClient.cpp:354-383 | DEADLINE_EXCEEDED comes at least the TTL after the invocation |
| RpcOutcomes.FailureHasCause | src/communication/RpcClient.cpp:188-203 | a transport failure is reported only with the code an earlier send or registration of that request failed with |
| RpcOutcomes.SendFailureIsReported | src/communication/RpcClient.cpp:194-197 | a failing send on an unresolved request ends it with exactly that code |
| RpcOutcomes.RefusalIsReported | src/communication/RpcClient.cpp:188-193 | so does a refused registration once its listener handle is gone |
| RpcOutcomes.ScrubbedEnds | src/communication/RpcClient.cpp:334-352 | a request a scrub took ends with a response or CANCELLED |
| RpcOutcomes.DroppedIsSilent | src/communication/RpcClient.cpp:144-146 | once the InvokeHandle is dropped or invokeMethod threw, the callback runs no more |
| RpcHappens.AnswerHappens | src/communication/RpcClient.cpp:153-173 | a run that ends with the response |
| RpcHappens.DeadlineHappens | src/communication/RpcClient.cpp:354-383 | a run that ends with DEADLINE_EXCEEDED |
| RpcHappens.CancelHappens | src/communication/RpcClient.cpp:334-352 | a run that ends with CANCELLED |
| RpcHappens.InternalHappens | src/communication/RpcClient.cpp:269-283 | a run that ends with INTERNAL |
| RpcHappens.FailureHappens | src/communication/RpcClient.cpp:194-197 | a run that ends with the transport's code |
| RpcShutdown.StopIsBounded | src/communication/RpcClient.cpp:319-326 | once stop_ is set the worker takes at most five more steps, and has exited after them |
| RpcShutdown.StoppedWorkerMovesIff | src/communication/RpcClient.cpp:319-326 | and can take them unless it waits in a sever() or for a scrub's mutex |
| RpcShutdown.PendingEndsWithInternal | src/communication/RpcClient.cpp:269-283 | what is pending when the worker is joined ends with INTERNAL or a response that came first |
| RpcTheorems.NoWrapperOnceExpiring | src/communication/RpcClient.cpp:359-383 | once DEADLINE_EXCEEDED is attempted no wrapper of the request runs or ever will |
| RpcTheorems.PopIsLinearised | src/communication/RpcClient.cpp:359-383 | a request the worker popped and fired ends with DEADLINE_EXCEEDED if and only if no wrapper of it ever got its response, otherwise with such a response; so a wrapper that had it at the pop decides the outcome |
| RpcTheorems.StartedWrapperBeatsDeadline | src/communication/RpcClient.cpp:359-383 | a matching response whose wrapper has started at any time, popped or not, is never overtaken by the deadline |
| RpcTheorems.NoLostWakeUp | src/communication/RpcClient.cpp:385-407 | a sleeping worker has missed nothing: timed means due at the front's deadline unless a scrub with the mutex has yet to notify, untimed means empty, a stop is yet to be notified |
| RpcTheorems.NothingDueSleeps | src/communication/RpcClient.cpp:385-407 | a worker with nothing due sleeps until the front deadline, or without limit on an empty queue |
| RpcTheorems.SpuriousIsHarmless | src/communication/RpcClient.cpp:385-407 | a spurious wake-up sends it back to the same sleep |
| RpcTheorems.AlwaysHeapIff | src/communication/RpcClient.cpp:285-369 | over every run the queue has been a heap all along if and only if every scrub was called on a vector whose survivors stay in order |
| RpcTheorems.FrontIsDueFirst | src/communication/RpcClient.cpp:312-332 | under that condition the front request is due first |
| RpcTheorems.SchedulerOrder | src/communication/RpcClient.cpp:359-407 | then pops are in deadline order and the wake time is never later than a pending deadline |
| RpcTheorems.DueRequestWakesWorker | src/communication/RpcClient.cpp:385-407 | then a worker with a due request is awake or its timeout has come, and takes effect once no scrub holds the mutex |
| RpcTheorems.SleepEndsInTimeIff | src/communication/RpcClient.cpp:397-406 | whatever came before, from a scrub until the queue changes: the front is due first, and a timed sleep ends in time for all pending requests, if and only if the first survivor was due before the others as the scrub was called |
| RpcTheorems.SleepsInTimeUntilPop | src/communication/RpcClient.cpp:285-407 | that condition is enough until the next pop or scrub, whatever is enqueued meanwhile, heap or not |
| RpcProgress.DueRequestIsServed | src/communication/RpcClient.cpp:354-407 | under that condition, whatever all other threads do, a due request is pending for at most five worker steps per request that existed and was due by then, plus five |
| RpcProgress.WorkerMayMoveIff | src/communication/RpcClient.cpp:354-407 | and the worker can take such a step if and only if no wrapper of the request in its hands runs after the sever, its wake-up from that was not missed, and it does not need the mutex while a scrub holds it |
| RpcProgress.ScrubMayMoveIff | src/communication/RpcClient.cpp:285-340 | a scrub with the mutex goes on if and only if no wrapper runs whose listener it is destroying and that wake-up was not missed |
| RpcProgress.HaltedIff | src/communication/RpcClient.cpp:285-407 | with a due request pending neither worker nor scrub can move if and only if the worker waits in a sever() or for a scrub that does |
| RpcHangs.HangLasts | src/communication/RpcClient.cpp:285-407 | over every run a worker or scrub that missed its wake-up hangs until a spurious wake-up of that wait |
| RpcHangs.HangBlocks | src/communication/RpcClient.cpp:285-407 | a hung worker expires nothing; a hung scrub lets nobody enqueue, discard, pop, sleep or be told to stop |
| RpcHangs.WorkerCanHang | src/communication/RpcClient.cpp:359-383 | a reachable state in which the worker hangs, no wrapper runs and a request is due |
| RpcHangs.ScrubCanHang | src/communication/RpcClient.cpp:285-340 | a reachable state in which a scrub hangs with the mutex, no wrapper runs and another client's request is due |
| RpcOversleep.WorkerCanOversleep | src/communication/RpcClient.cpp:285-407 | a reachable state in which a scrub has made the worker sleep past a pending deadline |
| RpcTheorems.RequestsAreConserved | src/communication/RpcClient.cpp:328-383 | an enqueued request is exactly one of: once in the queue, held, once in its client's cancel list, fired |
| RpcTheorems.EnqueuedStays | src/communication/RpcClient.cpp:328-383 | an enqueued request is never lost, and fired is final |
| RpcTheorems.DiscardLeavesOnlyHeld | src/communication/RpcClient.cpp:334-352 | after scrub(i) returned every enqueued request of i is fired, except at most the one the worker holds |
| RpcTheorems.ScrubTakesOwnRequests | src/communication/RpcClient.cpp:285-310 | scrub(i) takes exactly the pending requests of i; which of their listeners it has yet to destroy depends on their place as above |
| UriText.Serialize | src/datamodel/serializer/UUri.cpp:20-41 | the text of every URI that passes the filter check, the reason otherwise |
| UriText.ExtractSegment | src/datamodel/serializer/UUri.cpp:43-54 | the text before the first separator and the rest after it |
| UriText.SegmentToUint32 | src/datamodel/serializer/UUri.cpp:56-68 | the number of a non-empty all-hex segment below 2^32, nothing otherwise |
| UriText.Deserialize | src/datamodel/serializer/UUri.cpp:70-124 | what the parser's specification gives, for every string |
| UriTheorems.ParserAcceptsGrammar | src/datamodel/serializer/UUri.cpp:70-124 | a string parses to a URI if and only if the grammar says it denotes it |
| UriTheorems.ParserRefuses | src/datamodel/serializer/UUri.cpp:70-124 | right syntax with refused values gets the validator's reason, everything else is bad syntax |
| UriTheorems.RoundTripIff | src/datamodel/serializer/UUri.cpp:20-124 | a printable URI reads back as itself if and only if its authority has no '/' |
| UriTheorems.SlashInAuthority | src/datamodel/serializer/UUri.cpp:20-124 | the authority a/b prints and does not read back |
| UriTheorems.NormalForm | src/datamodel/serializer/UUri.cpp:20-124 | every accepted spelling prints to one canonical text that reads back as the same URI; texts differ when URIs do |
| UriTheorems.CanonicalIff | src/datamodel/serializer/UUri.cpp:31-40 | of all strings that denote a URI the printed one is the only one without scheme, without `//` before an empty authority, without lower-case digits and without leading zeros |
| UriTheorems.PrintsTidily | src/datamodel/serializer/UUri.cpp:20-124 | so every accepted spelling prints as that one |
| UriRoles.WildcardIff | src/datamodel/validator/UUri.cpp:75-103 | the wildcards field by field, instance above service in ue_id |
| UriRoles.RolesPartition | src/datamodel/validator/UUri.cpp:151-228 | a URI without wildcards fits exactly the role of its resource, one with wildcards none, and the reason says which |
| UriRoles.FilterIff | src/datamodel/validator/UUri.cpp:137-149 | the bounds of the filter check and the reason for each refusal |
| UuidText.SerializeText | src/datamodel/serializer/Uuid.cpp:32-60 | the fields printed are the big-endian hex digits of the two words |
| UuidText.SerializeBytes | src/datamodel/serializer/Uuid.cpp:125-141 | the sixteen big-endian bytes |
| UuidText.DeserializeBytes | src/datamodel/serializer/Uuid.cpp:143-170 | the two words of sixteen bytes; any other length is refused |
| UuidTheorems.AssembleIsJoin | src/datamodel/serializer/Uuid.cpp:89-119 | the groups read are put together without loss |
| UuidTheorems.ParseHex | src/datamodel/serializer/Uuid.cpp:62-122 | a well-formed all-hex text reads as the number its digits denote |
| UuidTheorems.ReadHasShape | src/datamodel/serializer/Uuid.cpp:77-81 | only 36 characters with the four dashes and a number in every group are read |
| UuidTheorems.StoullReads | src/datamodel/serializer/Uuid.cpp:90-112 | a group is read after white space, sign and 0x up to the first other character, a minus sign wrapping around |
| UuidTheorems.TextRoundTrip | src/datamodel/serializer/Uuid.cpp:32-122 | all 128-bit UUIDs read back from their text |
| UuidTheorems.TextIsLowerCase | src/datamodel/serializer/Uuid.cpp:32-122 | a well-formed all-hex text prints back in lower case |
| UuidTheorems.BytesRoundTrip | src/datamodel/serializer/Uuid.cpp:125-170 | all UUIDs read back from their bytes |
| UuidTheorems.BytesAreBijective | src/datamodel/serializer/Uuid.cpp:143-170 | exactly the 16-byte vectors are read, and each prints back as itself |
| UuidTheorems.TextDigitsAreByteDigits | src/datamodel/serializer/Uuid.cpp:32-141 | the text's digits are those of the big-endian bytes |
| UuidTime.UuidBuilder.WithTimeSource | src/datamodel/builder/Uuid.cpp:31-39 | the callable is kept, from its first call on, exactly in a test builder |
| UuidTime.UuidBuilder.WithRandomSource | src/datamodel/builder/Uuid.cpp:41-49 | the callable is kept, from its first call on, exactly in a test builder |
| UuidTime.UuidBuilder.Build | src/datamodel/builder/Uuid.cpp:51-74 | the layout of section 5.7 of RFC 9562, from one call of the time source and two of the random source, or from the clock and generator |
| UuidTime.BuiltFieldsReadBack | src/datamodel/validator/Uuid.cpp:22-36 | version 7, variant 10b, the build millisecond and the random bits read back |
| UuidTime.LaterIsLarger | src/datamodel/builder/Uuid.cpp:60-64 | a later millisecond gives a larger msb |
| UuidTime.BuiltIsAcceptedFrom | src/datamodel/validator/Uuid.cpp:57-76 | a built UUID is accepted exactly from its millisecond on, so at all later readings |
| UuidTime.ExpiryIsMonotone | src/datamodel/validator/Uuid.cpp:78-93 | expired stays expired |
| UuidTime.ExpiredAgainstRemaining | src/datamodel/validator/Uuid.cpp:119-135 | expired if and only if no time remains and the TTL does not end at this very tick |
| UuidTime.RemainingCountsDown | src/datamodel/validator/Uuid.cpp:119-135 | what remains counts down by whole milliseconds passed, and is zero from the end of the TTL on |
| UuidTime.AcceptedIff | src/datamodel/validator/Uuid.cpp:57-76 | the accepted UUIDs are exactly those of the version 7 layout whose millisecond has come |
| UuidTime.RefusedIff | src/datamodel/validator/Uuid.cpp:57-93 | the reason for each refusal; a refused UUID is not expired |
| ValidMessages.ValidIff | src/datamodel/validator/UMessage.cpp:61-365 | for every message: accepted if and only if source, sink, fields, priority, format, TTL and ids fit its type and it has not expired; the two other types never |
| ValidMessages.FlawIsReal | src/datamodel/validator/UMessage.cpp:61-365 | each reason for a refusal is a flaw the message has |
| ValidMessages.VerdictIsFirstFlaw | src/datamodel/validator/UMessage.cpp:61-365 | the reason is that of the first check to fail, common checks first |
| ValidMessages.TypedChecks | src/datamodel/validator/UMessage.cpp:113-365 | each typed check is the general one on its type and refuses the others |
| ValidMessages.ResponseForIff | src/datamodel/validator/UMessage.cpp:238-265 | a response answers a request if and only if it is well formed, goes back, and has its id and priority |
| ValidMessages.MismatchIsReported | src/datamodel/validator/UMessage.cpp:238-265 | the reason given otherwise is true |
| MessageBuilder.UMessageBuilder.constructor | src/datamodel/builder/UMessage.cpp:274-289 | type, source, sink and request id are set, nothing else |
| MessageBuilder.UMessageBuilder.With | src/datamodel/builder/UMessage.cpp:122-205 | each setter accepts exactly its range and message types, and a refused call changes nothing |
| MessageBuilder.UMessageBuilder.Build | src/datamodel/builder/UMessage.cpp:207-272 | the four overloads, refused exactly on a payload format mismatch |
| BuilderFields.LastCallHolds | src/datamodel/builder/UMessage.cpp:122-205 | after any calls each field has the argument of the last accepted call that sets it |
| BuilderFields.UnsetFieldStays | src/datamodel/builder/UMessage.cpp:122-205 | and its first value if there is none |
| BuilderFields.OriginStays | src/datamodel/builder/UMessage.cpp:122-205 | no setter touches type, source, id and request id |
| BuilderFields.RefusedIff | src/datamodel/builder/UMessage.cpp:122-205 | a setter refuses exactly what would make the builder unsound, or does not fit the field |
| BuilderFields.TopicFactoriesIff | src/datamodel/builder/UMessage.cpp:21-54 | publish and notification: exactly for fitting URIs, with exactly those |
| BuilderFields.RpcFactoriesIff | src/datamodel/builder/UMessage.cpp:56-110 | request and response: exactly for fitting URIs, priority, TTL and request id, with exactly those |
| BuilderFields.ResponseTurnsAround | src/datamodel/builder/UMessage.cpp:112-120 | a response to a message goes back with its id and priority |
| BuilderFields.ForClientIff | src/communication/RpcClient.cpp:101-126 | the client's builder: exactly for an RPC priority and a TTL in range, which it keeps |
| BuilderFields.BuiltCarries | src/datamodel/builder/UMessage.cpp:207-272 | a built message has the id, method, payload bytes and format given, and all the builder holds |
| BuilderFields.MessageCarriesLastCall | src/datamodel/builder/UMessage.cpp:122-272 | what the last accepted call for a field said is in the message |
| MessageBuilder.FactoriesAreSound | src/datamodel/builder/UMessage.cpp:21-120 | what every factory hands out meets what the validator will check |
| MessageBuilder.CallsKeepSound | src/datamodel/builder/UMessage.cpp:122-205 | any sequence of setter calls keeps that |
| MessageBuilder.SinkAfterCalls | src/datamodel/builder/UMessage.cpp:140-150 | the sink changes only by an accepted withMethod |
| MessageBuilder.BuiltIsValidIff | src/datamodel/validator/UMessage.cpp:61-365 | a built message passes its type's check at later readings if and only if its sink fits and it has not expired |
| MessageBuilder.BuilderSatisfiesValidator | src/datamodel/validator/UMessage.cpp:61-365 | for all setter sequences: valid while unexpired if and only if withMethod was used on requests only |
| MessageBuilder.MethodSpoilsPublish | src/datamodel/builder/UMessage.cpp:140-150 | a publish builder accepts a withMethod and then builds a message the validator refuses |
| MessageBuilder.MethodOverloadIsValidIff | src/datamodel/builder/UMessage.cpp:221-272 | build(method) on a request builder: valid while unexpired if and only if the method is |
| RpcServer.RpcServer.Create | src/communication/RpcServer.cpp:29-74 | a server exactly for a valid method, a valid format and a successful registration; otherwise INVALID_ARGUMENT, OUT_OF_RANGE, the exception of a method that is no valid filter, or the transport's code, in that order |
| RpcServer.RpcServer.Connect | src/communication/RpcServer.cpp:76-149 | the handle is kept exactly when registration succeeds; it throws exactly for a method that is no valid filter |
| RpcServer.RpcServer.OnRequest | src/communication/RpcServer.cpp:85-122 | ignores, throws or replies as specified, for every message |
| RpcServer.ValidRequestIsAnswerable | src/datamodel/builder/UMessage.cpp:82-120 | the response factory accepts every request that passed the request check |
| RpcServer.ReplyIsCorrect | src/datamodel/validator/UMessage.cpp:238-265 | no reply to invalid requests; one reply to a valid one exactly if configuration and format fit and it has not expired when sent; it passes the check against its request exactly while unexpired |
| RpcServer.ReplyCarries | src/communication/RpcServer.cpp:92-122 | a reply carries the callback's payload bytes and format, the server's TTL and the request's id and priority, and goes back |
| RpcServer.ReplyAnswersOneRequest | src/communication/RpcClient.cpp:153-173 | with distinct ids the client matches the reply to its request only, and resolves it with that reply |

## Left out

- Concrete transports: `sendImpl` and `registerListenerImpl` may answer anything and deliver any message at any time.
- Protobuf code, `Any` packing and `ProtoConverter`: priorities 0-7, payload formats 0-8 and status codes 0-16 are taken as contiguous ranges, message equality as structural.
- `Publisher`, `NotificationSource`, `NotificationSink`, `Subscriber`, the uSubscription client, `ThreadPool`, `CyclicQueue`, `base64`, `IpAddress`: thin wrappers or headers that would only add easy members.
- C++ weak memory order and exceptions thrown inside user callbacks: steps are sequentially consistent and `std::call_once` is one step.
- The heap algorithms of the C++ standard library: `Push` and `Pop` are the textbook sifts; the runtime relies only on their stated effect, whatever the order of equal deadlines.
- Which requests make `registerListener` and `send` throw inside `invokeMethod`: the model lets them throw on any request.
- Null transports: the exception they raise is not modelled.
- Signed overflow of the clock: timestamps beyond the range of a 64-bit nanosecond count are computed as mathematical integers.
- BuiltIsValidIff: builds at readings before 1970 or beyond 48 bits of milliseconds are excluded, because the timestamp field cannot hold them.
- Authorities are sequences of characters; their length in bytes is not distinguished from their length in characters.
- Reason texts, deprecated overloads, `isValidDefaultEntity`, `isValidSubscription` and `isValid` for URIs: not needed by the results.
