# r0rpc verification

A Dafny 4.11 model of the relay server r0rpc and of its Java client, with proofs. The server hands RPC
calls to groups of connected clients; each client keeps a bounded queue of jobs with deadlines and a
limited number of dispatch slots; results come back over HTTP or a WebSocket; every finished call is
written to a request log and to daily metric tables by a queue of background workers.

`dafny verify dfyconfig.toml` checks the whole project.

What is modelled, file by file:

- `JobQueue`, `QueueOrder`, `QueueClocks`: a client's bounded queue of jobs. Expired jobs are dropped lazily; a run of
  pushes and pops gives the same answers as a queue that drops every job at its deadline, if the clock
  readings do not run backwards. They can: `Push` reads the clock before it takes the lock. `QueueClocks`
  says exactly for which lists of readings the two queues agree.
- `HubModel`, `HubIndex`, `RoundRobin`, `Hub`: the hub. `HubModel` says what each lock-held section
  does to the state; the classes in `Hub` do it in place and are proved against it. `HubIndex` keeps the
  three indexes of sessions coherent; `RoundRobin` proves what `pickSession` picks and that it is fair.
- `Protocol`, `RequestSafety`, `Routing`, `RoutingSteps`, `SlotSafety`, `SlotSteps`, `Runs`, `CallOutcomes`,
  `SlotOwners`, `OrderlyRuns`, `SessionLimits`, `Answers`: callers, consumers, submitters and registrations,
  interleaved one lock-held section at a time, and the safety properties of every run. A wake-up channel is a
  generation number. Request IDs are assumed fresh, as they are random in the program. `Runs.ACallCanReturn` shows that the
  runs are not empty. `CallOutcomes` says which calls return what was delivered; `SlotOwners` says whose
  slot a release or a result takes, and `OrderlyRuns` under which discipline of the clients it is their own.
  `SessionLimits` ties sessions to what their clients asked for, and `Answers` tells from the history of a
  run what a client is told that submits a result.
- `MiniJson`, `JsonRoundTrip`, `JsonParser`: the Java client's JSON printer and recursive-descent parser.
- `StrictJson`, `JsonNumbers`, `JsonStrictness`, `JsonCoverage`, `JsonAlike`: the grammar of RFC 8259 with the
  value of every text, which values the client prints inside it, and how the client reads all of it.
- `LenientJson`, `JsonLanguage`: syntax trees of everything that the client's parser takes, RFC 8259 or not.
- `JsonLexicon`: code units, escapes, digits and words by their code points and by the tables of RFC 8259.
- `Bits`, `Frames`, `FrameExamples`, `FrameStreams`, `BrokenStreams`, `WebSockets`: the two WebSocket codecs
  against sections 5.2, 5.3 and 5.7 of RFC 6455, what each end makes of everything the other end sends, and
  of streams that break off.
- `Metrics`, `MetricCounts`, `Requests`, `RequestOrder`, `PersistBatch`, `PersistStore`: the upserts as
  functions on maps, and the batched way of writing tasks against writing them one at a time.
- `Pipeline`, `PipelineTables`, `PipelineRuns`, `PipelineDrain`, `LogRows`, `PersistQueue`: what a call emits,
  and its way through the channel, the overflow goroutines and the workers to the tables, one transaction at
  a time.
- `CallRows`, `CallCounts`: what a call leaves in the log and in the metric tables, told from the call and from
  what the hub answered.
- `Base64`, `Utf8`, `Envelope`: the Base64 encoder against section 4 of RFC 4648, UTF-8, and the compressed payload.
- `Connections`, `Presence`: the table of current WebSocket connections and the throttled presence flushes.
- `Arith`, `Sequences`, `Wrappers`: arithmetic, concatenation and result types.

What the proofs found in the code:

- The lazy queue and one that drops each job at its deadline agree in all runs from all states exactly if
  the clock readings are in order, and from a new queue exactly if no reading falls below one that was
  above an earlier one; a stale reading of `Push` breaks both (`QueueClocks.AgreeExactlyInOrder`,
  `QueueClocks.NewQueuesAgreeExactlyInValleys`).
- A result that the hub reports as delivered can still end in a timeout, or in an error, for the caller.
  A finished call has returned its result exactly if its context did not end and its job was not refused
  on the way (`CallOutcomes.ReturnedExactlyIfOnCourse`); four runs from an empty hub show the ways in which
  a delivered result does not arrive. No result is lost before the caller's choice (`Runs.NoResultIsLost`).
- A release looks the client up again, so after a new registration it takes the slot of another consumer,
  a session then has more holders than its limit, and the old session keeps a slot for nobody
  (`SlotOwners.ReleaseGoesAstray`). Counts are the numbers of occupants in every state of a run exactly if
  no release or result took a slot that was not its own and no job was handed out after its result
  (`SlotOwners.CountsAreOccupantsExactly`); then holders stay within the limit. It is enough that clients
  unregister only while no slot is taken and submit results only for jobs that were handed out
  (`OrderlyRuns.OrderlyRunsAreMatched`).
- A preferred client is checked neither against the group nor for room: the pick is in the group exactly if
  none was preferred or the preferred one is (`RoundRobin.PickedIsInGroupExactly`), and a full client of
  another group is picked in a concrete state (`RoundRobin.ForeignAndFullIsPicked`).
- The Java client accepts a 64-bit frame length with its top bit set and takes the low 32 bits for the
  length; section 5.2 of RFC 6455 forbids that bit (`Frames.JavaAcceptsExactly`, `Frames.TopBitIsIgnored`).
- The batch path and the one-by-one path store different maxima for negative latencies; they agree
  exactly if every row touched has, or gets, a latency of 0 or more (`Metrics.BatchIsSequential`).
- A create that is written after a completion of the same request keeps the completion's result, but the
  two change places without effect exactly if five columns are compatible
  (`Requests.CreateAndCompleteCommute`). A batch runs all creates first; it leaves the log of the given
  order exactly if no create has the last word in a column that an earlier completion has a value for with
  another value (`RequestOrder.CreatesFirstExactly`, `PersistBatch.LateCreateIsOverruled`). `InvokeRPC`
  itself never enqueues a create.
- `encodePayload` does not count the quotes around the Base64 text, so a compressed payload can be one
  byte longer than the plain one (`Envelope.QuotesAreNotCounted`).
- MiniJson leaves control characters without a short escape, and NaN and the infinities, as they are, which
  RFC 8259 forbids. What it prints is a text of RFC 8259 exactly if a value has neither
  (`JsonStrictness.PrintedIsJsonExactly`); so the server refuses the compressed payload of any other value
  (`Envelope.EnvelopeRoundTrip`, `Envelope.ControlIsRefused`).
- MiniJson reads every text of RFC 8259 with its value, except that it rejects whole numbers of more than
  64 bits (`JsonCoverage.EveryTextIsRead`). Beyond RFC 8259 it takes any four units that start with `n` for
  null, raw control characters, a backslash before anything, signs in `\u`, numbers in other spellings, `\u`
  and `n` cut off by the end of the text, nothing at all, control characters around the text, and anything
  after the value; that is all
  (`JsonLanguage.ParseExactly`).
- A presence flush can be let through early if its clock reading is staler than the grace period and one
  interval; the exact bound is proved (`Presence.SpacedExactlyIfFresh`).

## Model

Rows marked as a link only tie a method that changes state to the function that the lemmas are about.

| member | source | states |
|---|---|---|
| JobQueues.JobQueue.Push | internal/rpc/hub.go:69-86 | pushing drops nothing that is live, reports an expired job as accepted without queueing it, and wakes parked consumers exactly when a job was appended |
| JobQueues.JobQueue.PopOrWait | internal/rpc/hub.go:127-139 | the oldest unexpired job leaves with every expired job before it, or the caller learns which generation to park on |
| JobQueues.JobQueue.PruneExpired | internal/rpc/hub.go:141-157 | filtering keeps exactly the unexpired jobs, in order, and keeps the counter equal to the length |
| JobQueues.JobQueue.Signal | internal/rpc/hub.go:159-162 | closing and replacing the channel starts a new generation and touches no job |
| JobQueues.PushAcceptsIffRoom | internal/rpc/hub.go:69-86 | a live job is accepted exactly when fewer than `limit` live jobs are held, and a refusal changes nothing |
| JobQueues.LazyRefinesEager | internal/rpc/hub.go:69-157 | under a clock that does not run backwards, every run of pushes and pops gives the outcomes of a queue that holds only live jobs |
| JobQueues.StaleClockIsVisible | internal/rpc/hub.go:69-77 | a run in which a stale clock reading makes the two queues answer differently |
| QueueClocks.AgreeExactlyInOrder | internal/rpc/hub.go:69-157 | for given clock readings the lazy and the eager queue agree in all operations from all states exactly if the readings are in order, also if only those of `Push` can lag |
| QueueClocks.NewQueuesAgreeExactlyInValleys | internal/rpc/hub.go:69-157 | for a queue that starts empty they agree exactly if no reading falls below one that was above an earlier one |
| JobQueues.JobsAreConserved | internal/rpc/hub.go:69-157 | over any run each accepted job is still queued, was handed out once or was dropped, with multiplicities |
| JobQueues.OnlyExpiredJobsAreDropped | internal/rpc/hub.go:127-157 | what a run drops had expired at a time the run used |
| QueueOrder.FirstInFirstOut | internal/rpc/hub.go:69-157 | over any run the jobs handed out, then those still held, stand in the order in which jobs were held and offered: none overtakes another |
| QueueOrder.HandedOutBeforeDeadline | internal/rpc/hub.go:69-86 | a job is queued and handed out exactly before its deadline, or if it has none |
| QueueOrder.NewQueueHolds | internal/rpc/hub.go:53-58 | a new queue is empty and holds the given number of jobs, or one |
| HubServer.Hub.constructor | internal/rpc/hub.go:210-227 | a new hub is empty, coherent, and has positive sizes |
| HubServer.Hub.Register | internal/rpc/hub.go:229-263 | registering keeps the indexes coherent, moves a known client between groups without a new session, and wakes waiters for slots |
| HubServer.Hub.Touch | internal/rpc/hub.go:265-271 | link: touching changes the last-seen time of a registered client only |
| HubServer.Hub.Unregister | internal/rpc/hub.go:293-303 | unregistering takes the client out of all indexes, wakes waiters for slots, and keeps its queue untouched |
| HubServer.Hub.TryAcquireSlot | internal/rpc/hub.go:351-373 | one lock-held round takes a slot below the limit, or names the generation to park on, or reports the client gone |
| HubServer.Hub.ReleaseDispatch | internal/rpc/hub.go:568-583 | a release takes one from a positive count, never below zero, and wakes waiters |
| HubServer.Hub.PickSession | internal/rpc/hub.go:478-518 | the loop round the group's order finds what the specification of the scan finds and moves the cursor past it |
| HubServer.Hub.CleanupCompleted | internal/rpc/hub.go:549-556 | exactly the tombstones older than the retention time go |
| HubServer.Hub.StoreWaiter | internal/rpc/hub.go:520-525 | link: the waiter is stored after old tombstones are gone |
| HubServer.Hub.DropWaiter | internal/rpc/hub.go:527-531 | link: the waiter goes without a tombstone |
| HubServer.Hub.ExpireWaiter | internal/rpc/hub.go:533-547 | a waiter that is still there becomes an expired tombstone; otherwise nothing changes |
| HubServer.Hub.SubmitResult | internal/rpc/hub.go:375-421 | a result of the right client reaches the channel of its waiter or is counted late once; anything else is refused without an effect |
| HubServer.Hub.Requeue | internal/rpc/hub.go:280-291 | the job goes to the tail of the client's queue or is reported |
| HubServer.Hub.PushJob | internal/rpc/hub.go:314-323 | pushing through the hub changes one session's queue and no other |
| HubServer.Hub.PopJob | internal/rpc/hub.go:333-349 | popping through the hub changes one session's queue and no other |
| HubIndex.RegisterCoherent | internal/rpc/hub.go:229-263 | the order, the members and the registered sessions of every group still agree after a registration or a group move |
| HubIndex.UnregisterCoherent | internal/rpc/hub.go:293-303 | the same after an unregistration, with no empty group left and the cursor in range |
| HubIndex.PickCoherent | internal/rpc/hub.go:478-518 | moving the cursor keeps it in range |
| HubIndex.SubmitKeepsIndex | internal/rpc/hub.go:375-421 | results change no registration, no group and no order |
| HubIndex.NewcomerGoesLast | internal/rpc/hub.go:434-447 | a client that comes to a group goes to the end of its order, and the cursor stays |
| HubIndex.RegisteringAgainKeepsPlace | internal/rpc/hub.go:229-263 | a client that registers again in its group changes no order and no cursor |
| HubIndex.LeaverLeavesOrder | internal/rpc/hub.go:449-476 | who leaves a group leaves the others in their order, and a cursor beyond the end goes back to the start |
| HubIndex.MoverLeavesOrder | internal/rpc/hub.go:232-240 | a client that moves leaves its old group's order in the same way |
| RoundRobin.PickIsFirstFree | internal/rpc/hub.go:489-518 | the pick is the first client with room in cyclic order from the cursor; no client and saturation are reported exactly when there is none and when all are full |
| RoundRobin.NoneWithRoomIsPassedOver | internal/rpc/hub.go:500-517 | a client that holds fewer jobs than its limit is never passed over, neither for a later one nor for an error |
| RoundRobin.ScanSkipsFullOnly | internal/rpc/hub.go:500-513 | the loop skips only full members: its offline branch cannot be reached |
| RoundRobin.PreferredIsNotCheckedAgainstGroup | internal/rpc/hub.go:482-488 | a preferred client is taken exactly if it is registered, in whatever group; otherwise it is reported as down |
| RoundRobin.PickedIsInGroupExactly | internal/rpc/hub.go:478-518 | the picked client is in the group exactly if none was preferred or the preferred one is, and has room exactly if none was preferred or the preferred one has |
| RoundRobin.ForeignAndFullIsPicked | internal/rpc/hub.go:482-488 | a coherent hub that picks a preferred client of another group whose queue is full |
| RoundRobin.PicksGoRound | internal/rpc/hub.go:489-518 | with fixed membership and room everywhere the i-th pick is the i-th client from the cursor |
| RoundRobin.RoundRobinIsFair | internal/rpc/hub.go:489-518 | any m consecutive picks give each of n clients m/n jobs, rounded down or up |
| Runs.RunIsGood | internal/rpc/hub.go:305-421 | the invariant of requests, slots, jobs and indexes holds in every state of every run |
| Runs.DeliverySafety | internal/rpc/hub.go:305-331 | a result that a call returns was delivered by exactly one submission for its request, made by the client that was picked |
| Runs.NoResultIsLost | internal/rpc/hub.go:389-396 | the result channel of a waiting request is always empty, so the branch that would drop a result is never taken |
| Runs.LifecycleSafety | internal/rpc/hub.go:375-421 | a request is delivered or expired, never both; late at most once; its results release at most one slot; waiter and tombstone never coexist |
| Runs.LifecycleIsOneWay | internal/rpc/hub.go:520-556 | delivered stays delivered and expired can only turn late, for the rest of any run |
| Runs.TombstonesAreRetained | internal/rpc/hub.go:549-556 | over a whole run a tombstone stays, or is renewed, until the retention time has passed |
| Runs.DeliveredYetTimedOut | internal/rpc/hub.go:324-330 | about single states, the runs follow below: in every state that satisfies the invariant and has a caller between its deadline and `expireWaiter`, a submission is reported as delivered and the call still times out |
| CallOutcomes.ReturnedExactlyIfOnCourse | internal/rpc/hub.go:305-331 | in every run a finished call has returned a result exactly if no deadline was taken, its context had not ended before the push and its job was not refused |
| CallOutcomes.SelectTakesTheDeadline | internal/rpc/hub.go:324-330 | a run from an empty hub in which the result is in the channel and the select takes the deadline |
| CallOutcomes.ResultComesAfterTheDeadline | internal/rpc/hub.go:324-330 | a run in which the result is delivered between the deadline and `expireWaiter`, and the call times out |
| CallOutcomes.ContextEndsBeforeThePush | internal/rpc/hub.go:315-318 | a run in which the result is delivered before the push and the call fails with its context |
| CallOutcomes.JobIsRefused | internal/rpc/hub.go:319-322 | a run in which the result is delivered before the push and the call fails with a full queue |
| Runs.SlotAccounting | internal/rpc/hub.go:351-373 | a session's count is acquires minus effective releases, between 0 and some limit it has had, at most the larger of 1024 and the default |
| Runs.ReleaseAskedUnlessHandedOut | internal/web/client_ws.go:158-194 | a writer-loop round or a poll that is over has asked for as many releases as it has taken slots, but for one exactly if it handed a job out; what a release does is the matter of `SlotOwners` |
| SlotOwners.CountsAreOccupantsExactly | internal/rpc/hub.go:351-421 | in every state of a run each session counts exactly the consumers and handed-out jobs that occupy its slots, if and only if no release or result of the run took a slot that was not its own and no job was handed out after its result |
| SlotOwners.OccupantsStayWithinLimit | internal/rpc/hub.go:351-373 | as long as that is so, no session has more occupants than a limit it has had |
| SlotOwners.ReleaseIsItsOwnExactly | internal/rpc/hub.go:568-583 | a release gives back the consumer's own slot exactly if the client's registered session is the one it was taken from and counts a slot |
| SlotOwners.ResultIsItsOwnExactly | internal/rpc/hub.go:375-421 | while the counts match, a result gives back the slot of its own job exactly if the job was handed out from the client's registered session; a result whose job no consumer handed out takes another's slot exactly if there is one |
| SlotOwners.ReleaseGoesAstray | internal/rpc/hub.go:574-583 | a run of one client that registers again, at whose end two consumers hold slots of a session of limit 1 and an old session counts a slot that nobody holds |
| OrderlyRuns.OrderlyRunsAreMatched | internal/rpc/hub.go:351-421 | if clients unregister only while their session counts no slot and submit only results of jobs that were handed out, every release and result takes its own slot and holders stay within a limit of their session |
| OrderlyRuns.OrderlyByActions | internal/rpc/hub.go:293-303 | a run in which nobody unregisters and every result follows the hand-out of its job is such a run |
| SessionLimits.RegisteredAsAsked | internal/rpc/hub.go:229-263 | in every reachable state a registered session has the client, group, user and platform of its client's last registration, and the limit asked for: 1 to 1024 as it is, 1024 for more, the default for 0 or less |
| SessionLimits.NeverMoreThanAsked | internal/rpc/hub.go:351-373 | if every registration of a client in a run asks for 1 to m slots, no session of the client ever counts more than m |
| SessionLimits.SizesStay | internal/rpc/hub.go:210-227 | the size of every queue and the default for slots are those given, or 2048 and 256 where these are not positive |
| SessionLimits.SeenWhenTouched | internal/rpc/hub.go:265-271 | in every reachable state a registered session was last seen when its client last registered or was touched |
| Answers.AnsweredByHistory | internal/rpc/hub.go:375-421 | in every run: delivered exactly if the request still waits and the result is the picked client's; for ten minutes after the end late, duplicate or a mismatch; before and after that nobody waits |
| Answers.OldTombstonesGo | internal/rpc/hub.go:549-556 | whenever a waiter is stored or expires, or a result comes, no tombstone older than ten minutes stays |
| Answers.RequeuedOrReported | internal/rpc/hub.go:280-291 | a requeued job is at the tail of its client's queue, or has expired, or is reported: client gone, or queue full of live jobs |
| Runs.NoLostWakeUp | internal/rpc/hub.go:351-373 | who is parked on a current generation waits on a registered session without a free slot, or on an empty queue |
| Runs.IndexSafety | internal/rpc/hub.go:434-476 | indexes are coherent and queues within their limits in every reachable state |
| Runs.DispatchedAtMostOnce | internal/rpc/hub.go:333-349 | a call's job is handed out at most once, unchanged, by a consumer of the client that was picked |
| Runs.ACallCanReturn | internal/rpc/hub.go:305-331 | some run takes a call from registration to its result |
| JsonParser.Stringify | clients/java/src/com/r0rpc/client/MiniJson.java:16-64 | appending to the shared builder prints the text of the whole value |
| JsonRoundTrip.EscapeIsPerUnit | clients/java/src/com/r0rpc/client/MiniJson.java:66-75 | the seven passes over the whole string equal one escape per character |
| JsonRoundTrip.StringLoopUnescapes | clients/java/src/com/r0rpc/client/MiniJson.java:154-190 | the string loop undoes the escaping and stops at the closing quote |
| JsonRoundTrip.NumberRoundTrip | clients/java/src/com/r0rpc/client/MiniJson.java:204-223 | a 64-bit integer is read back by value and a double by its text, up to the first character of what follows |
| JsonRoundTrip.ValueRoundTrip | clients/java/src/com/r0rpc/client/MiniJson.java:85-152 | any value is read back from its text inside any legal context |
| JsonRoundTrip.ParseUndoesStringify | clients/java/src/com/r0rpc/client/MiniJson.java:12-64 | `parse(stringify(v))` is v for null, booleans, 64-bit integers, finite doubles, strings, lists and objects with distinct keys, in order |
| JsonStrictness.StringIsStrictExactly | clients/java/src/com/r0rpc/client/MiniJson.java:66-75 | a printed string is one of section 7 of RFC 8259, with its value, exactly if its control characters have a short escape |
| JsonStrictness.PrintedIsJsonExactly | clients/java/src/com/r0rpc/client/MiniJson.java:16-75 | what is printed is a text of RFC 8259, with the value printed, exactly if all control characters of strings and keys have a short escape and all numbers are finite |
| JsonNumbers.NumberRead | clients/java/src/com/r0rpc/client/MiniJson.java:204-223 | every number of section 6 of RFC 8259 is read with its value, whole numbers exactly if they have 64 bits |
| JsonCoverage.ValueRead | clients/java/src/com/r0rpc/client/MiniJson.java:85-152 | every value of RFC 8259 is read with its value and its end, with the last of repeated names, exactly if its whole numbers have 64 bits |
| JsonCoverage.EveryTextIsRead | clients/java/src/com/r0rpc/client/MiniJson.java:12-14 | `parse` gives every text of RFC 8259 its value, and rejects it exactly if a whole number has more than 64 bits |
| JsonLanguage.ParseExactly | clients/java/src/com/r0rpc/client/MiniJson.java:12-248 | `parse` takes a text exactly if, once trimmed, it is spelled by a legal syntax tree with anything after it, and gives the meaning of that tree |
| JsonLanguage.TreeRead | clients/java/src/com/r0rpc/client/MiniJson.java:85-152 | every legal tree is read as a whole, with its meaning, whatever legal rest follows |
| JsonLanguage.TreeOf | clients/java/src/com/r0rpc/client/MiniJson.java:85-152 | whatever value and rest are read, the text before the rest is spelled by a legal tree of that meaning |
| JsonLexicon.EscapeRead | clients/java/src/com/r0rpc/client/MiniJson.java:166-184 | the eight escapes of section 7 of RFC 8259 stand for the units of its table, and a backslash before any other unit but `u` is dropped |
| JsonLexicon.HexRead | clients/java/src/com/r0rpc/client/MiniJson.java:176-182 | four hexadecimal digits in either case stand for their number, a sign and three digits for theirs modulo 65536, and nothing else is read |
| JsonLexicon.LongRead | clients/java/src/com/r0rpc/client/MiniJson.java:218-222 | a token is a whole number exactly if it is decimal digits behind at most one sign, with their value by places, in 64 bits |
| JsonLexicon.PutExactly | clients/java/src/com/r0rpc/client/MiniJson.java:122-122 | a new key goes to the end of the map, a known one gets its value where it stands |
| JsonLexicon.TrimExactly | clients/java/src/com/r0rpc/client/MiniJson.java:81-83 | `trim` takes off units up to the space at both ends and no others |
| JsonLexicon.TrimEnds | clients/java/src/com/r0rpc/client/MiniJson.java:81-83 | what is left neither starts nor ends with such a unit |
| JsonLexicon.BlankUnits | clients/java/src/com/r0rpc/client/MiniJson.java:225-234 | the four white space characters of section 2 of RFC 8259 are skipped |
| JsonLexicon.NumberCharacters | clients/java/src/com/r0rpc/client/MiniJson.java:206-213 | digits, both signs, the point and both letters e are collected |
| JsonLexicon.Words | clients/java/src/com/r0rpc/client/MiniJson.java:192-202 | the three words and the structural characters by their spelling |
| JsonRoundTrip.UnicodeEscapeRead | clients/java/src/com/r0rpc/client/MiniJson.java:176-182 | every code unit written as a hexadecimal escape is read back as itself |
| JsonRoundTrip.SignedEscapeWraps | clients/java/src/com/r0rpc/client/MiniJson.java:176-182 | a minus in an escape is accepted and wraps around |
| JsonParser.Parser.ParseValue | clients/java/src/com/r0rpc/client/MiniJson.java:85-108 | the parser stops on every text and agrees with the specification on value, rest and failure, past the end after `n` included |
| JsonParser.Parser.ParseObject | clients/java/src/com/r0rpc/client/MiniJson.java:110-132 | every round of the loop consumes text or fails; a repeated key keeps its place and takes the last value |
| JsonParser.Parser.ParseArray | clients/java/src/com/r0rpc/client/MiniJson.java:134-152 | every round of the loop consumes text or fails |
| JsonParser.Parser.ParseString | clients/java/src/com/r0rpc/client/MiniJson.java:154-190 | the index loop reads what the specification reads |
| JsonParser.Parser.TakeEscape | clients/java/src/com/r0rpc/client/MiniJson.java:162-184 | an escape is taken as a whole; `\u` reads four units, a sign included, or nothing near the end of the text |
| JsonParser.Parser.ParseNumber | clients/java/src/com/r0rpc/client/MiniJson.java:204-223 | the longest run of number characters is taken, and is a `long`, a `double` or an error |
| JsonParser.Parser.ParseBoolean | clients/java/src/com/r0rpc/client/MiniJson.java:192-202 | one of two words, or an error |
| JsonParser.Parser.SkipWhitespace | clients/java/src/com/r0rpc/client/MiniJson.java:225-234 | exactly the leading blanks go |
| JsonParser.Parser.Expect | clients/java/src/com/r0rpc/client/MiniJson.java:236-242 | one expected character after blanks, or an error |
| JsonParser.Parser.Peek | clients/java/src/com/r0rpc/client/MiniJson.java:244-247 | looks behind blanks without taking the character |
| JsonParser.Parse | clients/java/src/com/r0rpc/client/MiniJson.java:12-14 | parsing ends on every text, with the specified value or an exception |
| Frames.GoAcceptsExactly | internal/web/client_ws.go:475-530 | the server reads exactly the unfragmented frames of at most 4 MiB, in any length form, masked or not |
| Frames.JavaAcceptsExactly | clients/java/src/com/r0rpc/client/SimpleWebSocket.java:220-257 | the client reads exactly the unfragmented frames that fit an array, and those whose length field has its top bit set and truncates to an array size |
| Frames.TopBitIsIgnored | clients/java/src/com/r0rpc/client/SimpleWebSocket.java:234-243 | ten bytes that the server refuses and the client reads as an empty text |
| Frames.GoReadsJavaFrame | clients/java/src/com/r0rpc/client/SimpleWebSocket.java:181-218 | the server reads a client's frame back for every mask, and refuses it exactly above 4 MiB |
| Frames.JavaReadsGoFrame | internal/web/client_ws.go:440-473 | the client reads back every frame that the server agrees to write |
| Bits.XorIsExclusive | internal/web/client_ws.go:526-530 | a bit of the combined octet is set exactly if it is set in one of the two, but not in both |
| Bits.TopIsBitwise | internal/web/client_ws.go:475-530 | testing and setting the top bit are the bit operations |
| Bits.LowIsBitwise | internal/web/client_ws.go:475-530 | the low seven and the low four bits are the bit operations |
| FrameExamples.ServerExamples | internal/web/client_ws.go:440-473 | the text and control frames of section 5.7 of RFC 6455, byte by byte |
| FrameExamples.MediumExample | internal/web/client_ws.go:440-473 | 256 bytes are announced in two octets behind 126 |
| FrameExamples.LongExample | internal/web/client_ws.go:440-473 | 65536 bytes are announced in eight octets behind 127 |
| FrameExamples.LargestMessage | internal/web/client_ws.go:440-443 | the server writes up to 4194304 bytes |
| FrameExamples.ClientExample | clients/java/src/com/r0rpc/client/SimpleWebSocket.java:181-218 | a masked frame of the client, octet by octet |
| FrameExamples.ZeroKeyMasksNothing | clients/java/src/com/r0rpc/client/SimpleWebSocket.java:208-212 | a masking key of zeros leaves every payload as it is |
| FrameStreams.GoReadsJavaStream | internal/web/client_ws.go:475-530 | a list of client frames arrives whole and in order, with nothing left over |
| FrameStreams.JavaReadsGoStream | clients/java/src/com/r0rpc/client/SimpleWebSocket.java:220-257 | a list of server frames arrives whole and in order, with nothing left over |
| FrameStreams.ServerReceives | internal/web/client_ws.go:475-548 | the server hands on the texts and pongs before the first close and answers each ping with a pong of its payload |
| FrameStreams.ClientReceives | clients/java/src/com/r0rpc/client/SimpleWebSocket.java:139-167 | the client hands on the texts before the first close, answers each ping with a masked pong, and closes exactly if it was sent a close |
| FrameStreams.PingsComeBackAsPongs | internal/web/client_ws.go:532-541 | each ping that the client reads comes back to the server as a pong with the same payload, in order |
| BrokenStreams.JavaRefusesExactly | clients/java/src/com/r0rpc/client/SimpleWebSocket.java:220-257 | the client ends cleanly exactly on an empty stream, crashes exactly on a negative length, and reports an I/O error on everything else that is no frame to it |
| BrokenStreams.LoopStops | clients/java/src/com/r0rpc/client/SimpleWebSocket.java:139-167 | an I/O error ends the loop with an error, a negative length with an exception, and an empty stream with no text |
| BrokenStreams.BrokenFrames | clients/java/src/com/r0rpc/client/SimpleWebSocket.java:139-167 | a frame that breaks off anywhere is an I/O error for the client, an end between frames a clean end |
| BrokenStreams.BrokenClientFrames | internal/web/client_ws.go:475-548 | a client's frame that breaks off gives the server no message |
| WebSockets.ApplyMask | internal/web/client_ws.go:526-530 | unmasking in place combines each octet with octet i mod 4 of the key |
| WebSockets.Conn.WriteFrame | internal/web/client_ws.go:440-473 | the header and payload appended are the layout of section 5.2 in the shortest form; above 4 MiB nothing is written |
| WebSockets.Conn.ReadFrame | internal/web/client_ws.go:475-530 | reading step by step accepts and leaves what the specification says |
| WebSockets.Conn.ReadMessage | internal/web/client_ws.go:475-548 | the loop over frames returns the next message and writes the pongs due before it |
| WebSockets.SimpleWebSocket.SendFrame | clients/java/src/com/r0rpc/client/SimpleWebSocket.java:181-218 | written byte by byte, a frame is the masked layout in the shortest form; a closed socket writes nothing |
| WebSockets.SimpleWebSocket.ReadFully | clients/java/src/com/r0rpc/client/SimpleWebSocket.java:267-278 | however the stream splits its bytes, exactly the bytes asked for are read, or an error at its end |
| WebSockets.SimpleWebSocket.ReadLongLength | clients/java/src/com/r0rpc/client/SimpleWebSocket.java:234-243 | eight shifts on a signed `long` and a cast to `int` give the length the specification gives |
| WebSockets.SimpleWebSocket.ReadFrame | clients/java/src/com/r0rpc/client/SimpleWebSocket.java:220-257 | reading step by step gives the frame, the clean end, the I/O error or the negative-size error that the specification gives |
| WebSockets.SimpleWebSocket.Close | clients/java/src/com/r0rpc/client/SimpleWebSocket.java:302-323 | the first close sends one close frame, later ones nothing |
| WebSockets.SimpleWebSocket.ReadText | clients/java/src/com/r0rpc/client/SimpleWebSocket.java:139-167 | the loop returns the next text, or null, or fails, with the pongs due written and the socket closed exactly after a close frame or an I/O error |
| Metrics.BatchIsSequential | internal/app/persist_batch.go:80-97 | for every order of the deltas, a batch leaves the rows of the one-by-one path exactly if each row touched has, or gets, a latency of 0 or more |
| MetricCounts.RunCounts | internal/store/store.go:431-534 | over any list of finished calls a row grows by the numbers of its calls with status "success", "timeout" and neither, by the sum of their latencies, and its maximum to the largest |
| Metrics.AgreeAt | internal/app/persist_batch.go:27-42 | all counters but the maximum agree in any case, and the maximum exactly under that condition |
| Metrics.NonNegativeBatch | internal/store/store.go:431-534 | with non-negative latencies the rows are the same |
| Metrics.NegativeLatencyDiffers | internal/store/store.go:507-509 | one negative latency on an empty table tells the paths apart |
| Metrics.SplitBatches | internal/app/app.go:637-649 | two batches, each in its own order, leave the rows of all their events one by one exactly if each row touched has, or gets, a latency of 0 or more |
| Metrics.UpsertAllConcat | internal/store/store.go:605-731 | splitting rows into statements changes nothing |
| Requests.CompletingTwice | internal/store/store.go:408-429 | a second completion of a request moves its finishing time and nothing else |
| Requests.CreatingTwice | internal/store/store.go:391-406 | a second create of the same item changes nothing |
| Requests.LateCreateKeepsCompletion | internal/store/store.go:391-406 | a create after a completion keeps status, code, latency, response, error and finishing time |
| Requests.CreateAndCompleteCommute | internal/store/store.go:391-429 | create and completion of a request change places exactly if their five merged columns are compatible |
| Requests.OtherRequestsCommute | internal/store/store.go:391-429 | upserts of different requests change places |
| RequestOrder.CreatesFirstExactly | internal/app/persist_batch.go:56-107 | all creates first and all completions after leave the log of the given order exactly if, in each merged column of each request, the last value is also the last one when creates go first |
| RequestOrder.LateCreateOverwrites | internal/store/store.go:391-429 | a completion and a later create with another group do not meet that condition |
| Requests.TimesAreInvisible | internal/store/store.go:413-425 | apart from finishing times the log does not depend on when statements ran |
| PersistBatch.BatchRefinesSequential | internal/app/persist_batch.go:44-128 | the three tables after a batch are those after its tasks one at a time if and only if no create overwrites a completion's value and each metric row touched has, or gets, a latency of 0 or more |
| PersistBatch.PlainBatchesAgree | internal/app/persist_batch.go:44-128 | conditions on the tasks alone, whatever is stored, under which they agree: no negative latency for the metrics, compatible late creates for the log |
| PersistBatch.LogAgreesExactly | internal/app/persist_batch.go:56-107 | the exact condition for the request log |
| PersistBatch.LateCreateIsOverruled | internal/app/persist_batch.go:56-107 | batches of two tasks whose log differs from that of the tasks one at a time, whatever was stored |
| PersistBatch.RpcRowsAgreeExactly | internal/app/persist_batch.go:80-88 | the exact condition for the RPC table, negative latencies included |
| PersistBatch.DeviceRowsAgreeExactly | internal/app/persist_batch.go:89-97 | the exact condition for the device table |
| PersistBatch.TasksByTable | internal/app/app.go:663-705 | tasks one at a time act on the three tables independently |
| PersistBatch.UnknownKindStops | internal/app/persist_batch.go:44-80 | a batch that meets an unknown kind has written exactly the creates before it |
| PersistBatch.TimesDoNotMatter | internal/store/store.go:413-425 | the tables apart from finishing times do not depend on clock readings |
| PersistStore.IncrementMetricsBatch | internal/store/store.go:605-731 | statements of at most 256 rows leave what one left-to-right fold leaves |
| PersistStore.CompleteRequests | internal/store/store.go:536-603 | statements of at most 128 rows leave what one left-to-right fold leaves |
| PersistStore.Delta.AddTotals | internal/store/store.go:501-534 | link: five sums and a maximum, in place |
| PersistStore.AccumulateMetric | internal/app/persist_batch.go:27-42 | one call adds exactly one outcome |
| PersistStore.AddTo | internal/app/persist_batch.go:80-97 | the delta of a key is found or made, and no other delta changes |
| PersistStore.ItemsOf | internal/app/persist_batch.go:109-112 | every delta is visited once, in an arbitrary order |
| PersistStore.Store.RunPersistTask | internal/app/app.go:663-705 | one task changes one table; an unknown kind is an error that writes nothing |
| PersistStore.Store.RunPersistBatch | internal/app/persist_batch.go:44-128 | a batch writes what the specification of a batch writes, or fails at its first unknown kind with the creates before it written |
| PersistQueue.App.EnqueuePersist | internal/app/app.go:609-628 | a task goes to the channel, or to a goroutine of its own exactly if the channel is full |
| PersistQueue.App.InvokeRpc | internal/app/app.go:324-415 | a call enqueues exactly the tasks specified for its outcome, in order |
| PersistQueue.App.NextBatch | internal/app/app.go:637-648 | a worker takes the front of the channel, at most 256 tasks, and fewer only if it empties it |
| PersistQueue.EnqueueConserves | internal/app/app.go:609-628 | enqueueing loses and doubles nothing and respects the capacity |
| PersistQueue.ChannelFillsFirst | internal/app/app.go:609-628 | the channel is filled first, in order, and only what finds it full overflows |
| PersistQueue.NextBatchIsARun | internal/app/app.go:637-648 | draining a batch is a run of the pipeline's moves |
| Pipeline.StepConserves | internal/app/app.go:609-661 | every move keeps the balance: each emitted task has been given to each table once or is still on its way, once |
| PipelineTables.StepFollows | internal/app/app.go:609-661 | after every move the tables are those of the tasks given to them one at a time |
| PipelineTables.BatchKeepsCounters | internal/app/persist_batch.go:44-128 | a batch adds the counters of its events whatever the latencies |
| PipelineRuns.EmitsOneOfEach | internal/app/app.go:324-415 | a call past the group check emits one completion, one RPC metric and, exactly if a client is known, one device metric, all alike in client, group, status and latency |
| CallRows.TasksOfCall | internal/app/app.go:324-415 | the completion and the metrics carry "no_client"/502, "rejected"/429 or "timeout"/504 by the hub's error, or the reply's status and code with "success" and 200 for missing ones, and the call's texts, client, group and latency |
| PipelineRuns.QuietTablesAreSequential | internal/app/app.go:609-661 | once nothing is on its way, the metric tables are those of all calls one at a time, in the order of the calls |
| PipelineRuns.TotalsCountCalls | internal/app/app.go:324-415 | the totals of all RPC rows have grown by the number of calls past the group check |
| PipelineRuns.RowsStayInBalance | internal/app/persist_batch.go:27-42 | in every reachable state each row's total is success plus failed plus timeout |
| PipelineRuns.QuietLogIsComplete | internal/app/app.go:386-394 | once nothing is on its way, the row of every call past the group check holds its completion, if request IDs are fresh |
| CallRows.QuietRowOfCall | internal/app/app.go:386-394 | once nothing is on its way, the row of a call holds that status and code, its latency, error and response, and its request, client, group and action over what was there |
| CallRows.CreatedRow | internal/store/store.go:391-406 | a create of a new request stores its columns, without finishing time, response, latency and error |
| CallRows.Spaces | internal/store/store.go:1292-1297 | the white space of which a text is stored as NULL is that of Unicode |
| CallCounts.QuietCounts | internal/app/persist_batch.go:27-42 | once nothing is on its way, each row of both metric tables has grown by the number of its calls that succeeded, timed out and failed otherwise, and by their latencies |
| LogRows.QuietRows | internal/app/app.go:386-394 | once nothing is on its way, rows of other requests are those before the run, finishing time included, and each call past the group check has a row that finished at a time when the log was written |
| LogRows.RowsFollow | internal/store/store.go:408-429 | the same in every reachable state for the completions that were given to the log so far |
| PipelineDrain.CanAlwaysDrain | internal/app/app.go:609-661 | every run with a worker can go on, without a new call, until nothing is on its way |
| Base64.EncodeBytes | clients/java/src/com/r0rpc/client/Base64Util.java:9-26 | bytes taken three at a time give the groups of section 4 of RFC 4648, padded |
| Base64.DecodeUndoesEncode | clients/java/src/com/r0rpc/client/Base64Util.java:9-26 | a decoder of RFC 4648 gets the bytes back |
| Base64.EncodedLength | clients/java/src/com/r0rpc/client/RelayClient.java:514-514 | the text is exactly as long as `wireSize` predicts |
| Base64.AlphabetIsTable1 | clients/java/src/com/r0rpc/client/Base64Util.java:4-7 | the alphabet is that of table 1 of RFC 4648 |
| Base64.GroupIsANumber | clients/java/src/com/r0rpc/client/Base64Util.java:9-26 | the four digits of a group and its three bytes are the same number |
| Base64.TestVectors | clients/java/src/com/r0rpc/client/Base64Util.java:9-26 | test vectors of section 10 of RFC 4648 |
| Base64.DecodesExactly | internal/web/payload_codec.go:44-47 | the decoder takes exactly full groups of digits with at most two signs of padding at the end |
| Envelope.EncodePayload | clients/java/src/com/r0rpc/client/RelayClient.java:506-519 | link: the branch taken and the text sent are those specified |
| Envelope.CompressedIfShorter | clients/java/src/com/r0rpc/client/RelayClient.java:506-519 | a payload is compressed exactly if it is large and its Base64 text is strictly shorter |
| Envelope.QuotesAreNotCounted | clients/java/src/com/r0rpc/client/RelayClient.java:514-517 | when, and by how much, the compressed payload is longer than the plain one |
| Envelope.JobResult.Normalize | internal/web/payload_codec.go:17-37 | link: both fields are overwritten together, and an error leaves them alone |
| Envelope.EnvelopeRoundTrip | internal/web/payload_codec.go:17-65 | the server recovers the bytes of a payload exactly if it went uncompressed, or all its control characters have a short escape and all its numbers are finite, and otherwise reports an error |
| Envelope.ControlIsRefused | internal/web/payload_codec.go:60-64 | a long string that starts with the control character 1 is refused whenever gzip makes it short enough to be compressed |
| Envelope.SomeLibraryIsLawful | internal/web/payload_codec.go:39-65 | the laws that the round trip assumes can be met, with a gzip that shortens any given text |
| JsonAlike.SameBytesSameAnswer | internal/web/payload_codec.go:60-64 | texts with the same UTF-8 bytes are JSON together, so that `json.Valid` on bytes can agree with all texts |
| Utf8.DecodeUndoesEncode | clients/java/src/com/r0rpc/client/RelayClient.java:509-509 | decoding the UTF-8 bytes of a text gives it back, with a question mark for each lone surrogate |
| Envelope.NormalizeIsIdempotent | internal/web/payload_codec.go:17-37 | normalising twice is normalising once |
| Envelope.EncodingDecides | internal/web/payload_codec.go:21-36 | no encoding leaves the payload, the known one decodes it, with white space around it, and any other is an error |
| Envelope.TrimTextExactly | internal/web/payload_codec.go:21-21 | ASCII white space goes from both ends of the encoding, and nothing else |
| Envelope.PlainIsTrimmed | internal/web/payload_codec.go:56-64 | white space around the decoded payload goes, nothing stands for an empty object, and what is not JSON is an error |
| Envelope.BreaksAreSkipped | internal/web/payload_codec.go:44-47 | returns and line feeds in the Base64 text are skipped wherever they stand |
| Utf8.Examples | clients/java/src/com/r0rpc/client/RelayClient.java:509-509 | the examples of section 7 of RFC 3629, and a lone surrogate |
| Connections.ClientSessions.ReplaceBinding | internal/web/client_ws.go:60-73 | a new connection gets the next number, becomes current, and learns which one to cancel |
| Connections.ClientSessions.ClearIfCurrent | internal/web/client_ws.go:75-84 | the binding goes exactly if it is that of this connection |
| Connections.IdsGrow | internal/web/client_ws.go:60-73 | connection numbers strictly increase over any run |
| Connections.NumbersAreCounts | internal/web/client_ws.go:60-73 | the n-th connection gets the number n |
| Connections.SupersededNeverClears | internal/web/client_ws.go:75-84 | after the client's next connection, or its own clear, a connection clears nothing, whatever happens |
| Connections.StaysCurrent | internal/web/client_ws.go:75-84 | nothing else ends a binding |
| Presence.PresenceCache.ShouldFlush | internal/app/app.go:552-561 | a flush is let through exactly if there is no entry or it is an interval old, and then recorded |
| Presence.PresenceCache.MarkFlushed | internal/app/app.go:563-567 | link: the entry is set unconditionally |
| Presence.PresenceCache.ResetFlush | internal/app/app.go:569-573 | link: the entry goes |
| Presence.PresenceCache.CleanupCache | internal/app/app.go:598-607 | exactly the entries older than the grace period and two intervals go |
| Presence.FlushesAreSpaced | internal/app/app.go:552-607 | without reset or mark, accepted flushes of a client are at least one interval apart, cleanups included |
| Presence.SpacedExactlyIfFresh | internal/app/app.go:552-607 | that holds for every run exactly if clock readings lag by no more than the bound |
| Presence.FlushedExactlyIfDue | internal/app/app.go:552-561 | without reset or mark, and with readings within the bound, a flush is let through exactly if it is the first or comes an interval after the last one |
| Presence.MarkAndReset | internal/app/app.go:563-573 | a mark counts like a flush at its time, a reset like none, and neither concerns other clients |

## Left out

- HTTP handlers, the WebSocket handshake, sockets, deadlines on sockets, JWT, bcrypt, SHA-1 and Redis: input, output or library calls.
- The SQL engine: indexes, schema bootstrap, listing and trend queries, retention and trimming of old rows. Only the upserts are modelled, as functions on maps; MySQL's case-insensitive, space-padding collation, column widths and ENUM checks are not.
- Failing store calls, transactions that roll back, and the one-by-one fallback after a failed batch. Tables are compared on runs without store failures.
- Shutting the workers down: tasks still in the channel are then lost.
- Liveness: that every queued job is served, that every slot comes back, that every parked consumer wakes.
- `OnlineClients`, `Session`, login, group management, the browser pages, the other clients, the example scripts and configuration loading: easy members or other systems.
- Nil jobs in a queue, and the aliasing of the slice that `pruneExpiredLocked` filters in place; a queue is a sequence field.
- An uncompressed payload is part of the result message as it was printed; how the server decodes that message is left out.
- The statements of one batch share one NOW(), and so do tasks that are compared one at a time; only finishing times depend on it (`PersistBatch.TimesDoNotMatter`).
- `pickSession` reads queue lengths from atomic counters without the queues' locks; in the model one step reads them all at once.
- Every lock-held section reads the clock at most once in the model. `Push` and `Requeue` may use an older reading.
- Wrap-around of 64-bit counters (metric totals, connection numbers, generations), and of the `int` in `wireSize` for compressed payloads above 1.5 GiB.
- Doubles in MiniJson are known by their text only; which texts `Double.valueOf` accepts is a parameter, assumed to hold all numbers of RFC 8259. Map keys that are not strings, objects of other classes, and non-ASCII digits in `Integer.parseInt` are not modelled.
- UTF-8 and UTF-16 conversion of texts on the WebSocket and in the server; white space outside ASCII in `bytes.TrimSpace` and `strings.TrimSpace` of the payload codec.
- gzip, `json.Valid` and reading a JSON string in Go are parameters of the envelope; the round trip assumes that gunzip undoes gzip, that a JSON string without escapes is read as it stands, and that `json.Valid` follows RFC 8259, whose grammar is the model's own. Go's limit of 10,000 nested values and the depth of Java's stack are not modelled.
- Running out of memory for large frames, failing writes to a stream, and the write lock of the client. The masking keys of a run are a given list.
- The texts that `buildStoredInvokeRequest` and `buildStoredInvokeResponse` make are inputs of a call.
