# Verified models of the benchmark tools

Dafny models of the parts of this repository whose correctness is hardest to see from the code, with proofs.
`dafny verify dfyconfig.toml` checks the whole project.

**Packet captures** (`Transactions`, `TransactionHandler`, `Capture`, `CaptureRefinement`, `CaptureExactness`,
`CaptureTiming`, `CaptureReplay`, `LatencyReport`). The tcpdump parser rebuilds database transactions with two
indexes kept by hand: sessions own transactions, and HTTP/2 streams point at them. `TransactionHandler` models the
handler twice: as `Tracker`, a class with maps of object references and one method per message, and as operations on
a value `Handler<R>` over storage addresses, in which freed storage is missing from `heap` and its use is a `Fault`.
Each method is proved to do what its operation says. `Capture` is the reference: one map from sessions to exchanges,
and a search through all sessions for the owner of a response. On every disciplined capture the handler refines it.
The discipline, stated in `Capture.Disciplined`, is:

- a begin either repeats its own unanswered stream or comes while its session has no unanswered request;
- a recorded request has a real stream that is not in flight in any session (section 5.1.1 of RFC 7540) and a
  positive time;
- requests have a session.

The discipline is exact: a capture keeps the indexes coherent if and only if it is disciplined
(`CaptureExactness.DisciplinedExactly`). Where a law does not need it, it is stated without: the books of constructed
and dropped transactions on every capture that runs, and the times of transactions under any clock, both with the
exact condition under which they are what they are called. Times are unsigned 64-bit and wrap. The printout of the
whole tool is tied to the finished histories of the reference reading.

**HTTP/2 framing** (`Http2Framing`). The loop over frames against a serializer for section 4.1 of RFC 7540, on whole,
truncated and arbitrary payloads.

**gRPC ping server** (`GrpcPing`, `GrpcPingSafety`, `GrpcPingProgress`, `GrpcPingProtocol`, `GrpcPingCalls`). Call
objects, operations pending on completion queues and workers as a step system, so that every interleaving of workers
and start-up is a run. Workers are inside `Proceed` over several steps: creating the successor, setting the status and
issuing the operation are separate. Safety holds for all events. That no call is left behind needs accepts and
finishes of streams to come back ok, and `AttendedExactly` says that this is the only need. `GrpcPingProtocol` says
which operation follows which event, and that a stream none of whose events failed is never finished. `GrpcPingCalls`
has the call data as objects with their status fields, the worker loop and the start-up loops, each tied to the steps.

**YCSB logs** (`YcsbLog`, `YcsbParser`). The line-driven parser against a block-by-block reading of every log, well
formed or not, including the list of results that each recorded total shares with the parser. That list goes on
growing after the total is recorded; `ListsMatchExactly` says when it does. `YcsbParser` has it as a shared object.

**Results and load** (`Histogram`, `RunPlan`, `ResultNames`, `MedianRuns`, `Warehouses`, `HostSplits`). Histogram
buckets and percentiles, the shuffled run plan, result file names, median runs, TPC-C warehouse ranges and shard
keys, and how installers share cores, memory and disks.

`Ordering` holds sorting, sums and string order; `Options` the option datatype.

Where code and text differ the model follows the code. The comment at tpcc/ydb-tpcc-tcpdump-parse/client.cpp:554
takes a session without an indexed begin stream to be idle; `BeginWhileWaitingFaults` shows that it need not be.
`handle_response` (line 633) goes on after counting an unindexed stream as skipped, which would dereference the end of
the index; its only caller has checked the stream. `Endpoint.Empty` looks at the first address byte only, as the code
does.

## Model

| member | source | states |
|---|---|---|
| Transactions.TransactionState.constructor | tpcc/ydb-tpcc-tcpdump-parse/client.cpp:210-219 | a new transaction has its first request in flight on the given stream and nothing else recorded |
| Transactions.TransactionState.SetTransactionId | tpcc/ydb-tpcc-tcpdump-parse/client.cpp:221-228 | a second, different id is an exception; otherwise the id is kept |
| Transactions.TransactionState.StartRequest | tpcc/ydb-tpcc-tcpdump-parse/client.cpp:246-263 | another session's request, or a request while one is in flight, is an exception; otherwise stream and start time are recorded |
| Transactions.TransactionState.StartCommit | tpcc/ydb-tpcc-tcpdump-parse/client.cpp:290-296 | a started request marked as the commit; not marked when starting it threw |
| Transactions.TransactionState.FinishRequest | tpcc/ydb-tpcc-tcpdump-parse/client.cpp:265-288 | only the stream in flight can be finished, once; the latency, zero for a clock that went back, is appended and the request cleared |
| Transactions.TransactionState.FinishTransaction | tpcc/ydb-tpcc-tcpdump-parse/client.cpp:302-318 | the last request is finished, the end time set, and all latencies are summed modulo 2^64 into the server time |
| Transactions.TransactionState.TotalTimeUs | tpcc/ydb-tpcc-tcpdump-parse/client.cpp:320-322 | the unsigned time that added to the start, around 2^64 if need be, gives the end |
| Transactions.TransactionState.ClientTimeUs | tpcc/ydb-tpcc-tcpdump-parse/client.cpp:328-330 | the unsigned time that added to start and server time gives the end |
| Transactions.StartsExactly | tpcc/ydb-tpcc-tcpdump-parse/client.cpp:246-263 | a request, or a commit, can be started exactly by the session's own when none is in flight; which exception says why not; the commit is marked and otherwise the same |
| Transactions.StartThenFinish | tpcc/ydb-tpcc-tcpdump-parse/client.cpp:246-288 | a started request is finished on its own real stream and no other, at a positive start time, and leaves one more latency and nothing in flight |
| Transactions.FirstIdKept | tpcc/ydb-tpcc-tcpdump-parse/client.cpp:221-228 | the first id can be given again, and no other |
| Transactions.FinishesExactly | tpcc/ydb-tpcc-tcpdump-parse/client.cpp:302-318 | only an opened transaction whose request can be finished is finished, with that request's latency |
| Transactions.EmptyExactly | tpcc/ydb-tpcc-tcpdump-parse/client.cpp:72-153 | a stream id counts as none when port, number and first address byte are zero, whatever the other bytes |
| TransactionHandler.Tracker.constructor | tpcc/ydb-tpcc-tcpdump-parse/client.cpp:383-385 | an empty handler: no transactions, all counters zero |
| TransactionHandler.Classify | tpcc/ydb-tpcc-tcpdump-parse/client.cpp:844-889 | a response exactly when the bytes look like neither request, a commit exactly when they look like one and not like a query; requests carry the sender's stream and a nonempty session, responses the receiver's stream |
| TransactionHandler.QueryEvents | tpcc/ydb-tpcc-tcpdump-parse/client.cpp:387-419 | what a query is taken for: a begin of its own session exactly when its selector begins a transaction and the filter is absent or accepts it, a request with its own session and id exactly when the selector gives an id, skipped for another selector or a rejected begin, nothing without a selector |
| TransactionHandler.OtherEvents | tpcc/ydb-tpcc-tcpdump-parse/client.cpp:859-889 | anything else is a commit with its own session and transaction when it has both, and otherwise a response with what it decodes to |
| TransactionHandler.Tracker.StartTransaction | tpcc/ydb-tpcc-tcpdump-parse/client.cpp:543-566 | a begin on an indexed stream constructs nothing and drops stream and session; otherwise an idle old transaction of the session is freed and counted aborted, and the new one is in both indexes |
| TransactionHandler.Tracker.SearchStream | tpcc/ydb-tpcc-tcpdump-parse/client.cpp:604-609 | on any index the loop comes to a stream that leads to the transaction, or to the empty one when none does |
| TransactionHandler.Tracker.HandleRequest | tpcc/ydb-tpcc-tcpdump-parse/client.cpp:568-631 | all branches on any index, with what an exception leaves: empty session, unknown session, request still unanswered (dropped as mismatch), transaction id mismatch (dropped with the stream found), request or commit started and indexed |
| TransactionHandler.Tracker.HandleResponse | tpcc/ydb-tpcc-tcpdump-parse/client.cpp:633-643 | the indexed transaction finishes its request and the stream leaves the index |
| TransactionHandler.Tracker.HandleCommitResponse | tpcc/ydb-tpcc-tcpdump-parse/client.cpp:645-666 | the indexed transaction is finished, leaves both indexes and is appended to the finished list |
| TransactionHandler.Tracker.TryHandleDataQueryResponse | tpcc/ydb-tpcc-tcpdump-parse/client.cpp:421-437 | takes the message exactly when the stream is indexed and its transaction is not committing |
| TransactionHandler.Tracker.TryHandleCommitResponse | tpcc/ydb-tpcc-tcpdump-parse/client.cpp:447-463 | takes the message exactly when the stream is indexed and its transaction is committing |
| TransactionHandler.Tracker.HandleDataQueryRequest | tpcc/ydb-tpcc-tcpdump-parse/client.cpp:387-419 | the query has exactly the effect of the event that QueryEvents says it is |
| TransactionHandler.Tracker.HandleGrpc | tpcc/ydb-tpcc-tcpdump-parse/client.cpp:828-890 | one decoded payload has exactly the effect of its event; with real streams an anchored stream index, each live entry waiting on the very stream that leads to it, stays so |
| TransactionHandler.SearchMatters | tpcc/ydb-tpcc-tcpdump-parse/client.cpp:603-615 | whether an event faults does not depend on what the search finds, and on an anchored index nothing does |
| TransactionHandler.ReactAnchored | tpcc/ydb-tpcc-tcpdump-parse/client.cpp:568-666 | every request and response keeps the stream index anchored |
| TransactionHandler.BeginAnchored | tpcc/ydb-tpcc-tcpdump-parse/client.cpp:543-566 | every begin keeps the stream index anchored |
| TransactionHandler.Tracker.SortFinished | tpcc/ydb-tpcc-tcpdump-parse/client.cpp:466-469 | the finished list is permuted into order of total time |
| TransactionHandler.SortedPairs | tpcc/ydb-tpcc-tcpdump-parse/client.cpp:466-469 | sorting references by the times they lead to permutes them and orders the times |
| TransactionHandler.Tracker.CalculateResults | tpcc/ydb-tpcc-tcpdump-parse/client.cpp:465-487 | the three lists are the sorted times of the finished transactions, after whatever they held before |
| TransactionHandler.Tracker.Print | tpcc/ydb-tpcc-tcpdump-parse/client.cpp:489-540 | the counters, four percentile blocks with every index in range, and the slowest transactions from the end of the list, as many as asked for |
| LatencyReport.Percentiles | tpcc/ydb-tpcc-tcpdump-parse/client.cpp:502-530 | each of the four percentile indexes is in range and its element is printed |
| LatencyReport.PercentileRank | tpcc/ydb-tpcc-tcpdump-parse/client.cpp:502-530 | the element printed for p is at index floor(n * p), at least as large as all before it and at most as large as all after it |
| LatencyReport.FourPercentiles | tpcc/ydb-tpcc-tcpdump-parse/client.cpp:502-530 | by whole numbers: the elements at n / 2, 9n / 10, 95n / 100 and 99n / 100 |
| LatencyReport.ReportConserves | tpcc/ydb-tpcc-tcpdump-parse/client.cpp:465-487 | through the sorts, summed client plus summed server times equal summed total times, and summed request latencies equal summed server times |
| LatencyReport.QueryCount | tpcc/ydb-tpcc-tcpdump-parse/client.cpp:479-484 | the per-request list has at least two entries for each transaction |
| LatencyReport.ListsPermuted | tpcc/ydb-tpcc-tcpdump-parse/client.cpp:465-487 | the sorted lists depend only on which transactions have finished, not on their order |
| LatencyReport.TotalsSorted | tpcc/ydb-tpcc-tcpdump-parse/client.cpp:466-469 | transactions by total time give the sorted total times |
| Capture.StepShaped | tpcc/ydb-tpcc-tcpdump-parse/client.cpp:543-666 | every disciplined event keeps the shape of the reference reading: streams in flight are not shared, active histories hold answered queries, finished ones end with their only commit after at least one other exchange |
| Capture.RunShaped | tpcc/ydb-tpcc-tcpdump-parse/client.cpp:543-666 | the shape holds after every disciplined capture |
| Capture.StepConserves | tpcc/ydb-tpcc-tcpdump-parse/client.cpp:543-666 | any event keeps the books of the reference machine balanced; the handler's own books are the matter of BooksBalanceExactly |
| Capture.RunConserves | tpcc/ydb-tpcc-tcpdump-parse/client.cpp:543-666 | the books of the reference machine, not of the handler, balance after any capture |
| CaptureRefinement.InitRefines | tpcc/ydb-tpcc-tcpdump-parse/client.cpp:668-680 | the empty handler records the empty reading |
| CaptureRefinement.BeginRefines | tpcc/ydb-tpcc-tcpdump-parse/client.cpp:543-566 | a disciplined begin changes both indexes, the stored transactions and the counters as the reference machine, with one map and no pointers, says |
| CaptureRefinement.RequestRefines | tpcc/ydb-tpcc-tcpdump-parse/client.cpp:568-631 | the same for a disciplined query or commit request |
| CaptureRefinement.ResponseRefines | tpcc/ydb-tpcc-tcpdump-parse/client.cpp:421-463 | the same for any response, whose owner the reference machine finds by looking through all sessions |
| CaptureRefinement.StepRefines | tpcc/ydb-tpcc-tcpdump-parse/client.cpp:543-666 | every disciplined event succeeds and keeps the refinement, wherever new storage is allocated |
| CaptureRefinement.RunRefines | tpcc/ydb-tpcc-tcpdump-parse/client.cpp:543-666 | every disciplined capture runs without exception or use of freed storage, and ends with the finished list and counters of the reference reading |
| CaptureExactness.RefinesCoherent | tpcc/ydb-tpcc-tcpdump-parse/client.cpp:668-680 | then stream k leads to t exactly when t is its session's active transaction and waits on k; a committing one has a request in flight |
| CaptureExactness.SearchFindsNothing | tpcc/ydb-tpcc-tcpdump-parse/client.cpp:603-615 | with coherent indexes the search after a transaction id mismatch comes to the empty stream and nothing else |
| CaptureExactness.DisciplineIsExact | tpcc/ydb-tpcc-tcpdump-parse/client.cpp:543-631 | from a refined state, the next event keeps the indexes coherent without exception or fault if and only if it is disciplined |
| CaptureExactness.DisciplinedExactly | tpcc/ydb-tpcc-tcpdump-parse/client.cpp:543-666 | a whole capture runs with coherent indexes after every event if and only if it is disciplined |
| CaptureExactness.BadBegin | tpcc/ydb-tpcc-tcpdump-parse/client.cpp:543-566 | an undisciplined begin throws, faults or breaks coherence |
| CaptureExactness.BadRequest | tpcc/ydb-tpcc-tcpdump-parse/client.cpp:568-631 | an undisciplined request throws, faults or breaks coherence |
| CaptureExactness.BeginWhileWaitingFaults | tpcc/ydb-tpcc-tcpdump-parse/client.cpp:553-559 | a begin of a session that still waits on another stream frees a transaction that the stream index keeps: the late response then uses freed storage, or throws where the new transaction got that storage. The comment here assumes this away |
| CaptureExactness.LateResponseFaults | tpcc/ydb-tpcc-tcpdump-parse/client.cpp:553-559 | such a capture of three events, from the empty handler |
| CaptureExactness.ResponseTakenOnce | tpcc/ydb-tpcc-tcpdump-parse/client.cpp:871-889 | a response on an indexed stream is taken by exactly one of the two try-handlers, and succeeds; any other by neither |
| CaptureExactness.TransactionsConserved | tpcc/ydb-tpcc-tcpdump-parse/client.cpp:543-666 | on every capture that runs, disciplined or not and wherever storage comes from: active plus finished plus aborted plus the two mismatch counters equal the transactions constructed plus the begins on an indexed stream whose session owned none |
| CaptureExactness.BooksBalanceExactly | tpcc/ydb-tpcc-tcpdump-parse/client.cpp:543-551 | so the books balance if and only if there is no such begin |
| CaptureExactness.DisciplinedConserves | tpcc/ydb-tpcc-tcpdump-parse/client.cpp:543-666 | a disciplined capture has none: constructed equal active plus finished plus dropped |
| CaptureExactness.SharedStreamBreaksConservation | tpcc/ydb-tpcc-tcpdump-parse/client.cpp:544-551 | two sessions beginning on one stream: the books are one over |
| CaptureExactness.EventsCounted | tpcc/ydb-tpcc-tcpdump-parse/client.cpp:543-666 | on every capture that runs, each of the five counters is the number of events of its kind: started or answered, foreign, aborting, contradicting the transaction shown, out of turn |
| CaptureTiming.StepInOrder | tpcc/ydb-tpcc-tcpdump-parse/client.cpp:246-318 | an event not earlier than the last keeps requests and responses of every transaction alternating in time |
| CaptureTiming.LatenciesAndGaps | tpcc/ydb-tpcc-tcpdump-parse/client.cpp:276-280 | with any clock, latencies and gaps together are the time from first request to last response and the setbacks, by which responses were stamped before their requests |
| CaptureTiming.RecordTimes | tpcc/ydb-tpcc-tcpdump-parse/client.cpp:302-330 | with any clock: client time is gaps less setbacks modulo 2^64, and exactly that if and only if the setbacks are no longer than the gaps; total and server time likewise with their exact conditions |
| CaptureTiming.FinishedTimes | tpcc/ydb-tpcc-tcpdump-parse/client.cpp:302-330 | with a clock that never steps back nothing wraps: server time is the sum of the latencies and at most total time, client time the sum of the gaps between each response and the next request |
| CaptureTiming.CaptureTimes | tpcc/ydb-tpcc-tcpdump-parse/client.cpp:302-330 | the exact times of each finished transaction of every disciplined capture, whatever its clock; each has at least two latencies |
| CaptureTiming.ClockedTimes | tpcc/ydb-tpcc-tcpdump-parse/client.cpp:302-330 | the plain times of each finished transaction when the clock never steps back |
| CaptureTiming.BackwardClockWraps | tpcc/ydb-tpcc-tcpdump-parse/client.cpp:328-330 | a disciplined capture of four events, run by the handler, whose one transaction ends with client time 2^64 - 15 |
| CaptureReplay.ProcessMessage | tpcc/ydb-tpcc-tcpdump-parse/client.cpp:828-890 | one disciplined message on the object leaves it the record of the reference reading of one more event |
| CaptureReplay.ProcessCapture | tpcc/ydb-tpcc-tcpdump-parse/client.cpp:986-990 | a disciplined capture is processed to its end, and the object then records the reference reading |
| CaptureReplay.CalculateFor | tpcc/ydb-tpcc-tcpdump-parse/client.cpp:465-487 | the finished list holds exactly the records of the finished histories, by total time, and the three lists are their sorted client, server and request times |
| CaptureReplay.ClockedReport | tpcc/ydb-tpcc-tcpdump-parse/client.cpp:465-487 | when the clock never steps back these are the spans, gaps, summed latencies and latencies of the finished histories, and their sums agree through the sorts |
| CaptureReplay.ProcessAndPrint | tpcc/ydb-tpcc-tcpdump-parse/client.cpp:986-992 | the whole tool on any disciplined capture: counters and all four percentile blocks are those of the reference reading, with the lists above |
| Http2Framing.LengthOf | tpcc/ydb-tpcc-tcpdump-parse/client.cpp:792-792 | a 24-bit length |
| Http2Framing.StreamOf | tpcc/ydb-tpcc-tcpdump-parse/client.cpp:794-795 | a 31-bit stream id: the reserved bit is masked out |
| Http2Framing.HeaderBytes | tpcc/ydb-tpcc-tcpdump-parse/client.cpp:792-795 | three bytes of length and four of stream in network order, the first bit of the stream masked out |
| Http2Framing.HeaderDecodes | tpcc/ydb-tpcc-tcpdump-parse/client.cpp:792-795 | reading a written header gives back length, type, flags and stream, whatever the reserved bit |
| Http2Framing.HeaderEncodes | tpcc/ydb-tpcc-tcpdump-parse/client.cpp:792-795 | writing what was read gives back the nine bytes |
| Http2Framing.HandleGrpc | tpcc/ydb-tpcc-tcpdump-parse/client.cpp:828-840 | a DATA payload of fewer than five bytes is dropped, otherwise handed on from the sixth byte; it reads past the captured bytes exactly when it is cut |
| Http2Framing.DeliversMessage | tpcc/ydb-tpcc-tcpdump-parse/client.cpp:828-840 | of a DATA frame that is a five-byte prefix and a message exactly the message is handed on, with the stream; of any other frame nothing |
| Http2Framing.ReadFrame | tpcc/ydb-tpcc-tcpdump-parse/client.cpp:790-823 | one turn of the loop handles the frame at the offset and moves past it |
| Http2Framing.HandleHttp2 | tpcc/ydb-tpcc-tcpdump-parse/client.cpp:778-826 | the loop with its offset and strict bound delivers what the recursive parser delivers, and ends |
| Http2Framing.SplitJoins | tpcc/ydb-tpcc-tcpdump-parse/client.cpp:786-823 | every byte string is whole frames followed by a cut one, with nothing lost |
| Http2Framing.SplitUndoes | tpcc/ydb-tpcc-tcpdump-parse/client.cpp:786-823 | splitting undoes serializing, whatever cut frame follows |
| Http2Framing.ParseMeaning | tpcc/ydb-tpcc-tcpdump-parse/client.cpp:790-823 | on every byte string the loop delivers exactly the whole DATA frames of five bytes or more, in order, and over-reads exactly when the bytes end inside such a DATA frame |
| Http2Framing.RoundTrip | tpcc/ydb-tpcc-tcpdump-parse/client.cpp:778-834 | parsing undoes serializing for every list of frames, although the loop never looks at an empty last frame |
| Http2Framing.MessagesRoundTrip | tpcc/ydb-tpcc-tcpdump-parse/client.cpp:778-840 | the k-th delivery is the message and stream of the k-th DATA frame of five bytes or more, and there are no others |
| Http2Framing.CutRoundTrip | tpcc/ydb-tpcc-tcpdump-parse/client.cpp:778-834 | a capture cut anywhere inside one more frame still delivers all whole frames |
| GrpcPingSafety.StepSafe | microbenchmarks/grpc_ping/grpc_ping_server.cpp:97-213 | no action of any thread runs a deleted call, and each keeps the safety properties, whatever the events report |
| GrpcPingSafety.RunSafe | microbenchmarks/grpc_ping/grpc_ping_server.cpp:97-213 | in every run a live call has at most one operation outstanding or one worker inside, never both; its kind is determined by the status; nothing refers to a deleted call |
| GrpcPingSafety.WritesAnswerReads | microbenchmarks/grpc_ping/grpc_ping_server.cpp:160-170 | on every call that no worker is inside, writes issued equal reads that came back ok |
| GrpcPingProgress.StepAttends | microbenchmarks/grpc_ping/grpc_ping_server.cpp:106-183 | no other action than a stranding one leaves a live call without operation and worker |
| GrpcPingProgress.StrandsExactly | microbenchmarks/grpc_ping/grpc_ping_server.cpp:178-183 | a step leaves some live call with neither if and only if it handles a streaming accept or finish that came back not ok |
| GrpcPingProgress.AttendedExactly | microbenchmarks/grpc_ping/grpc_ping_server.cpp:106-213 | a whole run leaves no live call behind at any time if and only if it takes no such step |
| GrpcPingProgress.StepHealthy | microbenchmarks/grpc_ping/grpc_ping_server.cpp:194-213 | while such events come back ok, no stranding action is ever enabled |
| GrpcPingProgress.RunAttended | microbenchmarks/grpc_ping/grpc_ping_server.cpp:106-213 | in every run in which they do, each live call has an operation outstanding or a worker inside, and the safety properties hold |
| GrpcPingProgress.RunOpen | microbenchmarks/grpc_ping/grpc_ping_server.cpp:113-119 | in every run, the calls of a kind on a queue that are not yet accepted and replaced are as many as start-up has created |
| GrpcPingProgress.OpenOrHeld | microbenchmarks/grpc_ping/grpc_ping_server.cpp:106-125 | each of them has its accept pending or a worker of its queue inside |
| GrpcPingProgress.AcceptCapacity | microbenchmarks/grpc_ping/grpc_ping_server.cpp:61-73 | in a healthy run each queue keeps, of each kind, pending accepts for all calls created at start-up but at most one a worker, and for all of them when its workers are idle |
| GrpcPingProgress.AfterStartup | microbenchmarks/grpc_ping/grpc_ping_server.cpp:67-73 | once start-up is over, callbacks_per_cq calls of each kind have been created on every queue |
| GrpcPingProgress.RejectedAcceptIsLost | microbenchmarks/grpc_ping/grpc_ping_server.cpp:204-209 | one streaming accept that comes back not ok leaves its call without operation and worker |
| GrpcPingProtocol.StreamGoesOn | microbenchmarks/grpc_ping/grpc_ping_server.cpp:159-182 | a worker that took a read that came back ok goes on to write, from a write to read, and from a failure of either to finish |
| GrpcPingProtocol.AcceptedIsReplaced | microbenchmarks/grpc_ping/grpc_ping_server.cpp:113-157 | an accepted call, and a unary one even if the accept failed, is replaced by a new call of its kind waiting on the same queue |
| GrpcPingProtocol.AcceptedGoesOn | microbenchmarks/grpc_ping/grpc_ping_server.cpp:115-162 | then a unary call is answered and a stream reads |
| GrpcPingProtocol.OperationIssued | microbenchmarks/grpc_ping/grpc_ping_server.cpp:106-183 | what the worker has come to is issued for that call on its queue |
| GrpcPingProtocol.DeletedExactly | microbenchmarks/grpc_ping/grpc_ping_server.cpp:121-123 | a call is deleted exactly when its finish has come back, for a stream only if ok |
| GrpcPingProtocol.FinishOnlyAfterFailure | microbenchmarks/grpc_ping/grpc_ping_server.cpp:178-183 | a worker comes to finish a stream exactly from a read or write of it that failed |
| GrpcPingProtocol.OkStreamGoesOn | microbenchmarks/grpc_ping/grpc_ping_server.cpp:146-176 | in every run, a stream none of whose events failed is not being finished |
| GrpcPingProtocol.OkStreamStays | microbenchmarks/grpc_ping/grpc_ping_server.cpp:146-176 | and is never deleted |
| GrpcPingCalls.ReachedServe | microbenchmarks/grpc_ping/grpc_ping_server.cpp:194-213 | one worker run without interruption always gets back to the queue, and only takes steps of the system |
| GrpcPingCalls.StreamAnswered | microbenchmarks/grpc_ping/grpc_ping_server.cpp:159-182 | before it is back at the queue a worker has answered a read by a write, a write by a read and a failure by the finish, and issued nothing else |
| GrpcPingCalls.CallData.constructor | microbenchmarks/grpc_ping/grpc_ping_server.cpp:99-104 | constructing a call is one creation step: its accept is pending and nothing else changes |
| GrpcPingCalls.CallData.Proceed | microbenchmarks/grpc_ping/grpc_ping_server.cpp:106-125 | from each status, exactly the steps of the system: accept; replace, then finish; delete |
| GrpcPingCalls.StreamCallData.constructor | microbenchmarks/grpc_ping/grpc_ping_server.cpp:138-144 | the same for a streaming call |
| GrpcPingCalls.StreamCallData.Proceed | microbenchmarks/grpc_ping/grpc_ping_server.cpp:146-176 | from each status, exactly the steps of the system: accept; replace, then read; read after a write; write after a read; delete |
| GrpcPingCalls.StreamCallData.SetStreamClosed | microbenchmarks/grpc_ping/grpc_ping_server.cpp:178-183 | finishes a stream that reads or writes, and does nothing to another |
| GrpcPingCalls.PingServer.HandleEvent | microbenchmarks/grpc_ping/grpc_ping_server.cpp:199-213 | an event is handled by the kind of its tag and its flag, and leaves a reachable state of the step system |
| GrpcPingCalls.PingServer.HandleRpcs | microbenchmarks/grpc_ping/grpc_ping_server.cpp:194-214 | the worker loop serves exactly the events that `Next` returned, one after the other, each to its end; if it stops early its queue is empty |
| GrpcPingCalls.PingServer.StartUp | microbenchmarks/grpc_ping/grpc_ping_server.cpp:67-73 | the two loops end start-up, with callbacks_per_cq accepts of each kind pending on every queue |
| YcsbLog.CalcAggregatedResult | ycsb/multinode_aggegate_result.py:156-169 | the accumulating loop yields the recursive aggregate: sums, maxima and the minimum over the instances |
| YcsbLog.AggregateOrder | ycsb/multinode_aggegate_result.py:156-169 | the aggregate depends only on the multiset of results |
| YcsbLog.AggregateSums | ycsb/multinode_aggegate_result.py:161-166 | throughput and the three counts are the sums over the instances |
| YcsbLog.AggregateBounds | ycsb/multinode_aggegate_result.py:159-168 | latency and longest time are the largest among the instances, shortest time the smallest |
| YcsbLog.TimeIsZero | ycsb/multinode_aggegate_result.py:189-191 | a total has no time exactly when no instance has taken any |
| YcsbLog.BodyMeasures | ycsb/multinode_aggegate_result.py:430-459 | lines about an instance change only the result in hand: the last count of each kind, and the largest latency |
| YcsbLog.LineSays | ycsb/multinode_aggegate_result.py:430-459 | what each kind of line says: the last count holds, run time is both longest and shortest, a latency in microseconds counts in milliseconds if it is the largest |
| YcsbLog.InstancesRun | ycsb/multinode_aggegate_result.py:422-459 | lines without header add to the current list each named instance that another host line or a done line ends |
| YcsbLog.BlockRecorded | ycsb/multinode_aggegate_result.py:411-473 | one more block, whatever its lines, records its own total if it is done and its time is not zero, and changes no other list |
| YcsbLog.EveryLogIsBlocks | ycsb/multinode_aggegate_result.py:410-420 | every log is some lines and then blocks, each a header and the lines up to the next one |
| YcsbLog.ParseIsReading | ycsb/multinode_aggegate_result.py:401-482 | the streaming parser equals the block-by-block reading, on every log: stray hosts and done lines, missing done lines and lines in front included |
| YcsbLog.TruncatedParse | ycsb/multinode_aggegate_result.py:475-482 | every log is read as if a done line closed its last block |
| YcsbLog.FinalDoneChangesNothing | ycsb/multinode_aggegate_result.py:461-482 | on any log at all, one more done line at the end changes neither totals nor lists |
| YcsbLog.OneTotalPerBlock | ycsb/multinode_aggegate_result.py:189-197 | with distinct start times, the totals are exactly one for each block that has nonzero time and is done or the last |
| YcsbLog.TotalMatchesList | ycsb/multinode_aggegate_result.py:181-187 | the list of a total holds the instances of its block, by host name, and nothing else if and only if no host line after its done line is ended; then the total is its aggregate |
| YcsbLog.NoInstances | ycsb/multinode_aggegate_result.py:422-428 | lines add no instance if and only if no named host line among them is followed by a host line, a done line or, at the end, the end of the log |
| YcsbLog.ListsMatchExactly | ycsb/multinode_aggegate_result.py:401-482 | on every log with distinct start times, the list recorded with a total is that of its instances if and only if no host line after the block's done line is ended before the next header or by the end of the log |
| Ordering.SortStable | ycsb/multinode_aggegate_result.py:187-187 | sorting by host name keeps instances of the same name in the order they came |
| YcsbParser.Parser.AddWorkload | ycsb/multinode_aggegate_result.py:178-197 | the list is sorted in place; the total, sharing the list, is recorded under its start time unless its time is zero |
| YcsbParser.Parser.ReadLine | ycsb/multinode_aggegate_result.py:410-473 | one line on the variables and shared list objects is one step of the parsing state |
| YcsbParser.Parser.Parse | ycsb/multinode_aggegate_result.py:401-482 | the loop on any log: `results` and the shared list objects are those of the parsing state |
| YcsbParser.ParserHoldsReading | ycsb/multinode_aggegate_result.py:401-482 | what a fresh parser holds after any log, list contents included, is the block-by-block reading |
| Histogram.BisectFinds | tpcc/ydb/tpcc_helper.py:1213-1213 | bisect_right gives the one bucket whose half-open range holds the value |
| Histogram.BisectSplits | tpcc/ydb/tpcc_helper.py:1213-1213 | boundaries up to the value stand before the place that bisect_right finds |
| Histogram.BumpedRepresents | tpcc/ydb/tpcc_helper.py:1212-1214 | adding a sample keeps bucket counts equal to the samples in range |
| Histogram.MergedRepresents | tpcc/ydb/tpcc_helper.py:1434-1435 | merging bucket-wise represents the union |
| Histogram.FilledRepresents | tpcc/ydb/tpcc_helper.py:1422-1435 | after any mix of adds and merges each bucket counts the samples of the union in its half-open range |
| Histogram.Aggregated.constructor | tpcc/ydb/tpcc_helper.py:1208-1210 | sorted boundaries and one more empty bucket than boundaries |
| Histogram.Aggregated.Add | tpcc/ydb/tpcc_helper.py:1212-1214 | exactly the bucket whose range holds the value grows by one, so whatever samples were represented, they and this one now are |
| Histogram.Aggregated.AddBucket | tpcc/ydb/tpcc_helper.py:1216-1217 | exactly the given bucket grows; a missing one is an error and changes nothing |
| Histogram.Aggregated.MergeBuckets | tpcc/ydb/tpcc_helper.py:1434-1435 | the loop merges bucket-wise, or fails when the other run has more buckets, after merging those that fit |
| Histogram.Aggregated.Count | tpcc/ydb/tpcc_helper.py:1219-1221 | the count of the bucket whose range holds the value |
| Histogram.Aggregated.TotalCount | tpcc/ydb/tpcc_helper.py:1223-1224 | the sum of all buckets |
| Histogram.Aggregated.Percentile | tpcc/ydb/tpcc_helper.py:1226-1233 | the first bucket at which cumulative counts reach p percent, named by a boundary; division by zero exactly when there are no samples |
| Histogram.PercentileBrackets | tpcc/ydb/tpcc_helper.py:1226-1233 | for any bucket counts of nonempty samples, that bucket contains the ceil(p * total / 100)-th smallest sample |
| Histogram.PercentileOf | tpcc/ydb/tpcc_helper.py:1226-1233 | the boundary that percentile answers locates that sample, for 0 < p <= 100 |
| RunPlan.ShufflePermutes | disk_performance/aio_vs_uring/fio_latency_aio_uring.sh:252-257 | whatever is drawn, the plan keeps its entries |
| RunPlan.DrawsDetermined | disk_performance/aio_vs_uring/fio_latency_aio_uring.sh:252-257 | for distinct entries, different draws give different orders |
| RunPlan.DrawsExist | disk_performance/aio_vs_uring/fio_latency_aio_uring.sh:252-257 | for every permutation there are draws that produce it |
| RunPlan.EveryOrderOnce | disk_performance/aio_vs_uring/fio_latency_aio_uring.sh:252-257 | each permutation of distinct entries is produced by exactly one sequence of draws j with 0 <= j <= i |
| RunPlan.ShuffleRunPlan | disk_performance/aio_vs_uring/fio_latency_aio_uring.sh:248-258 | the in-place loop computes the shuffle for the draws RANDOM % (i + 1), and permutes |
| RunPlan.DrawsInOrder | disk_performance/aio_vs_uring/fio_latency_aio_uring.sh:252-253 | the first random value serves the last position, the next the one before it |
| RunPlan.LastIsDrawnFirst | disk_performance/aio_vs_uring/fio_latency_aio_uring.sh:252-256 | so the entry at RANDOM % n of the first draw comes last |
| RunPlan.EveryOrderReachable | disk_performance/aio_vs_uring/fio_latency_aio_uring.sh:251-254 | with the 15 bits of RANDOM every order of up to 32768 distinct entries can come out |
| RunPlan.DepthsDouble | disk_performance/aio_vs_uring/fio_latency_aio_uring.sh:499-499 | the depths start with the first, each is twice the one before, and twice the last is over the limit |
| RunPlan.BuildRunPlan | disk_performance/aio_vs_uring/fio_latency_aio_uring.sh:498-505 | the three loops list every depth, mode and run exactly once, and nothing else |
| ResultNames.IntOfDecimal | disk_performance/aio_vs_uring/aggregate.py:135-137 | reading back a decimal gives the number |
| ResultNames.DecimalSpelled | disk_performance/aio_vs_uring/fio_latency_aio_uring.sh:122-122 | decimals are spelled from the highest digit on, without leading zeros |
| ResultNames.NameSpelled | disk_performance/aio_vs_uring/fio_latency_aio_uring.sh:122-122 | the spelling of a name: engine, depth, workload, run index and suffix |
| ResultNames.MatchUnique | disk_performance/aio_vs_uring/aggregate.py:29-32 | no name can be read in two ways by the pattern, whatever the engine is called |
| ResultNames.NameRoundTrip | disk_performance/aio_vs_uring/aggregate.py:130-137 | the aggregator gets back engine, depth, workload and run index from the name the runner wrote, for every nonempty single-line engine |
| ResultNames.NoRunIsRunOne | disk_performance/aio_vs_uring/aggregate.py:137-137 | a name without run index is read as that of run 1 |
| ResultNames.PlanFilesDistinct | disk_performance/aio_vs_uring/fio_latency_aio_uring.sh:122-122 | no two entries of a plan write the same file, and each is read back as its own entry |
| MedianRuns.GroupRowsByPoint | disk_performance/aio_vs_uring/aggregate.py:155-162 | the dictionary has a key for exactly the points that occur, in order of first occurrence, each with its rows in order |
| MedianRuns.Nearest | disk_performance/aio_vs_uring/aggregate.py:174-180 | the row chosen by distance from the median, then lowest run |
| MedianRuns.NearestIsMiddle | disk_performance/aio_vs_uring/aggregate.py:171-180 | a row nearest the median has the median speed in an odd group and one of the two middle speeds in an even one |
| MedianRuns.LowestMiddle | disk_performance/aio_vs_uring/aggregate.py:171-180 | of all runs at a middle speed, in an even group at either, the lowest is chosen |
| MedianRuns.PointsCompare | disk_performance/aio_vs_uring/aggregate.py:187-193 | points are ordered by engine, then depth, then workload |
| MedianRuns.PickMedianRunRows | disk_performance/aio_vs_uring/aggregate.py:165-194 | one row for each point, strictly sorted by point, each a middle run of its group with the lowest run among those as near; group sizes add up to the number of rows |
| Ordering.StringFirstDifference | disk_performance/aio_vs_uring/aggregate.py:187-193 | strings are ordered by their first different characters, and a string comes before its continuations |
| MedianRuns.SortedTable | disk_performance/aio_vs_uring/aggregate.py:187-193 | sorting the chosen rows keeps one a point and makes the order strict |
| MedianRuns.SizesAddUp | disk_performance/aio_vs_uring/aggregate.py:155-162 | every row is in exactly one group |
| Warehouses.ConfiguredExactly | tpcc/ydb/tpcc_helper.py:161-181 | every host of a run gets a configuration if and only if (N - 1) * ceil(W / N) < W |
| Warehouses.HostsAdjoin | tpcc/ydb/tpcc_helper.py:170-178 | the ranges of nodes 1 to N follow each other without gap or overlap, from 1 to W |
| Warehouses.ConfigureOutcome | tpcc/ydb/tpcc_helper.py:161-181 | an invalid node number is refused, an empty share fails the assertion, and all nodes but the last get the quotient rounded up |
| Warehouses.OneHostServes | tpcc/ydb/tpcc_helper.py:173-178 | every warehouse is served by exactly one host |
| Warehouses.TerminalsTotal | tpcc/ydb/tpcc_helper.py:179-179 | the terminals of all hosts are ten times the warehouses |
| Warehouses.EnoughWarehouses | tpcc/ydb/tpcc_helper.py:170-181 | W > (N - 1)^2 is enough for every host |
| Warehouses.SquareFails | tpcc/ydb/tpcc_helper.py:170-181 | and W = (N - 1)^2 is not: the last host's assertion fails |
| Warehouses.CalcMinParts | tpcc/ydb/tpcc_helper.py:48-49 | never fewer partitions than the default minimum |
| Warehouses.MinPartsLeast | tpcc/ydb/tpcc_helper.py:48-49 | it is the least such number whose successor times the minimal shard exceeds the warehouses |
| Warehouses.CutEvery | tpcc/ydb/tpcc_helper.py:149-157 | the loop yields exactly the keys at multiples of the step below the end |
| Warehouses.GetSplitKeys | tpcc/ydb/tpcc_helper.py:125-157 | keys for items and for warehouses, none when a shard would hold fewer than two warehouses |
| Warehouses.ShardSizes | tpcc/ydb/tpcc_helper.py:149-157 | the keys cut the range into nonempty shards, all of exactly the step except a last one that may be smaller |
| Warehouses.ShardCount | tpcc/ydb/tpcc_helper.py:149-157 | there is one key less than the quotient rounded up |
| Warehouses.KeysIncrease | tpcc/ydb/tpcc_helper.py:149-157 | keys strictly increase within the range |
| Warehouses.OneShardHolds | tpcc/ydb/tpcc_helper.py:149-157 | every warehouse or item lies in exactly one shard |
| Warehouses.HeavyShardSize | tpcc/ydb/tpcc_helper.py:138-142 | a heavy table's shard is at most 2000 MB plus one warehouse less 1 MB |
| Warehouses.LightShardExactly | tpcc/ydb/tpcc_helper.py:143-144 | a shard of a light table gets the least number of warehouses whose multiple by the minimum shard count covers all |
| Warehouses.HeavyShardExactly | tpcc/ydb/tpcc_helper.py:138-142 | a shard of a heavy table gets the smaller of that and what fits: 45, 100, 58, 833 or 1333 warehouses |
| Warehouses.StepExactly | tpcc/ydb/tpcc_helper.py:126-147 | items are cut by the greatest step of which the minimum shard count fits, but at least 100; warehouses not at all below two a shard |
| Warehouses.MinPartitionsLeast | tpcc/ydb/tpcc_helper.py:642-648 | the partition count is the least that is enough by load and more than the keys |
| Warehouses.GetSplitKeysStr | tpcc/ydb/tpcc_helper.py:638-648 | more partitions than keys, also when there are no keys |
| Warehouses.EnableSplitOnLoad | tpcc/ydb/tpcc_helper.py:670-675 | the minimum partition count is that of the one key list the table has |
| Warehouses.CommandsAgree | tpcc/ydb/tpcc_helper.py:638-675 | creating a table and enabling split by load compute the same keys and minimum partition count, for every table |
| HostSplits.SharesAddUp | db_installers/cockroach/control.py:122-154 | shares of at least one add up to the total if and only if there are as many units as instances; shares without that floor always do |
| HostSplits.SharesFall | db_installers/cockroach/control.py:122-154 | shares differ by at most one, the larger ones going first |
| HostSplits.SharesWhenFew | db_installers/cockroach/control.py:122-154 | with fewer units than instances one each is given out and the units there are on top |
| HostSplits.OneRangeHolds | db_installers/cockroach/control.py:137-151 | then every core is in exactly one range |
| HostSplits.RangesFit | db_installers/cockroach/control.py:137-151 | and the ranges end at the last core, differ by at most one in size and are not empty |
| HostSplits.RunPerDisk | db_installers/cockroach/control.py:119-154 | the loop with its three remainder counters gives instance i disk i, its own ports and its shares of cores, cache and SQL memory; no disks is a division by zero |
| HostSplits.MemorySplitExact | db_installers/cockroach/control.py:123-154 | cache and SQL memory given out equal what there is if and only if every instance can have a gigabyte |
| HostSplits.StartTservers | db_installers/yugabyte/control.py:65-77 | exactly when each check of the constructor fails, and what each tserver is started with; a single tserver without task sets uses an unbound variable |
| HostSplits.StartLoop | db_installers/yugabyte/control.py:190-236 | tserver i gets its slice of the disks, its port, and its task set or its range of cores |
| HostSplits.DisksPartitioned | db_installers/yugabyte/control.py:203-205 | with disks a multiple of tservers the slices, in order, are the mount list |
| HostSplits.RangesNonempty | db_installers/yugabyte/control.py:207-212 | no range of cores is empty if and only if there are as many cores as tservers |

## Left out

- Reading capture files and Ethernet, IP and TCP headers: foreign formats. The framing model starts from a TCP payload, the handler from decoded messages.
- Protobuf decoding: a payload says how each of the four message types decodes it. The query filter is any predicate.
- HTTP/2 padding, header compression, frames spread over TCP segments and several gRPC messages in one frame: the code does not attempt them.
- TransactionHandler.Tracker.HandleGrpc: its precondition excludes events that use freed storage, which is undefined behaviour in the code; `ProcessCapture` shows that no disciplined capture has such an event.
- TransactionHandler.Tracker.HandleRequest: a session that owns freed storage is likewise excluded.
- TransactionHandler.Tracker.Print: numbers and transactions are not formatted as text.
- LatencyReport.Percentiles: the index is computed in exact arithmetic, without the rounding of `double`.
- TransactionHandler.Tracker.SortFinished: std::sort is a stable insertion sort; which of two equal transactions comes first is therefore fixed in the model.
- Counters are unbounded, where the code has 64 bits.
- Http2Framing.HandleGrpc: reading past the captured bytes is reported and ends the loop, where the code's behaviour is undefined.
- gRPC server shutdown, destructors, message contents and the ping client: they depend on the gRPC library.
- GrpcPingCalls.PingServer.HandleRpcs: one worker handles whole events here; interleavings inside an event are runs of `GrpcPing` only.
- GrpcPingCalls.PingServer.StartUp: no worker runs during it here; in `GrpcPing` they do.
- The Go and Cockroach YCSB parsers: the first skips the header, host and done matching once it has seen the end of a run, the second repeats the Java one.
- Recognising log lines by regular expression, and timestamps beyond their order as keys: lines are a datatype.
- YcsbLog.CalcAggregatedResult: latencies are exact reals, and the warning about differing run times is not printed.
- Histogram.Aggregated.Percentile: quotients are exact reals, without rounding.
- The CSV input of the aggregator, JSON documents, and the copies of `Histogram` and `HostConfig` in the Oracle, Postgres and aggregate_results scripts: they add nothing further.
- RunPlan.BuildRunPlan: options are taken as checked; only the write workload is planned, as in the script.
- ResultNames.NameRoundTrip: `\d` is an ASCII digit and the name has no newline at its end; the runner writes neither other digits nor such a newline. The format is `json`.
- MedianRuns.PickMedianRunRows: speeds are integers and the median is kept doubled, so that the mean of two middle speeds is exact.
- Warehouses.HeavyShardSize: sizes are integers of tenths of a megabyte, where the code divides floats.
- Warehouses.GetSplitKeys: keys are numbers; the strings made of them are not modelled.
- HostSplits.StartTservers: one host, one of seven ports, and no memory ratio, which is a rounded float; `None` for the number of tservers is zero.
- Starting processes over ssh, SQL, table creation other than its partition counts, validation queries, plots and tables: plumbing.
