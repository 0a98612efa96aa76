# The fibjs native runtime in Dafny

A model of the part of fibjs that everything asynchronous stands on, and of the data structures and text codecs around
it, with proofs about every run, every interleaving and every input:

- **The continuation protocol** (`AsyncCall.h`): who may deliver and who must delete a continuation
  (`AsyncHandle.dfy`), the self-deleting state machine with its driver loop and phase lock (`AsyncState.dfy`,
  `AsyncDriver.dfy`).
- **Streams** (`AsyncStream.h`, `UVStream.h`): the start gate, the read loop's ticket, the byte queue, the write queue
  and its writer, the libuv write queue with timeouts and flush waiters (`AsyncStreamStart.dfy`,
  `AsyncStreamTicket.dfy`, `AsyncStreamRead.dfy`, `AsyncStreamWrite.dfy`, `UVStream.dfy`).
- **The handler chain** (`Chain.h`): one loop split over two threads, against the plain loop (`Chain.dfy`).
- **HTTP/2 single flight** (`HttpClient.h`, `Http2Flight.dfy`).
- **LruCache** (`LruCache.h`): a map and two intrusive lists against one list of entries (`LruCache.dfy`,
  `LruCacheRuns.dfy`).
- **DOM trees** (`XmlNodeImpl.h`, `XmlElement.h`): pointer walks and explicit stacks against recursive definitions and
  document order (`DomTree.dfy`).
- **Codecs and buffers**: percent coding and query parsing (`UriCodec.dfy`, `QueryParse.dfy`), chunked bodies
  (`ChunkedBody.dfy`), the blocked array and the string buffer (`QuickArray.dfy`, `StringBuffer.dfy`).

Protocols are transition systems: an operation is one section that the code makes atomic, a run is any sequence of
legal operations, and `Legal` says what the code around the component may do. What the code does in place is a class
whose methods carry out the same steps on its fields; each method's contract ties the new state to the step function,
and the lemmas are about the runs of that function. Fields and sequences that the source does not have (what was
posted, issued, enqueued so far) record the history that the properties are about; for each protocol a lemma
`StateIsHistory` (in `Http2Flight.dfy` `WakesFollowCalls`) ties what they and the state hold to the operations of the
run alone, by definitions that do not mention a step.

## What the code does that its comments or callers may not expect

Each of these is a lemma below, with the exact condition where there is one.

- `error()` of an `AsyncState` cannot wait: a pending answer ends the machine, also in the timeout branch of the stream
  reader (`AsyncStream.h:367-375`): `PendingErrorEndsMachine`, `VerdictLostOnlyByPendingError`.
- A wake of the read loop is lost exactly when `wake()` stores its token late: after the loop parked and looked, and
  with nobody left on the way to look again (`WakeLostIff`; `SplitWakeIsLost` is such a run).
- The start gate starts a null reader exactly when `startRecvStream` and `startConnectEvent` both read `m_state` before
  either takes its one (`StartsNullIffReadsOverlap`). The callers in the repository do not let that happen: a listener
  and the sync phase of `connect()` run on the isolate's one JS thread, where the calls do not overlap
  (`AsyncStream.h:1086-1089`), and a native `connect()` is on a socket JS code does not have yet. The gate itself does not
  check it.
- A request that `uv_write` refuses keeps its in-flight mark and is never finalized: `RefusedNeverFinalized`. libuv has
  two writes of a stream at some time exactly when one is given to it while it still has one that `abort()` took off the
  queue (`TwoHeldIff`); until then everything holds as it does without `abort()`. Otherwise the late callback submits
  the next write a second time (`AbortSubmitsTwice`).
- An owned event is deleted before its handle is emptied (`AsyncCall.h:340-347`). A destructor that uses the handle it is
  deleted through, and no other, ends in a second delete: `AbandonReentryIff`. The one adopted event of the repository,
  the ticket of `EventSource.cpp:333-367`, does not.
- A machine that leads an HTTP/2 handshake and asks for its URL again before it finishes is parked for ever, with
  everybody behind it (`LeaderBehindItself`; `WakeableIff` decides any chain of machines that wait for each other). The
  retry at `HttpClient.cpp:2249-2253` goes back to `prepare` while `m_is_h2_leader` may be set.
- `qisxdigit` accepts 'G' to 'Z' (`qstring.h:38-41`), so `%UXXXX` is not read as `%uXXXX` is, though the decoder looks for
  both: 'U' passes for the first digit of a two-digit escape (`PercentUpperU`). The cookie table writes '%' unescaped
  (`HttpCookie.cpp:270-281`), so a cookie value comes back exactly when no '%' of it starts what the decoder takes for an
  escape: `CookieSurvives`. `querystring.unescape` leaves the '+' that `querystring.escape` wrote for a space:
  `FormDecodedPlainly`.
- A chunk size is read in 64 bits and handed to `readBuffer` in 32 (`ChunkedStream.h:83`): exact below 2^63 and below
  2^31 (`SizeExactIff`, `ChunkBufferedIff`). A size of 2^64 reads as the last chunk (`WrappedSizeEndsBody`), one of 2^32
  as no data (`CutSizeEndsBody`), and from 2^31 on only part of a chunk is buffered. Every message within the limits is
  delivered exactly when one of the limits is below 2048 megabytes (`DeliversAllIff`; the defaults are); the body limit
  itself holds always (`LimitHolds`). Without a header map for trailers only the first trailer line is taken off the
  stream (`BodyDelivered`).
- `chunk_end` reads the next trailer line with the machine itself in place of a ticket (`ChunkedStream.h:115`). When the
  line comes later the machine waits without a ticket, and in the check build every post to it, dispatch or delivery, is
  reported and nothing else can happen to it: `AbandonedReported`, `AbandonedForEver`.
- `setDocument` does not enter a subtree whose root already has the document: `WholeSubtreeIff`.
- `compareDocumentPosition` of nodes of two trees answers DISCONNECTED and PRECEDING both ways round, where section 4.4
  of the WHATWG DOM Standard asks for an order that is consistent.
- `LruCache::set` on a key that is there does not restart its update timeout, however often it is called:
  `SetKeepsAge`, `SetsDoNotRefresh`. A resolver that was called before a `set` of its key and answers after it overwrites
  the value that was set: `LookupGives` says exactly when, `LateResolverWins` is such a run.

## Model

| member | source | states |
|---|---|---|
| AsyncStates.VerdictExactlyOnce | fibjs/include/AsyncCall.h:592-631 | in every run the machine is deleted at most once, exactly once when nobody can run it any more, and its verdict leaves by exactly one door: the return of the first post() or one post upstream |
| AsyncStates.NeverTouchedAfterDelete | fibjs/include/AsyncCall.h:592-631 | in every run no step of the loop, of error() or of a state function runs on a deleted machine, also when a ticket was delivered from inside a state function, and no ticket that is out names a deleted machine |
| AsyncStates.PhaseLock | fibjs/include/AsyncCall.h:541-607 | in every run epoch minus ticket is 0 or 1, it is 0 exactly while a ticket is out, and deliveries and in-place consumptions never exceed the tickets issued |
| AsyncStates.NextKeeps | fibjs/include/AsyncCall.h:529-552 | next() is reported exactly when a ticket is already out or the machine was never dispatched |
| AsyncStates.DeliverReported | fibjs/include/AsyncCall.h:752-764 | a delivery is reported exactly when no ticket is out; which value it hands over is in PooledValueArrives |
| AsyncStates.DispatchReported | fibjs/include/AsyncCall.h:581-589 | a direct dispatch is reported exactly when the machine was dispatched before and its 32-bit phase is not back at 0 |
| AsyncStates.AbandonedReported | fibjs/include/ChunkedStream.h:99-118 | whoever posts to a machine that waits without a ticket is reported |
| AsyncStates.AbandonedForEver | fibjs/include/ChunkedStream.h:99-118 | such a machine is in no run run, deleted or answered again |
| AsyncStates.WrappedDispatchPasses | fibjs/include/AsyncCall.h:581-589 | the bound on used tickets is needed: a run of 2^32 - 1 tickets lets a second dispatch pass |
| AsyncStates.VerdictLostOnlyByPendingError | fibjs/include/AsyncCall.h:608-624 | the step that deletes the machine reports its verdict once, except exactly when error() answers pending in the activation whose caller reads the return value |
| AsyncStates.PendingErrorEndsMachine | fibjs/include/AsyncStream.h:367-375 | error() answering pending deletes the machine even after it named a next state |
| AsyncStates.StateIsHistory | fibjs/include/AsyncCall.h:529-672 | every run, told by its calls alone: where each activation is and with which value, who reads its answer, which state function was named last and runs, and which value waits in the pool |
| AsyncStates.PassDecides | fibjs/include/AsyncCall.h:602-631 | every run: at the top of the loop the value posted, or answered last, goes to error() exactly when it failed, else to the function named last, and with none named it is the verdict |
| AsyncStates.ErrorDecides | fibjs/include/AsyncCall.h:608-624 | every run: so does what error() answered |
| AsyncStates.PooledValueArrives | fibjs/include/AsyncCall.h:634-672 | a value posted through the pool, whatever comes between, is the one the machine is run with, and a failure goes to error() |
| AsyncStates.StepKeeps | fibjs/include/AsyncCall.h:529-764 | every unreported step of the loop, of tickets and of dispatches keeps the invariant: one owner, one verdict, counted tickets |
| AsyncStates.RunKeeps | fibjs/include/AsyncCall.h:529-764 | so does every run |
| AsyncStates.LockTellsOutstanding | fibjs/include/AsyncCall.h:602-606 | the loop's test expect == epoch is the test for a ticket that is out |
| AsyncDrivers.LoopIsRun | fibjs/include/AsyncCall.h:592-631 | the do-while loop, whatever the functions it calls answer and whatever others do meanwhile, is a run of the transition system |
| AsyncDrivers.LoopReaches | fibjs/include/AsyncCall.h:592-631 | so everything proved of reachable machines holds when post_ returns or waits |
| AsyncDrivers.AsyncState.Drive | fibjs/include/AsyncCall.h:592-631 | the loop on the machine's fields does what those steps say, to the end of the activation; when the activation ended the machine, what it returns is the verdict that left by its door, otherwise it returns pending |
| AsyncDrivers.AsyncState.Post | fibjs/include/AsyncCall.h:581-631 | the first dispatch: reported, or the loop; what its caller reads is the recorded verdict or pending |
| AsyncDrivers.AsyncState.DeliverTicket | fibjs/include/AsyncCall.h:752-764 | a posted ticket: reported, or the loop |
| AsyncDrivers.AsyncState.Issue | fibjs/include/AsyncCall.h:529-552 | next() names the state and counts one ticket, or is reported |
| AsyncHandles.ExactlyOneDeleter | fibjs/include/AsyncCall.h:155-352 | in every state of every run an adopted event has at most one place with the delete right, is posted by it and deleted at most once, and is deleted exactly once when no place has the right; a borrowed event is never deleted |
| AsyncHandles.DeliveredAtMostOnce | fibjs/include/AsyncCall.h:279-295 | however often moved, a handle made from a pointer delivers at most once, and a delivered or dropped one sits nowhere |
| AsyncHandles.FinishAlwaysLegal | fibjs/include/AsyncCall.h:279-295 | nothing that happens inside a delivery takes the event away from the post() that is running |
| AsyncHandles.AbandonReentryIff | fibjs/include/AsyncCall.h:340-347 | what a destructor does while its handle still names the event is as good as done afterwards, and keeps the invariant, exactly when it does not use that handle |
| AsyncHandles.StepKeeps | fibjs/include/AsyncCall.h:155-352 | adopt, borrow, move, assign, post, apost and destroy keep: one place per construction, one owner per event, no event lost |
| AsyncHandles.RunKeeps | fibjs/include/AsyncCall.h:155-352 | so does every run, deliveries re-entered at will |
| AsyncHandles.StateIsHistory | fibjs/include/AsyncCall.h:155-352 | every run, told by its calls alone: which construction is in which place, with its event and its delete right, that exactly those posted were delivered and those overwritten or destroyed dropped, and which events were deleted |
| AsyncHandles.Program.MoveAssign | fibjs/include/AsyncCall.h:190-200 | the member functions called on the objects of a program do the step of the runs, here move assignment |
| AsyncHandles.Program.Post | fibjs/include/AsyncCall.h:279-295 | likewise post() up to the call of the event |
| AsyncHandles.Program.Finish | fibjs/include/AsyncCall.h:279-295 | likewise the rest of post() |
| AsyncHandles.Program.Apost | fibjs/include/AsyncCall.h:303-332 | likewise apost() |
| AsyncHandles.Program.Destroy | fibjs/include/AsyncCall.h:205-208 | likewise the destructor |
| AsyncHandles.Program.Adopt | fibjs/include/AsyncCall.h:173-179 | likewise adopt() |
| AsyncHandles.AsyncHandle.Assign | fibjs/include/AsyncCall.h:190-200 | deletes what was owned, takes over what the other named, and does nothing from itself |
| AsyncHandles.AsyncHandle.Post | fibjs/include/AsyncCall.h:279-295 | empties the handle, posts the event once, deletes it exactly when owned |
| AsyncHandles.AsyncHandle.Apost | fibjs/include/AsyncCall.h:303-332 | the task gets the name and the delete right, the handle neither; an empty handle makes no task |
| AsyncHandles.AsyncHandle.Abandon | fibjs/include/AsyncCall.h:340-347 | deletes exactly an owned event and posts nothing |
| Chains.ChainIsPlainLoop | fibjs/include/Chain.h:53-163 | at every moment of every run the handlers that ran, the message and the position are those of a plain loop, and a verdict is that loop's |
| Chains.ChainFinishesWhenPlainLoopDoes | fibjs/include/Chain.h:53-163 | whenever the plain loop ends, so does the chain: bouncing between threads cannot go on for ever |
| Chains.StepSimulates | fibjs/include/Chain.h:53-163 | one step of the chain is at most two of the plain loop, and none only while the next handler call comes closer |
| Chains.RanWhereItAgrees | fibjs/include/Chain.h:53-163 | every run: a handler that ran did so in the pool unless it asks for the JS thread, and on the JS thread unless it asks for the pool, and the chain waits exactly for a pool handler that completes later |
| Chains.AsyncInvoke.InvokeState | fibjs/include/Chain.h:53-98 | the pool state on the object's fields |
| Chains.AsyncInvoke.JsRun | fibjs/include/Chain.h:129-163 | the JS loop, any number of turns, is that many steps |
| Chains.AsyncInvoke.JsInvoked | fibjs/include/Chain.h:101-126 | the hand-back to the pool with the message of a JS exception |
| StartGates.StartsNullIffReadsOverlap | fibjs/include/AsyncStream.h:1055-1122 | over all runs, told by their calls: a null reader is started exactly when all conditions are met and one call read m_state between the other's read and its decrement; otherwise the reader is started exactly once, when the last condition is met |
| StartGates.StartedOnceWhenAllArrived | fibjs/include/AsyncStream.h:1055-1122 | in particular with the two calls on one thread: started exactly once, when the last condition is met |
| StartGates.ConcurrentCallsStartNull | fibjs/include/AsyncStream.h:1055-1112 | a run whose reads overlap, and its null start |
| StartGates.AsyncStream.StartRecvStream | fibjs/include/AsyncStream.h:1055-1079 | one whole call is the three steps, a second call nothing |
| StartGates.AsyncStream.StartConnectEvent | fibjs/include/AsyncStream.h:1081-1098 | likewise |
| StartGates.AsyncStream.OnConnected | fibjs/include/AsyncStream.h:1103-1112 | one step |
| ReaderTickets.TicketConserved | fibjs/include/AsyncStream.h:88-122 | under every interleaving, while the read loop is not processing exactly one place holds its ticket unless a resume was dropped uncommitted; while it is processing none does |
| ReaderTickets.ResumedOncePerTicket | fibjs/include/AsyncStream.h:184-236 | competing wakes never resume the loop twice for one ticket |
| ReaderTickets.WakeLostIff | fibjs/include/AsyncStream.h:186-198 | in every run of the two-step wake() a wake is lost at the end (its token, known from the calls, is pending beside a parked ticket with nobody on the way to look) exactly when some wake() stored it late and no later wake took the ticket |
| ReaderTickets.StrandedExactly | fibjs/include/AsyncStream.h:186-236 | step by step: exactly a late store loses a wake, exactly a wake that takes the ticket makes up for it |
| ReaderTickets.StrandedUntilTaken | fibjs/include/AsyncStream.h:393-410 | until then the loop stays parked |
| ReaderTickets.AtomicWakesAreNotLost | fibjs/include/AsyncStream.h:186-198 | in particular none is lost in runs where wake() is one step: once nobody is on the way and the ticket is parked, no wake of the calls is unanswered |
| ReaderTickets.SplitWakeIsLost | fibjs/include/AsyncStream.h:186-198 | a run with a late store and no wake after it |
| ReaderTickets.StepKeeps | fibjs/include/AsyncStream.h:292-410 | every step of park, wake, event, commit and drop keeps the one ticket in one place |
| ReaderTickets.RunKeeps | fibjs/include/AsyncStream.h:292-410 | so does every run |
| ReaderTickets.StateIsHistory | fibjs/include/AsyncStream.h:88-236 | every interleaving, told by its calls: where the ticket is, which token is pending, what each park() found, and which values the loop was resumed with |
| ReaderTickets.ExchangeFinds | fibjs/include/AsyncStream.h:393-410 | park() finds the token of the last wake that found no ticket, none when there was none, and leaves none pending |
| ReaderTickets.TakenIsPosted | fibjs/include/AsyncStream.h:393-410 | and posts the ticket with it while the slot still has the ticket |
| StreamBytes.Replay | fibjs/include/AsyncStream.h:272-571 | any sequence of push and read calls on the queue: what the reads returned, followed by what is queued, is what was pushed |
| StreamBytes.ReadQueue.Push | fibjs/include/AsyncStream.h:272-290 | appends, keeps the exact byte count, and says whether the high-water mark is reached |
| StreamBytes.ReadQueue.Read | fibjs/include/AsyncStream.h:489-571 | null exactly when too little is queued; otherwise exactly n bytes, or all, off the front, however chunks are split |
| StreamBytes.RoundUpPow2 | fibjs/include/AsyncStream.h:75-85 | the least power of two at or above n, less than 2n |
| StreamBytes.SmearIsRoundUp | fibjs/include/AsyncStream.h:75-85 | the cascade of shifts and ors computes it for every request up to 2^32 |
| StreamBytes.CascadeBit | fibjs/include/AsyncStream.h:75-85 | after i lines of the cascade the lowest bit collects the 2^i lowest |
| StreamWrites.CompletedOnceInOrder | fibjs/include/AsyncStream.h:873-935 | every run, told by its calls: the i-th continuation posted is that of the i-th write, once, with the i-th answer of writeBuffer, whatever it is; one machine and one write at a time, and a non-empty queue has a live writer |
| StreamWrites.BytesAreQueued | fibjs/include/AsyncStream.h:666-694 | every run: the byte count is the sum over the writes not taken, and a write is granted exactly when it leaves less than the high-water mark queued |
| StreamWrites.OneDrainPerEpisode | fibjs/include/AsyncStream.h:883-902 | every run: "drain" is decided exactly as often as a doWrite finds the queue empty with a refused write since the last time, and once per backpressure episode |
| StreamWrites.RefusedThenDrained | fibjs/include/AsyncStream.h:666-902 | every refused write is followed by a "drain", no later than the next time doWrite finds the queue empty |
| StreamWrites.StateIsHistory | fibjs/include/AsyncStream.h:666-941 | every run, told by its calls: the queue, its bytes, the answers and whether a "drain" is owed |
| StreamWrites.StepKeeps | fibjs/include/AsyncStream.h:666-941 | enqueueing, taking, failing and completing writes keep the invariant behind these |
| StreamWrites.AsyncStream.EnqueueWrite | fibjs/include/AsyncStream.h:666-694 | the lock section on the stream's fields, and its answer |
| StreamWrites.AsyncStream.DoWriteState | fibjs/include/AsyncStream.h:888-913 | retire or take the oldest write; "drain" exactly on an empty queue that owed one |
| StreamWrites.AsyncStream.WriteEnded | fibjs/include/AsyncStream.h:912-935 | the answer of writeBuffer is kept for that write, whatever it is; that its caller gets it is CompletedOnceInOrder |
| StreamWrites.AsyncStream.Done | fibjs/include/AsyncStream.h:915-935 | post the continuation with its verdict and go back for the next write |
| UVStreams.TwoHeldIff | fibjs/include/UVStream.h:259-391 | every run, with any calls of abort(): libuv has two writes at some time exactly when one was given to it while it still had another, and on an empty queue that other is one abort() took off |
| UVStreams.AbortFreeIsOrderly | fibjs/include/UVStream.h:259-391 | in particular never without abort(), and then what libuv has is the head of the queue |
| UVStreams.OneWriteInFlight | fibjs/include/UVStream.h:259-391 | every run in which no write overtakes an aborted one: libuv has exactly the head of a non-empty queue; the unfinished requests are the queued ones and the one it has; each is submitted and finalized at most once and never finalized while held |
| UVStreams.OldestInFlight | fibjs/include/UVStream.h:282-333 | every such run: the request in flight is the oldest unfinished one |
| UVStreams.PostedOnceInOrder | fibjs/include/UVStream.h:259-391 | every such run: continuations are posted once, in the order of the write calls, each with an answer, all of them by the time the queue is empty; flush waiters are woken once, in the order of their calls, and none waits on an empty queue |
| UVStreams.StepAnswers | fibjs/include/UVStream.h:259-391 | every callback of such a run answers exactly whom it should, in order, each with the status of its cause: libuv's, a refused submission's, the timeout's or the abort's |
| UVStreams.TimeoutAnswers | fibjs/include/UVStream.h:260-280 | a timer answers its request, with the timeout, exactly when nobody did before, and changes nothing else: queue, waiters and what libuv has stay |
| UVStreams.FailureAnswersAll | fibjs/include/UVStream.h:296-357 | a write that failed leaves nobody unanswered and nothing queued, everybody told that status |
| UVStreams.StateIsHistory | fibjs/include/UVStream.h:259-391 | every run: the requests are those of the calls, in order, and a timer is started exactly for a request with a timeout that was given to libuv |
| UVStreams.RefusedNeverFinalized | fibjs/include/UVStream.h:282-379 | every such run: a request neither queued nor at libuv was finalized exactly once, unless libuv refused it, and then never |
| UVStreams.StepKeeps | fibjs/include/UVStream.h:259-391 | every callback, abort() and write that overtakes nothing keeps the invariant behind these |
| UVStreams.TimeoutFindsHead | fibjs/include/UVStream.h:260-280 | a timer that fires finds its request at the head of the queue, or already posted |
| UVStreams.PostAllDrains | fibjs/include/UVStream.h:342-357 | answering everybody posts the whole queue in order, wakes every waiter and leaves nothing |
| UVStreams.AbortSafeIffIdle | fibjs/include/UVStream.h:603-617 | after abort() the next write cannot overlap one that libuv has exactly when libuv had none |
| UVStreams.AbortSubmitsTwice | fibjs/include/UVStream.h:296-333 | after abort() and another write the late callback submits that write a second time |
| UVStreams.UVStream.PostAllResult | fibjs/include/UVStream.h:342-357 | the loop on the stream's queue |
| UVStreams.UVStream.OnWrite | fibjs/include/UVStream.h:296-333 | the callback on the stream's fields, with the status libuv reports and the code a next submission gets |
| UVStreams.UVStream.InvokeWrite | fibjs/include/UVStream.h:282-294 | a new request, submitted when it is alone |
| UVStreams.UVStream.OnTimeoutHandler | fibjs/include/UVStream.h:260-280 | the timer on the stream's fields; whom it answers is TimeoutAnswers |
| UVStreams.UVStream.FlushWrites | fibjs/include/UVStream.h:530-547 | waits exactly when something is queued |
| UVStreams.UVStream.AbortWrites | fibjs/include/UVStream.h:603-617 | abort() on the stream's fields, the part for writes |
| Http2Flights.OneLeaderPerUrl | fibjs/include/HttpClient.h:321-336 | at any moment a URL has at most one leader that has not finished, and an entry exactly while it has one |
| Http2Flights.WaitersWokenInOrder | fibjs/include/HttpClient.h:340-380 | whatever comes between two posts: the waiters a leader woke are, once each and in order, a prefix of those that queued behind it, all of them when it is through, each with its outcome, none before |
| Http2Flights.WakesFollowCalls | fibjs/include/HttpClient.h:321-380 | every run, told by its calls: whoever asks for a URL with a leader queues behind it, every wake tells what its leader's h2_complete or h2_fail was called with, and the i-th post of a leader wakes the i-th behind it |
| Http2Flights.WokenAtMostOnce | fibjs/include/HttpClient.h:340-380 | nobody is woken twice, by one leader or by two |
| Http2Flights.NobodyLeftWaiting | fibjs/include/HttpClient.h:321-380 | when every leader has finished and no loop is under way, every request led or was woken |
| Http2Flights.QueuesBehindLiveLeader | fibjs/include/HttpClient.h:321-336 | a request, also one made by a waiter just woken, joins the live entry of an unfinished leader or leads |
| Http2Flights.LeaderBehindItself | fibjs/src/http/HttpClient.cpp:2249-2253 | a machine asks for a URL whose leader's machine is not parked: no continuation ever finishes that entry, wakes anybody behind it or lets the machine go on exactly when the machine leads that entry itself |
| Http2Flights.WakeableIff | fibjs/src/http/HttpClient.cpp:1535-1543 | a parked machine can still be woken exactly when the leaders it waits for lead to a machine that is not parked or a leader that is posting |
| Http2Flights.StuckForEver | fibjs/include/HttpClient.h:321-380 | machines parked behind each other's entries stay so in every run |
| Http2Flights.MakeRun | fibjs/include/HttpClient.h:321-380 | otherwise a run of finishes and posts wakes the machine |
| Http2Flights.StepKeeps | fibjs/include/HttpClient.h:321-380 | each lock section and each post keeps the invariant behind these |
| Http2Flights.DrainedWakesAll | fibjs/include/HttpClient.h:352-358 | the loop wakes its whole entry and touches no other |
| Http2Flights.H2Pending.H2Acquire | fibjs/include/HttpClient.h:321-336 | leads exactly when there is no entry, else queues at the end of it |
| Http2Flights.H2Pending.H2Finish | fibjs/include/HttpClient.h:340-380 | takes the entry out, then wakes all of it in order, each told the outcome it was called with; without an entry wakes nobody |
| Http2Flights.H2Pending.DrainEntry | fibjs/include/HttpClient.h:352-358 | the loop wakes the whole entry, each with that outcome |
| Http2Flights.H2Pending.PostFirst | fibjs/include/HttpClient.h:352-358 | one turn wakes the first, with that outcome |
| LruCaches.LruCache.constructor | fibjs/include/LruCache.h:39-53 | an empty, consistent cache; the idle timeout falls back on the update timeout |
| LruCaches.LruCache.EraseItem | fibjs/include/LruCache.h:200-213 | removes the item from the map and both lists, an absent one from none |
| LruCaches.LruCache.FindMap | fibjs/include/LruCache.h:184-198 | finds a key, or erases it first when it was allocated too long ago |
| LruCaches.LruCache.FindItem | fibjs/include/LruCache.h:215-249 | moves the found item to the front of both lists, or allocates it there and evicts from the back |
| LruCaches.LruCache.CleanUsed | fibjs/include/LruCache.h:251-255 | keeps exactly the m_size most recently touched items, a negative size being a huge one |
| LruCaches.LruCache.CleanExpired | fibjs/include/LruCache.h:257-270 | drops from the back up to the first item that is not idle |
| LruCaches.LruCache.Set | fibjs/include/LruCache.h:55-65 | the entry list after set() |
| LruCaches.LruCache.Lookup | fibjs/include/LruCache.h:76-121 | the entry list and the value after a lookup without resolver |
| LruCaches.LruCache.LookupOrLead | fibjs/include/LruCache.h:84-104 | with a resolver exactly the caller that allocated the item resolves it |
| LruCaches.LruCache.WriteItem | fibjs/include/LruCache.h:89-94 | the value written into an item, seen by lookups only while the item is still cached |
| LruCaches.LruCache.GiveUp | fibjs/include/LruCache.h:96-102 | the item of a resolver that gave up is taken out, if it is still there |
| LruCaches.LruCache.Erase | fibjs/include/LruCache.h:123-138 | the entry list after erase(), and whether the key was there |
| LruCaches.LruCache.Resize | fibjs/include/LruCache.h:147-153 | the entry list after resize() |
| LruCaches.LruCache.SetTimeout | fibjs/include/LruCache.h:155-162 | the entry list after set_timeout() |
| LruCaches.LruCache.Clear | fibjs/include/LruCache.h:164-170 | nothing is left in the map or the lists |
| LruCaches.TouchedLinked | fibjs/include/LruCache.h:219-232 | moving nodes to the front keeps both lists in one order, the back-links and the map |
| LruCaches.ErasedLinked | fibjs/include/LruCache.h:200-213 | so does erasing |
| LruCaches.PlaceOf | fibjs/include/LruCache.h:200-213 | an item's back-links name its own place in both lists, and it is the same place |
| CacheRuns.LookupGives | fibjs/include/LruCache.h:76-121 | every reachable state, resolvers included: a lookup finds the key exactly when a fresh entry is there; it waits exactly while nothing was written into the item, and else gives the last value written: that of the last set of the key exactly when a set wrote it, otherwise of a resolver that answered after that set |
| CacheRuns.LookupIsLastSet | fibjs/include/LruCache.h:76-121 | in particular the value of the last set when no resolver of the key is under way or answered after it |
| CacheRuns.LateResolverWins | fibjs/include/LruCache.h:84-94 | a run in which a resolver overwrites a later set |
| CacheRuns.SetKeepsAge | fibjs/include/LruCache.h:55-65 | set() on a cached key changes value and visit time, not the time its age counts from |
| CacheRuns.SetsDoNotRefresh | fibjs/include/LruCache.h:184-198 | so an entry past its update timeout is not found, whatever was set since |
| CacheRuns.CleaningIsExact | fibjs/include/LruCache.h:257-270 | on a list ordered by visit time stopping at the first fresh entry removes exactly the idle ones |
| CacheRuns.LookupCleansExactly | fibjs/include/LruCache.h:80-82 | every reachable list is so ordered, so a lookup drops exactly the idle entries |
| CacheRuns.EvictedAfterOthers | fibjs/include/LruCache.h:251-255 | a key evicted for capacity was followed by touches of m_size other distinct keys, the ones still cached, whether a set or a resolving lookup pushed it out |
| CacheRuns.StateIsHistory | fibjs/include/LruCache.h:55-270 | every run, told by its calls: the entries stand in the order of the last calls for their keys, with the times of those calls and of the calls that made them; the last set on record is the last one called, a resolver's value what it answered, the limits those last given |
| CacheRuns.SetArrives | fibjs/include/LruCache.h:55-104 | a key that was set, or is being resolved, stands first, with the value set; only a cache for no items keeps nothing |
| CacheRuns.LeavesOnlyWhen | fibjs/include/LruCache.h:123-270 | an entry of a reachable cache leaves it only by clear, erase, a resolver that gave up, being idle or too old, or for lack of room |
| CacheRuns.ErasedIsMissed | fibjs/include/LruCache.h:123-138 | after erase(key), and until the key is set or resolved again, no lookup finds it, whatever else happens |
| CacheRuns.AgedIff | fibjs/include/LruCache.h:184-270 | an entry is too old exactly from the timeout in seconds on, in nanoseconds of the clock |
| CacheRuns.StepKeeps | fibjs/include/LruCache.h:55-170 | set, lookup with and without a resolver, erase, resize, set_timeout and clear under a non-decreasing clock keep order by touch and by time, distinct keys and last values |
| CacheRuns.ReachesKeeps | fibjs/include/LruCache.h:55-170 | so does every run |
| DomTrees.Node.CompareDocumentPosition | fibjs/include/XmlNodeImpl.h:404-519 | on the pointers: DISCONNECTED for null, also PRECEDING for another tree, otherwise the position in the common tree |
| DomTrees.PositionBits | fibjs/include/XmlNodeImpl.h:404-519 | FOLLOWING exactly when the other node comes later in pre-order, PRECEDING exactly when earlier, CONTAINS and CONTAINED_BY exactly for ancestors |
| DomTrees.PositionSwaps | fibjs/include/XmlNodeImpl.h:404-519 | swapping the arguments swaps both pairs of bits |
| DomTrees.Meeting | fibjs/include/XmlNodeImpl.h:462-509 | below the first common ancestor stand two siblings whose m_index order is the pre-order of the two nodes |
| DomTrees.FirstCommon | fibjs/include/XmlNodeImpl.h:479-497 | the nested scan finds the lowest common ancestor in both chains |
| DomTrees.ChainBelow | fibjs/include/XmlNodeImpl.h:442-460 | the parents of a node are exactly the nodes whose subtree holds it |
| DomTrees.Node.Contains | fibjs/include/XmlNodeImpl.h:351-380 | true exactly for the node itself and what lies below it |
| DomTrees.Node.HasAncestor | fibjs/include/XmlNodeImpl.h:370-377 | the walk up the parents meets exactly the ancestors |
| DomTrees.Node.GetRootNode | fibjs/include/XmlNodeImpl.h:382-390 | the root of the tree |
| DomTrees.Node.SetDocument | fibjs/include/XmlNodeImpl.h:185-210 | the stack walk rewrites exactly the nodes reached without entering a subtree whose root already has the document |
| DomTrees.WholeSubtreeIff | fibjs/include/XmlNodeImpl.h:185-210 | the whole subtree ends with the document exactly when no node with it hides one without it |
| DomTrees.SharedDocument | fibjs/include/XmlNodeImpl.h:185-210 | a subtree sharing one document is rewritten as a whole |
| DomTrees.Node.GetTextContent | fibjs/include/XmlElement.h:242-267 | the stack walk computes the recursive text of the subtree |
| DomTrees.TextInDocumentOrder | fibjs/include/XmlElement.h:242-267 | that text is the values of all text nodes in pre-order |
| DomTrees.Node.IsEqualNodeSelf | fibjs/include/XmlNodeImpl.h:524-572 | type, name, value, attributes by name, number of children |
| DomTrees.Node.IsEqualNode | fibjs/include/XmlNodeImpl.h:579-632 | the pairwise walk over both trees decides deep structural equality |
| DomTrees.EqualIffSameValue | fibjs/include/XmlNodeImpl.h:524-632 | deep equality holds exactly when the subtrees are the same value, attributes compared as maps |
| DomTrees.AttributesIff | fibjs/include/XmlNodeImpl.h:543-569 | with unique names the one-sided attribute scan decides equality of the two maps |
| UriCodecs.RoundTripIff | fibjs/include/Url.h:134-257 | decoding undoes encoding for every byte string exactly under a condition on the table and the two space modes |
| UriCodecs.RoundTrip | fibjs/include/HttpCollectionTmpl.h:541-656 | the sufficient half, for one string |
| UriCodecs.EncodedUnit | fibjs/include/HttpCollectionTmpl.h:574-596 | the decoder reads exactly the unit the encoder wrote, whatever follows |
| UriCodecs.Escaped | fibjs/include/Url.h:134-257 | with '%' and '\\' escaped the round trip is decided by the space modes and '+' alone |
| UriCodecs.ShippedTables | fibjs/src/encoding/encoding.cpp:1142-1155 | the two tables of encoding round-trip in the mode their decoder uses; the cookie table and form encoding with the plain decoder do not |
| UriCodecs.FormDecodedPlainly | fibjs/src/http/querystring.cpp:18-26 | unescape after escape returns the string with every space turned into '+' |
| UriCodecs.RoundTripExactly | fibjs/include/Url.h:134-257 | for every table, mode and string: decoding gives the string back exactly when nowhere in it passed text looks like an escape and no byte is altered |
| UriCodecs.CookieSurvives | fibjs/src/http/HttpCookie.cpp:270-281 | a cookie value comes back exactly when no '%' of it is followed by two digits of the decoder, or by u or U and four |
| UriCodecs.PercentSurvives | fibjs/include/Url.h:134-257 | the same for any table that passes '%', the digits and u but not the backslash |
| UriCodecs.EncodeURI | fibjs/include/Url.h:202-257 | the two passes agree on the length and fill the buffer with the encoding |
| UriCodecs.DecodeURI | fibjs/include/HttpCollectionTmpl.h:541-602 | the two passes agree on the length and fill the buffer with the decoding |
| UriCodecs.EncodedSize | fibjs/include/Url.h:221-231 | the sizing pass counts the encoding |
| UriCodecs.DecodedSize | fibjs/include/HttpCollectionTmpl.h:557-573 | the sizing pass counts the decoding, %uXXXX as UTF-8 |
| UriCodecs.Utf8 | fibjs/src/base/utf8.cpp:297-340 | one UTF-16 unit takes one to three bytes; which ones is Utf8IsUtf8 |
| UriCodecs.Utf8IsUtf8 | fibjs/src/base/utf8.cpp:297-340 | they decode, in the shortest form, to that unit, or to U+FFFD for a surrogate |
| UriCodecs.HexDigits | fibjs/include/qstring.h:38-41 | every digit in either case has its value, and beside them only 'G' to 'Z' count, as 0 |
| UriCodecs.DecodedSpelled | fibjs/include/HttpCollectionTmpl.h:541-602 | any text of plain bytes, %XX and %uXXXX, however the digits are cased, is decoded to what the pieces mean, in order |
| UriCodecs.PercentUpperU | fibjs/include/HttpCollectionTmpl.h:574-596 | %UXXXX is not: 'U' counts as a digit, and the first digit behind it alone is taken |
| QueryParsing.ParseRoundTripIff | fibjs/include/HttpCollectionTmpl.h:659-726 | every list of pairs, empty names included, comes back from its joined text exactly when '&' and '=' are escaped and the codec round-trips in form mode |
| QueryParsing.ParsedJoined | fibjs/include/HttpCollectionTmpl.h:659-726 | the sufficient half, for one list |
| QueryParsing.ParsedSplits | fibjs/include/HttpCollectionTmpl.h:659-726 | for every text: the pairs are those of section 5.1 of the URL Standard, pieces between '&' cut at the first '=', a piece without one being a name with an empty value |
| QueryParsing.CleanSegment | fibjs/include/HttpCollectionTmpl.h:669-718 | one key=value segment is cut exactly, whatever follows it |
| QueryParsing.HttpCollection.Parse | fibjs/include/HttpCollectionTmpl.h:659-726 | the scanning loops append exactly the pairs of the text, for any separators, and stop at a name the collection refuses |
| QueryParsing.HttpCollection.Append | fibjs/include/HttpCollectionTmpl.h:98-123 | one pair more, its name in lower case where asked, or an error for an empty name |
| QueryParsing.LowerCaseIs | fibjs/include/HttpCollectionTmpl.h:98-123 | each upper-case letter becomes its lower-case one and every other byte stays |
| QueryParsing.StoredIs | fibjs/include/HttpCollectionTmpl.h:98-123 | stored is every pair up to the first with a refused name, in order, names in lower case where asked |
| ChunkedBodies.DeliversAllIff | fibjs/include/ChunkedStream.h:37-145 | for any limits, however the bytes arrive: every well-formed message within them is delivered, over any non-zero read sizes, exactly when maxChunkSize < 2048 or 0 <= maxBodySize < 2048 |
| ChunkedBodies.BodyDelivered | fibjs/include/ChunkedStream.h:37-145 | for every well-formed message with chunks below 2^31 bytes, any limits it fits and any sequence of non-zero read sizes the data is delivered in order, the end is reported exactly when all of it was, and what stays in the stream is known |
| ChunkedBodies.ReadStep | fibjs/include/ChunkedStream.h:89-142 | one read of such a message gives at least one byte and no more than asked, or the end |
| ChunkedBodies.ChunkBufferedIff | fibjs/include/ChunkedStream.h:83-87 | a chunk is buffered whole exactly when it is below 2^31 bytes, however the bytes arrive |
| ChunkedBodies.CutSizeEndsBody | fibjs/include/ChunkedStream.h:83-87 | a size of 2^32, read exactly, gets no data: an empty chunk passes for it and the body ends |
| ChunkedBodies.LimitHolds | fibjs/include/ChunkedStream.h:74-84 | for every configuration, every input, well-formed or not, and every reads, no more data than the body limit, nor than the sizes accepted, is handed out |
| ChunkedBodies.SizeExactIff | fibjs/include/ChunkedStream.h:59-83 | a size is read as its value exactly below 2^63 and handed on as its value exactly below 2^31 |
| ChunkedBodies.ChunkAcceptedIff | fibjs/include/ChunkedStream.h:55-87 | a chunk of less than 2^31 bytes is buffered whole exactly when it is within both limits, and otherwise the read fails without its data |
| ChunkedBodies.NoSizeRefused | fibjs/include/ChunkedStream.h:61-64 | a line without a digit where the size should be is refused |
| ChunkedBodies.ShortSizesAreExact | fibjs/include/ChunkedStream.h:59-72 | in particular with at most 15 digits |
| ChunkedBodies.WrappedSizeEndsBody | fibjs/include/ChunkedStream.h:55-87 | a size of 2^64 is taken for the last chunk and the body ends |
| ChunkedBodies.ParseSize | fibjs/include/ChunkedStream.h:66-69 | the accumulating loop computes the numeral modulo 2^64, signed |
| ChunkedBodies.ChunkedStream.ReadBuffer | fibjs/include/ChunkedStream.h:37-145 | a whole read on the object's fields, through every state |
| ChunkedBodies.ChunkedStream.ChunkBody | fibjs/include/ChunkedStream.h:50-92 | from the size line to buffered data, the end or a failure |
| ChunkedBodies.ChunkedStream.ChunkEnd | fibjs/include/ChunkedStream.h:99-118 | the trailer lines up to the empty one |
| QuickArrays.QuickArray.Resize | fibjs/include/QuickArray.h:77-122 | the elements kept, added with their default or destroyed from the end; every slot below the size constructed once, the rest raw memory, and ceil(size / block) blocks |
| QuickArrays.QuickArray.AppendAll | fibjs/include/QuickArray.h:153-176 | the elements followed by the new ones across block boundaries |
| QuickArrays.QuickArray.Grow | fibjs/include/QuickArray.h:33-50 | blocks for n more, the old ones untouched |
| QuickArrays.QuickArray.Fill | fibjs/include/QuickArray.h:106-116 | the construction loop constructs each new slot exactly once |
| QuickArrays.QuickArray.Drop | fibjs/include/QuickArray.h:86-96 | the destruction loop destroys each element from s on exactly once |
| QuickArrays.QuickArray.Get | fibjs/include/QuickArray.h:129-135 | the element at an index, the array grown to it when needed |
| QuickArrays.QuickArray.Pop | fibjs/include/QuickArray.h:137-140 | all but the last element |
| QuickArrays.BlocksExact | fibjs/include/QuickArray.h:41-42 | the block count is the least that holds the elements |
| StringBuffers.StringBuffer.Append | fibjs/include/StringBuffer.h:88-94 | the text grows by exactly the argument, and the size with it |
| StringBuffers.StringBuffer.AppendChars | fibjs/include/StringBuffer.h:96-105 | the counted or zero-terminated form |
| StringBuffers.StringBuffer.AppendChar | fibjs/include/StringBuffer.h:107-114 | one character, into the last piece |
| StringBuffers.StringBuffer.Str | fibjs/include/StringBuffer.h:25-50 | exactly the concatenation of the appends, and the buffer is empty afterwards |
| StringBuffers.StringBuffer.CopyPieces | fibjs/include/StringBuffer.h:34-45 | the copy loop fills m_size characters, neither more nor less |

## Left out

- V8, isolates, fibers, JS values and events, libuv, nghttp2, OpenSSL and the other wrapped libraries: an event is a
  decision recorded, a callback an operation with the contract of its library call.
- Locks, atomics and memory order: a section under a lock and an access to an atomic are single steps.
- Clocks: readings are parameters. `LruCache` timeouts are multiplied without the wrap of int64.
- Callers' side of the protocols: `Legal` states it (a ticket is not posted by code that also lets the loop go on, an
  event is adopted once, a leader finishes once and not while its machine is parked). The step of
  `HttpClient.cpp:1535-1541` that sets `m_h2_waiting` after its ticket was handed out is outside the model.
- `LruCache`: the wait for `m_ready` and the value a waiter reads when it ends, which is that of the item at that time.
- Liveness of the read loop beyond `WakeLostIff`, and the wait reasons that filter tokens.
- ReaderTickets and Http2Flights: modelled on values, with classes only where one call is one lock section; the machines
  behind the tickets are those of AsyncStates.
- Closing handles and what they answer, `uv_write` after a close, the read side of `UVStream.h` and its background variant.
- AsyncHandles.AsyncHandle.Abandon: deleting and emptying are one step in the runs; `AbandonReentryIff` says what that
  takes of a destructor.
- AsyncStates.StateIsHistory: for runs with fewer than 2^32 - 1 used tickets, as the other results about runs of that
  module; `WrappedDispatchPasses` shows what happens at the bound.
- AsyncHandles.AsyncHandle.Post: the contract is of a post that nothing re-enters; re-entrance is in the runs.
- Chains.ChainIsPlainLoop: a handler that succeeds without setting its returned handler, so that `m_next` is null or
  `hdlr2` is stale.
- AsyncStates.VerdictExactlyOnce: posting the verdict upstream and `delete this` are one step; what the upstream
  continuation does inside that post does not interleave with it, and it holds no ticket of the machine.
- Chains.AsyncInvoke.JsRun: the loop is bounded by a number of turns, since nothing bounds it in the code.
- Tree mutation (`insertBefore`, `replaceChild` and the like), fragments, reference counts and query indexes of the DOM.
- DomTrees.TextInDocumentOrder: for subtrees where only elements have children, which is what the parser makes.
- DomTrees.EqualIffSameValue: attribute names are compared as they are and are unique, as `XmlNamedNodeMap` keeps them.
- Strings longer than an int32 in `parse`, the pointer forms of the codecs that look for a terminating zero, and an
  empty separator, with which `parse` does not come to an end.
- ChunkedBodies.BodyDelivered: line ends are "\r\n" and there is no charset conversion. A read after the end begins a new
  chunk line: the flag that stops it is in the callers. Splitting a trailer line into name and value.
- ChunkedBodies.LimitHolds: one read of the underlying stream gives fewer than 2^31 bytes, as the int32 lengths and
  positions of `BufferedStream.cpp:93-135` need; `m_contentLength` is an unbounded integer, which int64 differs from only
  after 2^12 refused chunks; a read after a line that was too long starts on that line again, where `BufferedStream` is
  left in the middle of its match.
- `QuickArray` copying and appending an array to itself, allocation failure, and the choice of block size.
- `StringBuffer::buffer`: the same loop as `str` into a `Buffer`.
- Smaller pieces that would only add easier members: `NObject`, the Redis writer, `Headers`, `XmlDataImpl`, timers.
