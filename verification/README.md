# Echo servers and load generator: a verified model

The repository compares echo servers built on different Linux interfaces, and measures them with
a closed-loop load generator. This project models the servers and the load generator and proves
what every run of them keeps: that bytes come back complete and in order, that no readiness edge
is lost, that buffers, pointers and submission entries are never used twice, and that the reported
percentiles are what sorting the latencies would give.

`dafny verify dfyconfig.toml` checks everything.

## How it is built

**The kernel** (`Kernel.dfy`) is two histories and a queue per connection. It answers each system
call from a script, a sequence of `N(n)`, `Again` or `Err`, so that a statement for every script is
a statement for every behaviour: any chunk size, EAGAIN or failure at any call. A read moves at
most what is queued, a write a prefix of what it is offered. Where a script ends, the handlers that
stop at EAGAIN see EAGAIN, and those that retry it (poll, select, the naive edge-triggered server)
see an error.

**Each server** appears three times. A value model gives one step per system call or completion.
A class with the fields of the C structures has the C loops as methods, each proved to reach the
state the value model computes. Lemmas about the value model then speak of all runs.

| files | what they model |
|---|---|
| `EchoLoop`, `PollServer`, `SelectServer`, `NaiveEdge` | the servers that write to completion |
| `BufferedEcho`, `EpollServer`, `NoLostEdge`, `ListenerEdge` | the level- and edge-triggered servers with buffered partial writes |
| `LeanEcho`, `LeanServer` | the level-triggered server with buffers allocated on demand |
| `LoadgenClient` | a load generator connection |
| `EndToEnd`, `ClosedLoop`, `LeanLoop`, `UringEndToEnd`, `UringOptLoop` | it joined to each server by two FIFO streams |
| `NaiveLoop`, `EdgeLoop` | it joined to the edge-triggered servers and their edges |
| `Histogram`, `LatencyReport`, `WorkSplit`, `CoreList` | the rest of the load generator |
| `Tags`, `BufferRing`, `UringOpt`, `UringActive`, `UringBuffers`, `UringPayload`, `UringOrder`, `UringRearm`, `UringOptServer` | the completion server with a shared buffer pool |
| `UringServer`, `UringConns`, `UringEcho`, `UringLimit`, `UringHeapServer` | the completion server with heap connections |
| `Kernel`, `Division` | shared |

## Results worth knowing

Several expectations one may have of the code are false. Each is answered by a run or an input that
fails and by the condition under which the code meets it.

- The buffering servers overwrite a pending remainder when a read comes before it is out. Which runs
  that spoils is decided by `BufferedEcho.RunEchoesIff` and, end to end, by
  `ClosedLoop.RightThroughoutIff`. The closed loop prevents it when requests are delivered whole
  (`ClosedLoop.HypothesisHolds`). A request in two parts can be corrupted when the second is read
  while the first is pending (`ClosedLoop.SplitRequestMismatch`); one whose reads meet no remainder
  never is (`ClosedLoop.NoMismatchEmpty`).
- The edge-triggered server's stop at a short read never loses data (`NoLostEdge.QuiescentIsDrained`)
  but can lose the end of the stream (`NoLostEdge.EndSeenIff`, `NoLostEdge.EndCanBeMissed`); joined
  to its client it never comes to rest where the echo is exact (`EdgeLoop.NeverAtRest`). An accept
  loop that ends by an error can leave connections waiting (`ListenerEdge.LoopForgetsNoneIff`,
  `ListenerEdge.CanForget`).
- A receive that ends with -ENOBUFS or a transient error is armed twice
  (`UringRearm.ReceiveCountKeptIff`, `UringRearm.TwoReceives`): at least one receive is live, not
  exactly one.
- The comment that no submission is ever dropped (`code/src/io_uring_opt_server.c:59`) holds as far
  as the one flush takes an entry: sends (`UringPayload.EveryByteHandedIff`), receives and the accept
  (`UringRearm.NeverDeafIff`, `UringRearm.ConnectionCanBeDeaf`, `UringRearm.ListenerCanBeLost`).
- Two sends on one descriptor can be outstanding at once and overtake each other
  (`UringOrder.SentInOrderIff`, `UringOrder.SendsOvertake`). With drops and short sends that is all
  that can come between a request and its echo (`UringOptLoop.NothingWrongIff`).
- The heap server takes a short write for a whole one (`UringEndToEnd.NothingLostIff`).
- Its queue of 4096 entries suffices for the listener up to 4094 connections and for the connections
  up to 4095 (`UringServer.NoneStranded`, `UringLimit.ConnectionsCovered`), and for no more: with 4095
  the listener, and with 4096 a connection, can be left without an operation for good
  (`UringLimit.ListenerStranded`, `UringLimit.ConnectionStranded`).
- The lean server leaks a remainder that a later short write overwrites (`LeanEcho.NothingLeaksIff`,
  `LeanEcho.CanLeak`).
- With one request all percentiles are reported as zero, and with a 99th percentile of a second or
  more the reported median can exceed it (`LatencyReport.SingleRequestReportsZero`,
  `LatencyReport.ReportAscendsIff`, `LatencyReport.MedianAboveP99`).
- Negative totals that do not divide evenly are not distributed completely (`WorkSplit.SharesSumIff`,
  `WorkSplit.NegativeNotShared`).
- The report (`report/final_report.md:107`) describes the compaction of the poll server as
  swap-with-last; the code shifts and keeps the order (`PollServer.Server.Compact`).

## Model

| member | source | states |
|---|---|---|
| `Tags.BitsRoundTrip` | code/src/io_uring_opt_server.c:37-40 | on 64-bit words, the three extracting macros give back the type, descriptor and buffer id that MAKE_TAG packed, for every non-negative descriptor and 16-bit type and id |
| `Tags.TagRoundTrip` | code/src/io_uring_opt_server.c:37-40 | the same on numbers, for descriptors below 2^32 and ids below 2^16 |
| `Tags.TagsInjective` | code/src/io_uring_opt_server.c:37-40 | two operations with the same tag are the same operation |
| `BufferRing.ReturnAppendsIff` | code/src/io_uring_opt_server.c:53-57 | returning a buffer that is not in the ring appends it to the FIFO of free buffers and overwrites no waiting slot if and only if the ring is not full, whatever the 16-bit tail |
| `BufferRing.TakeRemovesOldest` | code/src/io_uring_opt_server.c:53-57 | the kernel takes the oldest buffer, and only that one leaves the FIFO |
| `BufferRing.RingRefinesQueue` | code/src/io_uring_opt_server.c:53-57 | over any number of tail wrap-arounds the array with its wrapping tail and mask behaves as a FIFO queue of distinct ids |
| `BufferRing.BufRing.constructor` | code/src/io_uring_opt_server.c:143-148 | the initial fill puts every id into the ring once, in order |
| `BufferRing.BufRing.ReturnBuffer` | code/src/io_uring_opt_server.c:53-57 | the two liburing calls of return_buffer append the id to the free FIFO in place, given room, which UringOptServer.Drive finds at every call |
| `BufferRing.BufRing.Take` | code/src/io_uring_opt_server.c:204-211 | the counterpart on the kernel side: the buffer at the head leaves the FIFO |
| `UringOpt.FlagsRoundTrip` | code/src/io_uring_opt_server.c:201-210 | shifting the completion flags gives the buffer id, and the F_MORE bit is independent of it |
| `UringOpt.NextValid` | code/src/io_uring_opt_server.c:160-246 | every kernel or process step keeps tags decodable, descriptors within conns[] and buffer ids within the pool |
| `UringBuffers.HandleHeld` | code/src/io_uring_opt_server.c:177-246 | processing a completion only moves its buffer: the bag of ids in the free ring and in queued or accepted sends grows by exactly the completion's id, also when no submission entry was found |
| `UringBuffers.RunConserved` | code/src/io_uring_opt_server.c:49-94 | every run keeps the bag of all buffer ids over ring, completions and sends |
| `UringBuffers.OneOwner` | code/src/io_uring_opt_server.c:49-246 | in every reachable state each of the 8192 ids is in exactly one place: free, in an unprocessed completion, or in a send that is queued or outstanding; no other id exists |
| `UringPayload.NextBufferUnowned` | code/src/io_uring_opt_server.c:204-235 | the buffer the kernel fills next belongs to no outstanding send and no unprocessed completion |
| `UringPayload.EveryByteKept` | code/src/io_uring_opt_server.c:204-235 | from the start, for every run: the received messages are those processed followed by those waiting; those handed to sends are among those processed, in the same order, with exactly the dropped ones missing; and every handed message is sent once or still held unchanged |
| `UringPayload.EveryByteHandedIff` | code/src/io_uring_opt_server.c:86-94 | the received messages are those handed to sends followed by those waiting if and only if every processing of data found room in the queue or a flush that takes an entry |
| `UringPayload.EveryByteHanded` | code/src/io_uring_opt_server.c:59-67 | so nothing is dropped where flushes of a full queue take entries |
| `UringPayload.OwnBytesCarried` | code/src/io_uring_opt_server.c:204-235 | each message by itself: the send that completes for a buffer carries exactly the bytes, to the descriptor, of the receive that filled the buffer, whatever happened in between |
| `UringOrder.SentInOrderIff` | code/src/io_uring_opt_server.c:86-94 | for every run and every descriptor: at each step what was handed to its sends is what they carried out followed by what they still hold, in order, if and only if no send ever completes before an older one of the descriptor that carries other bytes |
| `UringOrder.SentInOrder` | code/src/io_uring_opt_server.c:86-94 | in particular they carry messages out in the order of their handing over, if the kernel completes the sends of a descriptor oldest first |
| `UringOrder.SendsOvertake` | code/src/io_uring_opt_server.c:86-94 | for any two messages a run from the start in which one connection receives them in one order and its sends carry them out in the other |
| `UringPayload.RunAccounted` | code/src/io_uring_opt_server.c:205-244 | the STATS identity: events = requests + sends outstanding + unprocessed send completions + sends dropped + sends that completed with res <= 0, over every run |
| `UringActive.ActiveIff` | code/src/io_uring_opt_server.c:185-245 | from the start, for every run, told from the completions processed alone: a descriptor is active if and only if some accept returned it and since then no receive on it met the end of stream or failed for good, and no send on it failed for good |
| `UringActive.CountersCount` | code/src/io_uring_opt_server.c:204-244 | events counts exactly the processed receives that brought data, requests exactly the processed sends that moved any |
| `UringRearm.NeverDeafIff` | code/src/io_uring_opt_server.c:59-84 | from the start, for every run and any sequence of F_MORE, -ENOBUFS and -EAGAIN: at each step every descriptor that was accepted and not closed since, as the completions processed tell, has a receive armed, queued or ended but unprocessed, and the listener exactly one accept, if and only if each processing meets its guard, that is, finds the entry it needs in the queue or through a flush that takes enough, or another receive of the descriptor is live |
| `UringRearm.NeverDeaf` | code/src/io_uring_opt_server.c:69-84 | in particular where flushes of a full queue take entries, of every descriptor accepted and not closed since |
| `UringRearm.ConnectionCanBeDeaf` | code/src/io_uring_opt_server.c:59-84 | a run from the start, with a full queue and flushes that take nothing, after which a descriptor is accepted and not closed, with no receive |
| `UringRearm.ReceiveCountKeptIff` | code/src/io_uring_opt_server.c:204-230 | a processed receive completion of an active connection leaves the number of its live receives as it was if and only if it carries data, or is transient and the kernel will send more: -ENOBUFS and transient ends re-arm twice |
| `UringRearm.TwoReceives` | code/src/io_uring_opt_server.c:212-230 | a run from the start after which one connection has two receives queued |
| `UringRearm.AcceptSurvivesIff` | code/src/io_uring_opt_server.c:185-203 | when the kernel ends the accept stream, with or without a last connection, one accept remains outstanding if and only if there is room for it or the flush takes an entry |
| `UringRearm.ListenerCanBeLost` | code/src/io_uring_opt_server.c:59-74 | a run from the start, with a full queue and flushes that take nothing, after which the listener has no accept |
| `UringOptServer.BufferIsOut` | code/src/io_uring_opt_server.c:204-235 | where ids are distinct the next completion's buffer is outside the ring and the ring has room |
| `UringOptServer.Server.GetSqeSafe` | code/src/io_uring_opt_server.c:60-67 | flushes at most once, and reports whether there is an entry |
| `UringOptServer.Server.AddMultishotAccept` | code/src/io_uring_opt_server.c:69-74 | queues an accept, or does nothing but flush |
| `UringOptServer.Server.AddMultishotRecv` | code/src/io_uring_opt_server.c:76-84 | queues a receive, or does nothing but flush |
| `UringOptServer.Server.AddSend` | code/src/io_uring_opt_server.c:86-94 | queues a send of the buffer, or gives the buffer back to the ring |
| `UringOptServer.Server.OnAccept` | code/src/io_uring_opt_server.c:185-203 | activates and arms a new connection within conns[] and re-arms an ended accept |
| `UringOptServer.Server.OnRecv` | code/src/io_uring_opt_server.c:204-230 | send, re-arm or retire, with both re-arm paths as in the code |
| `UringOptServer.Server.OnSend` | code/src/io_uring_opt_server.c:231-245 | returns the buffer, then counts or retires |
| `UringOptServer.Server.ProcessBatch` | code/src/io_uring_opt_server.c:173-249 | the completion loop over the static tables equals the fold of the model's step, never returning a buffer to a full ring |
| `UringOptServer.BatchReady` | code/src/io_uring_opt_server.c:173-177 | whatever part of the pending completions a batch takes, in every state that satisfies the invariants, ProcessBatch finds what it requires |
| `UringOptServer.Machine.Step` | code/src/io_uring_opt_server.c:160-246 | one step of kernel or process on the objects is one step of the model |
| `UringOptServer.Drive` | code/src/io_uring_opt_server.c:136-250 | the program from its start, with the kernel beside it: on every run the objects reach exactly the states of the model, so every call on the way finds what it requires |
| `UringOptLoop.NextInvIff` | code/src/io_uring_opt_server.c:173-249 | one step of client, kernel or process, for a client joined to the server amid all its other connections: what was sent is received, on the way back, held by a send, received or on the way there, in this order, after a harmless step and after no other |
| `UringOptLoop.NothingWrongIff` | code/src/io_uring_opt_server.c:86-94 | for a client that connects at any time: at each step no echo is wrong and nothing sent is lost or reordered if and only if each message on its descriptor finds an entry, each of its sends takes all it is given, and none overtakes older bytes that do not commute with it |
| `UringServer.OneOperationEach` | code/src/server_uring.c:29-46 | over every run no heap connection has two operations in flight, none in flight refers to a freed connection, and conn->type tells the kind in flight |
| `UringServer.RunSound` | code/src/server_uring.c:79-133 | the same from any state that has these properties, so for every interleaving of kernel and process |
| `UringConns.LiveIff` | code/src/server_uring.c:96-128 | from the start, for every run, told from the completions processed alone: a structure is live for a descriptor if and only if some accept returned that descriptor and made it there, and since then none of its own operations ended with nothing or an error |
| `UringConns.InFlightOnOwn` | code/src/server_uring.c:29-46 | so whatever is in flight for a connection is for the descriptor that its own accept returned |
| `UringServer.ProcessExactIff` | code/src/server_uring.c:86-131 | after processing a completion every live connection and the listener still have exactly one operation if and only if the fixed submission queue has the one or two entries it asks for |
| `UringServer.RunExact` | code/src/server_uring.c:79-133 | with at most 4094 live connections the queue is never overfilled however completions are batched, and exactly one operation per connection is kept |
| `UringServer.NoneStranded` | code/src/server_uring.c:18-46 | from the start under that bound: one operation for the listener and for each live connection, and nothing else in flight |
| `UringLimit.ListenerStranded` | code/src/server_uring.c:18-27 | the bound is exact: a run from the start, never with more than 4095 live connections when a completion is processed, that leaves the listener without its accept |
| `UringLimit.ExactThroughoutIff` | code/src/server_uring.c:79-133 | over every run: the listener and each live connection have exactly one operation throughout if and only if each completion finds the one or two entries that it asks for |
| `UringLimit.CoveredIff` | code/src/server_uring.c:79-133 | over every run: each live connection has exactly one operation throughout, whatever becomes of the listener, if and only if each completion that asks for an operation of a connection finds an entry |
| `UringLimit.ConnectionsCovered` | code/src/server_uring.c:29-46 | from the start, with at most 4095 live connections: each of them has exactly one operation |
| `UringLimit.ConnectionStranded` | code/src/server_uring.c:38-46 | that bound is exact: a run from the start, never with more than 4096 live connections when a completion is processed, that leaves a live one without an operation |
| `UringLimit.StrandedForGood` | code/src/server_uring.c:79-133 | what is left so stays so: no later step of kernel or process gives the listener or the connection its operation back |
| `UringEndToEnd.NothingLostIff` | code/src/server_uring.c:79-133 | a load generator connection joined to the server amid all its other connections, for any chunks read and written: at each step no wrong echo was counted and every byte sent is received, on the way back, owed by the server or on the way there, if and only if no write of the connection stops short |
| `UringEndToEnd.NoMismatch` | code/src/server_uring.c:79-133 | so after a run whose writes on the connection are whole, nothing is wrong |
| `UringEcho.WriteTakesLastRead` | code/src/server_uring.c:38-46 | a write that the kernel holds takes exactly the chunk last read into the shared buffer, everything before it having been handed to writes |
| `UringEcho.EchoesInOrder` | code/src/server_uring.c:111-128 | on every live connection of every run the chunks handed to writes are the chunks read, in order, but for at most the last |
| `UringEcho.RunAccounted` | code/src/server_uring.c:111-128 | the bookkeeping behind it, kept by every run, also when operations are dropped for lack of entries |
| `UringHeapServer.Server.AddAccept` | code/src/server_uring.c:18-27 | queues the accept if there is an entry |
| `UringHeapServer.Server.AddRead` | code/src/server_uring.c:29-36 | marks the structure and queues the read, or changes nothing |
| `UringHeapServer.Server.AddWrite` | code/src/server_uring.c:38-46 | marks the structure, stores the length and queues the write, or changes nothing |
| `UringHeapServer.Server.OnAccept` | code/src/server_uring.c:96-110 | allocates a structure with its first read and queues the next accept |
| `UringHeapServer.Server.OnIo` | code/src/server_uring.c:111-128 | dispatch on the stored type: free, write back, or read again |
| `UringHeapServer.SoundPart` | code/src/server_uring.c:79-86 | whatever part of the pending completions a batch takes, the invariant of the whole run gives what Batch needs |
| `UringHeapServer.Server.Batch` | code/src/server_uring.c:79-133 | a whole batch over heap objects equals the fold of the model's step, every pointer followed being live, and then hands the queue to the kernel |
| `BufferedEcho.RunMaskAgrees` | code/src/epoll_lt_server.c:129-211 | in every run of either server EPOLLOUT is registered exactly while a remainder is pending |
| `BufferedEcho.EchoKeptIff` | code/src/epoll_lt_server.c:181-212 | the write after a read keeps the echo exact: when it stops short, if and only if no remainder was pending; when complete, if and only if remainder and new data commute |
| `BufferedEcho.RunEchoes` | code/src/epoll_et_server.c:129-222 | in particular, where every read that moves bytes finds no remainder, every run has consumed exactly what it echoed followed by what it still holds |
| `BufferedEcho.RunEchoesIff` | code/src/epoll_et_server.c:129-222 | over every run of either server, the echo is exact at every step if and only if each write that follows a read stops short only on an empty remainder and completes only past a remainder that commutes with it |
| `BufferedEcho.RunAccounts` | code/src/epoll_lt_server.c:152-211 | the STATS identity: events = requests + connections with a remainder + remainders overwritten + remainders held when a call failed + fatal writes, where what fails is told by place, queue and answer |
| `BufferedEcho.RunOpenIff` | code/src/epoll_et_server.c:129-222 | in every run of either server a connection is open at the end if and only if it was open, no call of its handler was answered with an error, and no read moved nothing without EAGAIN |
| `BufferedEcho.EventReads` | code/src/epoll_lt_server.c:165-167 | one event with input makes exactly one read in level-triggered mode; in edge-triggered mode it reads full buffers and stops at the first read that is short of one, or at a failed write |
| `BufferedEcho.EventsCountReads` | code/src/epoll_lt_server.c:177-180 | events counts exactly the reads that moved bytes |
| `BufferedEcho.HandleIsRun` | code/src/epoll_lt_server.c:127-214 | a whole handler is its sequence of calls in a run, so that what holds of all runs holds of the handlers |
| `EpollServer.ClientState.FlushPending` | code/src/epoll_lt_server.c:129-163 | the write branch: flush until EAGAIN, error or empty, then close or return to input only |
| `EpollServer.ClientState.Buffer` | code/src/epoll_lt_server.c:196-206 | the unwritten rest is at the front of wbuf and EPOLLOUT is registered |
| `EpollServer.ClientState.Echo` | code/src/epoll_lt_server.c:182-212 | one write of what was read, with its rest buffered |
| `EpollServer.ClientState.ReadOnce` | code/src/epoll_lt_server.c:165-213 | exactly one read per event |
| `EpollServer.ClientState.ReadDrain` | code/src/epoll_et_server.c:165-230 | the loop reads until a short read, EAGAIN or a failure |
| `EpollServer.ClientState.HandleEvent` | code/src/epoll_et_server.c:127-231 | the whole handler, in either mode, updates the buffer in place as the model computes, for every sequence of system call answers |
| `EpollServer.Server.Accept` | code/src/epoll_lt_server.c:112-125 | the entry of a descriptor within the table is emptied and watched for input, its buffer's bytes and counters kept; one beyond the table is refused; no other entry changes |
| `EpollServer.Server.Dispatch` | code/src/epoll_lt_server.c:93-214 | an event changes its own table entry only |
| `EpollServer.Server.constructor` | code/src/epoll_lt_server.c:37-37 | the table is zeroed: every entry exists by itself, is empty and no connection |
| `EpollServer.Server.AcceptAll` | code/src/epoll_et_server.c:97-126 | the accept loop makes the calls of ListenerEdge.LoopCalls, opens exactly the descriptors they return within the table, and touches no other entry |
| `EpollServer.Drive` | code/src/epoll_et_server.c:89-231 | the server from its zeroed table, for any turns of arrivals, accept loops and events that the kernel can bring: each entry ends as its own turns make it, whatever the others do, and every call on the way finds what it requires |
| `EpollServer.AfterOpenIff` | code/src/epoll_et_server.c:97-231 | after a turn an entry is a connection if and only if it has just been accepted, or it was one and none of its calls failed |
| `EpollServer.EntryEchoesIff` | code/src/epoll_et_server.c:97-231 | in the table, however often a descriptor is closed and used again: an entry echoes exactly at every system call if and only if each of its own writes after a read is harmless |
| `ListenerEdge.LoopForgetsNoneIff` | code/src/epoll_et_server.c:97-126 | one whole run of the accept loop, whatever arrives meanwhile: it leaves nobody waiting without an edge if and only if it met EAGAIN, or an edge was raised while it ran, or it used up all that were waiting when its edge was reported |
| `ListenerEdge.AnswersForgetNoneIff` | code/src/epoll_et_server.c:99-107 | the same in terms of the answers that AcceptAll is given |
| `ListenerEdge.NoneForgottenIff` | code/src/epoll_et_server.c:97-126 | over every sequence of such runs: no waiting connection is ever left without an edge if and only if each of them meets that condition |
| `ListenerEdge.QuiescentHasNone` | code/src/server_epoll.c:45-67 | under that condition a listener at rest has no connection waiting |
| `ListenerEdge.CanForget` | code/src/server_epoll.c:45-67 | one failing accept leaves a connection waiting with no edge raised |
| `NoLostEdge.RunKeepsEdges` | code/src/epoll_et_server.c:165-222 | with arrivals at any point of the handler, queued bytes imply a pending edge or a handler still draining, and a remainder with send space implies a pending write edge |
| `NoLostEdge.RunOpenUnlessEnded` | code/src/epoll_et_server.c:165-222 | in every run that the kernel may give, the connection is open if and only if no call was answered with an error and no read met the end of stream with the queue empty |
| `NoLostEdge.QuiescentIsDrained` | code/src/epoll_et_server.c:165-222 | where none of that happened the connection is open, and when it is idle with no edge pending its queue is empty, and a remainder has no space to go to |
| `NoLostEdge.EndSeenIff` | code/src/epoll_et_server.c:165-222 | whatever the writes take, the short-read stop observes an end of stream that is already queued if and only if the queue is a whole number of buffers |
| `NoLostEdge.EndCanBeMissed` | code/src/epoll_et_server.c:215-221 | a run that ends with the end of stream queued, no edge pending and the connection open |
| `LeanEcho.RunSimulates` | code/src/epoll_lt_lean_server.c:124-217 | from any corresponding states, for every sequence of events and answers, the lean server and the static-table server have the same streams, registrations, closes, counters and remainder; also when a read overwrites a remainder |
| `LeanEcho.Indistinguishable` | code/src/epoll_lt_lean_server.c:110-217 | the same from a newly accepted connection |
| `LeanEcho.DifferOnlyOnSpuriousOut` | code/src/epoll_lt_lean_server.c:124-159 | on one event they differ if and only if EPOLLOUT is reported to an open connection without a remainder, which is never registered; there the static-table server counts a request |
| `LeanEcho.HandleSimulates` | code/src/epoll_lt_lean_server.c:122-219 | the same of whole handlers |
| `LeanEcho.RunOpenIff` | code/src/epoll_lt_lean_server.c:124-217 | a connection is open at the end of a run if and only if it was open, no call was answered with an error, and no read moved nothing without EAGAIN |
| `LeanEcho.AllocationsCounted` | code/src/epoll_lt_lean_server.c:124-211 | over every run: structures allocated and not freed are the one in the table and those whose pointer a short write overwrote |
| `LeanEcho.NothingLeaksIff` | code/src/epoll_lt_lean_server.c:195-211 | from acceptance, the one in the table is all that is allocated and not freed if and only if no short write met a remainder |
| `LeanEcho.CanLeak` | code/src/epoll_lt_lean_server.c:195-211 | two bytes read one at a time while there is no room to write: two structures allocated, none freed, one in the table |
| `LeanServer.PendingWrite.constructor` | code/src/epoll_lt_lean_server.c:196-204 | the two allocations hold exactly the unwritten rest |
| `LeanServer.Slot.FlushPending` | code/src/epoll_lt_lean_server.c:124-159 | the flush loop over the on-demand buffer, freed on error or when empty |
| `LeanServer.Slot.ReadOnce` | code/src/epoll_lt_lean_server.c:162-218 | one read and its echo, allocating only when a write stops short |
| `LeanServer.Slot.HandleEvent` | code/src/epoll_lt_lean_server.c:122-219 | the whole handler on heap objects equals the model's, for every sequence of answers, in its allocations and frees too |
| `NaiveEdge.HandleClient` | code/src/server_epoll.c:68-111 | the nested drain and write-to-completion loops, for every sequence of answers |
| `NaiveEdge.RunInv` | code/src/server_epoll.c:68-111 | in every run, unread bytes or an unobserved end of stream imply a pending edge or a running handler |
| `NaiveEdge.RunOpenIff` | code/src/server_epoll.c:68-111 | in every run that the kernel may give, the connection is open if and only if no call was answered with an error and no read met the end of stream with the queue empty |
| `NaiveEdge.ServeIsRun` | code/src/server_epoll.c:68-111 | a whole handler is its sequence of answers in a run |
| `NaiveEdge.QuiescentHasEchoedAll` | code/src/server_epoll.c:68-111 | where none of that happened the connection is open, and when it is idle with no edge pending it has echoed everything that ever arrived, and no end of stream is unobserved; no short-read hypothesis |
| `EchoLoop.StepEchoes` | code/src/server_poll.c:113-146 | every system call keeps: bytes consumed = bytes echoed + unwritten rest of the buffer |
| `EchoLoop.ServeEchoes` | code/src/server_select.c:64-101 | so does every whole handler, which ends outside its loops |
| `EchoLoop.ServeOutcome` | code/src/server_poll.c:113-146 | one event of a poll or select client, from the queue and the answers alone: one read, and its bytes echoed whole with the connection open, or a prefix of them with it closed; closed if and only if the read fails or moves nothing without EAGAIN, or an error comes before all is written |
| `EchoLoop.WriteAll` | code/src/server_poll.c:125-136 | the write loop writes all of the buffer or stops at an error, retrying EAGAIN |
| `EchoLoop.ServeOnce` | code/src/server_poll.c:113-146 | the client branch of poll and select, for every sequence of answers, with that outcome |
| `LoadgenClient.WorkerConn.SendPath` | code/loadgen/loadgen.c:211-241 | writes the rest of the payload until it is out, EAGAIN or an error, then turns to receiving |
| `LoadgenClient.WorkerConn.RecvPath` | code/loadgen/loadgen.c:244-312 | reads until the echo is complete, compares it and tries the next request at once |
| `LoadgenClient.WorkerConn.CompleteEcho` | code/loadgen/loadgen.c:261-285 | counts a correct or a wrong echo and returns to sending |
| `LoadgenClient.WorkerConn.SendNext` | code/loadgen/loadgen.c:287-309 | the four outcomes of the immediate write |
| `LoadgenClient.WorkerConn.HandleEvent` | code/loadgen/loadgen.c:198-313 | the whole event body, in place, for every sequence of answers |
| `LoadgenClient.EventOutcome` | code/loadgen/loadgen.c:198-313 | what one event achieves, from the answers alone: the request goes on by as many bytes as the answers up to the first EAGAIN or error allow, and the echo by as many as they and the queue allow; a complete echo counts as a request or as an error by comparison, and the next request is tried at once |
| `EndToEnd.RunOpenIff` | code/loadgen/loadgen.c:198-313 | joined to an echo loop of either policy: a side is open at the end of a run if and only if it met no failure, which for the client is an error event between handlers, a call answered with an error, a read that moves nothing without EAGAIN, or an immediate request of which nothing is taken; for the server an error, or a read that moves nothing without EAGAIN |
| `EndToEnd.RunInv` | code/loadgen/loadgen.c:210-312 | two FIFO streams, any interleaving, any chunking and any failure: the joint invariant of client and echo loop holds in every reachable state |
| `EndToEnd.NothingLost` | code/loadgen/loadgen.c:210-312 | bytes sent = bytes received + bytes on the way back + unwritten rest of the server's buffer + bytes on the way there; at most one 29-byte request is outstanding, and a waiting client has exactly its missing bytes under way |
| `EndToEnd.NoMismatch` | code/loadgen/loadgen.c:266-268 | the comparison never fails: the client counts one error if it met such a failure, and otherwise none and is open; what it received is its completed requests followed by a prefix of the payload |
| `EndToEnd.NeverStuck` | code/loadgen/loadgen.c:210-312 | where nothing failed and neither side runs, the client has registered for what its phase needs, and if it awaits an echo all the missing bytes are in its own queue or the server's, of which poll and select tell |
| `NaiveLoop.RunBothOpenIff` | code/src/server_epoll.c:68-111 | joined to the edge-triggered server with its edges: both sides are open at the end of a run if and only if nothing failed |
| `NaiveLoop.NeverAtRest` | code/src/server_epoll.c:68-111 | then, for any chunks and any time of reporting the edges: where neither side runs and no edge is raised, the client waits for room to send or has all its missing bytes in its own queue |
| `ClosedLoop.HypothesisHolds` | code/loadgen/loadgen.c:261-309 | joined to the buffering servers with requests delivered whole, every run meets the hypothesis of BufferedEcho.RunEchoes: no read overtakes a remainder |
| `ClosedLoop.NoMismatchHarmless` | code/loadgen/loadgen.c:210-312 | joined to either buffering server with any chunks in both directions: as long as no write of the server disturbs its echo there is no wrong echo, and every byte sent is received, under way or held |
| `ClosedLoop.RightThroughoutIff` | code/src/epoll_et_server.c:129-222 | and that is the exact condition: of all runs, nothing is wrong at any step in those, and only those, in which no write of the server disturbs its echo |
| `ClosedLoop.NoMismatchEmpty` | code/loadgen/loadgen.c:210-312 | in particular where every read that moves bytes finds no remainder |
| `ClosedLoop.NoMismatchWhole` | code/loadgen/loadgen.c:261-309 | as a corollary, requests delivered whole are never echoed wrongly, whatever the chunks of the way back |
| `ClosedLoop.PlayOpenIff` | code/src/epoll_lt_server.c:127-213 | joined to a buffering server: both sides are open at the end of a run if and only if nothing failed, whether or not its echoes are exact |
| `ClosedLoop.NeverStuckHarmless` | code/src/epoll_lt_server.c:127-213 | where no write disturbs the echo and nothing failed: where neither side runs, all missing bytes are in one of the two queues, or pending with EPOLLOUT registered |
| `ClosedLoop.NeverStuckWhole` | code/src/epoll_lt_server.c:127-213 | in particular where requests are delivered whole |
| `EdgeLoop.RunBothOpenIff` | code/src/epoll_et_server.c:129-222 | joined to the edge-triggered buffering server with its edges: both sides are open at the end of a run if and only if nothing failed |
| `EdgeLoop.NeverAtRest` | code/src/epoll_et_server.c:129-222 | then, with room for any fixed number of bytes on the way back, as long as no write disturbs the echo: where neither side runs and no edge is raised, a client that waits for its echo has bytes in its own queue, all the missing ones or as many as there is room for |
| `EdgeLoop.NeverAtRestWhole` | code/src/epoll_et_server.c:129-222 | the same without an assumption on the server's writes, where each request is written whole |
| `LeanLoop.RightThroughoutIff` | code/src/epoll_lt_lean_server.c:124-217 | the exact condition for the lean server: nothing is ever wrong if and only if no write of it disturbs its echo |
| `LeanLoop.BothOpenIff` | code/src/epoll_lt_lean_server.c:124-217 | both sides are open at the end of a run if and only if nothing failed |
| `LeanLoop.NeverStuck` | code/src/epoll_lt_lean_server.c:124-217 | where the echo is right and nothing failed, the missing bytes of a waiting client are in one of the two queues, or pending with EPOLLOUT registered |
| `LeanLoop.RightLeaksNothing` | code/src/epoll_lt_lean_server.c:195-211 | a run in which no echo is ever wrong has leaked nothing |
| `ClosedLoop.SplitRequestMismatch` | code/src/epoll_lt_server.c:196-206 | without whole delivery the claim is false in both modes: a request that arrives as 10 and 19 bytes comes back in the wrong order and is counted as an error with every connection open |
| `PollServer.Server.AcceptAll` | code/src/server_poll.c:78-109 | every accepted descriptor is appended, the array doubled as often as needed, the entries before unchanged |
| `PollServer.Server.ShiftOver` | code/src/server_poll.c:155-157 | the inner loop removes entry i and keeps the order of the rest |
| `PollServer.Server.Compact` | code/src/server_poll.c:151-162 | the nested loop terminates and leaves exactly the order-preserving filter of the entries with fd != -1, although it steps its index back and its bound down |
| `PollServer.KeepWithout` | code/src/server_poll.c:154-160 | dropping an unused entry changes nothing of what is kept |
| `PollServer.ScanToFacts` | code/src/server_poll.c:72-149 | however the scan goes: entries visited are marked or unchanged, later entries are as polled, what was accepted is appended behind them unvisited, and each connection is served at most once |
| `PollServer.Server.Scan` | code/src/server_poll.c:72-149 | the loop over the old bound with mutation under way equals the fold over the entries that were polled |
| `PollServer.PassInv` | code/src/server_poll.c:72-162 | a pass keeps: slot 0 is the listener, the others are exactly the open clients, and no descriptor occurs twice |
| `PollServer.PassOutcome` | code/src/server_poll.c:72-162 | the open clients after a pass are those before and those accepted, less those served whose answers close them; each served one had its one read and echo, every other is as it was |
| `PollServer.Server.Pass` | code/src/server_poll.c:72-162 | a whole pass in place: the array is the listener, the surviving old clients in order, and the accepted ones; each ready old entry is served once, in order; the invariant and 1 <= nfds <= poll_cap hold |
| `PollServer.RunKeeps` | code/src/server_poll.c:54-163 | over every run of the main loop, for any arrivals, events, answers and accepted descriptors: slot 0 is the listener, the others are exactly the open clients, each once, and every connection has echoed exactly what it consumed |
| `SelectServer.HighestIsMax` | code/src/server_select.c:72-77 | walking max_fd down stops at the maximum of what is left |
| `SelectServer.NothingAbove` | code/src/server_select.c:33-103 | stopping at the moving max_fd loses nothing: no descriptor above it would be visited |
| `SelectServer.ScanToFacts` | code/src/server_select.c:33-103 | at every descriptor of the scan max_fd is exactly the maximum of master_set, master_set is the listener and the open clients, and the clients served are the ready ones below, in order |
| `SelectServer.ReadyBelowOnce` | code/src/server_select.c:33-34 | that list holds each ready client once, in ascending order |
| `SelectServer.AcceptedStayUnvisited` | code/src/server_select.c:36-61 | a ready client not yet visited is as select found it and was not accepted in this scan |
| `SelectServer.ScanNet` | code/src/server_select.c:33-103 | each ready client is served once, from its state before the pass; an accepted one is untouched by the scan; every other is unchanged |
| `SelectServer.PassOutcome` | code/src/server_select.c:33-103 | the open clients after a pass are those before and those accepted, less those served whose answers close them; each served one had its one read and echo, every other is as it was |
| `SelectServer.Server.AcceptAll` | code/src/server_select.c:38-61 | descriptors below FD_SETSIZE join the set and raise max_fd; others are refused |
| `SelectServer.Server.CloseClient` | code/src/server_select.c:69-77 | clears one bit and recomputes max_fd only when it was the highest |
| `SelectServer.Server.Pass` | code/src/server_select.c:24-103 | a whole pass in place equals the fold to FD_SETSIZE, serves exactly the ready clients in order, and keeps the invariant |
| `SelectServer.RunKeeps` | code/src/server_select.c:23-104 | over every run of the main loop: max_fd is exactly the maximum of master_set and below FD_SETSIZE, master_set is the listener and the open clients, and every connection has echoed exactly what it consumed |
| `Histogram.RankInSorted` | code/loadgen/loadgen.c:488-503 | in ascending order, element k is below b if and only if more than k values are: the link between counting and sorting |
| `Histogram.Scan` | code/loadgen/loadgen.c:480-503 | each percentile is found if and only if the histogram holds its rank, and is then the first bucket to reach it, although the loop stops as soon as the last one is found |
| `Histogram.ReachesMonotone` | code/loadgen/loadgen.c:488-503 | percentiles that are found ascend with their ranks |
| `Histogram.OrderStatistic` | code/loadgen/loadgen.c:488-503 | for rank c from 1: a bucket is found if and only if element c - 1 of the sorted values falls within the histogram, and it is that element |
| `LatencyReport.Worker.Record` | code/loadgen/loadgen.c:269-280 | after any sequence of latencies, each bucket counts its own modulo 2^32, overflow counts those of a second or more, and negative ones are in neither |
| `LatencyReport.ExactIff` | code/loadgen/loadgen.c:275 | the 32-bit histogram is exact if and only if no bucket was hit 2^32 times |
| `LatencyReport.Merge` | code/loadgen/loadgen.c:455-473 | the merged histogram is the sum over the workers, those without a histogram contributing only their counters |
| `LatencyReport.Summarize` | code/loadgen/loadgen.c:449-507 | merge, scan and the overflow rule together: each number is the first bucket with which 50 or 99 of 100, or 999 of 1000, of the requests are reached, rounded down |
| `LatencyReport.AllKeptIff` | code/loadgen/loadgen.c:273-279 | the histogram and the overflow count take in all latencies if and only if none is negative |
| `LatencyReport.Accounting` | code/loadgen/loadgen.c:266-280 | completed requests = merged mass + overflow if and only if no latency was negative |
| `LatencyReport.ReportedShares` | code/loadgen/loadgen.c:458-507 | with two requests or more and a monotone clock, in terms of the n latencies alone: p50 has so many below it that with it they are no more than 50 n / 100, and so many up to it that with one more they would be; the same for 99 of 100 and 999 of 1000; where that needs a latency of a second or more, 0 (a million for p99.9) is reported |
| `LatencyReport.ReportIsOrderStatistic` | code/loadgen/loadgen.c:458-507 | with two requests or more and a monotone clock: each reported percentile is the element of its rank among all workers' latencies sorted, or 0 (a million for p99.9) where that latency is a second or more |
| `LatencyReport.ReportAscendsIff` | code/loadgen/loadgen.c:478-511 | p99 <= p99.9 is always reported; p50 <= p99 if and only if the latency of rank 99 is below a second, or that of rank 50 is below a microsecond or not below a second |
| `LatencyReport.MedianAboveP99` | code/loadgen/loadgen.c:478-511 | three latencies of a microsecond, a second and a second are reported as 1, 0 and a million |
| `LatencyReport.SingleRequestReportsZero` | code/loadgen/loadgen.c:480-502 | with a single request all three percentiles are reported as 0 whatever its latency |
| `WorkSplit.Split` | code/loadgen/loadgen.c:406-443 | the clamps and the loop give every thread its shares and its core |
| `WorkSplit.SharesSumIff` | code/loadgen/loadgen.c:424-435 | the shares sum to the total if and only if the total is not negative or divides evenly, for every thread count |
| `WorkSplit.NegativeNotShared` | code/loadgen/loadgen.c:424-435 | two threads are given minus two of minus three connections |
| `WorkSplit.SharesEven` | code/loadgen/loadgen.c:434-435 | shares of two threads differ by at most one, earlier threads never having less |
| `WorkSplit.ActiveFits` | code/loadgen/loadgen.c:406-435 | num_active <= num_conns on every thread whenever active <= total, for all integers |
| `CoreList.ParseCoreList` | code/loadgen/loadgen.c:344-365 | fills the table with the expansion of the list cut at max_cores and leaves the rest of the table alone |
| `CoreList.AddRange` | code/loadgen/loadgen.c:356-358 | the inner loop appends an ascending range as far as there is room |
| `CoreList.ParseJoined` | code/loadgen/loadgen.c:344-365 | parsing a written list of cores and of ranges gives the cores meant, for every list |
| `CoreList.ScriptList` | code/scripts/task4_scenario1.py:85 | the comma-joined list 1 to n of the scripts parses to exactly those cores, up to the size of the table |

## Left out

- System calls, liburing and the kernel themselves: they are the script and the steps described
  above. Assumed of them: a short read means an empty queue; an edge is raised by every arrival and
  whenever a refused write finds space again; only receive completions with res > 0 carry a buffer;
  the buffer ring writes slot (tail + offset) & mask and advances a 16-bit tail; accept returns
  descriptors that are not open, and malloc addresses that are not in use.
- Allocation failure: the lean server drops a remainder, the poll server doubles poll_cap before
  realloc succeeds, a worker that cannot create its epoll instance frees its histogram without
  clearing the pointer. Allocations and epoll_create1 succeed here; a worker whose histogram could
  not be allocated is modelled as handing over none.
- EndToEnd.NothingLost: the sum is stated while the server side is open; a closed server discards
  the rest of its buffer, and then only the bounds are stated.
- ClosedLoop.NoMismatchWhole: a corollary for whole delivery; for any delivery the exact condition is
  in ClosedLoop.RightThroughoutIff.
- UringOrder.SentInOrder: a corollary for kernels that complete the sends of a descriptor oldest
  first; the exact condition is in UringOrder.SentInOrderIff.
- UringEndToEnd.NoMismatch: a corollary for whole writes; the exact condition is in
  UringEndToEnd.NothingLostIff.
- UringPayload.EveryByteKept: speaks of what is handed to sends; what becomes of a send that reports
  fewer bytes than it was given is in UringOptLoop. UringEcho.EchoesInOrder in the same way leaves a
  short write to UringEndToEnd.
- UringRearm.NeverDeaf: a corollary for runs in which a flush of a full queue takes an entry; the
  exact condition is in UringRearm.NeverDeafIff.
- EdgeLoop.NeverAtRest: a byte on its way back takes up room until the client reads it; how the
  kernel divides the room between its two socket buffers is not represented.
- EpollServer.Drive: registration of an accepted descriptor succeeds; the code closes it otherwise.
- UringOptServer.Server.ProcessBatch: descriptors closed and used again by a new connection while an
  old receive is still armed are the same descriptor to the model, as they are to the code.
- LatencyReport.ReportIsOrderStatistic: completed requests and ranks are unbounded; the 64-bit
  products total * 999 of the code wrap from 2^64 / 999 requests on.
- CoreList.ParseCoreList: atoi is unbounded; strtok, strchr and atoi are described by what they
  return, not by how they search.
- Counters (g_events, g_requests, errors, completed_requests) are unbounded.
- Partly prepared submission entries, and closing of descriptors beyond the bookkeeping, are not
  represented; a connection once closed is closed in the model.
- The clock, warm-up and steady-state windows, throughput, CPU percentages and the printed line:
  time and floating point. A latency is a real number of microseconds.
- Socket setup, non-blocking mode, TCP_NODELAY, signals, CPU pinning, ring initialisation flags:
  plumbing.
- server_blocking.c and reference_server.c: the same echo loop with less state.
- The Python runners, plots and reports: input, output and data.
