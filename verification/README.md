# Models of the book examples

This project models the parts of the repository that hold real state machines, pointer
structures, protocols and codecs, and proves what they promise. Most of the original code
changes things in place; so do the methods here, on classes, arrays and linked nodes. Each
method is proved against a function on values, and the properties are proved about the
functions and about runs of transitions.

- **Retransmitting writer on a timer queue.** `TimeVals`, `TimerList`: time values and the
  sorted list of timers. `TimerQueue`: the linked lists of `tselect.c`, in blocks of 25 nodes.
  `WriterModel`: one event of `xout3.c` at a time, and the correspondence of records and
  timers. `Dispatch`: the dispatch loop. `WriterProgram`: the program itself. `Protocol`,
  `ProtocolSafety`: all runs of the writer, the two byte streams and the lossy peer; `Peer`:
  the peer's own loop (`extsys.c`). `WriterTrace`, `WriterRun`: the layers meet, for
  `WriterProgram` refines `WriterModel` and `Dispatch`, and `WriterRun.Execute`, the main loop
  on linked lists and arrays, does what a script of its world asks for and leaves behind the
  run of `Protocol` that it was.
- **Heartbeats.** `Heartbeat`: client and server against an arbitrary network, and exactly when
  they give up. `HeartbeatPair`: both together over delaying channels.
- **Event loop** of chapter 14. `EventLoopModel`: its transitions. `EventLoopProgram`: its
  methods and the main loop, whose executions are runs of those. `EventLoopSafety`: no wakeup
  lost, doubled or made up, over all runs of polite coroutines. `EventLoopFaults`: politeness
  is exactly what that takes.
- **Shared-memory buffers.** `SharedBuffers`: the free list threaded through the buffers' own
  bytes. `BufferPassing`: producer and consumer under every interleaving.
- **MapReduce.** `MapReduce`: the chunked reduction against the one-pass count.
- **Option scanner.** `GetOpt`: `getopt` and what calling it until the end gives.
- **Streams, framers, codecs.** `Records`, `LineReader`, `DelimFramer`, `LengthFramer`,
  `VoteProtocol`, `VoteEncoding`, `VoteText`, `VoteServer`, `Survey`, with `Bytes`, `Decimal`
  and `Stdio` below them.
- **Estimator and breaker.** `Rtt`: the retransmission timeout of `rtt.c` over exact reals.
  `CircuitBreaker`: the breaker of chapter 10 with any number of requests under way.

Input from outside is a parameter: a byte stream with a script of chunk sizes and interrupts,
clock readings that do not go back, the answers of `select`, what a coroutine does when it is
resumed, which packets the peer ignores.

Where the code and its documentation differ, the code is modelled:

- `tselect.c:53` carries only above one million microseconds (`TimeVals.DeadlineExact`).
- `LengthFramer.c:13` says the stream is always left empty; it is left at the next message
  (`LengthFramer.PutIsGot`).
- `DelimFramer.c:11` says a message broken off by the end of the stream is a failure; it is
  not noticed if its length is a multiple of the buffer's (`DelimFramer.BrokenOff`).
- `readline.c` (UNP) returns `maxlen` for a line it cut (`LineReader.UnpReader.Readline`).
- `VoteEncodingText.c:24` speaks of truncation; the length returned is that of the whole text
  (`VoteText.Encode`).
- `rtt.h` names 60 seconds the largest timeout; backing off goes beyond it
  (`Rtt.LimitExceeded`).

Results that hold only under a condition come with it. The event loop loses and misdirects
wakeups even if each socket is awaited by one coroutine only (`EventLoopFaults.StaleRegistration`
is such a run). It works exactly if its coroutines are polite: one that goes on closes no socket
but its own, awaits none that somebody else waits for, and closes its own before it awaits
another or ends; awaiting its own socket again needs no closing, and the main coroutine may
return as it likes (`EventLoopFaults.PolitenessIsExact`). The
heartbeat client spoils a message if it sends a heartbeat while part of that message is in
its buffer (`Heartbeat.HeartbeatOverwrites`, `Heartbeat.StreamIsRead`). The
heartbeat pair needs 2d < T2, the reduction a chunk size from 2, the breaker `max_failures`
from 1, the survey strings without newlines, the text codec counts below 2^63.

`dafny verify dfyconfig.toml` checks everything.

## Model

| member | source | states |
|---|---|---|
| TimeVals.DeadlineExact | Effective.TCP.IP.Programming/tselect.c:50-57 | a deadline is exactly `ms` milliseconds after the reading; it is stored with a full second of microseconds exactly when the sum is one million, because the carry test is strict |
| TimeVals.ExpiryExact | Effective.TCP.IP.Programming/tselect.c:112 | the expiry test agrees with absolute microseconds also for a deadline that was not carried |
| TimeVals.OrderExact | Effective.TCP.IP.Programming/tselect.c:58-61 | the list order never contradicts absolute time; equal times compare unequal exactly when one of them was not carried |
| TimeVals.WaitExact | Effective.TCP.IP.Programming/tselect.c:120-130 | the wait for `select` is strictly positive and is exactly the head's deadline minus `now` |
| TimeVals.DeadlineLater | Effective.TCP.IP.Programming/tselect.c:50-57 | a timer armed for a positive delay at or after `now` is not due at `now` |
| TimerList.InsertIsSplice | Effective.TCP.IP.Programming/tselect.c:58-63 | arming inserts at the first timer it is strictly before, and changes nothing else |
| TimerList.InsertSorted | Effective.TCP.IP.Programming/tselect.c:58-63 | arming keeps the list sorted and goes behind every timer with the same (sec, usec) |
| TimerList.InsertPermutes | Effective.TCP.IP.Programming/tselect.c:58-63 | arming adds exactly the new timer |
| TimerList.RemoveIsSplice | Effective.TCP.IP.Programming/tselect.c:75-85 | cancelling unlinks the first timer with the id, or nothing |
| TimerList.RemoveMembers | Effective.TCP.IP.Programming/tselect.c:75-85 | with distinct ids cancelling removes the timer with the id and no other |
| TimerList.RemoveSorted | Effective.TCP.IP.Programming/tselect.c:75-85 | cancelling keeps the order |
| TimerList.RemoveInsert | Effective.TCP.IP.Programming/tselect.c:40-88 | cancelling undoes arming |
| TimerList.DueArePrefix | Effective.TCP.IP.Programming/tselect.c:112 | in a sorted list the timers that are due are exactly the leading ones |
| TimerQueue.NewBlock | Effective.TCP.IP.Programming/tselect.c:27-33 | a block is 25 different new nodes linked in order |
| TimerQueue.Timers.AllocateTimer | Effective.TCP.IP.Programming/tselect.c:21-38 | takes the head of the free list, after adding a block if it is empty; every node ever allocated is on the active list, on the free list or the one in hand, and on one only |
| TimerQueue.Timers.FindSlot | Effective.TCP.IP.Programming/tselect.c:58-61 | the search through the linked list ends at the insertion point of the list specification |
| TimerQueue.Timers.Place | Effective.TCP.IP.Programming/tselect.c:58-63 | relinking the pointers gives the list with the timer inserted, and gives back the node in hand |
| TimerQueue.Timers.Timeout | Effective.TCP.IP.Programming/tselect.c:40-66 | the pointer structure after arming holds the old list with the new timer inserted; ids count up; the lists stay well formed and conserved |
| TimerQueue.Timers.Unlink | Effective.TCP.IP.Programming/tselect.c:85-87 | unlinking a node and pushing it on the free list keeps both chains |
| TimerQueue.Timers.Untimeout | Effective.TCP.IP.Programming/tselect.c:70-88 | cancels the timer with the id; an unknown id is reported and changes nothing; every node is still on exactly one of the two lists |
| TimerQueue.Timers.Retire | Effective.TCP.IP.Programming/tselect.c:115-118 | unlinks whatever is the head and frees its node |
| WriterModel.FreeRec | Effective.TCP.IP.Programming/xout3.c:28-37 | the first free record, if there is one |
| WriterModel.FindRec | Effective.TCP.IP.Programming/xout3.c:39-48 | the first record in use with the cookie, if there is one |
| WriterModel.OneTimerPerRecord | Effective.TCP.IP.Programming/xout3.c:57-70 | no two active timers serve one record |
| WriterModel.AcceptKeepsInv | Effective.TCP.IP.Programming/xout3.c:125-138 | a message from standard input is refused exactly when no record is free, and otherwise keeps the invariant |
| WriterModel.FiredIsRetired | Effective.TCP.IP.Programming/tselect.c:112-119 | the timer `lost_ACK` arms goes in behind the running one, so the dispatcher unlinks the timer that fired; the new one is not due in this pass |
| WriterModel.FireKeepsInv | Effective.TCP.IP.Programming/xout3.c:57-70 | no callback ever meets a free record, and a turn of the dispatch loop keeps the invariant |
| WriterModel.CancelFindsTimer | Effective.TCP.IP.Programming/xout3.c:117-122 | the ACK path always finds the record's timer, and the record is in use |
| WriterModel.ReceiveKeepsInv | Effective.TCP.IP.Programming/xout3.c:101-123 | whatever part of an ACK arrives, and whatever it says, the program goes on and the invariant is kept |
| Dispatch.PassFiresDuePrefix | Effective.TCP.IP.Programming/tselect.c:110-119 | before its k-th turn the dispatch loop finds the k-th timer that was due at the sampled time: it fires exactly those, each once, in list order, whatever callbacks insert |
| Dispatch.PassStep | Effective.TCP.IP.Programming/tselect.c:112-119 | one more turn of the loop is one more step of the pass as long as the head is due |
| Dispatch.PassEnds | Effective.TCP.IP.Programming/tselect.c:110-119 | the loop ends after as many turns as timers were due, having sent exactly their packets, and then no timer is due |
| Dispatch.PassesKeepInv | Effective.TCP.IP.Programming/tselect.c:108-147 | however often `tselect` goes round it never gives up, keeps the invariant, and leaves no timer due |
| Dispatch.Rounds | Effective.TCP.IP.Programming/tselect.c:108-147 | `tselect` goes round up to and including the first answer with descriptors ready; every answer before is a timeout, and without such an answer the rounds last as long as the answers |
| WriterProgram.Program.constructor | Effective.TCP.IP.Programming/xout3.c:76-91 | the program starts in the model's initial state, the clock at the time it is started |
| WriterProgram.Program.GetFreeRec | Effective.TCP.IP.Programming/xout3.c:28-37 | the loop over the records finds the model's free record |
| WriterProgram.Program.FindMsgRec | Effective.TCP.IP.Programming/xout3.c:39-48 | the loop over the records finds the model's record |
| WriterProgram.Program.HandleInput | Effective.TCP.IP.Programming/xout3.c:125-138 | the program's state and the bytes sent are those of the model's `Accept`; it fails exactly when the model does |
| WriterProgram.Program.LostAckCallback | Effective.TCP.IP.Programming/xout3.c:63-70 | resends the stored packet unchanged and arms `drop`, the new timer's id replacing the old one in the record |
| WriterProgram.Program.DropCallback | Effective.TCP.IP.Programming/xout3.c:57-61 | frees the record, or fails if it was free |
| WriterProgram.Program.FireHead | Effective.TCP.IP.Programming/tselect.c:112-119 | one turn of the dispatch loop on the linked list and the record array is the model's `Fire` |
| WriterProgram.Program.RunDue | Effective.TCP.IP.Programming/tselect.c:110-119 | the dispatch loop terminates after exactly as many turns as timers were due, in the state and with the bytes of the model's pass |
| WriterProgram.Program.Round | Effective.TCP.IP.Programming/tselect.c:108-136 | one round: the clock is sampled once, everything due at that reading is fired and nothing is due afterwards; `select` is to wait for ever exactly if no timer is armed, and otherwise for exactly the time to the head's deadline |
| WriterProgram.Program.TSelect | Effective.TCP.IP.Programming/tselect.c:91-147 | as many rounds as the answers make, every one a complete pass; it returns exactly if one of the answers is that descriptors are ready |
| WriterProgram.Program.HandleAck | Effective.TCP.IP.Programming/xout3.c:101-123 | reassembles an ACK from partial reads in place and acts on it as the model's `Receive`; the loop looks at standard input afterwards exactly if that completed an ACK beginning with the ACK character |
| WriterRun.Execute | Effective.TCP.IP.Programming/xout3.c:74-140 | the whole program with its two streams and the lossy peer: what it reads, receives and samples is, in order, what the script of its world asks for, up to the first thing that is not possible; its execution is a run of the protocol, no timer that is due is left waiting when anything but the dispatcher acts, and it exits only for a message with all records in use |
| WriterTrace.TraceTells | Effective.TCP.IP.Programming/xout3.c:92-139 | what a script comes to when every `select` is answered: which messages are read (not those that stand beside an incomplete ACK), how many bytes are received, which records the peer reads, how often the clock is sampled |
| WriterTrace.TraceStops | Effective.TCP.IP.Programming/tselect.c:108-147 | when a `select` is never answered nothing happens after it |
| WriterRun.PossibleIsEnabled | Effective.TCP.IP.Programming/xout3.c:101-138 | what the program can be asked for is what the protocol has a step for |
| WriterRun.GoRound | Effective.TCP.IP.Programming/xout3.c:92-139 | one time round the main loop does what its part of the script asks for, up to the first thing that is not possible |
| WriterRun.Serve | Effective.TCP.IP.Programming/xout3.c:101-138 | a `recv` of no more than the ACK lacks, then standard input unless only part of an ACK arrived |
| WriterRun.Wait | Effective.TCP.IP.Programming/tselect.c:91-147 | `tselect`, on the linked list and the records, prolongs the run by as many samplings as it makes rounds, and leaves no timer due |
| WriterRun.Receive | Effective.TCP.IP.Programming/xout3.c:101-123 | receiving part of an ACK prolongs the run by just that |
| WriterRun.Enter | Effective.TCP.IP.Programming/xout3.c:125-138 | a message prolongs the run by just that, unless all records are in use and the program exits |
| WriterRun.PeerTurn | Effective.TCP.IP.Programming/extsys.c:18-33 | the peer's reading a record, or giving up at one that is too long, prolongs the run; it happens exactly if there is one and the peer still reads |
| WriterRun.Select | Effective.TCP.IP.Programming/tselect.c:108-147 | any number of rounds of `tselect` is a stretch of a run with the same effect on writer and wire, and with a sampling for each round |
| ProtocolSafety.StepKeeps | Effective.TCP.IP.Programming/xout3.c:92-139 | every step of writer, channels and peer keeps the system invariant |
| ProtocolSafety.RunsAreSafe | Effective.TCP.IP.Programming/xout3.c:74-140 | the invariant holds in every state of every run |
| ProtocolSafety.MessagesAreTreatedAlike | Effective.TCP.IP.Programming/xout3.c:57-139 | over every run: each message is sent once or twice, at least T1 apart; it is dropped only T2 after the second sending; it is acknowledged only if the peer read it; message count = acknowledged + dropped + in use |
| ProtocolSafety.HistoryIsStable | Effective.TCP.IP.Programming/xout3.c:57-139 | over every run a cookie keeps its meaning, and an acknowledged or dropped message stays so and is not sent again |
| ProtocolSafety.ServedInTime | Effective.TCP.IP.Programming/tselect.c:110-119 | over every run, whenever no timer is due: each live message was sent once and less than T1 has passed since its timer was armed, or twice and less than T2 |
| ProtocolSafety.AcknowledgedIsSettled | Effective.TCP.IP.Programming/xout3.c:117-122 | over every run: a message whose ACK was taken in is acknowledged or dropped |
| ProtocolSafety.NothingIsMadeUp | Effective.TCP.IP.Programming/xout3.c:125-138 | over every run: the c-th cookie stands for the c-th message typed, and the ACKs sent are for exactly the packets the peer read and did not ignore, in order |
| ProtocolSafety.PeerEchoes | Effective.TCP.IP.Programming/extsys.c:18-33 | the next record is the packet of the next cookie sent; unless ignored or too long it is answered by its ACK frame |
| ProtocolSafety.ResendIsIdentical | Effective.TCP.IP.Programming/xout3.c:63-70 | in every safe state: what `lost_ACK` sends is byte for byte the packet of the message as it was entered |
| ProtocolSafety.BothSendingsAreEqual | Effective.TCP.IP.Programming/xout3.c:63-70 | over every run: the second sending of a cookie puts the same bytes on the wire as the first |
| ProtocolSafety.OnlyExhaustionStops | Effective.TCP.IP.Programming/xout3.c:28-139 | over every run only a full record pool makes the writer exit: no callback fails, every ACK is well formed and names a message the peer read, and input is refused exactly when all records are in use |
| ProtocolSafety.AckIsFrame | Effective.TCP.IP.Programming/xout3.c:103-116 | ACK frames never lose alignment, however the bytes arrive |
| ProtocolSafety.LateAckIsHarmless | Effective.TCP.IP.Programming/xout3.c:107-122 | a complete ACK changes nothing but the reassembly buffer exactly if it is malformed or no record in use has its cookie |
| ProtocolSafety.NextPacket | Effective.TCP.IP.Programming/extsys.c:18-33 | the peer always reads whole packets in the order of sending; one over its buffer makes it give up |
| ProtocolSafety.AckKeeps | Effective.TCP.IP.Programming/xout3.c:117-122 | an ACK for a record in use settles exactly its message |
| ProtocolSafety.DropKeeps | Effective.TCP.IP.Programming/xout3.c:57-61 | dropping happens at least T2 after the second sending and settles exactly its message |
| ProtocolSafety.PassIsTurns | Effective.TCP.IP.Programming/tselect.c:110-119 | the program's dispatch pass is a segment of a run: its turns are enabled one after the other and lead to the same state |
| Peer.Serve | Effective.TCP.IP.Programming/extsys.c:18-33 | the peer's loop, overwriting its buffer in place, sends and writes out what the stream specification says, for any chunking of its input |
| Peer.EchoOne | Effective.TCP.IP.Programming/extsys.c:18-33 | one packet is answered by the ACK byte and its own cookie, or ignored |
| Peer.PeerAcksWhatItKeeps | Effective.TCP.IP.Programming/extsys.c:18-33 | a stream of packets, up to where the peer gives up (no whole record, an empty one, one over its buffer), is answered with exactly the ACK frames of those not ignored, in order, whatever was left in the buffer |
| Peer.PeerWritesWhatItKeeps | Effective.TCP.IP.Programming/extsys.c:28-29 | and exactly the messages in those packets are written out, in order |
| Heartbeat.HbClient.TimedOut | Effective.TCP.IP.Programming/hb_client.c:27-38 | the client's reaction to a timeout, on its fields and message buffer |
| Heartbeat.HbClient.Received | Effective.TCP.IP.Programming/hb_client.c:41-52 | the client's reassembly of a message in place |
| Heartbeat.HbServer.TimedOut | Effective.TCP.IP.Programming/hb_server.c:31-39 | the server's reaction to a timeout |
| Heartbeat.HbServer.Received | Effective.TCP.IP.Programming/hb_server.c:42-73 | the server's reassembly and reaction to a complete message |
| Heartbeat.ClientMain | Effective.TCP.IP.Programming/hb_client.c:21-55 | the client gives up exactly T1 + 3 T2 after the last byte before the first silence of that length; it sends a heartbeat exactly when it has heard nothing for T1, for T2 more, and for T2 more again; what the heartbeats contain and which messages are completed is a function of the arrivals, whatever the chunking |
| Heartbeat.BeatingOnTimeout | Effective.TCP.IP.Programming/hb_client.c:27-38 | each of the first three timeouts adds its moment to the heartbeats since the last arrival; the fourth is the end |
| Heartbeat.Read | Effective.TCP.IP.Programming/hb_client.c:41-55 | reading an arrival puts its bytes into the buffer, never more than a message lacks at a time, and completes messages as the specification says |
| Heartbeat.AbsorbedIsWhole | Effective.TCP.IP.Programming/hb_client.c:41-55 | however a stream is cut up, the messages completed are its consecutive pieces, and what is left of it is in the buffer |
| Heartbeat.StreamIsRead | Effective.TCP.IP.Programming/hb_client.c:21-55 | the client reads the messages of the stream it hears, provided that every heartbeat it sends goes out between messages |
| Heartbeat.HeartbeatOverwrites | Effective.TCP.IP.Programming/hb_client.c:32-33 | a heartbeat sent meanwhile overwrites what is there of a message, exactly unless that begins like a heartbeat |
| Heartbeat.ServerMain | Effective.TCP.IP.Programming/hb_server.c:25-74 | the server echoes exactly the heartbeats among the messages it hears; it gives up exactly T1 + 4 T2 after the last byte before the first silence of that length, unless a complete message of unknown type ended before: then it exits when that message's last byte arrives |
| Heartbeat.TimeOfTimeout | Effective.TCP.IP.Programming/hb_client.c:27-38 | a timeout moves a program on to its next wait, and the fourth in a row comes after its whole patience |
| Heartbeat.ThroughMessage | Effective.TCP.IP.Programming/hb_server.c:50-73 | a complete message is echoed, passed over or fatal according to its type, and reading goes on at the next message |
| HeartbeatPair.RunHealthy | Effective.TCP.IP.Programming/hb_client.c:21-55 | over every run with 2d < T2 the connection is quiet, asking or answering, with the timing that keeps it so |
| HeartbeatPair.NoFalseAlarm | Effective.TCP.IP.Programming/hb_client.c:21-55 | over every run with skew and delay at most d and 2d < T2 the client never has two heartbeats out and the server never counts a miss |
| HeartbeatPair.DelayBoundIsSharp | Effective.TCP.IP.Programming/heartbeat.h:4-14 | 2d < T2 is exactly the condition under which no run has a false alarm |
| HeartbeatPair.SlowRun | Effective.TCP.IP.Programming/hb_client.c:27-38 | for every d with T2 <= 2d, a run in which the client sends a second heartbeat although nothing is lost |
| SharedBuffers.IntRoundTrip | Effective.TCP.IP.Programming/smb.c:6-11 | an index stored in a buffer's bytes is read back |
| SharedBuffers.AllocPops | Effective.TCP.IP.Programming/smb.c:138-149 | allocation takes the head of the free list, and fails exactly when the list is empty |
| SharedBuffers.ReleasePushes | Effective.TCP.IP.Programming/smb.c:152-161 | freeing puts the buffer at the head of the list |
| SharedBuffers.OverwriteSafe | Effective.TCP.IP.Programming/smb.c:6-11 | overwriting a buffer with any bytes leaves the free list intact exactly if the buffer is not on it |
| SharedBuffers.SharedMemory.InitFreeList | Effective.TCP.IP.Programming/smb.c:126-132 | the loop threads all buffers into one list in order, each once |
| SharedBuffers.SharedMemory.SmbAlloc | Effective.TCP.IP.Programming/smb.c:138-149 | the method on the shared array is the specification's allocation |
| SharedBuffers.SharedMemory.SmbFree | Effective.TCP.IP.Programming/smb.c:152-161 | the method on the shared array is the specification's release |
| BufferPassing.RunInv | Effective.TCP.IP.Programming/smbc.c:11-16 | under every interleaving the free list, the ownership of all buffers, the indices in flight and the texts agree |
| BufferPassing.InitialIsStart | Effective.TCP.IP.Programming/smb.c:126-132 | the memory as it is first set up, with both programs at their beginning, is a start of such runs |
| BufferPassing.OneOwner | Effective.TCP.IP.Programming/smb.c:138-185 | each buffer is in exactly one of: free list, producer, flight, consumer; a received index is always a buffer's; allocation fails exactly when consumer and channel hold every buffer |
| BufferPassing.PrintedIsPrefix | Effective.TCP.IP.Programming/smbc.c:12-16 | over every run the lines printed are, each up to its first NUL, a prefix of the lines read from standard input, and the difference is what is about to be sent, in flight or about to be printed |
| BufferPassing.FilledShows | Effective.TCP.IP.Programming/smbc.c:12-14 | a buffer filled with a line shows the line up to its first NUL, whatever was in it |
| BufferPassing.NextIndex | Effective.TCP.IP.Programming/smb.c:164-175 | the next four bytes of the channel are the oldest index in flight |
| BufferPassing.ReadKeeps | Effective.TCP.IP.Programming/smbc.c:11-16 | filling an owned buffer, free-list link included, disturbs no other buffer and no list |
| EventLoopFaults.PolitenessIsExact | Concurrency.In.Python.With.Asyncio/chapter_14/listing_14_12.py:51-74 | the exact condition, over everything the loop can do from its start: the coroutines' steps are polite if and only if at no point a wakeup can be lost, doubled, made up or robbed of its socket by coroutines that from then on only await their own sockets again |
| EventLoopFaults.InvIsExact | Concurrency.In.Python.With.Asyncio/chapter_14/listing_14_12.py:51-74 | for one step from a state in good order: it is polite exactly if what comes after it is harmless |
| EventLoopFaults.Doom | Concurrency.In.Python.With.Asyncio/chapter_14/listing_14_12.py:65-74 | once somebody waits unregistered, or something is registered for which nobody waits, some choice of ready sockets makes calm coroutines run into a fault |
| EventLoopFaults.ImpoliteDooms | Concurrency.In.Python.With.Asyncio/chapter_14/listing_14_12.py:14-38 | every impolite step leads into such a state |
| EventLoopFaults.InvIsHarmless | Concurrency.In.Python.With.Asyncio/chapter_14/listing_14_12.py:51-74 | from a state in good order calm coroutines never run into a fault, whatever sockets become ready |
| EventLoopFaults.StaleRegistration | Concurrency.In.Python.With.Asyncio/chapter_14/listing_14_12.py:14-23 | one such run: the main coroutine awaits a socket, then another without closing the first, and is resumed at a future that is not complete |
| EventLoopSafety.StepExact | Concurrency.In.Python.With.Asyncio/chapter_14/listing_14_12.py:51-74 | the invariant survives a step of the loop if and only if the step is polite: a coroutine that goes on closes no socket but its own, awaits none that somebody else waits for, and closes its own before it awaits another or ends; the main coroutine may return as it likes |
| EventLoopSafety.StepKeepsCoherent | Concurrency.In.Python.With.Asyncio/chapter_14/listing_14_12.py:51-74 | every step keeps futures, tasks and the list of tasks to run in order, polite or not, where each event has its coroutine |
| EventLoopSafety.CoherentSane | Concurrency.In.Python.With.Asyncio/chapter_14/listing_14_12.py:51-74 | that order gives everything the methods of the program require |
| EventLoopSafety.RunInv | Concurrency.In.Python.With.Asyncio/chapter_14/listing_14_12.py:51-74 | the invariant holds in every state of every polite run |
| EventLoopSafety.AtMostOneWakeup | Concurrency.In.Python.With.Asyncio/chapter_14/listing_14_11.py:14-28 | over every polite run a coroutine has gone on at most once from each future, and then with that future's result |
| EventLoopSafety.NoLostWakeup | Concurrency.In.Python.With.Asyncio/chapter_14/listing_14_12.py:51-74 | whenever the loop blocks in `select`, every completed future has resumed its waiter, and every other one is registered with the callback that will |
| EventLoopSafety.EveryTaskBegins | Concurrency.In.Python.With.Asyncio/chapter_14/listing_14_12.py:65-68 | whenever the loop blocks, every unfinished task has begun |
| EventLoopSafety.TopResumes | Concurrency.In.Python.With.Asyncio/chapter_14/listing_14_12.py:54-63 | a completed future of the main coroutine resumes it, once |
| EventLoopSafety.TaskEventKeeps | Concurrency.In.Python.With.Asyncio/chapter_14/listing_14_11.py:23-28 | a ready socket completes its future and resumes its task, once |
| EventLoopSafety.ReadyIsDelivered | Concurrency.In.Python.With.Asyncio/chapter_14/listing_14_12.py:70-74 | what `select` reports for the ready sockets is what their futures get, each its own, whatever the coroutines do meanwhile |
| EventLoopSafety.StepDelivers | Concurrency.In.Python.With.Asyncio/chapter_14/listing_14_12.py:43-49 | only the event handled gives a result, to its own future and with its own data |
| EventLoopSafety.StepSpawns | Concurrency.In.Python.With.Asyncio/chapter_14/listing_14_12.py:40-41 | a coroutine that goes on leaves behind exactly the tasks it creates, not yet begun; nobody else creates any |
| EventLoopProgram.EventLoop.Run | Concurrency.In.Python.With.Asyncio/chapter_14/listing_14_12.py:51-74 | the loop of `run` on a script of what the coroutines and `select` do, one entry a step: it makes the model's steps as the script has them, and ends only when the main coroutine has returned, the script is at its end or its next entry is not possible |
| EventLoopProgram.EventLoop.Select | Concurrency.In.Python.With.Asyncio/chapter_14/listing_14_12.py:70-72 | each ready socket with what it is registered with at that moment |
| EventLoopProgram.EventLoop.RegisterTasks | Concurrency.In.Python.With.Asyncio/chapter_14/listing_14_12.py:40-41 | the loop that registers tasks appends exactly them |
| EventLoopProgram.EventLoop.RegisterSocketToRead | Concurrency.In.Python.With.Asyncio/chapter_14/listing_14_12.py:14-23 | a new future replaces whatever was registered for the socket |
| EventLoopProgram.EventLoop.RunTop | Concurrency.In.Python.With.Asyncio/chapter_14/listing_14_12.py:54-63 | the top of the loop in `run` is the model's transition |
| EventLoopProgram.EventLoop.Step | Concurrency.In.Python.With.Asyncio/chapter_14/listing_14_11.py:14-21 | a task's `step` is the model's transition |
| EventLoopProgram.EventLoop.DropFinished | Concurrency.In.Python.With.Asyncio/chapter_14/listing_14_12.py:68 | finished tasks are dropped, the others kept in order |
| EventLoopProgram.EventLoop.RunTasks | Concurrency.In.Python.With.Asyncio/chapter_14/listing_14_12.py:65-68 | the loop over the tasks, including those registered meanwhile, and the list comprehension after it make the steps of the model as the script has them, and stop short only where it ends or does not fit |
| EventLoopProgram.EventLoop.SetResult | Concurrency.In.Python.With.Asyncio/chapter_14/listing_14_8.py:14-21 | `set_result` stores the result and runs the callback that was added |
| EventLoopProgram.EventLoop.RunEvents | Concurrency.In.Python.With.Asyncio/chapter_14/listing_14_12.py:70-74 | the loop over the ready sockets makes the steps of the model as the script has them, and stops short only where it ends or does not fit |
| GetOpt.Parser.GetOpt | Effective.TCP.IP.Programming/getopt.c:56-117 | one call on the globals and the static pointer is the scan specification, `optopt` and `optarg` included; a missing argument gives `:` or `?` as the option string asks |
| GetOpt.CallsGetOn | Effective.TCP.IP.Programming/getopt.c:56-117 | every call that does not end the scan strictly consumes letters, and `optind` only grows and never exceeds the number of words |
| GetOpt.FlagsRead | Effective.TCP.IP.Programming/getopt.c:78-97 | letters in one word are returned one after the other, unknown ones as `?`, and then the rest of the word is read |
| GetOpt.ArgumentRead | Effective.TCP.IP.Programming/getopt.c:98-115 | an argument is the rest of the word or, if that is empty, the next word |
| GetOpt.ItemRead | Effective.TCP.IP.Programming/getopt.c:56-117 | a word group written by the rules is read as its options, and scanning goes on behind it |
| GetOpt.OperandsStop | Effective.TCP.IP.Programming/getopt.c:66-77 | the scan stops at an operand, at `--` (which is skipped), or at the end of the words |
| GetOpt.RenderedIsRead | Effective.TCP.IP.Programming/getopt.c:56-117 | any list of options, clustered or not, arguments attached or in the next word, is read back in order with its arguments, and `optind` is left at the first operand; letters the program does not know are told in their place |
| GetOpt.MissingIsTold | Effective.TCP.IP.Programming/getopt.c:103-112 | behind any such options, a last letter that lacks its argument is told, with `:` exactly if the option string begins with a colon and else with `?` |
| GetOpt.DashInWordEnds | Effective.TCP.IP.Programming/getopt.c:78-86 | a dash inside a word ends the scan with `optind` left at that word, unless the program knows the letter |
| GetOpt.OptStringDeclares | Effective.TCP.IP.Programming/getopt.c:78-98 | of an option string written for a list of letters exactly these are known, and take an argument exactly as declared, with or without a colon in front |
| Rtt.RttInfo.InitRtt | UNIX.Network.Programming/lib/rtt.c:22-35 | the first timeout is 3 seconds |
| Rtt.RttInfo.Start | UNIX.Network.Programming/lib/rtt.c:62-67 | the alarm is the timeout rounded to a whole second |
| Rtt.RttInfo.StopRtt | UNIX.Network.Programming/lib/rtt.c:79-102 | the measured time is the milliseconds over a thousand, and the update of the struct is the update of the specification |
| Rtt.RttInfo.TimedOut | UNIX.Network.Programming/lib/rtt.c:110-119 | backs off and tells whether to try again |
| Rtt.EstimatesStayInRange | UNIX.Network.Programming/lib/rtt.c:79-102 | for all samples in [0, M]: srtt in [0, M], rttvar in [0, max(0.75, M)], timeout in [2, 60] |
| Rtt.EstimatesAreMeans | UNIX.Network.Programming/lib/rtt.c:93-99 | after any measurements srtt is their weighted mean with ratio 7/8, and rttvar the weighted mean of their distances from the mean before each with ratio 3/4, the initial value fading |
| Rtt.MinMaxIsNearest | UNIX.Network.Programming/lib/rtt.c:12-20 | the timeout is the value within the limits that is nearest to the estimate |
| Rtt.ClosedForm | UNIX.Network.Programming/lib/rtt.c:79-102 | after n equal samples the estimates are the closed forms with ratios 7/8 and 3/4 |
| Rtt.NoSpuriousTimeout | UNIX.Network.Programming/lib/rtt.c:79-102 | after n >= 1 samples R the unclamped timeout is R + 7R(7/8)^n - (8R-3)(3/4)^n, and the timeout covers R exactly if R <= 60 |
| Rtt.BackoffDoubles | UNIX.Network.Programming/lib/rtt.c:110-119 | over all event sequences the timeout lies between 2 and 60 times two to the number of expiries since the last sample |
| Rtt.BackoffExact | UNIX.Network.Programming/lib/rtt.c:110-119 | over all event sequences the timeout is exactly what the last estimates gave, doubled once for each expiry since |
| Rtt.RetriesCounted | UNIX.Network.Programming/lib/rtt.c:110-119 | over all event sequences the retransmissions counted are the expiries since the last new packet, measured answers or not; so a packet is given up at its fourth |
| CircuitBreaker.Breaker.TryRequest | Concurrency.In.Python.With.Asyncio/chapter_10/listing_10_11.py:26-38 | the decision and the new fields are those of the specification, whether open, expired or closed |
| CircuitBreaker.Breaker.RequestFailed | Concurrency.In.Python.With.Asyncio/chapter_10/listing_10_11.py:50-54 | a failure is counted, and the first one since the reset is remembered |
| CircuitBreaker.Breaker.ResetBreaker | Concurrency.In.Python.With.Asyncio/chapter_10/listing_10_11.py:40-43 | failures and their time are forgotten, the last attempt is not |
| CircuitBreaker.StepKeeps | Concurrency.In.Python.With.Asyncio/chapter_10/listing_10_11.py:26-54 | every interleaving of requests keeps the invariant |
| CircuitBreaker.BreakerIsSound | Concurrency.In.Python.With.Asyncio/chapter_10/listing_10_11.py:26-54 | over every run: failures count exactly while their time is set; each counted failure is of a request checked within the window of the first; an attempt while open comes only after the reset interval from the attempt before |
| CircuitBreaker.AskedIsDecided | Concurrency.In.Python.With.Asyncio/chapter_10/listing_10_11.py:26-38 | over every run, from the history alone: a request is refused exactly if enough failures count and the reset interval since the last attempt is not over; otherwise it starts, and the failures are forgotten exactly if the circuit was open or the window since the first one is over |
| MapReduce.OnePass | Concurrency.In.Python.With.Asyncio/chapter_06/listing_6_7.py:10-17 | the one-pass program gives the count of all entries read, or raises |
| MapReduce.MapFrequencies | Concurrency.In.Python.With.Asyncio/chapter_06/listing_6_8.py:14-22 | the dictionary of one slice, or an exception |
| MapReduce.LineIsEntry | Concurrency.In.Python.With.Asyncio/chapter_06/listing_6_7.py:11-13 | of a line word, year, count, volumes with tabs between both programs read the word and the count, exactly if the count is a number |
| MapReduce.FieldsAreEntry | Concurrency.In.Python.With.Asyncio/chapter_06/listing_6_8.py:17 | of any other number of fields `map_frequencies` reads nothing, and the one-pass program the first and third of at least three |
| MapReduce.SplitIsTabbed | Concurrency.In.Python.With.Asyncio/chapter_06/listing_6_7.py:11 | splitting takes every line apart at all its tabs and nowhere else |
| MapReduce.TabbedIsSplit | Concurrency.In.Python.With.Asyncio/chapter_06/listing_6_7.py:11 | fields joined by tabs are split again |
| MapReduce.EntriesAreLines | Concurrency.In.Python.With.Asyncio/chapter_06/listing_6_7.py:10-17 | the entries are those of the lines one by one, if each of them can be read |
| MapReduce.TotalIsSum | Concurrency.In.Python.With.Asyncio/chapter_06/listing_6_7.py:14-17 | the count of a word is the sum of its entries, and only words with entries are counted |
| MapReduce.MergeDictionaries | Concurrency.In.Python.With.Asyncio/chapter_06/listing_6_8.py:25-33 | the loop over the second dictionary adds it to the first in place, and that first dictionary is the result |
| MapReduce.Partition | Concurrency.In.Python.With.Asyncio/chapter_06/listing_6_8.py:8-11 | the slices in order, all of full size but the last |
| MapReduce.ChunksFlatten | Concurrency.In.Python.With.Asyncio/chapter_06/listing_6_8.py:8-11 | the slices make up the data |
| MapReduce.MergeAllAppend | Concurrency.In.Python.With.Asyncio/chapter_06/listing_6_9.py:9-19 | merging is the same however the list of counters is cut in two |
| MapReduce.LevelKeepsTotal | Concurrency.In.Python.With.Asyncio/chapter_06/listing_6_9.py:13-18 | a level of the reduction keeps the total |
| MapReduce.Reduce | Concurrency.In.Python.With.Asyncio/chapter_06/listing_6_9.py:9-19 | the level loop ends and gives the merge of all counters for chunk sizes from 2; with 1 it gives the first counter only; without counters or with a size below 1 it raises |
| MapReduce.TotalAppend | Concurrency.In.Python.With.Asyncio/chapter_06/listing_6_8.py:14-33 | counting two stretches and merging is counting them together |
| MapReduce.MappedTotal | Concurrency.In.Python.With.Asyncio/chapter_06/listing_6_9.py:22-43 | mapping slices and merging gives the count of the whole, and fails exactly if that fails |
| MapReduce.MapReduceAll | Concurrency.In.Python.With.Asyncio/chapter_06/listing_6_9.py:22-43 | partition, map and reduce end, succeed exactly if there are lines and all are well formed, and give the one-pass count |
| Records.ReadN | Effective.TCP.IP.Programming/lib/readn.c:4-26 | reads exactly the bytes asked for, or all there are, in place, under any chunking and any interrupts |
| Records.Discard | Effective.TCP.IP.Programming/lib/readvrec.c:22-30 | throws away exactly the record, a bufferful at a time |
| Records.ReadVRec | Effective.TCP.IP.Programming/lib/readvrec.c:4-41 | one call gives the record at the front of the stream, its return value and the stream behind it |
| Records.ReadRecords | Effective.TCP.IP.Programming/vrs.c:20-29 | the reader's loop prints what the stream specification says |
| Records.NextAfterFrame | Effective.TCP.IP.Programming/lib/readvrec.c:4-41 | reading a framed record yields it, or nothing if it is too long, and always ends at its end |
| Records.NextRecordIsExact | Effective.TCP.IP.Programming/lib/readvrec.c:4-41 | for every stream: it counts as ended, and is used up, exactly if no whole frame stands at its front; otherwise that frame's record is read, or is too long, and the rest is what follows it |
| Records.ReaderPrintsWhatFits | Effective.TCP.IP.Programming/vrc.c:15-23 | for all lists of non-empty records and any stump behind them the reader prints exactly the records no longer than its buffer, in order |
| Records.EmptyRecordStopsReader | Effective.TCP.IP.Programming/lib/readvrec.c:16-41 | an empty record ends the reader as the end of the stream would |
| Records.ReaderStopsAtEmpty | Effective.TCP.IP.Programming/vrs.c:20-29 | for all lists of records: the reader prints exactly those that fit, up to the first empty one |
| Records.EverythingIsPrinted | Effective.TCP.IP.Programming/vrs.c:20-29 | every non-empty record that fits is printed if and only if none of them follows an empty record; an empty record itself is never printed |
| LineReader.LineIsLine | UNIX.Network.Programming/lib/readline.c:28-49 | a line has no newline but its last byte, and without one it is cut by the limit or the end |
| LineReader.UnpReader.MyRead | UNIX.Network.Programming/lib/readline.c:8-26 | a byte of what is buffered and still to come, in order, or the end |
| LineReader.UnpReader.Readline | UNIX.Network.Programming/lib/readline.c:28-49 | the line depends on the bytes ahead and the limit alone; a line cut short by the limit returns the buffer's length, not the line's |
| LineReader.UnpReader.ReadlineBuf | UNIX.Network.Programming/lib/readline.c:51-57 | shows exactly what is buffered |
| LineReader.EtcpReader.Readline | Effective.TCP.IP.Programming/lib/readline.c:4-40 | the line depends on the bytes ahead and the limit alone; a cut line is an error, an unfinished last line an end of file |
| LineReader.ReadLines | UNIX.Network.Programming/lib/readline.c:8-57 | over any number of calls: the lines returned and what is buffered and to come make up the stream |
| LineReader.ReadLinesEtcp | Effective.TCP.IP.Programming/lib/readline.c:4-40 | the same for the second implementation, with the same lines |
| LineReader.LinesArePrefix | UNIX.Network.Programming/lib/readline.c:28-49 | the lines of a stream joined are a prefix of it |
| DelimFramer.GetNextMsg | TCP.IP.Sockets.In.C/code/DelimFramer.c:17-37 | the piece in the buffer, the return value and the stream left, byte by byte |
| DelimFramer.PutMsg | TCP.IP.Sockets.In.C/code/DelimFramer.c:42-53 | refuses exactly the messages with a delimiter in them, else writes message and delimiter |
| DelimFramer.MessageComesBack | TCP.IP.Sockets.In.C/code/DelimFramer.c:17-53 | joining pieces rebuilds the message for every length and buffer, and leaves the stream at the next one |
| DelimFramer.ConversationComesBack | TCP.IP.Sockets.In.C/code/DelimFramer.c:17-53 | so does a whole conversation, whether or not a message was broken off behind it |
| DelimFramer.BrokenOff | TCP.IP.Sockets.In.C/code/DelimFramer.c:17-37 | a message the stream breaks off makes the program fail exactly if its length is no multiple of the buffer's; otherwise its pieces look complete and the stream ended |
| DelimFramer.ReadMessage | TCP.IP.Sockets.In.C/code/DelimFramer.c:17-37 | from two bytes of buffer on, the return values alone suffice to rebuild a message |
| DelimFramer.OneByteBufferIsAmbiguous | TCP.IP.Sockets.In.C/code/DelimFramer.c:17-37 | a full buffer is reported like the end of the stream exactly if the buffer has one byte |
| LengthFramer.GetNextMsg | TCP.IP.Sockets.In.C/code/LengthFramer.c:15-36 | the message, or its first part and its length if it does not fit, and in every case the stream left behind |
| LengthFramer.PutMsg | TCP.IP.Sockets.In.C/code/LengthFramer.c:42-51 | writes length and message, or refuses a message over 65535 bytes |
| LengthFramer.PutIsGot | TCP.IP.Sockets.In.C/code/LengthFramer.c:15-51 | what is put is got, whole or cut with its length told, and the stream is left behind it, unless the message is more than 512 bytes over the buffer: exactly then the waste buffer is overrun |
| LengthFramer.BrokenOff | TCP.IP.Sockets.In.C/code/LengthFramer.c:15-36 | a message the stream breaks off is noticed exactly if a part is missing that would have fitted the buffer; otherwise it is cut as if it were all there |
| VoteEncoding.Encode | TCP.IP.Sockets.In.C/code/VoteEncodingBin.c:45-65 | the message in place and zeros up to 12 bytes; dies exactly if it does not fit |
| VoteEncoding.Decode | TCP.IP.Sockets.In.C/code/VoteEncodingBin.c:70-87 | accepts exactly messages long enough with the magic number; a count not sent is left alone |
| VoteEncoding.Layout | TCP.IP.Sockets.In.C/code/VoteEncodingBin.c:1-16 | the wire format byte by byte: magic number and flags, a zero byte, the candidate and the count in network order |
| VoteEncoding.MessageRoundTrip | TCP.IP.Sockets.In.C/code/VoteEncodingBin.c:45-87 | every encoding is accepted, and gives back what was encoded exactly if the candidate fits 16 bits and a request has no count |
| VoteEncoding.BytesRoundTrip | TCP.IP.Sockets.In.C/code/VoteEncodingBin.c:45-87 | encoding what was decoded gives the bytes back exactly if their length suits their kind and the unused bits are zero |
| VoteServer.Server.Count | TCP.IP.Sockets.In.C/code/VoteServerTCP.c:41-48 | votes in range are counted modulo 2^64 and answered; inquiries, responses and unknown candidates are not counted |
| VoteServer.Server.Session | TCP.IP.Sockets.In.C/code/VoteServerTCP.c:33-65 | one client's loop through framer and codec: the tally and the bytes sent back are a function of the bytes received |
| VoteServer.Server.Run | TCP.IP.Sockets.In.C/code/VoteServerTCP.c:23-66 | the tally over the clients one after the other, and what each of them is sent |
| VoteServer.SessionCountsVotes | TCP.IP.Sockets.In.C/code/VoteServerTCP.c:33-63 | after a session each count is the one before plus the requests taken for the candidate that are no inquiries |
| VoteServer.RepliesTell | TCP.IP.Sockets.In.C/code/VoteServerTCP.c:33-63 | what a client decodes of the replies is, message for message, the answer: responses as they were, requests with the tally up to and including themselves, or zero for an unknown candidate |
| VoteServer.ClientLearns | TCP.IP.Sockets.In.C/code/VoteServerTCP.c:33-63 | end to end: whatever list of messages is encoded and framed, its answers are decoded |
| VoteServer.EchoesAreNotCounted | TCP.IP.Sockets.In.C/code/VoteServerTCP.c:41-48 | the server's output fed back into any server is echoed byte for byte and counts for nothing |
| VoteServer.ServerCountsVotes | TCP.IP.Sockets.In.C/code/VoteServerTCP.c:14-66 | over the server's whole life the counts are the votes of all sessions, broken-off ones included |
| VoteServer.FrameIsTaken | TCP.IP.Sockets.In.C/code/VoteServerTCP.c:37-40 | of whatever is framed the server takes what is neither empty nor over 500 bytes and decodes, and nothing else; a frame broken off is not taken |
| VoteText.Encode | TCP.IP.Sockets.In.C/code/VoteEncodingText.c:27-39 | the text as far as it fits before a NUL; the value returned is its full length even then; no result exactly if a response's head does not fit, when the C code goes on behind the buffer |
| VoteText.Tokenizer.Strtok | TCP.IP.Sockets.In.C/code/VoteEncodingText.c:46-80 | the token and the rest of the text, with the delimiter behind the token overwritten |
| VoteText.Decode | TCP.IP.Sockets.In.C/code/VoteEncodingText.c:44-88 | in place, token by token: the meaning of the text before the first NUL, or refusal |
| VoteText.ParseText | TCP.IP.Sockets.In.C/code/VoteEncodingText.c:27-88 | every text printed is read, and gives back the message but for a count that is clipped or not sent; the two spaces of a request do no harm |
| VoteText.TokensDecide | TCP.IP.Sockets.In.C/code/VoteEncodingText.c:44-88 | every text: it is read exactly if its tokens are the magic word, `v` or `i`, and a candidate, or `R`, a candidate and a count; what follows is not looked at |
| VoteText.BlankedIsTokens | TCP.IP.Sockets.In.C/code/VoteEncodingText.c:46-80 | the tokens are what stands between blanks |
| VoteText.CountIsClipped | TCP.IP.Sockets.In.C/code/VoteEncodingText.c:83 | a count is clipped to 64 bits with a sign and stored modulo 2^64 |
| VoteText.TextRoundTrip | TCP.IP.Sockets.In.C/code/VoteEncodingText.c:27-88 | a buffer with room for text and NUL gives the message back exactly if a count is below 2^63 and a request has none |
| Survey.ReadSurvey | TCP.IP.Sockets.In.C/code/SurveyCommon.cpp:38-59 | the nested loops give the survey, the state of the stream and the return value, or throw at a negative count |
| Survey.PrintSurvey | TCP.IP.Sockets.In.C/code/SurveyServer2.cpp:69-78 | the nested loops print the survey's text |
| Survey.SurveyComesBack | TCP.IP.Sockets.In.C/code/SurveyCommon.cpp:38-59 | a printed survey is read back, with the stream left behind it and in good order, exactly if no string in it holds a newline |
| Survey.QuestionsAreClean | TCP.IP.Sockets.In.C/code/SurveyCommon.cpp:44-56 | nothing read ever holds a newline |
| Survey.NegativeCountThrows | TCP.IP.Sockets.In.C/code/SurveyCommon.cpp:40-53 | a negative count makes the reading throw, of questions as of responses |
| Survey.NoCountFails | TCP.IP.Sockets.In.C/code/SurveyCommon.cpp:40-45 | where no number stands there are no questions, and the result tells |
| Survey.FailureStays | TCP.IP.Sockets.In.C/code/SurveyCommon.cpp:45-56 | on a stream that failed the remaining questions are empty, and it stays failed |
| Decimal.ScanPrinted | TCP.IP.Sockets.In.C/code/VoteEncodingText.c:78-83 | every printed number is scanned again, up to the first character that is no digit |

## Left out

- Real sockets, `select`, clocks, processes, files and printing; they are the parameters named above. Reading errors other than an interrupt, and writing errors, are not modelled.
- The wrap-around of timer ids and cookies at 2^32: a run stops where the message counter would wrap. `ms * 1000` is taken to fit an int.
- The NUL that `xout3.c:131` writes behind a message; a full 128-byte message would put it into the record's id, which is set right afterwards.
- Peer.Serve: for a record shorter than a cookie `extsys.c:28` hands `write` a negative length; the model writes nothing.
- A record over 128 bytes makes the peer of `extsys.c` give up; the model does the same, and the peer's end closes no connection of the writer's.
- `select` rewriting its timeout, and application messages of the heartbeat programs, which the sources leave as comments. A byte that arrives at the very moment of a timeout comes too late for that `select`.
- WriterProgram.Program.TSelect: leaves out calls without descriptor sets (where it can return 0) and errors of `select`; `xout3.c` always passes a set.
- WriterRun.Execute: the connection is never closed and no read or send fails, where `xout3.c` exits; it stops where the message counter would wrap.
- Ends of file and `recv` errors in the heartbeat programs, where they exit.
- Event loop: awaiting tasks, results that are `None`, and exceptions; a coroutine that closes a socket which is not registered gets a `KeyError`, and the model stops there. Coroutine bodies are arbitrary responses; the script has an entry for every step, also where no coroutine goes on. Futures and tasks are records addressed by index, so Python's object identity and garbage collection are not captured. One call of `select` reports each socket once.
- The lock, the semaphores and the Windows variant of `smb.c`: `smballoc` and `smbfree` are atomic steps.
- `getopt`: the complaint printed to stderr, and so `opterr`.
- The process pools and `asyncio.gather` around the reduction, of which only the order of results is kept. Python's `int()` and splitting of files into lines are a parameter and the input.
- Rounding in `rtt.c` (reals are exact), `rtt_base` and `rtt_ts`.
- The breaker's request timeout, its callback and the exceptions it raises are steps of the environment.
- Records.ReadN: read errors other than an interrupt are left out, and with them the -1 it returns.
- Records.ReadVRec: the same.
- LineReader.UnpReader.MyRead: the same.
- LineReader.UnpReader.Readline: the same; and the line is returned, not stored with its NUL in the caller's buffer.
- LineReader.EtcpReader.Readline: the same on both counts.
- LengthFramer.GetNextMsg: where more than 512 bytes must be thrown away the C code writes behind its waste buffer; the model ends with `Overrun`.
- VoteServer.Server.Session: an overrun just ends the session; and replies are always written.
- VoteText.Decode: does not say what a refused text leaves in the struct, nor what is left in the buffer it cuts up. Numbers beyond an int in `atoi` are kept as they are.
- VoteText.Encode: says nothing of the memory after a response whose head does not fit.
- Survey.ReadSurvey: a count beyond an int is a failed read with value zero; allocation of very long vectors does not fail. The recording of survey responses is not modelled.
- The echo, hello, UDP, multicast, address and Windows examples, the wrapper files, asio, database, aiohttp and tkinter listings: thin layers over libraries that are not shown.
- `chat_serv.c` client removal, `tcpmux.c` configuration, `BruteForceCoding`, `retry` and the finite-state table of `sol_04.py`: only easy members.
