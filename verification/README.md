# cio: a verified model of its network core

cio carries length-prefixed packets over TCP. Application threads open, connect,
feed and close descriptors through NetCenter; one loop thread gathers interest,
selects, and dispatches readiness to per-descriptor handlers, which reach NetCenter
through signals. This project models that core in Dafny and proves what holds over
all of its runs.

| file | content |
|---|---|
| `Bytes.dfy` | byte-order codecs |
| `Framing.dfy` | the packet format: printer, parser, and why the parser is the only one |
| `Channel.dfy` | one TCP channel as a value: socket state, interest, buffers, one step per handler |
| `ChannelLaws.dfy` | what each of those steps means, from the kernel's answers and the errno numbers alone |
| `NetIo.dfy` | the objects with their in-place buffers and tables, each method proved equal to a step of `Channel` |
| `Stream.dfy` | whole runs of two endpoints: what arrives is what was accepted |
| `Reactor.dfy` | whole runs of the loop over any number of descriptors: the order of reports |
| `Reports.dfy` | which reports enter a descriptor's log with which action; all data read is reported |
| `LoopOrder.dfy` | the order of the loop's own steps: reused descriptor numbers and left-over ready bits |
| `Watching.dfy` | when queued output is watched for writability, and when it is forgotten |
| `Shutdown.dfy` | what NetExit's reset of the server means for calls under way |
| `LiveTable.dfy` | the two tables that share a dispatcher, under all interleavings |
| `Locks.dfy` | lock traces of every call and of the loop: no deadlock |
| `Wakeup.dfy` | the self-pipe, lost wakeups, shutdown |
| `SignalRelay.dfy` | POSIX signals relayed through flags and a pipe |
| `SignalGraph.dfy`, `Sigslot.dfy`, `Emission.dfy` | the signal/slot graph as a value, the objects that refine it, and emission |
| `Addresses.dfy`, `SocketAddr.dfy` | address order, v4-mapped form, socket address structures |
| `Sequences.dfy`, `Wrappers.dfy` | shared definitions |
| `AutoEvent.dfy`, `Timing.dfy` | the event and the deadline arithmetic |

Concurrent parts are state machines: a run is a sequence of actions, each enabled
where it happens, and a result over all runs rests on an invariant that every action
keeps. Objects are classes; a method that changes state is proved equal to a function
on values, and the results are about those functions. System calls are parameters
that may answer anything their manual allows.

## Assumptions

- For framing and lifecycle each NetCenter call, and each OnPreEvent with its OnEvent,
  is one step. The handlers use the record's buffers without a lock.
- For framing there is one TCP connection per descriptor, in both directions: the
  buffers are not reset when a descriptor connects again.
- Payload lengths are not negative. Lengths above 65535 are modelled: the code accepts
  them, and the results say what becomes of them.
- A send takes at most what it is offered; a receive returns at most what it is asked
  for; `socket` never returns a descriptor that is open.
- The delegate's callbacks do not call back into the library, as
  `cio/app/src/main/java/com/example/chenjianjun/example/MainActivity.java:94` demands;
  for deadlock freedom it is enough that they keep to the lock order.
- A socket that no connect was attempted on has no error to reap and is not at the end
  of its stream.
- The members of the socket address structures lie where Linux puts them.

## Where documentation and code differ

- `cio/app/src/main/java/org/cio/CIO.java:62` promises 0 for success and -1 for failure
  from SendDataWithFD. The code returns the number of bytes the kernel took, 0 for an
  unknown descriptor, and -1 also when the frame has been queued
  (`NetIo.SendDataAsDocumented`, `Channel.NegativeMeansNotQueued`,
  `Channel.ResultIsZeroOrMinusOne`, `Channel.SendResultSurprises`). After a
  send that blocked write interest is raised for the queued frame; after any other error
  it is not.
- `cio/app/src/main/jni/net/SocketAddress.h:134-138` says that the plain storage form
  writes mapped addresses as v4 and that the dual-stack form always writes v6. The code
  leaves mapped addresses v6, and writes nothing for an unspecified address in either
  form (`SocketAddr.FamilyAsDocumented`, `SocketAddr.MappedStaysV6`).
- `cio/app/src/main/jni/net/SocketAddress.h:39` calls an address nil when its IP is any;
  the code asks for an unspecified one (`SocketAddr.NilMeans`).

## What the code does not keep

- Pending output is not always watched for writability. A positive partial send leaves
  bytes queued without write interest, unless it was a SendDataWithFD that found the
  interest up; a close drops the interest with whatever is queued. Exactly when a run
  keeps it is `Watching.WatchedAlways`; `Watching.OutputCanStrand` is a run that does not.
- The first report on a descriptor is not always a successful connect: exactly when a
  number comes with a ready bit left over it can be CLOSE (`LoopOrder.OpensCleanIff`).
- Two connections of one receiver to one signal are not undone by one disconnect, which
  nevertheless forgets the signal (`SignalGraph.ConsistentAlways`,
  `SignalGraph.DoubleConnectDangles`).
- Payloads above 65535 bytes are accepted and are not delivered as sent
  (`Stream.LongPacketIsLost`).
- As `cio/app/src/main/java/com/example/chenjianjun/example/MainActivity.java:94` warns, a
  callback of the loop that calls back can get stuck; exactly which calls can is
  `Locks.CallbackStuckIff`.
- NetExit does not wait for calls that have passed their test of the run flag; exactly when
  one of them can come to use the server it has reset is `Shutdown.ResetIsMetIff`.
- Signals that are pending when the last handler is cleared wait for the next handler
  (`SignalRelay.RelayFinishes`).

## Model

| member | source | states |
|---|---|---|
| `Stream.DeliveredIsPrefix` | cio/app/src/main/jni/NetCenter.cpp:140-263 | in every run of two endpoints, whatever the partial, blocked or failed sends and however the kernel cuts the received bytes: as far as the packets accepted at the other side fit the 16-bit length, what was received is an in-order prefix of those, or they are a prefix of what was received; if all fit, it is a prefix |
| `Stream.DrainedIsDelivered` | cio/app/src/main/jni/NetCenter.cpp:140-263 | once the sender's output and the wire are empty, everything accepted has been delivered, and even only a prefix of it, if and only if every accepted packet fits its header; then no partial frame remains |
| `Stream.LongPacketIsLost` | cio/app/src/main/jni/NetCenter.cpp:149-171 | a packet that finds room in the buffer is accepted, and some run carries it to the last byte; in every such run it is delivered, and even only a beginning of it, if and only if it has at most 65535 bytes |
| `Stream.AllAccepted` | cio/app/src/main/jni/NetCenter.cpp:149-156 | any packets whose frames have at most 1048576 bytes together, sent one after the other from a fresh record with any kernel answers, are all accepted |
| `Stream.RefusedIff` | cio/app/src/main/jni/NetCenter.cpp:149-156 | in every reachable state a send is turned away if and only if the queue and the frame exceed 1048576 bytes together |
| `Stream.EverythingCanArrive` | cio/app/src/main/jni/NetCenter.cpp:194-263 | from every reachable state and in either direction, one write event that takes the queue, followed by read events alone, delivers every accepted packet (whether the loop watches for that write event is `Watching.WatchedAlways`) |
| `Stream.OutputConservedAlways` | cio/app/src/main/jni/NetCenter.cpp:149-212 | bytes handed to the kernel followed by the output buffer are always the accepted frames, each whole, whatever the return values; the buffer never overflows |
| `Stream.ReaderBound` | cio/app/src/main/jni/NetCenter.cpp:215-262 | the reader keeps less than the longest frame, so the receive call always has room and the overflow reset is dead code |
| `Stream.StepAKeeps` | cio/app/src/main/jni/NetCenter.cpp:140-263 | every single action of an endpoint keeps both directions of the invariant behind the four results above |
| `Framing.ParseReprints` | cio/app/src/main/jni/NetCenter.cpp:232-256 | cutting frames loses no byte, yields no packet longer than a header can say, and stops only in front of an incomplete frame |
| `Framing.ParseUnique` | cio/app/src/main/jni/NetCenter.cpp:232-256 | that is the only way to cut a byte string: printing any fitting packets and an incomplete rest parses back to them |
| `Framing.ParseChunks` | cio/app/src/main/jni/NetCenter.cpp:230-256 | parsing what came, keeping the rest and parsing on equals parsing everything at once: chunk boundaries do not matter |
| `Framing.FrameRoundTrip` | cio/app/src/main/jni/NetCenter.cpp:149-156 | a packet survives one print and parse if and only if it has at most 65535 bytes |
| `Framing.FramesPrefix` | cio/app/src/main/jni/NetCenter.cpp:149-156 | frames can be matched from the front as far as what was printed fits: the frame format is prefix-free |
| `Framing.RestIsShort` | cio/app/src/main/jni/NetCenter.cpp:232-243 | an incomplete frame is shorter than 65537 bytes and contains no packet |
| `NetIo.SocketObj.PeelFrames` | cio/app/src/main/jni/NetCenter.cpp:232-256 | the in-place loop over the input buffer returns exactly the packets of the parser and leaves exactly its rest at the front of the buffer |
| `NetIo.SocketObj.OnReadEvent` | cio/app/src/main/jni/NetCenter.cpp:215-263 | on the buffers this is the reading step: receive at the end, peel, keep the rest; errors change nothing but the socket |
| `NetIo.SocketObj.SendData` | cio/app/src/main/jni/NetCenter.cpp:149-171 | on the buffers: the sending step, fixed by `ChannelLaws.SendPacketMeans`: refused exactly when the frame does not fit behind the queue; otherwise queued whole and sent, and the unsent rest moved to the front |
| `NetIo.SocketObj.OnWriteEvent` | cio/app/src/main/jni/NetCenter.cpp:194-213 | flushes the output buffer and keeps exactly what the kernel did not take |
| `NetIo.SocketObj.Flush` | cio/app/src/main/jni/NetCenter.cpp:158-170 | after a send the buffer holds what it held without its first `Taken` bytes |
| `NetIo.SocketObj.Append` | cio/app/src/main/jni/NetCenter.cpp:154-156 | header and payload stand behind what was queued |
| `NetIo.MoveToFront` | cio/app/src/main/jni/NetCenter.cpp:254-254 | the overlapping move to the front of the buffer keeps the moved bytes |
| `NetIo.SocketDispatcher.Recv` | cio/app/src/main/jni/net/PhysicalSocket.cpp:220-243 | bytes land at the given place; zero bytes on a positive request count as a blocking error, with read interest kept |
| `NetIo.SocketDispatcher.Connect` | cio/app/src/main/jni/net/PhysicalSocket.cpp:110-151 | on the object: the connecting step, whose meaning is fixed by `ChannelLaws.ConnectMeans` and `ChannelLaws.ConnectOtherwise`: connected at once exactly when connect returned 0, connecting when it is under way, and only the error changed otherwise |
| `NetIo.SocketDispatcher.Create` | cio/app/src/main/jni/net/PhysicalSocket.cpp:36-54 | closes first, then owns the descriptor the kernel gave, or none; nothing of an earlier state or interest remains |
| `NetIo.SocketDispatcher.Close` | cio/app/src/main/jni/net/PhysicalSocket.cpp:309-321 | whenever a descriptor was open, there is none afterwards, the state is closed, there is no interest, and the error is the one of the call; nothing changes if there was none |
| `NetIo.SocketDispatcher.Send` | cio/app/src/main/jni/net/PhysicalSocket.cpp:190-201 | write interest goes up exactly on a blocking error |
| `NetIo.SocketDispatcher.IsDescriptorClosed` | cio/app/src/main/jni/net/SocketDispatcher.cpp:44-83 | end of stream, EBADF and ECONNRESET, and no other error, count as closed |
| `NetIo.SocketDispatcher.ReadyEvents` | cio/app/src/main/jni/net/PhysicalSocketServer.cpp:209-264 | on the object: the event mask of one dispatcher, whose every event is fixed by `ChannelLaws.MaskMeans` |
| `NetIo.SocketObj.OnEvent` | cio/app/src/main/jni/net/SocketDispatcher.cpp:93-118 | on the record in place: the handlers run in the order connect, accept, read, write, close, each after its interest flag is cleared; state, buffers, reports and interest afterwards are fixed by `ChannelLaws.VisitState`, `VisitBuffers`, `VisitNotes` and `VisitInterest` |
| `Channel.SendResultMeans` | cio/app/src/main/jni/NetCenter.cpp:149-171 | the result is the number of bytes the kernel took, exactly when the frame is accepted and that number is possible, and the queue has then lost exactly those; a negative result leaves the whole frame queued, or nothing if it was refused |
| `Channel.SendResultAsDocumented` | cio/app/src/main/jni/NetCenter.cpp:149-171 | 0 for an accepted frame and -1 for a refused one, as the Java interface documents, if and only if the frame is refused or the kernel takes nothing without an error |
| `NetIo.SendDataAsDocumented` | cio/app/src/main/jni/NetCenter.cpp:140-172 | the same of the whole call: if and only if, besides, the descriptor is known |
| `Channel.NegativeMeansNotQueued` | cio/app/src/main/jni/NetCenter.cpp:149-171 | a negative result means the frame is not queued, if and only if it was refused or the kernel answered with a number of bytes |
| `Channel.ResultIsZeroOrMinusOne` | cio/app/src/main/jni/NetCenter.cpp:149-171 | the result is 0 or -1 if and only if the frame is refused or the kernel answered 0, -1 or more than it was offered |
| `Channel.SendResultSurprises` | cio/app/src/main/jni/NetCenter.cpp:149-171 | inputs at which the three fail: 3 for a frame sent whole; -1 for one that is queued and watched, and for one that is queued and unwatched |
| `Channel.Recv` | cio/app/src/main/jni/net/PhysicalSocket.cpp:220-243 | a non-negative result is the number of bytes copied and within the request, 0 only for an empty request; a negative one copies none; read interest rises exactly when the call did not fail for good |
| `Channel.PendingOutputIsWatched` | cio/app/src/main/jni/NetCenter.cpp:158-171 | after SendDataWithFD left-over output is watched for writability if and only if write interest was up, or the attempt drained the queue or blocked (for a refused frame: if it was watched before) |
| `Channel.WriteEventIsWatched` | cio/app/src/main/jni/net/SocketDispatcher.cpp:109-112 | in a write event, which takes the interest down first, left-over output is watched afterwards if and only if the attempt drained or blocked |
| `Channel.VisitIsWatched` | cio/app/src/main/jni/net/SocketDispatcher.cpp:93-118 | in a visit: with a close, if and only if the output was empty or is drained; with a write event, if and only if it drains or blocks; otherwise if it was watched before |
| `Watching.WatchedAlways` | cio/app/src/main/jni/net/PhysicalSocketServer.cpp:155-273 | throughout a run of calls and loop steps pending output is watched for writability, if and only if each send drains, blocks or finds the interest up, each write event drains or blocks, and each close finds or makes the output empty |
| `Watching.StepWatched` | cio/app/src/main/jni/net/PhysicalSocketServer.cpp:155-273 | the same of one action |
| `Watching.OutputCanStrand` | cio/app/src/main/jni/NetCenter.cpp:194-213 | it fails: a run of the code in which a one-byte packet goes out in part with the send and in part with the write event, and its last byte waits for nobody |
| `Channel.MaskExclusive` | cio/app/src/main/jni/net/PhysicalSocketServer.cpp:216-264 | read, accept and a read-side close exclude one another, as do connect and write; close is reported exactly for the listed conditions |
| `Channel.VisitOrder` | cio/app/src/main/jni/net/SocketDispatcher.cpp:93-118 | in one visit CONNECTED is reported first and CLOSE last |
| `Channel.ReadKeepsState` | cio/app/src/main/jni/NetCenter.cpp:215-263 | reading changes neither descriptor nor state and of the interest at most the read flag |
| `ChannelLaws.ConnectMeans` | cio/app/src/main/jni/net/PhysicalSocket.cpp:121-151 | on a closed socket the result is 0 if and only if connect returned 0 or errno is 11 or 115; the state is then connected if and only if it returned 0, and otherwise connecting with connect interest; a success raises read and write interest, a failure changes the error alone |
| `ChannelLaws.ConnectOtherwise` | cio/app/src/main/jni/net/PhysicalSocket.cpp:110-119 | a socket that is not closed refuses with errno 114 and keeps everything else; one without a descriptor gets one first or fails with that error |
| `ChannelLaws.SendMeans` | cio/app/src/main/jni/net/PhysicalSocket.cpp:190-201 | write interest rises exactly on errno 11 or 115 of a failed send; descriptor and state stay |
| `ChannelLaws.RecvMeans` | cio/app/src/main/jni/net/PhysicalSocket.cpp:220-243 | what fits is copied, the end of the stream fails with errno 11, and read interest rises unless the failure is lasting |
| `ChannelLaws.CloseMeans` | cio/app/src/main/jni/net/PhysicalSocket.cpp:309-321 | closing an open descriptor leaves descriptor -1, state closed and no interest; without a descriptor nothing changes |
| `ChannelLaws.SendPacketMeans` | cio/app/src/main/jni/NetCenter.cpp:149-171 | a packet is refused, with errno 90 and nothing else changed, exactly when queue, payload and 2 exceed 1048576; otherwise queue and frame are offered, what the kernel took is gone, and the result is its answer if that is possible and -1 if not |
| `ChannelLaws.EofMeans` | cio/app/src/main/jni/net/SocketDispatcher.cpp:44-83 | a peek means closed if and only if it returned 0, or failed with errno 9 or 104 |
| `ChannelLaws.MaskMeans` | cio/app/src/main/jni/net/PhysicalSocketServer.cpp:216-264 | when each of the five events is signalled, in terms of its ready bit, the interest, the error and the end of the stream |
| `ChannelLaws.VisitState` | cio/app/src/main/jni/net/SocketDispatcher.cpp:85-118 | after a visit the channel is closed if it saw the end, else connected if it saw write bit, connect interest and no error, else as before |
| `ChannelLaws.VisitBuffers` | cio/app/src/main/jni/NetCenter.cpp:194-263 | after a visit the bytes read are parsed behind the rest kept, and the bytes the kernel took in a write event are gone from the queue |
| `ChannelLaws.VisitNotes` | cio/app/src/main/jni/NetCenter.cpp:187-263 | the reports of a visit in order: CONNECTED exactly if it saw the connection, the complete packets of what it read exactly if there are any, CLOSE exactly if it saw the end |
| `ChannelLaws.VisitInterest` | cio/app/src/main/jni/net/SocketDispatcher.cpp:85-118 | for each event, exactly when there is interest in it after a visit |
| `NetIo.NetCenter.CreateFD` | cio/app/src/main/jni/NetCenter.cpp:61-84 | files a fresh record under the new descriptor and lists its dispatcher last; refused or failed it changes nothing; no other record changes |
| `NetIo.NetCenter.CloseFD` | cio/app/src/main/jni/NetCenter.cpp:86-108 | removes exactly the entry and its channel, drops its dispatcher from the loop's list with the order of the others kept, and leaves that dispatcher closed, with no descriptor and no interest; an unknown descriptor is ignored |
| `NetIo.NetCenter.ConnectServiceWithFD` | cio/app/src/main/jni/NetCenter.cpp:110-138 | reports CONNECTED at once exactly when the connection is there at once, which `ChannelLaws.ConnectMeans` says is when connect returned 0; only this descriptor's socket changes |
| `NetIo.NetCenter.SendDataWithFD` | cio/app/src/main/jni/NetCenter.cpp:140-172 | the sending step (`ChannelLaws.SendPacketMeans`) on this descriptor only; 0 for an unknown one |
| `NetIo.NetCenter.DispatchRound` | cio/app/src/main/jni/net/PhysicalSocketServer.cpp:204-273 | the loop over the list is the round function: one visit a dispatcher in list order, on the bits left |
| `NetIo.RoundVisitsOnce` | cio/app/src/main/jni/net/PhysicalSocketServer.cpp:204-273 | a round visits every listed dispatcher once with the bits the round began with, and touches no other |
| `NetIo.RoundConsumes` | cio/app/src/main/jni/net/PhysicalSocketServer.cpp:204-273 | a round consumes exactly the bits of the descriptors it visits |
| `NetIo.NetCenter.WaitTurn` | cio/app/src/main/jni/net/PhysicalSocketServer.cpp:155-273 | gather, a select that takes bits away, and a dispatch round leave only bits that were there before and belong to no live descriptor; if there were none, both sets are empty at the next loop head |
| `LoopOrder.RoundLeavesNothing` | cio/app/src/main/jni/net/PhysicalSocketServer.cpp:155-273 | over whole runs, whatever the application does meanwhile: the visit that ends a dispatch round leaves no bit of a live descriptor in either set |
| `NetIo.PhysicalSocketServer.Add` | cio/app/src/main/jni/net/PhysicalSocketServer.cpp:86-97 | no duplicates; a new dispatcher goes last |
| `NetIo.PhysicalSocketServer.Remove` | cio/app/src/main/jni/net/PhysicalSocketServer.cpp:99-121 | exactly the dispatcher leaves, order kept; an unknown one is ignored |
| `NetIo.DropAtUnique` | cio/app/src/main/jni/net/PhysicalSocketServer.cpp:112-113 | erasing a position of a list without duplicates removes that dispatcher and no other, and leaves no duplicate |
| `NetIo.PhysicalSocketServer.Gather` | cio/app/src/main/jni/net/PhysicalSocketServer.cpp:158-177 | adds exactly the descriptors with read or accept, and write or connect, interest; bits left over stay |
| `Reactor.LifecycleAlways` | cio/app/src/main/jni/net/SocketDispatcher.cpp:85-118 | over all runs with any number of descriptors, reused numbers and left-over ready bits: reports are in a legal order, the state is the one they say, connecting if and only if connect interest, and after CLOSE no interest but writing |
| `Reactor.ClosedIsFinal` | cio/app/src/main/jni/net/SocketDispatcher.cpp:113-117 | after CLOSE nothing is reported before the next successful connect: no data, no CONNECTED, no second CLOSE |
| `Reactor.ConnectedOncePerConnect` | cio/app/src/main/jni/net/SocketDispatcher.cpp:97-100 | two CONNECTED reports have a successful connect between them |
| `Reactor.ReconnectNeedsClose` | cio/app/src/main/jni/net/PhysicalSocket.cpp:110-119 | two successful connects on one descriptor have a CLOSE between them |
| `Reports.ReportsExactly` | cio/app/src/main/jni/net/PhysicalSocketServer.cpp:155-273 | in every run, exactly which reports every action adds to the log of every live descriptor |
| `Reports.ConnectedEntersIff` | cio/app/src/main/jni/net/PhysicalSocket.cpp:121-151 | in every run CONNECTED enters a log exactly with a connect call on a closed descriptor that returned 0, or with a visit that finds write bit, connect interest and no error |
| `Reports.ConnectionIsSeen` | cio/app/src/main/jni/net/PhysicalSocketServer.cpp:244-256 | in every run such a visit appends CONNECTED first and leaves the descriptor connected, unless the same visit finds its end; a connect under way is connecting, with connect interest, until then |
| `Reports.DataIsReported` | cio/app/src/main/jni/NetCenter.cpp:215-263 | in every run the packets reported for a descriptor, in order, are exactly the complete packets of all bytes its receives have brought, and what is kept is the incomplete rest |
| `LoopOrder.OpensCleanIff` | cio/app/src/main/jni/net/PhysicalSocket.cpp:110-151 | in every run of the code, a descriptor about to be opened will have a successful connect as its first report, whatever follows until it is shut, if and only if its number has no bit left in Wait's read set |
| `LoopOrder.LeftoverBitReportsClose` | cio/app/src/main/jni/net/PhysicalSocketServer.cpp:150-273 | it fails: a run of the code in which a number is closed and reused between select and dispatch, its connect is refused, and CLOSE is the first report |
| `LoopOrder.BitMeansGathered` | cio/app/src/main/jni/net/PhysicalSocketServer.cpp:158-202 | a bit is in the read set, or the write set, if and only if its descriptor was gathered with interest in that and has not been deselected or visited since, in this Wait |
| `LoopOrder.LeftoverMeansShutInFlight` | cio/app/src/main/jni/net/PhysicalSocketServer.cpp:158-227 | a free number has a left-over bit only if its owner was shut after the loop gathered it and before the loop deselected or visited it |
| `LoopOrder.VisitedBitWasReported` | cio/app/src/main/jni/net/PhysicalSocketServer.cpp:155-213 | in every run a visit belongs to a round that follows a select after which nothing was gathered or interrupted, and a bit that is set then was reported by that select |
| `Reactor.DispatchKeeps` | cio/app/src/main/jni/net/PhysicalSocketServer.cpp:209-271 | one visit, with any bits, error and answers, keeps the per-descriptor invariant |
| `Reactor.ConnectKeeps` | cio/app/src/main/jni/net/PhysicalSocket.cpp:110-151 | a connect attempt, with any answer, keeps it |
| `Reactor.StepKeeps` | cio/app/src/main/jni/net/PhysicalSocketServer.cpp:155-273 | so does every action of the application and the loop |
| `LiveTable.VisitIsSafe` | cio/app/src/main/jni/NetCenter.cpp:61-108 | in every interleaving what the loop visits is an unfreed dispatcher, and the table maps its descriptor to its own record, which is not being deleted |
| `LiveTable.FilingNeverOverwrites` | cio/app/src/main/jni/NetCenter.cpp:78-81 | CreateFD files under a free key even when the kernel reuses a number, and Add never mistakes a new dispatcher for an old one at its address |
| `LiveTable.LookupsAreLive` | cio/app/src/main/jni/NetCenter.cpp:93-107 | under the lock every entry is live and filed under its own descriptor; a record is deleted once |
| `LiveTable.TablesAgree` | cio/app/src/main/jni/NetCenter.cpp:61-108 | in every interleaving, while nobody has cs_, exactly the filed dispatchers are known to the loop, and nothing else is allocated but what a thread in CreateFD has just made: no leak |
| `LiveTable.RoundListFrozen` | cio/app/src/main/jni/net/PhysicalSocketServer.cpp:206-273 | while a dispatch round is under way the list it walks does not change |
| `LiveTable.SectionMakesProgress` | cio/app/src/main/jni/NetCenter.cpp:78-107 | while the server is there, a thread inside its section can always move, but for a round under way |
| `Shutdown.ResetIsMetIff` | cio/app/src/main/jni/NetCenter.cpp:43-84 | after NetExit has reset the server some thread can still come to use it, if and only if at that moment one is inside CreateFD past the test of the flag, or in CloseFD on its way to a descriptor that it will find |
| `Shutdown.ResetCanBeMet` | cio/app/src/main/jni/NetCenter.cpp:54-68 | it happens: a thread passes the test, and NetExit runs to its end before the thread goes on |
| `Shutdown.NobodyMeets` | cio/app/src/main/jni/NetCenter.cpp:61-107 | once nobody is under way, nobody will be |
| `LiveTable.StepKeeps` | cio/app/src/main/jni/NetCenter.cpp:61-108 | every step of every thread keeps the invariant over both tables |
| `Locks.DeadlockFree` | cio/app/src/main/jni/NetCenter.cpp:43-185 | in every interleaving of any calls with any rounds, and of NetExit's join, some thread can move until all are done, if the callbacks (on data, on connect and close from the loop, on connect from ConnectServiceWhitFD) keep to the lock order under the locks held around them |
| `Locks.CallbackStuckIff` | cio/app/src/main/java/com/example/chenjianjun/example/MainActivity.java:94-94 | a call from a callback of the loop can get the program stuck, with other threads that do nothing wrong, if and only if it is neither refused for the run flag nor a creation that fails |
| `Locks.CallInCallback` | cio/app/src/main/java/com/example/chenjianjun/example/MainActivity.java:94-94 | exactly those calls keep to the lock order in a callback of the loop |
| `Locks.CallInConnect` | cio/app/src/main/jni/NetCenter.cpp:131-135 | from the callback that ConnectServiceWhitFD makes itself every call is safe |
| `Locks.NoReentry` | cio/app/src/main/jni/base/Sigslot.h:57-88 | nobody asks again for a signal or slot mutex it holds, and no lock has two holders |
| `Locks.CallbackGetsStuck` | cio/app/src/main/jni/NetCenter.cpp:61-84 | the schedule: the loop holds the server's lock and wants the table's, or its own end, and a thread in CreateFD holds the table's lock and wants the server's |
| `Locks.CallOrdered` | cio/app/src/main/jni/NetCenter.cpp:43-185 | every call takes its locks in the order table lock, server lock, signal mutex, slot mutex, error and wakeup locks, also when the caller has the table lock already |
| `Locks.LoopOrdered` | cio/app/src/main/jni/net/PhysicalSocketServer.cpp:155-273 | so does every turn of the loop |
| `Locks.ListChangesUnderBoth` | cio/app/src/main/jni/NetCenter.cpp:61-108 | a creation, the closing of a known descriptor and NetExit take the server lock, and the lock of the wakeup, while they hold the table lock |
| `Locks.FlattenOrdered` | cio/app/src/main/jni/base/CriticalSection.h:29-40 | scoped locking turns an order of nested blocks into an order of the operations, last in first out |
| `Locks.HolderChain` | cio/app/src/main/jni/net/PhysicalSocketServer.cpp:204-273 | whoever holds a lock can move, or waits for a higher one, or for the loop, which waits for a higher one than cs_ |
| `Locks.StepKeeps` | cio/app/src/main/jni/NetCenter.cpp:43-185 | every step keeps the lock discipline and mutual exclusion |
| `Wakeup.OneByteAlways` | cio/app/src/main/jni/net/Dispatcher.cpp:28-52 | the pipe holds one byte exactly when the flag is up, so neither the write nor the read ever blocks |
| `Wakeup.NeverSleepsOverWakeup` | cio/app/src/main/jni/net/PhysicalSocketServer.cpp:155-202 | while a wakeup is unanswered the loop cannot sleep in select, whether it came before the drain, between OnPreEvent and OnEvent, or between two Waits |
| `Wakeup.WaitReturnsOnly` | cio/app/src/main/jni/net/PhysicalSocketServer.cpp:150-273 | in every run a Wait that has begun comes back only if a wakeup was answered on the way, or a select timed out or failed, which ends it at once; an interrupted select does not |
| `Wakeup.RunsUntilStopped` | cio/app/src/main/jni/NetCenter.h:73-80 | the loop thread ends only after NetExit has cleared the flag; until then every turn begins another Wait |
| `Wakeup.ShutdownIsBounded` | cio/app/src/main/jni/NetCenter.cpp:43-59 | once NetExit cleared the flag and its wakeup got through, the loop thread exits within 2 * size + 7 of its own steps, one more for each interrupted select |
| `Wakeup.StoppingStep` | cio/app/src/main/jni/NetCenter.h:73-80 | each step of the loop thread brings a stopping loop nearer to its end |
| `Wakeup.StepKeeps` | cio/app/src/main/jni/net/Dispatcher.cpp:28-64 | every step keeps flag, pipe and loop position in agreement |
| `Wakeup.EventDispatcher.Signal` | cio/app/src/main/jni/net/Dispatcher.cpp:28-40 | at most one byte is ever written |
| `Wakeup.EventDispatcher.OnPreEvent` | cio/app/src/main/jni/net/Dispatcher.cpp:42-52 | pipe and flag are both clear afterwards |
| `SignalRelay.FlagNeverStranded` | cio/app/src/main/jni/net/Dispatcher.cpp:95-176 | a set flag always has a byte in the pipe, a handler about to write one, or a scan yet to pass it |
| `SignalRelay.QuietMeansServed` | cio/app/src/main/jni/net/Dispatcher.cpp:95-176 | whenever nothing is left to do, every signal received has had a turn after it arrived (turns may be shared) |
| `SignalRelay.RegisteredIsCalled` | cio/app/src/main/jni/net/Dispatcher.cpp:163-173 | from the registration of a handler until it is cleared or replaced, every turn of its signal calls that handler |
| `SignalRelay.RelayFinishes` | cio/app/src/main/jni/net/Dispatcher.cpp:142-176 | when signals stop, the relay takes a bounded number of steps more; it has one to take if and only if it is not quiet and its dispatcher is installed or a handler is half-way; what a deleted dispatcher leaves pending wakes the next one |
| `SignalRelay.ScanAlone` | cio/app/src/main/jni/net/Dispatcher.cpp:157-176 | left undisturbed, the stepwise scan serves exactly the flags that are up, in ascending order, each with its handler |
| `SignalRelay.StepKeeps` | cio/app/src/main/jni/net/Dispatcher.cpp:95-176 | every step of handlers and dispatcher, interrupted anywhere, keeps the invariant |
| `SignalRelay.PosixSignalDispatcher.OnPosixSignalReceived` | cio/app/src/main/jni/net/Dispatcher.cpp:95-111 | on the objects: the two steps of the handler, one after the other; out-of-range numbers change nothing |
| `SignalRelay.PosixSignalDispatcher.OnPreEvent` | cio/app/src/main/jni/net/Dispatcher.cpp:142-155 | on the objects: the draining step of the relay |
| `SignalRelay.PosixSignalDispatcher.OnEvent` | cio/app/src/main/jni/net/Dispatcher.cpp:157-176 | on the objects: each flag that was up has one turn in ascending order, `calls` are exactly the registered handlers in that order, and the relay has steps that lead there |
| `SignalRelay.PosixSignalDispatcher.SetPosixSignalHandler` | cio/app/src/main/jni/net/PhysicalSocketServer.cpp:304-338 | on the objects: registering makes the dispatcher if there is none; clearing the last handler deletes it; a failed sigaction undoes nothing |
| `SignalGraph.ConsistentAlways` | cio/app/src/main/jni/base/Sigslot.h:264-294 | along any run from a consistent graph, of connect, disconnect, disconnect_all, copying and destruction, the connection lists and sender sets agree and refer to nothing destroyed, if and only if no disconnect names a receiver connected twice at that moment |
| `SignalGraph.RunsFromEmpty` | cio/app/src/main/jni/base/Sigslot.h:264-294 | a program's runs, which start with no signals and receivers: both results, without an assumption about the start |
| `SignalGraph.StepKeeps` | cio/app/src/main/jni/base/Sigslot.h:494-568 | the same of one operation |
| `SignalGraph.DisconnectKeeps` | cio/app/src/main/jni/base/Sigslot.h:529-547 | disconnect keeps the graph consistent if and only if the receiver was connected at most once |
| `SignalGraph.SendersAlwaysConnect` | cio/app/src/main/jni/base/Sigslot.h:264-294 | after any run of the model, a signal in a sender set exists and has a connection to that receiver |
| `SignalGraph.NothingDeadIsCalled` | cio/app/src/main/jni/base/Sigslot.h:276-294 | in a careful run no operation calls into a destroyed signal or receiver |
| `SignalGraph.DestroyedIsForgotten` | cio/app/src/main/jni/base/Sigslot.h:276-294 | after its destructor a receiver is the target of no connection; a destroyed signal is in no sender set |
| `SignalGraph.DoubleConnectDangles` | cio/app/src/main/jni/base/Sigslot.h:529-547 | the proviso is needed: from the empty graph connect twice, disconnect, destroy, and a connection to the dead receiver remains |
| `SignalGraph.CopyReceiverCalls` | cio/app/src/main/jni/base/Sigslot.h:250-262 | a copied receiver gets exactly the original's calls from every signal, same slots, same order; nobody else's change |
| `SignalGraph.CopySignalCalls` | cio/app/src/main/jni/base/Sigslot.h:448-462 | a copied signal makes the original's calls and is known to the same receivers |
| `SignalGraph.StepCalls` | cio/app/src/main/jni/base/Sigslot.h:250-294 | for each operation, which slots of which receiver each signal calls afterwards, in order, in terms of those before |
| `SignalGraph.CopyReceiverKeeps` | cio/app/src/main/jni/base/Sigslot.h:250-262 | copying a receiver keeps the graph consistent |
| `SignalGraph.CopySignalKeeps` | cio/app/src/main/jni/base/Sigslot.h:448-462 | copying a signal keeps the graph consistent |
| `Sigslot.Signal.Connect` | cio/app/src/main/jni/base/Sigslot.h:2084-2092 | on the objects: the connection is appended and the signal joins the receiver's senders; nothing else changes |
| `Sigslot.Signal.Disconnect` | cio/app/src/main/jni/base/Sigslot.h:529-547 | on the objects: the first connection to the receiver goes, and the signal leaves its senders |
| `Sigslot.Signal.SlotDisconnect` | cio/app/src/main/jni/base/Sigslot.h:549-568 | the erasing loop removes every connection to the receiver and no other, order kept |
| `Sigslot.Signal.SlotDuplicate` | cio/app/src/main/jni/base/Sigslot.h:464-479 | the loop terminates although it appends to the list it walks, and appends one connection for each of the old target's, in order |
| `Sigslot.Signal.DisconnectAll` | cio/app/src/main/jni/base/Sigslot.h:494-509 | the list is empty and every receiver on it has forgotten the signal |
| `Sigslot.Signal.Copy` | cio/app/src/main/jni/base/Sigslot.h:448-462 | the copy constructor takes the copying step of the graph |
| `Sigslot.Signal.IsEmpty` | cio/app/src/main/jni/base/Sigslot.h:486-492 | empty exactly when no receiver is reached |
| `Sigslot.HasSlots.DisconnectAll` | cio/app/src/main/jni/base/Sigslot.h:281-294 | every sender has lost all its connections to this receiver, and the set is empty |
| `Sigslot.HasSlots.Copy` | cio/app/src/main/jni/base/Sigslot.h:250-262 | the copy constructor takes the copying step of the graph |
| `Sigslot.HasSlots.JoinSenders` | cio/app/src/main/jni/base/Sigslot.h:253-261 | its loop joins every sender, each of which duplicates the connections |
| `Emission.Emit` | cio/app/src/main/jni/base/Sigslot.h:2094-2109 | every connection present at the start is called once, in order, then those made before the last call, and no freed node is touched, if and only if each callback at its turn erases no connection that has not been called; the list afterwards is what the edits made of it |
| `Emission.ErasingCalledIsConsiderate` | cio/app/src/main/jni/base/Sigslot.h:2094-2109 | callbacks that disconnect only their own connection, or any called before, meet that condition |
| `Emission.InconsiderateLoses` | cio/app/src/main/jni/base/Sigslot.h:2099-2108 | a callback that does not is fatal to the law: a connection that should have had its turn is gone for good |
| `Emission.TurnOrdered` | cio/app/src/main/jni/base/Sigslot.h:2099-2108 | one turn of the loop with a callback that spares the connections behind it keeps calls and list in order, and the next node alive |
| `Emission.EditKeeps` | cio/app/src/main/jni/base/Sigslot.h:2099-2108 | whatever a callback erases or appends, the list keeps distinct nodes and loses only what was erased |
| `Addresses.StrictTotalOrder` | cio/app/src/main/jni/net/IPAddress.cpp:39-83 | the comparison is irreflexive, transitive and total over the three families, agrees with equality, and `>` is its converse |
| `Addresses.LessIsByFamilyThenNumber` | cio/app/src/main/jni/net/IPAddress.cpp:60-83 | it orders by family, then by the number the bytes denote, whether integers (v4) or memory (v6) are compared, on either byte order |
| `Addresses.MappingKeepsOrder` | cio/app/src/main/jni/net/IPAddress.cpp:108-115 | on one family the v4-mapped form is injective and keeps and reflects the order |
| `Addresses.MappingAcrossFamilies` | cio/app/src/main/jni/net/IPAddress.cpp:108-115 | of a v4 and a v6 address it keeps the order if and only if the v6 address lies above all mapped ones or is mapped from a larger v4 address, and merges them if and only if it is the mapped form of the other |
| `Addresses.MappingKeepsAny` | cio/app/src/main/jni/net/IPAddress.cpp:139-149 | the mapping keeps and reflects being an "any" address |
| `Addresses.AnyAddresses` | cio/app/src/main/jni/net/IPAddress.cpp:139-149 | exactly 0.0.0.0, :: and ::ffff:0.0.0.0 are any addresses |
| `Addresses.MappedForm` | cio/app/src/main/jni/net/IPAddress.cpp:108-115 | the mapped form of a v4 address byte by byte; every other address is left as it is, and has host-order number 0 |
| `Addresses.HostOrderInverse` | cio/app/src/main/jni/net/IPAddress.cpp:18-25 | v4 addresses and 32-bit host integers correspond one to one, alike on both byte orders |
| `SocketAddr.StorageRoundTrip` | cio/app/src/main/jni/net/SocketAddress.cpp:151-218 | storing and reading returns IP and port, and the scope id for v6, 0 for v4; it fails exactly for an unspecified address |
| `SocketAddr.ParseReprints` | cio/app/src/main/jni/net/SocketAddress.cpp:151-218 | reading and storing restores every member of the structure and clears the rest |
| `SocketAddr.StorageInjective` | cio/app/src/main/jni/net/SocketAddress.cpp:151-168 | equal structures come from equal addresses, but for scope ids of v4 addresses |
| `SocketAddr.StorageLayout` | cio/app/src/main/jni/net/SocketAddress.cpp:151-168 | where each member stands, the family as 2 or 10 in host order, the port in network order, the scope id in host order, and zero everywhere else |
| `SocketAddr.DualStackRoundTrip` | cio/app/src/main/jni/net/SocketAddress.cpp:174-176 | the dual-stack form returns the v4-mapped image, and fails for an unspecified address |
| `SocketAddr.MappedStaysV6` | cio/app/src/main/jni/net/SocketAddress.cpp:178-180 | the plain form does not turn mapped addresses back into v4 ones, as its comment says |
| `SocketAddr.FamilyAsDocumented` | cio/app/src/main/jni/net/SocketAddress.cpp:151-180 | the plain form writes the family its comment promises if and only if the address is neither mapped nor unspecified; the dual-stack form if and only if it is not unspecified |
| `SocketAddr.NilMeans` | cio/app/src/main/jni/net/SocketAddress.cpp:45-47 | IsNil agrees with its comment if and only if there is a host name, a port, or an address neither unspecified nor any; with inputs at which they differ |
| `SocketAddr.SocketAddress.IsNil` | cio/app/src/main/jni/net/SocketAddress.cpp:45-47 | nil: no host name, unspecified address, port 0 |
| `SocketAddr.SockAddrInRoundTrip` | cio/app/src/main/jni/net/SocketAddress.cpp:127-149 | writing sockaddr_in and reading it returns a v4 address and refuses all others |
| `SocketAddr.SockAddrInReprints` | cio/app/src/main/jni/net/SocketAddress.cpp:127-149 | reading sockaddr_in and writing it restores its members and clears the padding |
| `SocketAddr.SockAddrInIsStorage` | cio/app/src/main/jni/net/SocketAddress.cpp:127-140 | sockaddr_in is the head of the storage form |
| `SocketAddr.SocketAddress.ToSockAddr` | cio/app/src/main/jni/net/SocketAddress.cpp:127-140 | in memory: the members in their places, zero elsewhere |
| `SocketAddr.SocketAddress.FromSockAddr` | cio/app/src/main/jni/net/SocketAddress.cpp:142-149 | reads what is there and clears host name and scope; a foreign family leaves the object alone |
| `SocketAddr.SocketAddress.ToSockAddrStorage` | cio/app/src/main/jni/net/SocketAddress.cpp:178-180 | the storage form and its size, 0 for an unspecified address |
| `SocketAddr.SocketAddress.ToDualStackSockAddrStorage` | cio/app/src/main/jni/net/SocketAddress.cpp:174-176 | the storage form of the mapped address |
| `SocketAddr.ToSockAddrStorageHelper` | cio/app/src/main/jni/net/SocketAddress.cpp:151-168 | whatever the memory held before, the members assigned one by one give the storage form |
| `SocketAddr.SocketAddressFromSockAddrStorage` | cio/app/src/main/jni/net/SocketAddress.cpp:200-218 | reads the address; a null target or a foreign family gives false and changes nothing |
| `Bytes.BEInverse` | cio/app/src/main/jni/base/Common.h:62-95 | writing then reading big-endian returns the number modulo the width |
| `Bytes.BEInverseBytes` | cio/app/src/main/jni/base/Common.h:62-95 | reading then writing returns the bytes |
| `Bytes.HostNetworkInverse` | cio/app/src/main/jni/base/Common.h:159-183 | network-to-host undoes host-to-network on either byte order, and the image in memory is big-endian |
| `Bytes.MemLessIsNumericLess` | cio/app/src/main/jni/net/IPAddress.cpp:77-79 | comparing big-endian bytes as memory is comparing the numbers |
| `Bytes.SetBE16` | cio/app/src/main/jni/base/Common.h:62-65 | the two bytes of the number, most significant first, and nothing else changes |
| `Bytes.SetBE32` | cio/app/src/main/jni/base/Common.h:67-72 | the same for four bytes |
| `Bytes.GetBE16` | cio/app/src/main/jni/base/Common.h:85-88 | the number the first two bytes denote |
| `Bytes.GetBE32` | cio/app/src/main/jni/base/Common.h:90-95 | the number the first four bytes denote |
| `AutoEvent.Conservation` | cio/app/src/main/jni/base/Event.cpp:24-84 | in every interleaving, initial signal plus effective Sets equals successful Waits (if automatic) plus effective Resets plus the present signal; a Wait that times out consumes nothing |
| `AutoEvent.SetIsNoticed` | cio/app/src/main/jni/base/Event.cpp:24-84 | whenever the event is set every thread inside Wait is on its way out, and succeeds next unless it timed out or is overtaken |
| `AutoEvent.OneWaitPerSet` | cio/app/src/main/jni/base/Event.cpp:78-79 | without a Set an automatic event satisfies at most the one Wait it had a signal for |
| `AutoEvent.TimeoutIsFinal` | cio/app/src/main/jni/base/Event.cpp:61-83 | a thread whose wait timed out fails, whatever the others do before it has the mutex again, also if they set the event |
| `AutoEvent.LeavingTheCondition` | cio/app/src/main/jni/base/Event.cpp:61-83 | a time-out ends a Wait without success and leaves the event alone; a spurious wake-up ends it if and only if the event is set by then, and otherwise changes nothing |
| `AutoEvent.ManualStaysSet` | cio/app/src/main/jni/base/Event.cpp:78-79 | a manual event stays set until a Reset |
| `AutoEvent.EventObject.Wait` | cio/app/src/main/jni/base/Event.cpp:37-84 | on the object: its accesses under the mutex, with what other threads do during its sleeps, are a run of the event that begins with the entry; it returns true exactly when its last step satisfies the wait |
| `AutoEvent.EventObject.SetEvent` | cio/app/src/main/jni/base/Event.cpp:24-29 | on the object: the setting step |
| `AutoEvent.EventObject.ResetEvent` | cio/app/src/main/jni/base/Event.cpp:31-35 | on the object: the resetting step |
| `Timing.SelectTimeouts` | cio/app/src/main/jni/net/PhysicalSocketServer.cpp:130-145 | over a whole Wait: each timeout is normalised; it is within the delay if and only if the clock has not gone back behind the start, zero if and only if the delay is over, and never grows under a monotone clock |
| `Timing.Remaining` | cio/app/src/main/jni/net/PhysicalSocketServer.cpp:277-293 | the time left until the stop, 0 when past, normalised |
| `Timing.StopTime` | cio/app/src/main/jni/net/PhysicalSocketServer.cpp:130-145 | delay and stop time, normalised |
| `Timing.EventDeadline` | cio/app/src/main/jni/base/Event.cpp:49-59 | now plus the delay, no intermediate value beyond 32 bits; normalised for every delay that is not negative, and for a negative one exactly when the nanoseconds before the carry are not |
| `Timing.SleepDeadline` | cio/app/src/main/jni/base/ConditionVariable.cpp:91-100 | now plus the delay, normalised, no intermediate value beyond 32 bits |

## Left out

- Wait's loop as a whole: its stages are modelled (gather, event mask, dispatch round, timeouts), one turn of it on the objects, and any number of turns as the actions of the runs; how long one call of it lasts is not stated.
- Locks: each thread's program is a finite list of calls or of loop turns, of any length; that waiting threads are served fairly is not stated.
- NetIo.SocketObj.OnEvent: is a method of the record, because the signals of a socket dispatcher have NetCenter's handlers as their only slots; the lookup of the record by descriptor is in NetIo.NetCenter.Visit.
- NetIo.PhysicalSocketServer.Gather: covers socket dispatchers; the wakeup and signal dispatchers, which stand in the same list, are modelled in Wakeup and SignalRelay, and process_io is set as in the loop.
- LiveTable.SectionMakesProgress: runs while the server is there; what its reset means is in Shutdown, up to the first use of a server that is gone.
- SignalGraph.SendersAlwaysConnect: where a careless run has called a destroyed object the code has no defined behaviour, and the model goes on.
- NetIo.PhysicalSocketServer.Remove: the adjustment of registered iterators is absent, since nothing registers one.
- NetIo.NetCenter.CloseFD: freeing memory appears in LiveTable, not on the objects, where the closed dispatcher stays allocated.
- Sigslot.HasSlots.Copy: its loop is the method JoinSenders; the sets of senders are walked in any order where the source goes by address.
- Sigslot.Signal.SlotDuplicate: requires two different receivers, as its only caller, the copy constructor, gives it.
- LoopOrder.OpensCleanIff: the dispatchers of one gather or dispatch round may come in any order, where the code takes the order of its list.
- Emission.Emit: callbacks are a list of edits and connections are named by identity; the slot that is called and its argument are not part of it.
- AutoEvent.EventObject.Wait: what other threads do while the thread sleeps is given to it, as a list of steps for each sleep.
- Timing.SleepDeadline: seconds are unbounded.
- The little-endian and 64-bit codecs: the same statements with other constants.
- Data races on unlocked state: buffers in handlers, the connect and close signals, the global NetCenter.
- Signal arities other than one, the reader/writer lock, thread names and priorities, socket options, UDP, Listen and Accept: copies or thin wrappers.
- Host-name parsing and printing of addresses: they rest on inet_pton and inet_ntop, which are not part of this model.
- JNI glue and the Java side: delegate calls appear as the reports of the runs.
