# LENet message engine in Dafny

This project models the message engine of LENet: connections with their send and receive
queues, the pool of fixed-size receive buffers, the per-connection event handler, the
poll/select and the completion-port event managers, and the server that owns the connections
and spreads them over its managers. Sockets, waits and completions are parameters: what the
operating system answers is arbitrary, within the assumptions stated beside each use.

Every stateful class of the engine is a Dafny class whose methods are proved equal to a
function on values (`BufferPool`, `NetConnection`, `IOContext`, `NetEventHandler`,
`NetPollBuffer`, `NetSelectBuffer`, `NetBufferBasedEventManager`, `NetIOCPEventManager`,
`NetServer`), and what holds of every run is proved about these functions. A ghost parameter
`m`, `ms` or `t` of a method is the value its object stands for; `regions` are the disjoint
sets of objects the managers of a server may change.

Modules, from the bottom up:

- `Memory`, `BufferPools`, `Framing`: C strings, joining a chain of buffers, the pool and its
  ownership law, and what a run of reads delivers.
- `Connections`, `Contexts`, `EventHandlers`, `Receiving`, `Sending`: one connection. Messages
  are numbered by connection; a number stands for the address of the queued message.
- `EventTables`, `EventPass`, `PollManagerStates`, `PollManagers`: poll and select.
- `IocpManagerStates`, `IocpManagers`: completion ports.
- `SendRuns`, `UserRuns`: one connection over the runs of its manager: its messages, and what its
  user sent and hears.
- `Progress`: what one pass or one completion does for each connection.
- `Balancers`, `Topologies`, `Servers`: the server.
- `EndToEnd`: from one engine's `Send` to another's received messages.

Main results:

- **Framing** delivers the messages of a byte stream, wherever it stops, if and only if every
  read up to the last one that ends a message is aligned (no NUL before its last byte, and a read
  that does not end a message fills its buffer) and no NUL came behind it: `Framing.ExactFraming`,
  in every reachable state of a manager `PollManagerStates.FramingEverywhere` and
  `IocpManagerStates.IocpFramingEverywhere`. Messages arrive as sent if and only if every read is
  aligned (`Framing.RoundTrip`), and end to end, between any two managers,
  `EndToEnd.DeliveryEverywhere`. Full reads and one final read for each message are such reads
  (`Framing.CutsArrive`); two messages in one read are not (`Framing.TwoInOneRead`).
- **Sending.** `StartWrite` hands over the last message of the queue while `Write` drops the
  first, so messages can be lost: two `Send` calls in a row lose the first
  (`SendRuns.PollLosesOne`, `SendRuns.IocpLosesOne`). In every run of a manager nothing is lost if and
  only if every `Send` found the queue empty (poll and select: `SendRuns.PollLosesEverywhere`), or
  found its last message handed over (completion ports: `SendRuns.IocpLosesEverywhere`), and it is
  said how many are. What is transmitted is always in order and never twice. The messages of a
  connection are exactly those the run sent on it (`UserRuns.UserEverywhere`,
  `UserRuns.IocpUserEverywhere`), and what holds from an accept on holds of every connection of every
  reachable state (`SendRuns.Origin`, `SendRuns.IocpOrigin`).
- **Progress**, told by the operating system's answers alone: a pass reads, sends and removes exactly
  what the raw events say of each entry, except behind an entry it removes (`Progress.PassDoes`); a
  completion does so for its context and no other (`Progress.CompletionDoes`); and an entry asks for
  writability if and only if its newest message was not transmitted
  (`Progress.FlagIffUntransmitted`).
- **What the user hears**: in every run he is served one call for each message received, in order of
  the queue, and hears these messages themselves if and only if every update found equal messages
  pending (`UserRuns.UserEverywhere`); from user to user: `EndToEnd.HeardEverywhere`.
- **Storage safety** of overlapped sends: `IocpManagerStates.StorageSafetyEverywhere`; and each
  context has one receive posted, into its own slot: `IocpManagerStates.OneReceiveEverywhere`.
- **Buffer ownership**, write interest, send order and framing in every reachable state of a
  manager: `PollManagerStates.OwnershipEverywhere` and its neighbours. The receive buffers of a
  removed context never return (`PollManagerStates.LostForever`), and a run loses a buffer if and
  only if it removed a context (`PollManagerStates.LostIffRemoved`), as a hang-up does
  (`PollManagerStates.HangUpLoses`).
- **The event pass**: the index loop that erases while it iterates does what one sweep over the
  entries says (`PollManagerStates.LoopIsSweep`). It does not visit every entry with an event:
  one is missed if and only if the entry before it was removed in the same pass
  (`EventPass.SecondHangUpIsMissed`), whether the wait counts entries as poll does
  (`EventPass.EarlyExit`) or bits as select does (`EventPass.SelectEarlyExit`); leaving the loop
  early misses none.
- **Poll and select** hold one table, and a manager's contexts stay aligned with the sockets of
  select, if and only if no socket of FD_SETSIZE or more was added: `EventTables.OneTable`,
  `EventTables.ContextsAligned`.
- **The server**: over runs in which the user may close any connection at any time, an update
  leaves no dangling context if and only if no marked connection still has a context
  (`Topologies.UpdateDanglesIff`), as a user's close leaves one (`Topologies.UserCloseDangles`).
  Without such a close connections and contexts correspond one to one in every reachable state
  (`Topologies.BijectionEverywhere`). Notices, shutdown, and the exact state of the load balancer
  after any number of accepts.

Where the code and its comments or names disagree, the code is followed: `Update` passes the
last pending message once for each pending message (`Connections.UpdateHears` says exactly when
this is harmless, `Connections.HeardTwice` when it is not), `largestSocket` is never lowered by a removal
(`EventTables.LargestNeverFalls`; `LENET_WIN32` is defined nowhere in the repository, so this
branch is the compiled one), and the receive buffers of a removed context never return to the pool
(`PollManagerStates.LostForever`, `IocpManagerStates.IocpLostForever`).

## Model

| member | source | states |
|---|---|---|
| Memory.Strlen | Source/BufferPool.hpp:27 | the position of the first NUL of a buffer |
| Memory.JoinLength | Source/BufferPool.cpp:8 | a joined chain is as long as whole buffers for all but the last and the last one's text, and ends with that text |
| Memory.JoinByte | Source/BufferPool.cpp:13-18 | every byte before the last buffer's comes from its own buffer at its own place |
| Memory.CopyWhole | Source/BufferPool.hpp:32-39 | the copying loop stays in bounds, leaves `dst` where the last buffer's text goes, and has written the non-last buffers in full |
| Memory.ConcatBuffers | Source/BufferPool.cpp:6-22 | the list form returns all bytes of the non-last buffers and the last one up to its first NUL |
| Memory.ConcatRange | Source/BufferPool.hpp:15-43 | the iterator form, whose size is a running sum, returns the same |
| BufferPools.TakeKeepsOwned | Source/BufferPool.hpp:58-70 | a taken buffer was nobody's, and afterwards free and held buffers still make up the storage, each once |
| BufferPools.GiveBackKeepsOwned | Source/BufferPool.hpp:78-85 | returning a held chain keeps the ownership law |
| BufferPools.OwnedMeans | Source/BufferPool.hpp:88-89 | under the law a buffer is free or held, never both, never twice, and no other pointer is in the pool |
| BufferPools.HighWaterMark | Source/BufferPool.hpp:49-85 | over any well-formed run the number of buffers is the maximum of the initial count and the most ever out at once |
| BufferPools.FirstInFirstOut | Source/BufferPool.hpp:58-85 | over any run of takes and returns of whole chains, free and returned buffers are used again in that order, each before the pool grows |
| BufferPools.BufferPool.constructor | Source/BufferPool.hpp:49-56 | a pool starts with the given number of buffers, all free |
| BufferPools.BufferPool.TakeBuffer | Source/BufferPool.hpp:58-70 | gives the first free buffer, or a new storage node |
| BufferPools.BufferPool.ReturnBuffers | Source/BufferPool.hpp:78-85 | appends the buffers to the free queue in order |
| BufferPools.BufferChain.TakeBuffer | Source/BufferPool.hpp:108-113 | the chain grows by a buffer that nobody else and no earlier link has |
| BufferPools.BufferChain.ReturnAllBuffers | Source/BufferPool.hpp:115-122 | all links are back in the pool in order, and the chain is empty |
| BufferPools.BufferChain.Destroy | Source/BufferPool.hpp:100-106 | the destructor leaves nothing of the chain out and returns nothing twice |
| BufferPools.BufferChain.Concat | Source/BufferPool.hpp:124-127 | the chain joined |
| Framing.SplitOfWire | Source/NetEventHandler.cpp:41 | splitting at NULs undoes sending each message with its NUL |
| Framing.AlignedDelivers | Source/NetEventHandler.cpp:14-32 | aligned reads deliver exactly the messages of the stream and hold exactly its unfinished rest |
| Framing.BoundaryFraming | Source/NetEventHandler.cpp:14-32 | of a stream that ends at a message boundary, or is empty, the messages are delivered if and only if every read is aligned |
| Framing.ExactFraming | Source/NetEventHandler.cpp:14-32 | for any cut of any byte stream, wherever it stops, the messages delivered are those of the stream if and only if every read up to the last one that ends a message is aligned and no NUL came behind it |
| Framing.RoundTrip | Source/NetEventHandler.cpp:14-32 | NUL-free messages arrive as sent if and only if every read is aligned, also when a length is a multiple of the buffer size or the last read is just the NUL |
| Framing.TwoInOneRead | Source/NetEventHandler.cpp:21-24 | two messages that arrive in one read come out as one |
| Framing.CutsArrive | Source/NetEventHandler.cpp:14-41 | messages each cut into full reads and one final read arrive as sent, for every list of NUL-free messages and every buffer size |
| Framing.LastReadIsNul | Source/NetEventHandler.cpp:41 | the cut of a message as long as a whole number of buffers ends with a read of just its NUL |
| Framing.EmittedLength | Source/NetEventHandler.cpp:21-31 | a read of any size emits a message exactly if it ends with a NUL, with length (reads since the last one, minus 1) times the buffer size plus the last buffer's text, which never fills it |
| Connections.NetConnection.Send | Source/NetConnection.hpp:64-67 | the message is queued last, not handed over |
| Connections.NetConnection.Update | Source/NetConnection.hpp:68-82 | drains the queue with one call a message, then notifies and closes a marked connection, and reports whether it lives |
| Connections.NetConnection.Destroy | Source/NetConnection.hpp:49-52 | the destructor notifies a connection that is still marked |
| Connections.UpdateHears | Source/NetConnection.hpp:70-74 | for every number of pending messages the user hears the last one once for each, and so the messages themselves if and only if all equal the last one |
| Connections.UpdatedServes | Source/NetConnection.hpp:68-74 | an update serves the front of what was received, message for call, and the user has heard what was received if and only if he had before and all pending messages are equal |
| Connections.HeardTwice | Source/NetConnection.hpp:70-74 | of two different pending messages the user hears the last one twice |
| Connections.NotifiedExactlyOnce | Source/NetConnection.hpp:49-52 | over a whole life the disconnect callback runs exactly once if the connection was disconnected, and never otherwise |
| Connections.NoticeComesLast | Source/NetConnection.hpp:75-80 | an update notifies only after the receive queue is drained |
| Contexts.IOContext.SetNextBuffer | Source/NetContext.cpp:22-26 | the buffer becomes the current one and the end of the chain |
| Contexts.IOContext.SetMessageLength | Source/NetContext.cpp:28-31 | sets the length, which has 32 bits |
| Contexts.IOContext.Reset | Source/NetContext.cpp:33-36 | empties the chain and leaves the current buffer |
| EventHandlers.NetEventHandler.StartRead | Source/NetEventHandler.cpp:8-12 | a whole pool buffer becomes the receive slot |
| EventHandlers.NetEventHandler.Read | Source/NetEventHandler.cpp:14-32 | the chain becomes a message and its buffers go back if the read ends with a NUL, and a next slot is supplied in any case |
| EventHandlers.NetEventHandler.StartWrite | Source/NetEventHandler.cpp:34-47 | hands over the last queued message unless it was handed over before |
| EventHandlers.NetEventHandler.Write | Source/NetEventHandler.cpp:49-54 | drops the first queued message and hands over the next |
| EventHandlers.NetEventHandler.ReadyToWrite | Source/NetEventHandler.cpp:56-60 | whether the send queue holds a message |
| EventHandlers.NetEventHandler.Disconnect | Source/NetEventHandler.cpp:62-66 | marks the connection for close |
| Receiving.StartedReadKeeps | Source/NetEventHandler.cpp:8-12 | a new context has its slot, and everybody else's bytes and buffers are as they were |
| Receiving.ReceiveKeeps | Source/NetEventHandler.cpp:14-32 | after any read of 1 to a buffer of bytes the slot is the end of the chain and offers a whole buffer, the chain frames the connection's own reads, ownership holds, and no byte held by others changed |
| Sending.StartedWriteKeeps | Source/NetEventHandler.cpp:34-47 | what is handed over is the newest message, above every one handed over before, with the length of its text and NUL in 32 bits |
| Sending.PollWriteKeeps | Source/NetEventHandler.cpp:49-54 | with the write flag set the queue is not empty, a write keeps the flag's meaning and clears the send chain, and hands over the newest message exactly if that still waits |
| Sending.DeliveredIffDrained | Source/NetEventHandler.cpp:34-54 | the messages transmitted are all those enqueued, in order and once each, if and only if the queue is empty |
| Sending.CompletedKeeps | Source/NetEventHandler.cpp:49-54 | a completion finds a message to drop, never drops one whose send is in flight, and issues the newest message exactly if that still waits |
| Sending.StorageSafety | Source/NetEventHandler.cpp:34-54 | the j-th send issued carries message j or a later one, and every send in flight carries a message still queued |
| SendRuns.VisitIsPass | Source/NetBufferBasedEventManager.hpp:72-130 | starting an entry's send and visiting it, with whatever events, is one pass of its send side, unless it is removed |
| SendRuns.PollLosesEverywhere | Source/NetBufferBasedEventManager.hpp:72-149 | in every run of a manager, from an accept on, a connection's messages are transmitted in turn if and only if every send on it found its queue empty, whatever the other connections did; and how many are lost |
| SendRuns.PollLosesOne | Source/NetEventHandler.cpp:38-51 | in any manager, of two messages sent at once on a connection just accepted the next pass drops the first untransmitted and leaves the second queued after it was sent |
| SendRuns.IocpLosesEverywhere | Source/NetIOCPEventManager.hpp:132-169 | in every run of a manager, from an accept on, as many messages of a connection are lost as sends on it found the last message not handed over |
| SendRuns.IocpLosesOne | Source/NetEventHandler.cpp:38-51 | in any manager, of two messages sent at once on a connection just accepted the first is dropped unsent, and the second is transmitted and stays queued |
| SendRuns.Origin | Source/NetBufferBasedEventManager.hpp:33-57 | every connection of a reachable state was accepted by the run and can be followed from there, through other accepts and removals |
| SendRuns.IocpOrigin | Source/NetIOCPEventManager.hpp:100-130 | the same for this manager |
| UserRuns.UserEverywhere | Source/NetConnection.hpp:64-82 | in every run from an accept on the messages enqueued are exactly those sent on the connection, in order; the user was served the front of what was received, call for message, and the rest is pending; and he heard these messages themselves if and only if every update found equal messages pending |
| UserRuns.ServedEverywhere | Source/NetEventHandler.cpp:21-25 | in every reachable state what is pending is the tail of what was received, and the user had one call for each message before it |
| UserRuns.IocpUserEverywhere | Source/NetConnection.hpp:64-82 | the same as for the other manager, in every run of this one |
| UserRuns.IocpServedEverywhere | Source/NetEventHandler.cpp:21-25 | the same in every reachable state of this manager |
| Progress.FlagIffUntransmitted | Source/NetBufferBasedEventManager.hpp:72-78 | in every reachable state, once the sends are started, the write flag is set if and only if the newest message was not transmitted, and that whole message is what will be sent |
| Progress.PassDoes | Source/NetBufferBasedEventManager.hpp:81-149 | in every reachable state, for any answers and a count of at least the entries with an event: an entry behind a removed one neither reads nor sends; any other is removed if and only if its peer closed, it hung up, had an exception or its send failed, and else has read exactly the bytes that came in and sent its newest message if writable |
| Progress.CompletionDoes | Source/NetIOCPEventManager.hpp:132-169 | in every reachable state each context's newest message is issued if it waited, a receive's bytes are read in one read by its context, a send completes the oldest issued, an empty completion removes its context, and no other context changes |
| EventTables.SelectStepKeeps | Source/NetSelectEventManager.hpp:55-84 | read and except sets stay the vector's set, the write set within it, and the largest socket an upper bound |
| EventTables.OneTable | Source/NetPollEventManager.hpp:53-82 | after any run both tables hold the same rows in the same order if and only if no socket of FD_SETSIZE or more was added |
| EventTables.OneRefused | Source/NetSelectEventManager.hpp:57-61 | a socket of FD_SETSIZE gets a row of the poll buffer and none of the select buffer |
| EventTables.ContextsAligned | Source/NetBufferBasedEventManager.hpp:33-38 | over the select buffer a manager's contexts stay those of the sockets, index by index, if and only if no socket of FD_SETSIZE or more was accepted |
| EventTables.WrongContext | Source/NetBufferBasedEventManager.hpp:33-38 | once a socket of FD_SETSIZE was refused, the first row of the table belongs to the second context |
| EventTables.LargestNeverFalls | Source/NetSelectEventManager.hpp:80-82 | the largest socket is the largest ever added: removing its socket does not lower it |
| EventTables.SelectCountCovers | Source/NetSelectEventManager.hpp:96-103 | the bits that select counts are at least the sockets with an event |
| EventTables.NetPollBuffer.Add | Source/NetPollEventManager.hpp:53-57 | a new row without write interest at the end |
| EventTables.NetPollBuffer.Remove | Source/NetPollEventManager.hpp:58-61 | erases the row at the index |
| EventTables.NetPollBuffer.SetWriteFlag | Source/NetPollEventManager.hpp:74-77 | sets the write interest of one row |
| EventTables.NetPollBuffer.ResetWriteFlag | Source/NetPollEventManager.hpp:78-81 | clears the write interest of one row |
| EventTables.NetPollBuffer.WaitForEvents | Source/NetPollEventManager.hpp:63-72 | the events arrive in the rows, and the rows with any event flag set are counted |
| EventTables.NetSelectBuffer.Add | Source/NetSelectEventManager.hpp:55-72 | refuses a socket of FD_SETSIZE or more, else adds it to the read and except sets and the vector |
| EventTables.NetSelectBuffer.Remove | Source/NetSelectEventManager.hpp:73-84 | takes the socket out of every set and of the vector, and leaves the largest socket |
| EventTables.NetSelectBuffer.SetWriteFlag | Source/NetSelectEventManager.hpp:120-123 | adds the socket to the write set |
| EventTables.NetSelectBuffer.ResetWriteFlag | Source/NetSelectEventManager.hpp:124-127 | takes the socket out of the write set |
| EventTables.NetSelectBuffer.WaitForEvents | Source/NetSelectEventManager.hpp:85-104 | afterwards a socket reads as readable or failing if and only if it is, and as writable if and only if it is and that was asked for; and the count covers the sockets with an event |
| EventPass.VisitRemovesIff | Source/NetBufferBasedEventManager.hpp:101-146 | a visit removes its entry if and only if the peer closed, a send failed, it hung up, or there was an exception |
| EventPass.VisitDoes | Source/NetBufferBasedEventManager.hpp:101-130 | a visit processes one read, of exactly the bytes that came in, and transmits one message, unless the peer closed |
| EventPass.SweepShape | Source/NetBufferBasedEventManager.hpp:92-147 | every entry gets one verdict, an unvisited one is unchanged, one is passed over if and only if its predecessor was removed, and after the early exit none is reached |
| EventPass.SurvivorsInOrder | Source/NetBufferBasedEventManager.hpp:50-57 | the vectors keep the entries that were not removed, in their original order |
| EventPass.BreakCount | Source/NetBufferBasedEventManager.hpp:94-99 | when the loop breaks off, the count went to visited entries with an event, one each |
| EventPass.EarlyExit | Source/NetBufferBasedEventManager.hpp:94-99 | if the wait counted at least the entries with an event, an entry with one is left unvisited if and only if its predecessor was removed in this pass, and never where the loop broke off |
| EventPass.SecondHangUpIsMissed | Source/NetBufferBasedEventManager.hpp:92-140 | of two entries whose peers both hang up the second is passed over with its event |
| EventPass.SelectReports | Source/NetSelectEventManager.hpp:85-110 | over a select buffer in step with the entries, a wait reports what is readable, failing, or writable where asked for, which is what a pass assumes of the answers |
| EventPass.SelectEarlyExit | Source/NetSelectEventManager.hpp:96-110 | the same over select, told by the sets of ready sockets, whose wait counts the bits of three sets |
| EventPass.VisitKeeps | Source/NetBufferBasedEventManager.hpp:96-146 | a visit keeps ownership, other entries' bytes, and a kept entry's slot, framing and write interest; a removed one's connection is marked |
| EventPass.SweepKeeps | Source/NetBufferBasedEventManager.hpp:92-147 | so does a whole pass, however entries are removed, passed over or not reached |
| PollManagerStates.PassStep | Source/NetBufferBasedEventManager.hpp:92-147 | one round of the index loop, its erasure included, leaves the sweep's result the same |
| PollManagerStates.LoopIsSweep | Source/NetBufferBasedEventManager.hpp:92-147 | the whole index loop computes the sweep, for any answers and any count |
| PollManagerStates.SurvivorsHold | Source/NetBufferBasedEventManager.hpp:50-57 | the receive buffers of the entries, as the visits of a pass left them, are those of the survivors and those of the removed contexts |
| PollManagerStates.AddedKeeps | Source/NetBufferBasedEventManager.hpp:33-38 | accepting keeps the manager whole |
| PollManagerStates.ProcessedSendKeeps | Source/NetBufferBasedEventManager.hpp:72-78 | starting sends keeps the manager whole |
| PollManagerStates.AllUpdatedKeeps | Source/NetConnection.hpp:68-82 | updating every connection behind an entry keeps the manager whole |
| PollManagerStates.HandledKeeps | Source/NetBufferBasedEventManager.hpp:81-149 | handling events keeps the manager whole, for any possible answers |
| PollManagerStates.OwnershipEverywhere | Source/NetBufferBasedEventManager.hpp:50-57 | in every reachable state a storage node is free, in one live context's chain, or was in one removed context's, exactly one of these, and no other pointer is anywhere |
| PollManagerStates.LostForever | Source/NetBufferBasedEventManager.hpp:50-57 | a receive buffer of a removed context is never free and never in a chain again, in any later state |
| PollManagerStates.LostIffRemoved | Source/NetBufferBasedEventManager.hpp:50-57 | a run loses no buffer if and only if no pass of it removed a context |
| PollManagerStates.HangUpLoses | Source/NetBufferBasedEventManager.hpp:50-57 | one accept and one hang-up remove a context, with its buffer |
| PollManagerStates.WriteInterestEverywhere | Source/NetBufferBasedEventManager.hpp:72-130 | in every reachable state a set write flag means the send context points at a message still queued, marked and not transmitted, which ends the send chain; and every pointer of the send chain is to a queued message |
| PollManagerStates.SendOrderEverywhere | Source/NetBufferBasedEventManager.hpp:72-130 | in every reachable state the transmitted messages are an increasing choice, the queue is as long as those not transmitted, and all were transmitted if and only if it is empty |
| PollManagerStates.FramingEverywhere | Source/NetEventHandler.cpp:8-32 | in every reachable state a connection received what its own reads frame to, its slot is the end of its chain with a whole buffer, and it received the messages of its bytes if and only if every read up to the last one that ends a message was aligned and no NUL came behind it |
| PollManagers.NetBufferBasedEventManager.AddConnection | Source/NetBufferBasedEventManager.hpp:33-38 | one more context and row, aligned, with reading started |
| PollManagers.NetBufferBasedEventManager.RemoveConnection | Source/NetBufferBasedEventManager.hpp:50-57 | marks the connection and erases the index from both vectors |
| PollManagers.NetBufferBasedEventManager.ProcessSend | Source/NetBufferBasedEventManager.hpp:72-78 | every context's send is started, and its row's flag set if it was |
| PollManagers.NetBufferBasedEventManager.VisitEntry | Source/NetBufferBasedEventManager.hpp:96-146 | one round of the loop does the visit: read, write, hang-up, exception, with removal where they say so |
| PollManagers.NetBufferBasedEventManager.Pass | Source/NetBufferBasedEventManager.hpp:92-147 | the loop terminates with both vectors aligned, and every context that is gone has its connection marked |
| PollManagers.NetBufferBasedEventManager.HandleNetEvents | Source/NetBufferBasedEventManager.hpp:81-149 | the whole event pass over the objects is the sweep over the values |
| PollManagers.NetBufferBasedEventManager.DisconnectAllConnections | Source/NetBufferBasedEventManager.hpp:40-47 | every connection is marked and every context gone; the table is aligned again only if there was no context |
| PollManagers.SendAndWrite | Source/NetBufferBasedEventManager.hpp:119-122 | the send context's message goes on the wire and the handler is told |
| PollManagers.Receive | Source/NetBufferBasedEventManager.hpp:104-106 | the bytes fill the slot and the handler reads them |
| IocpManagerStates.SendDoneKeeps | Source/NetIOCPEventManager.hpp:162-168 | a send completion finds a message queued and keeps the manager whole |
| IocpManagerStates.ReceiveDoneKeeps | Source/NetIOCPEventManager.hpp:156-160 | so does a receive completion of any 1 to a buffer of bytes |
| IocpManagerStates.ZeroBytesKeeps | Source/NetIOCPEventManager.hpp:154 | so does a completion without bytes, whose context is removed with its buffers |
| IocpManagerStates.SendsIssuedKeeps | Source/NetIOCPEventManager.hpp:132-141 | issuing sends keeps the manager whole |
| IocpManagerStates.StorageSafetyEverywhere | Source/NetIOCPEventManager.hpp:132-168 | in every reachable state, with any number of sends in flight, each of these and each pointer of the send chain is of a message still queued, the j-th send of message j or a later one, and a completion never meets an empty queue |
| IocpManagerStates.IocpOwnershipEverywhere | Source/NetIOCPEventManager.hpp:100-130 | buffer ownership in every reachable state of this manager, shutdown included |
| IocpManagerStates.IocpLostForever | Source/NetIOCPEventManager.hpp:122-130 | a receive buffer of a removed context is never free and never in a chain again |
| IocpManagerStates.IocpLostIffRemoved | Source/NetIOCPEventManager.hpp:109-130 | a run loses no buffer if and only if it removed no context, shutdown included |
| IocpManagerStates.ZeroBytesLoses | Source/NetIOCPEventManager.hpp:122-154 | one accept and one completion without bytes remove a context, with its buffer |
| IocpManagerStates.OneReceiveEverywhere | Source/NetIOCPEventManager.hpp:100-160 | in every reachable state each live context has exactly one receive posted, a whole buffer, the end of its own chain |
| IocpManagerStates.IocpFramingEverywhere | Source/NetIOCPEventManager.hpp:156-160 | the same framing, with its exact condition, in every reachable state of this manager |
| IocpManagers.NetIOCPEventManager.AddConnection | Source/NetIOCPEventManager.hpp:100-107 | one more context, with reading started and a receive posted into its slot |
| IocpManagers.NetIOCPEventManager.RemoveConnection | Source/NetIOCPEventManager.hpp:122-130 | removes a live context and marks its connection; for a context removed before nothing changes |
| IocpManagers.NetIOCPEventManager.ProcessSend | Source/NetIOCPEventManager.hpp:132-141 | every context's next message is issued, if there is one |
| IocpManagers.NetIOCPEventManager.HandleNetEvents | Source/NetIOCPEventManager.hpp:144-169 | issues sends, then does what the completion says, posting the next receive after a read; every context that is gone has its connection marked |
| IocpManagers.NetIOCPEventManager.DisconnectAllConnections | Source/NetIOCPEventManager.hpp:109-119 | handles one more completion, then marks every connection and drops every context |
| IocpManagers.ReceiveCompleted | Source/NetIOCPEventManager.hpp:158-159 | the bytes are in the buffer that was posted, the handler reads them, and the next slot is posted |
| IocpManagers.SendCompleted | Source/NetIOCPEventManager.hpp:164-167 | the oldest send is done, its turn of the queue taken, and the next issued |
| Balancers.RoundOf | Source/NetServer.hpp:111-121 | the exact loads and index after any number of accepts from empty |
| Balancers.SpreadBound | Source/NetServer.hpp:111-121 | from empty, loads never differ by more than 2 |
| Balancers.SpreadIsMet | Source/NetServer.hpp:111-121 | with two handlers or more they do differ by 2 |
| Balancers.FullRounds | Source/NetServer.hpp:111-121 | after 2nk accepts every handler has exactly 2k |
| Balancers.StartIs | Source/NetServer.hpp:115-119 | each round starts one place further back on the ring |
| Balancers.LeavesAfter | Source/NetServer.hpp:111-121 | from any loads, the index leaves a handler of load c beside one of load d after exactly max(d - c + 2, 1) accepts, for its neighbour |
| Balancers.ReachedAgain | Source/NetServer.hpp:111-121 | from any loads every handler comes in line again |
| Topologies.AcceptedKeeps | Source/NetServer.hpp:104-110 | accepting keeps connections and contexts in one-to-one correspondence |
| Topologies.WithManagerKeeps | Source/NetServer.hpp:39-42 | so does adding an event manager, at any time |
| Topologies.KnownAreAccepted | Source/NetServer.hpp:104-110 | the connections listed or told of are exactly those accepted, whatever the user closed |
| Topologies.PassedKeeps | Source/NetBufferBasedEventManager.hpp:50-57 | so does a manager's pass, whatever it removes |
| Topologies.UpdatedKeeps | Source/NetServer.hpp:44-57 | so does an update |
| Topologies.PassesAreARun | Source/NetServer.hpp:65-74 | one pass of every manager, in order, is a run of the server's steps |
| Topologies.BijectionEverywhere | Source/NetServer.hpp:104-110 | in every reachable state an unmarked listed connection has one context in one manager, a marked one at most one, and none if the user closed none himself; no other connection has any |
| Topologies.UpdateDanglesIff | Source/NetServer.hpp:44-57 | in every state reachable with the user's closes no context points to an erased connection, and the next update leaves none that does if and only if no marked connection has a context; without such closes none has |
| Topologies.UserCloseDangles | Source/NetServer.hpp:44-57 | from any reachable state, a connection that the user closes while it is open is erased by the next update while its context still points to it |
| Topologies.OneCloseDangles | Source/NetServer.hpp:44-57 | one accept and one close by the user are such a run |
| Topologies.NoticesEverywhere | Source/NetServer.hpp:44-57 | nobody is told twice; the next update tells of and erases exactly the marked connections |
| Topologies.SurvivorsInOrder | Source/NetServer.hpp:46-56 | an update keeps the connections that stay in their order |
| Topologies.ListInOrder | Source/NetServer.hpp:44-57 | in every reachable state the list is the connections accepted, in order of accept, without those told of their disconnection |
| Topologies.NoticesInOrder | Source/NetServer.hpp:46-56 | an update tells of the connections it erases in their order in the list |
| Topologies.ShutdownIsComplete | Source/NetServer.hpp:76-82 | from any reachable state, disconnecting all and one update leave no connection and no context, and every accepted connection was told of exactly once |
| Topologies.BalancedServer | Source/NetServer.hpp:104-121 | an idle server's managers never differ by more than 2 contexts, however many it accepts |
| Servers.NetServer.constructor | Source/NetServer.hpp:25-32 | a server starts with one event manager and no connection |
| Servers.NetServer.AddEventHandler | Source/NetServer.hpp:39-42 | one more manager, in its initial state and sharing no object with the others, and the correspondence is kept |
| Servers.NetServer.GetAvailableEventHandler | Source/NetServer.hpp:111-121 | the handler in line, and the next index as the ring says |
| Servers.NetServer.AddConnection | Source/NetServer.hpp:104-110 | a new connection at the end of the list with a context in the manager in line |
| Servers.NetServer.HandleNetEvents | Source/NetServer.hpp:65-74 | one pass of every manager, each in its own region, and the correspondence is kept |
| Servers.NetServer.UpdateList | Source/NetServer.hpp:44-57 | the erasing loop updates every connection once, in order, and leaves the unmarked ones |
| Servers.NetServer.Update | Source/NetServer.hpp:44-57 | an update of the whole server, also after a shutdown: list, notices, and every manager that mirrored a value sees the updated connections |
| Servers.NetServer.DisconnectAll | Source/NetServer.hpp:76-82 | every manager's last step |
| Servers.NetServer.NothingIsLeft | Source/NetServer.hpp:76-82 | after it no manager has a context, and no connection of the list is unmarked |
| Servers.NetServer.Shutdown | Source/NetServer.hpp:44-82 | disconnecting all and one update over the objects leave no connection and no context, and everybody has been told once |
| EndToEnd.SentWhole | Source/NetEventHandler.cpp:41 | a message and its NUL are sent whole if and only if their length fits 32 bits |
| EndToEnd.Delivery | Source/NetEventHandler.cpp:14-54 | when the reads cut the bytes of the network buffers whose sends succeeded, all messages enqueued are received, in order and once each, if and only if the send queue is empty and every read was aligned |
| EndToEnd.DeliveryEverywhere | Source/NetEventHandler.cpp:14-54 | between any run of a sending manager and any run of a receiving one, each over poll, select or a completion port, what is received is exactly what the user sent, in order and once each, if and only if the send queue is empty and every read was aligned |
| EndToEnd.HeardEverywhere | Source/NetConnection.hpp:64-74 | with nothing pending and updates that found equal messages pending, the receiving user heard exactly what the sending user sent if and only if the send queue is empty and every read was aligned |

## Left out

- Sockets, `WSAPoll`, `select`, `GetQueuedCompletionStatus` and their error codes: the events, bytes and completions they yield are parameters; a wait that fails is one that yields nothing.
- Partial sends: `Write` ignores the byte count, so a successful send counts as the whole payload.
- Failing `SendAsync` and `ReceiveAsync` calls: taken to succeed.
- Send completions out of issue order, completions that carry data for a removed context, and reuse of a freed address.
- The event manager over the select buffer: the manager class uses the poll buffer; `EventTables` proves when the select buffer holds the same rows and stays aligned with the contexts, and that it counts enough.
- The event bits of poll: modelled as flags, all other bits as one.
- The first argument of `select`, `largestSocket`: Winsock ignores it, and what a wait reports is a parameter.
- User callbacks: logged, not run; they are taken not to call back into the engine.
- A user's `ChangeStateToClose` on the server's objects: the methods of `NetServer` are proved for connections that the user does not close himself; what his closes do is proved over the runs of `Topologies`, which end where an update would leave a context dangling.
- `NetServer::Accept` beyond `AddConnection`, the `onConnection` callback, and managers of the completion-port kind under a server.
- Connection identifiers: `GetId` and `operator==` use a 16-bit counter that wraps; identity here is the object's.
- `NetSocket::Receive` over a pool, whose later buffers do not go into its chain.
- The buffer size 1024: any size from 1 to 2^32 - 1; `Log` methods, timeouts, and move constructors.
- Addresses, protocol and socket wrappers, logging, error name tables, and the demo programs.
