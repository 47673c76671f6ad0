# Protocom: framing, server pipeline and session, verified

A Dafny model of the protocom client and server, with proofs.

* **Wire** - a frame is a header byte with its high four bits set, a 16-bit big-endian
  length and a payload. `Wire` defines the encoding and a recursive parser of whole byte
  streams, the reference that the resumable code is measured against.
* **Reader and writer** - `Framer`/`FramerObject` (PFramer) and `Deframer`/`DeframerObject`
  (PDeframer). Each is a step function over one attempt on a non-blocking socket, runs of it
  over every schedule of results, and a class whose fields change in place and which follows
  the step function. `RoundTrip` joins them; `BlockingSocket` is the client's channel without
  resumption.
* **Server** - `Pipeline` is the step system of the two threads with both queues, both tables
  and the event counter; `PipelineProofs` keeps its invariant; `PipelineTheorems` states what
  follows; `ServerLoop` is the event loop and the worker loop as code, over the reader, writer and
  queue objects, with the other thread taking any steps in between; it refines the step system.
* **Session** - `Coding` (the coders as functions over an abstract authenticated cipher),
  `Session`, `SessionTheorems`, `SessionObject` (the context and its handlers as classes),
  `Agreement` and `ClientObject` (the client against the server). `Consistency` shows that the laws
  assumed about cipher, message format and key agreement hold together in one toy instance.
* **Memory** - `FrameMemory` (PFrame's buffer ownership), `CoderObject` (coders that overwrite
  their buffers, and the copies in the queue), `WorkQueues`.
* `Endpoints` shows that each connection of the running server is one reader and one writer of the
  wire layer. `EndToEnd` puts the server's layers together; `Conversation` adds a client that waits
  for every reply, and shows that between the two nothing is dropped and every reply is decoded as
  made; `Realised` shows the converse, that such exchanges do take place on the server.

A socket may hand over, or take, any number of bytes per call from one to those asked for, or
none; the proofs hold for all of them. The host is little-endian.

## What the code does, where one would expect otherwise

* The length field is addressed by counting 16-bit units, so its second half never lands in
  the field (PFramer.cpp:31) and is not read from it (PDeframer.cpp:84). `Framer.LenTransferOk` and
  `Deframer.LenSendOk` are the exact conditions under which a frame survives;
  `Framer.SplitLengthIsMisread`, `Deframer.StalledLengthIsReversed` and
  `Deframer.CutLengthSendsPadding` are instances of failure. An
  attempt that moves no byte of the length field reverses it on the sending side, and is harmless
  on the receiving side unless half of the field is in.
* `readAll` stops just after a frame of length zero and at a byte that cannot start a frame,
  although more bytes may be there; client sockets are registered edge-triggered
  (Server.cpp:286), so those bytes wait for the next event.
* A response is dropped when the writer of its connection is still busy (Server.cpp:169-171).
* A session that ends itself, by accepting without a user handler or by rejecting, has its
  connection closed by the worker (ServerWorker.cpp:48-50), possibly before the event loop has
  written the reply that says so (`PipelineTheorems.LateRepliesAreLost`).
* `recvFrame` accepts only a non-empty payload that arrives in one piece (IOFrameSocket.cpp:43).
* A sealed message over 65535 - 16 - tag bytes is sent with its length modulo 65536.
* In the authentication phase a frame that fails to decode is answered twice: the request switch
  runs on whatever the request object holds.
* `hasConnected` is true once the socket is open, before any key exchange (Client.cpp:44).
* The client's constructor leaves the authenticated flag unset (Client.cpp:13-21); the model starts
  it at false.
* A failed worker-side encode leaves the handler as an exception nobody catches (`Crashed`).
* `PFrame::erase` uses `delete` for memory from `new[]` (IFrameIO.cpp:69); the model treats it as
  the release that was meant.

## Model

| member | source | states |
|---|---|---|
| Wire.ParseAppend | PFramer.cpp:17-47 | reading can be resumed at any byte: the frames of a + b are those of a and then those of the bytes kept plus b |
| Wire.ParseInvertsEncode | PDeframer.cpp:71-98 | the parser returns exactly the frames of any list from their concatenated encodings, with nothing left over |
| Wire.EncodeStarts | PDeframer.cpp:71-98 | an encoding followed by anything starts with that frame, and what follows it is untouched |
| Wire.EncodedBytes | PDeframer.cpp:71-98 | the header comes first, then the high and then the low byte of the length, then the payload |
| Wire.HeaderMask | PFramer.cpp:23 | a header is good exactly when masked with 0xF0 it is 0xF0 |
| Wire.OthersAreSkipped | PFramer.cpp:20-29 | where a header is due, any bytes without the high four bits are passed over |
| Wire.ParsePrefix | PFramer.cpp:17-47 | a prefix of a stream yields a prefix of its frames |
| Wire.RestIsUnfinished | PFramer.cpp:17-47 | the bytes kept are an unfinished suffix of the stream |
| Framer.RxStep | PFramer.cpp:17-81 | one read keeps the counters, header and buffer fill consistent on every result: no underflow, no byte outside the buffer; which frame the bytes make is stated by ReaderTakesFrame |
| Framer.LenComplete | PFramer.cpp:30-39 | the length read is the one sent if and only if the transfer guard holds; a length field moved whole is always right |
| Framer.LenHalf | PFramer.cpp:30-33 | idle attempts and a first half leave the length memory in a known byte order |
| Framer.RxInvStep | PFramer.cpp:17-71 | one read with a good length transfer keeps pushed frames and held bytes equal to those of the stream parser |
| Framer.FramerRefinesParser | PFramer.cpp:17-93 | on every schedule, at every point, pushed frames plus at most one pending empty frame are the parser's frames, and held bytes are its remainder |
| Framer.RightOrDerailed | PFramer.cpp:17-71 | after the first bad length transfer some frame is, or will be, pushed with the wrong length |
| Framer.FramerExactlyRight | PFramer.cpp:17-71 | over all schedules consuming the encodings of a list, the reader yields that list if and only if every length transfer was good |
| Framer.ReaderTakesFrame | PFramer.cpp:17-71 | over every good schedule that delivers a header, a high and a low length byte and 256 * high + low payload bytes, the frame read is just that |
| Framer.EveryCutArrives | PFramer.cpp:17-71 | every way to cut a payload into deliveries can happen and yields the frame at the last piece and not before |
| Framer.WholeIsOk | PFramer.cpp:30-39 | schedules in which length fields arrive whole are good, however everything else is cut |
| Framer.SplitLengthIsMisread | PFramer.cpp:30-39 | a concrete schedule of a halved length field that pushes a frame the stream does not contain |
| Framer.EofMeansEnded | PFramer.cpp:49-66 | after a readAll the end of the stream is known if and only if its last attempt met it, or it was known before and nothing came |
| FramerObject.RecvSocket.Recv | PFramer.cpp:49-66 | the socket gives any part of what has arrived, or nothing |
| FramerObject.PFramer.constructor | PFramer.cpp:13-15 | a new reader is idle and has pushed nothing |
| FramerObject.PFramer.TryRecv | PFramer.cpp:49-66 | a request for zero bytes is not passed on; flags follow the result |
| FramerObject.PFramer.Reset | PFramer.cpp:73-81 | the reader starts over |
| FramerObject.PFramer.ReadHeader | PFramer.cpp:20-29 | a good byte starts a frame, a bad one is dropped and stops reading |
| FramerObject.PFramer.AllocMsg | PFramer.cpp:35-37 | a new buffer of exactly the announced length |
| FramerObject.PFramer.ReadLength | PFramer.cpp:30-39 | the length phase follows the step function and starts the payload when the count is used up |
| FramerObject.PFramer.ReadPayload | PFramer.cpp:40-44 | the payload phase follows the step function and queues what it pushes, as far as the queue has room |
| FramerObject.PFramer.FillLength | PFramer.cpp:30-33 | length bytes are stored and swapped as the step function says |
| FramerObject.PFramer.Store | PFramer.cpp:41-42 | payload bytes go behind those already in the buffer, in place |
| FramerObject.PFramer.PushFrame | PFramer.cpp:68-71 | the finished frame goes to the queue, if it has room, under the connection's descriptor and the reader is reset |
| FramerObject.PFramer.TryRead | PFramer.cpp:17-47 | the object's fields, its result and the queue, of any limit, follow the step function on whatever the socket gave in the one call made of it, none for zero bytes |
| FramerObject.PFramer.ReadAll | PFramer.cpp:91-93 | terminates; every byte taken is accounted for, all complete frames are queued in order as far as the queue has room and agree with the stream parser, and it stops only without data, at end of stream, at a bad header byte or just after an empty frame |
| Deframer.TxStep | PDeframer.cpp:71-98 | one write keeps the counters within the offered bytes on every result; which bytes go out is stated by WriterExactlyRight and Wire.EncodedBytes |
| Deframer.LenLeaves | PDeframer.cpp:82-91 | when the length field is out, the bytes on the wire and the length kept for the payload are both right if and only if the guard holds |
| Deframer.SpoiltForGood | PDeframer.cpp:71-98 | a wrong length on the wire is never repaired |
| Deframer.GoodOrSpoilt | PDeframer.cpp:71-98 | at every point of every schedule the wire is either the exact prefix due or already wrong, by the guards alone |
| Deframer.WriterExactlyRight | PDeframer.cpp:62-103 | over all schedules that finish a frame and all surrounding memory, the wire equals the encoding if and only if the length field left well |
| Deframer.WriterPrefix | PDeframer.cpp:71-98 | at every moment of a good schedule the wire is a prefix of the encoding |
| Deframer.AttemptsBounded | PDeframer.cpp:100-103 | at most payload length + 3 successful attempts for a frame whose length field left well, and at most 65535 + 3 for any |
| Deframer.StalledLengthIsReversed | PDeframer.cpp:82-84 | one idle attempt on the length field puts its bytes on the wire in reverse |
| Deframer.CutLengthSendsPadding | PDeframer.cpp:82-84 | a length field that leaves in two pieces puts the padding byte in place of its low byte |
| Deframer.EveryCutLeaves | PDeframer.cpp:71-98 | every way to cut a payload into sends, with a busy socket before each, can happen and puts the encoding on the wire |
| Deframer.WrittenOutMeans | PDeframer.cpp:100-103 | a writeAll ends with the frame out, or because the socket was busy or refused |
| DeframerObject.SendSocket.Send | PDeframer.cpp:16-33 | the socket takes any part of what is offered, or nothing |
| DeframerObject.PDeframer.Start | PDeframer.cpp:64-67 | the copied frame starts from its header |
| DeframerObject.PDeframer.TrySend | PDeframer.cpp:16-33 | an offer of zero bytes is not passed on; flags follow the result |
| DeframerObject.PDeframer.SetSentItem | PDeframer.cpp:62-69 | a frame is taken if and only if no write is in progress; otherwise nothing changes |
| DeframerObject.PDeframer.SendLength | PDeframer.cpp:82-91 | the in-place byte swaps follow the step function |
| DeframerObject.PDeframer.TryWrite | PDeframer.cpp:71-98 | one attempt is one step of the writer on whatever the socket took in the one call made of it, extends the recorded run of the frame, and makes progress or says why not |
| DeframerObject.PDeframer.WriteAll | PDeframer.cpp:100-103 | terminates; true exactly when the frame is out, and then the wire is its encoding if and only if the length field left well; otherwise busy or closed with a prefix out |
| RoundTrip.WireIsEncodings | PDeframer.cpp:62-103 | frames sent in turn leave complete encodings and then a prefix of the last one |
| RoundTrip.RoundTripExact | PFramer.cpp:17-71 | for every frame list, every cut of sends with length fields leaving well and every cut of receives, the reader yields exactly the frames sent if and only if its length transfers are good |
| RoundTrip.RoundTripInFlight | PFramer.cpp:17-71 | at every earlier moment the frames received are a prefix of those sent |
| BlockingSocket.WholeFrameParses | IOFrameSocket.cpp:26-48 | what recvFrame accepts with both length bytes together is 3 + len bytes and exactly one frame to the stream parser |
| BlockingSocket.IOFrameSocket.TryRecv | IOFrameSocket.cpp:57-71 | a closed channel or a request for zero bytes is not passed on, any other is, once; the end of the stream closes the channel and the flag tells whether the call would have blocked |
| BlockingSocket.IOFrameSocket.TrySend | IOFrameSocket.cpp:73-87 | a closed channel or an offer of zero bytes is not passed on, any other is, once; what is reported sent is what reached the wire, and the flags follow the result |
| BlockingSocket.IOFrameSocket.RecvPayload | IOFrameSocket.cpp:36-45 | the receive loop terminates, gives up only at a receive that brings nothing, and its last delivery is the whole length exactly when the payload came in one piece |
| BlockingSocket.IOFrameSocket.RecvFrame | IOFrameSocket.cpp:26-48 | true if and only if a good header, length bytes and the whole non-empty payload came as three deliveries; it gives up only at a receive that brings nothing, a bad header or a length of zero, and the bytes consumed are those delivered |
| BlockingSocket.IOFrameSocket.SendFrame | IOFrameSocket.cpp:12-24 | true if and only if the whole encoding left; otherwise a proper prefix did; header, length and payload are each offered once and only after the one before left whole |
| WorkQueues.WorkQueue.PushItem | WorkQueue.cpp:8-13 | an item is refused, silently, only when a nonzero limit is reached; fetched followed by queued items stay the accepted ones |
| WorkQueues.AdmittedAppend | WorkQueue.cpp:8-13 | pushing two batches in turn leaves what pushing them as one does, at any limit |
| WorkQueues.WorkQueue.FetchItemNonBlocking | WorkQueue.cpp:26-33 | nothing from an empty queue, otherwise the oldest item |
| WorkQueues.WorkQueue.BeginFetch | WorkQueue.cpp:15-18 | entering a blocking fetch forgets a cancellation |
| WorkQueues.WorkQueue.EndFetch | WorkQueue.cpp:18-24 | a cancelled fetch removes nothing, even from a non-empty queue; otherwise the oldest item |
| WorkQueues.WorkQueue.CancelFetch | WorkQueue.cpp:46-50 | a waiting fetch is released and the items stay |
| PipelineProofs.ReadKeeps | Server.cpp:174-180 | reading a connection appends to its parsed frames and its queue alike |
| PipelineProofs.WriteKeeps | Server.cpp:139-145 | resuming a write keeps the wire made of complete encodings and one prefix |
| PipelineProofs.OfferKeeps | Server.cpp:160-172 | offering a response to a writer keeps accepted responses an in-order subsequence of those offered |
| PipelineProofs.StepKeepsInv | Server.cpp:76-172 | every atomic step of either thread keeps delivery, output, table and token invariants |
| PipelineProofs.RunKeepsInv | ServerWorker.cpp:27-53 | the invariants hold in every state of every interleaving |
| PipelineTheorems.DeliveryConservation | ServerWorker.cpp:27-51 | for an open connection the frames parsed from its bytes are those handled, then the one in the worker's hands, then those queued, then a pending empty one, in order; after close the handled frames are a prefix |
| PipelineTheorems.NoInterleaving | Server.cpp:155-172 | while open, the wire is the complete encodings of accepted responses and a prefix of the last; accepted responses are an in-order subsequence of those queued |
| PipelineTheorems.DroppedOnlyWhileBusy | Server.cpp:166-171 | over every run, of the responses that met an open connection exactly those that found its writer idle were accepted, in order, and the others dropped |
| PipelineTheorems.NoStrandedResponse | ServerWorker.cpp:11-21 | queued responses never exceed tokens, owed notifications and the token in hand, which exceed them by no more than the tokens of stop; at rest a non-empty queue has a token |
| PipelineTheorems.EventLoopDrains | Server.cpp:105-115 | from any reachable state at rest the event loop alone can empty the response queue |
| PipelineTheorems.LateRepliesAreLost | ServerWorker.cpp:47-50 | once the worker has closed an inactive session's connection, responses not yet accepted by its writer, and the unwritten rest of one that was, never reach the wire in any continuation |
| PipelineTheorems.TablesAlwaysAgree | ServerWorker.cpp:37-50 | both tables have the same keys in every reachable state and the worker never meets an inactive context before handling |
| PipelineTheorems.RequestsArriveInOrder | ServerWorker.cpp:27-51 | the session has handled a prefix of exactly the frames a well-behaved peer sent |
| PipelineTheorems.ResponsesArriveInOrder | Server.cpp:155-172 | a peer reading the wire gets a prefix of the accepted responses |
| Endpoints.InputIsReader | Server.cpp:174-180 | over every run the input side of a connection is what the reader makes of the attempts on it since the accept: bytes, frames, state, and whether its length transfers were good |
| Endpoints.RequestsExact | PFramer.cpp:17-71 | the frames of a peer that has finished sending have all arrived, handled, in hand, queued or pending, exactly and in order, if and only if every length field was read well, over every cut and interleaving |
| Endpoints.OutputIsWriter | Server.cpp:155-172 | over every run the output side of a connection is what the writer makes of the responses given to it in turn: the bytes on the wire are theirs, and its length fields left well exactly when theirs did |
| ServerLoop.WorkerUntouched | Server.cpp:76-153 | no run of the event loop moves the worker's position |
| ServerLoop.LoopUntouched | ServerWorker.cpp:27-53 | no run of the worker moves the event loop, takes a token or a queued response, or changes a connection that stays open |
| ServerLoop.Server.CreateHandler | Server.cpp:236-245 | accepting a descriptor that nothing queued or in hand belongs to enters it into both tables |
| ServerLoop.Server.CloseClient | Server.cpp:304-337 | closing leaves both tables; an unknown descriptor is ignored |
| ServerLoop.Server.TryRead | Server.cpp:175 | the reader object's attempt, with its buffer and queue, is the read step of its connection and touches no other |
| ServerLoop.Server.TryWrite | Server.cpp:140-142 | the writer object's attempt is the write step of its connection and touches no other |
| ServerLoop.Server.SetSentItem | Server.cpp:160-171 | the fetched response goes to its writer object if and only if the connection is open and the writer idle |
| ServerLoop.Server.ReadAll | PFramer.cpp:91-93 | with any worker steps between them, the event loop makes exactly the reads of one readAll of this connection, up to the first without progress, and no byte of the socket is lost |
| ServerLoop.Server.HandleDataIn | Server.cpp:174-180 | the event loop makes the reads of one readAll and then a close, the latter if and only if the reader ended at the end of the stream; every byte gone from the socket was taken |
| ServerLoop.Server.WriteAll | Server.cpp:139-142 | with any worker steps between them, the event loop makes exactly the writes of one writeAll of this connection, up to the first without progress: the frame is out or the socket busy or closed |
| ServerLoop.Server.HandleDataOut | Server.cpp:155-172 | the event loop fetches, and a queued response is then offered to its connection; if that is open and its writer idle when they meet, all the writes of a writeAll follow, otherwise none; the worker may act before the fetch, before the lock and between the writes |
| ServerLoop.Server.OnEventFd | Server.cpp:105-115 | a token leads to one such fetch and nothing else, no token to nothing; the responses behind the fetched one stay queued in order, before any the worker adds |
| ServerLoop.Server.OnClientEvent | Server.cpp:117-149 | an unknown descriptor is ignored, error and hang-up close; otherwise the event loop makes, in this order and nothing else, the writes of a writeAll if output is ready and a write pending, the reads of a readAll if input is, and the close if they ended at the end of the stream |
| ServerLoop.Server.SocketCarriesResponses | Server.cpp:155-172 | the bytes on a connection's socket are the complete encodings of accepted responses and a prefix of the last, all of them when its writer is idle |
| ServerLoop.Server.Stop | Server.cpp:200-211 | stopping adds a token and releases a blocked worker |
| ServerLoop.ServerWorker.Handle | ServerWorker.cpp:37-47 | an item of a closed connection is skipped, any other is handled and its context set active or not; the inactive branch is dead |
| ServerLoop.ServerWorker.PushItem | ServerWorker.cpp:11-12 | a response is queued under its connection and a notification is owed |
| ServerLoop.ServerWorker.Notify | ServerWorker.cpp:13-20 | the owed notification becomes a token |
| ServerLoop.ServerWorker.Fetch | ServerWorker.cpp:30-35 | the oldest item moves from the queue into the worker's hands, unless the fetch was cancelled |
| ServerLoop.ServerWorker.SendReplies | ServerWorker.cpp:11-21 | every reply is pushed and then notified, exactly once and in turn, the event loop running in between |
| ServerLoop.ServerWorker.Process | ServerWorker.cpp:37-51 | the worker lets the session handle the item and, if it is still there, pushes and notifies each of its replies and finishes; for a session that is gone it does nothing more |
| ServerLoop.ServerWorker.Finish | ServerWorker.cpp:48-50 | an inactive session leaves both tables |
| ServerLoop.ServerWorker.RunOnce | ServerWorker.cpp:29-51 | a turn either takes no item, and then the queue is empty or a stop cancelled the wait, or takes the oldest, not cancelled, and makes with the replies given exactly the steps of Process, interrupted anywhere by any run of the event loop |
| Coding.EncodedShape | EncrMessageCoder.cpp:54-79 | an encodable message gives a well-formed frame with the header of its mode and its size modulo 65536 |
| Coding.EncodedLayout | EncrMessageCoder.cpp:54-79 | exactly the messages up to 65535 bytes are encoded: plain as they are behind 0xF0, sealed behind 0xF1 as the 16-byte vector and the ciphertext, cut off to the size modulo 65536 |
| Coding.OpensOnlySealed | EncrMessageCoder.cpp:21-52 | under a key exactly those frames open that have header 0xF1 and are a vector and the bytes sealed with it |
| Coding.CodingExact | EncrMessageCoder.cpp:21-79 | decoding restores the bytes if and only if message, vector and tag fit 16 bits |
| Coding.Truncated | EncrMessageCoder.cpp:75-76 | a frame cut off by its length never opens to the message |
| Coding.PlainNeverOpens | EncrMessageCoder.cpp:23-26 | a plain frame is refused by the sealed coder |
| CoderObject.ByteVector.Put | EncrMessageCoder.cpp:57-69 | a buffer keeps its storage when it fits and keeps its bytes when it moves |
| CoderObject.MessageCoder.Encode | MessageCoder.cpp:12-22 | a message over 65535 bytes changes nothing; any other gets the plain header and its length, and the frame points into the coder's buffer |
| CoderObject.MessageCoder.Decode | MessageCoder.cpp:8-10 | the parser gets the bytes the frame shows, whatever its header |
| CoderObject.EncrMessageCoder.Encode | EncrMessageCoder.cpp:54-79 | the frame points into the coder's buffer and shows what the coding function says |
| CoderObject.EncrMessageCoder.Decode | EncrMessageCoder.cpp:21-52 | the parser gets the bytes of the frame as it was, even when the frame lies in the buffer being overwritten, and such a frame keeps its storage |
| CoderObject.EncrMessageCoder.Echo | EncrMessageCoder.cpp:21-79 | encode then decode in place gives the message back exactly when it fits |
| CoderObject.FrameSink.WriteFrame | ServerWorker.cpp:11-12 | the queue gets a fresh copy that owns its buffer and shows what the frame showed; the others are unchanged |
| CoderObject.QueuedFramesAreIsolated | ServerWorker.cpp:11-12 | whatever plain and sealed encodes, decodes of incoming frames or in place, and further writes follow, queued frames keep header, length and bytes, and those added are exactly the frames written, each as it was encoded |
| FrameMemory.PFrame.Copy | IFrameIO.cpp:16-23 | a deep copy with its own buffer, from an owning frame or an alias |
| FrameMemory.PFrame.Move | IFrameIO.cpp:59-65 | ownership passes to the new frame |
| FrameMemory.PFrame.CopyAssign | IFrameIO.cpp:31-41 | self-assignment changes nothing; otherwise the old buffer is released and the source copied |
| FrameMemory.PFrame.MoveAssign | IFrameIO.cpp:43-51 | the old buffer is released and ownership passes over; a self-move leaves the frame pointing at its released buffer |
| FrameMemory.AliasedSourceIsGone | IFrameIO.cpp:31-41 | after the release, the source of a copy assignment can be read if and only if it has no bytes or another buffer |
| FrameMemory.FrameStore.NewDefault | IFrameIO.cpp:9-14 | a new frame is empty, owns nothing and changes no buffer |
| FrameMemory.FrameStore.NewCopy | IFrameIO.cpp:16-23 | every live buffer still belongs to exactly one owning frame |
| FrameMemory.FrameStore.NewMove | IFrameIO.cpp:59-65 | ownership passes to the new frame; every live buffer still has exactly one owner |
| FrameMemory.FrameStore.CopyAssign | IFrameIO.cpp:31-41 | from any source but an alias of the target's own buffer: the bytes are copied, self-assignment changes nothing, and every live buffer has exactly one owner |
| FrameMemory.FrameStore.MoveAssign | IFrameIO.cpp:43-51 | the target's buffer is released, the source's passes over, and every live buffer has exactly one owner, after a self-move too |
| FrameMemory.FrameStore.AllocMsg | IFrameIO.cpp:53-57 | a frame that owns a buffer keeps it, another gets one of its length; every live buffer has exactly one owner |
| FrameMemory.FrameStore.Erase | IFrameIO.cpp:67-75 | the frame is empty, its own buffer and no other is released |
| FrameMemory.FrameStore.Destroy | IFrameIO.cpp:25-29 | the frame's own buffer is released once and every live buffer has exactly one owner among the rest |
| FrameMemory.FrameStore.DestroyAll | IFrameIO.cpp:25-29 | when the last frame is gone no buffer is left |
| SessionTheorems.PhasesAdvance | ProtocolContext.cpp:19-31 | phases never go back, the coder is replaced only at the key exchange, and a session without a handler ignores every frame |
| SessionTheorems.OnlyUsersCrash | ProtocolConnectedHandler.cpp:96-101 | before the user phase no reply fails to encode |
| SessionTheorems.PhaseEntered | ProtocolConnectedHandler.cpp:41-90 | each phase is entered only from the one before and only by its own event |
| SessionTheorems.UserOnlyAfterAuthentication | ProtocolAuthenticationHandler.cpp:35-70 | every run that reaches a user handler contains, in this order and under one key, a successful key exchange with a key of 32 bytes, a granted authentication request that starts five attempts, and credentials that the authenticator accepts or that need none |
| SessionTheorems.StepReplies | ProtocolConnectedHandler.cpp:96-101 | every reply carries the header and mode of the coder before the frame, and only the key exchange answer ends the plain phase |
| SessionTheorems.UserReplies | protocom/ProtocolUserHandler.h:51-56 | the turn crashes if and only if some answer is over 65535 bytes; otherwise all answers leave, in order in the session's coder, and after a crash exactly those before the first such answer have left |
| SessionTheorems.UserTurn | protocom/ProtocolUserHandler.h:41-56 | a turn of a user ends crashed if and only if an answer is too long, and otherwise stays with the user unless the user ends the session |
| SessionTheorems.RepliesAreWellFormed | MessageCoder.cpp:12-22 | whatever a session answers is a frame that can be put on the wire |
| SessionTheorems.HeaderDiscipline | ProtocolConnectedHandler.cpp:71-101 | over every sequence of frames the replies are plain up to the positive key exchange answer and sealed under one key after it |
| SessionTheorems.StepAttempts | ProtocolAuthenticationHandler.cpp:35-54 | one frame keeps refusals sent and attempts left at five together |
| SessionTheorems.BoundedAttempts | ProtocolAuthenticationHandler.cpp:12-54 | in every run at most five refusals, and a rejection only after five and with the end of the session |
| SessionTheorems.ConnectedRepliesMean | ProtocolConnectedHandler.cpp:19-90 | a positive reply and a change of phase coincide and are given exactly for an authentication request after a key exchange, or a first key exchange with a 32-byte key that agrees; a decode error means an undecodable frame, only unknown requests go unanswered |
| SessionTheorems.AuthenticatingRepliesMean | ProtocolAuthenticationHandler.cpp:15-70 | an undecodable frame gets one extra reply; the last reply says what the request was and what the authenticator says of it, and tells where the session is |
| SessionObject.ProtocolContext.HandleFrame | ProtocolContext.cpp:19-31 | the context dispatches to its handler, follows the session step, and is active unless closed |
| SessionObject.ConnectedHandler.HandleFrame | ProtocolConnectedHandler.cpp:19-39 | the handler object follows the step of the connected phase |
| SessionObject.ConnectedHandler.HandleKex | ProtocolConnectedHandler.cpp:41-80 | the answer leaves in the old coder, which is then replaced |
| SessionObject.ConnectedHandler.HandleAuthRequest | ProtocolConnectedHandler.cpp:82-90 | authentication starts only after a key exchange |
| SessionObject.AuthenticationHandler.HandleFrame | ProtocolAuthenticationHandler.cpp:15-33 | the request switch also runs after a failed decode |
| SessionObject.AuthenticationHandler.DoAuth | ProtocolAuthenticationHandler.cpp:35-54 | credentials the authenticator accepts, or any without one, are accepted; others are refused with one attempt less, or rejected and the session closed |
| SessionObject.AuthenticationHandler.ProceedAuth | ProtocolAuthenticationHandler.cpp:63-70 | accepted, then the user's handler or the end |
| SessionObject.RunSession | ProtocolContext.cpp:9-22 | the objects driven by any sequence of frames end where the specification's run ends, with the same replies |
| SessionObject.ProtocolContext.RespWithStatus | ProtocolConnectedHandler.cpp:96-101 | one reply encoded with the coder given, or an exception and no reply |
| SessionObject.UserHandler.HandleFrame | protocom/ProtocolUserHandler.h:41-56 | the answers, decodable frame or not, are sent in order until one is too long, which is the only way to an exception; otherwise all are sent and the session stays unless the user ends it |
| Agreement.DecodesRight | EncrMessageCoder.cpp:21-79 | a packet that fits its frame decodes to its bytes under its own coder |
| Agreement.ServerAnswersKex | ProtocolConnectedHandler.cpp:41-80 | the server answers in plain and only then changes its coder, to the key the answer yields |
| Agreement.ClientTakesKex | Client.cpp:84-113 | the client takes the key of the exchange the server completed |
| Agreement.ClientTakesKey | Client.cpp:84-116 | on any answer the client goes on, under the agreed key, if and only if the answer is positive with a 32-byte key that agrees and the next request can be encoded |
| Agreement.ClientTakesVerdict | Client.cpp:118-145 | on any reply the client is ready, or authenticated, if and only if the reply decodes and says so |
| Agreement.CoderAgreement | Client.cpp:71-149 | in every run of connect and authentications each frame is decoded with the mode and key it was encoded with, and messages that fit are restored |
| Agreement.ConnectCompletes | Client.cpp:71-123 | over every run of a connect, with a fresh vector for every frame: after at most five steps it halts, and only with both sides ready under the agreed key, or, if the keys do not agree, with the client failed and the session untouched |
| Agreement.HonestConnectSucceeds | Client.cpp:71-123 | whenever the two keys agree, the five steps of the exchange can take place with any vectors and end with both sides ready |
| Agreement.AuthenticateExact | Client.cpp:135-149 | with a vector for each frame, authenticate succeeds if and only if there is no authenticator or it accepts the credentials, and the server's phase follows |
| ClientObject.Client.Connect | Client.cpp:71-123 | true exactly when both requests left and both replies drive the client's machine to ready; the calls of the channel are those of the exchange, so that it gives up only at a failed call, a message that cannot be encoded or a reply the machine refuses |
| ClientObject.Client.Authenticate | Client.cpp:135-149 | true exactly when the request left and the reply says accepted; only then is the client authenticated; it gives up only at a failed call or a request that cannot be encoded |
| ClientObject.Client.SendMsg | Client.cpp:63-69 | an unencodable message is not written, any other is, once, and the result is that of the write |
| ClientObject.Client.FetchMsg | Client.cpp:56-61 | one frame is read and decoded with the current coder; it fails only if one of the two does |
| EndToEnd.DrivenStaysInStep | ServerWorker.cpp:27-51 | what a connection's session was given is what was handled, and what it replied is what was and will be queued |
| EndToEnd.DrivenNeverStuck | ServerWorker.cpp:47 | a worker with a frame for an open connection can always let its session handle it |
| EndToEnd.SessionSeesClientFrames | ServerWorker.cpp:27-51 | the session gets a prefix of exactly the frames its client sent, under every cut and every interleaving |
| EndToEnd.ClientSeesPlainThenSealed | EncrMessageCoder.cpp:75 | what a client reads from the wire has plain headers first and only sealed ones after them |
| Conversation.BusyIsUnread | Server.cpp:139-145 | while a writer is busy, the last frame given to it cannot be read from the wire |
| Conversation.OneAnswer | ProtocolAuthenticationHandler.cpp:15-33 | each request of a client that waits for its replies gets at most one |
| Conversation.WriterIsIdle | Server.cpp:166-171 | a response to such a client never finds the writer busy |
| Conversation.StepKeepsTalk | Client.cpp:71-149 | every step of client, session, event loop and worker keeps client and session tied together through both queues and both byte streams |
| Conversation.ConversationsBegin | Client.cpp:71-83 | after any accept a conversation can begin |
| Conversation.ConversationAgrees | Client.cpp:56-149 | for a client that waits for its replies, over every cut and interleaving: no response is dropped, the session gets a prefix of what was sent, and every frame read is the next reply, decoded with the coder it was made with |
| Realised.ExchangesTakePlace | Server.cpp:76-180 | whatever honest client and session can say to each other over ideal channels, any number of authentications included, takes place in some run of the two threads, over bytes and queues, as long as the session stays open |
| Realised.ConnectTakesPlace | Client.cpp:71-123 | an honest connect with keys that agree gets through the server: both sides end under the agreed key, the session with five attempts |
| Realised.ConversationIsDriven | ServerWorker.cpp:27-51 | the server's part of every conversation is a run of its threads in which the connection is served by the session |

## Left out

- Socket, epoll, accept and eventfd calls beyond what they give or take, and errors they throw.
- The cipher, the key agreement (section 6.1 of RFC 7748) and the key derivation, which are parameters with laws; x25519KexProtocol.cpp reduces to a key length check and an agreement that may fail.
- The generated message code: parsing inverts serializing, a message with a status is not empty, and a failed decode may leave anything in the request object.
- Authenticator strategies (a predicate on requests), and what a user's handler computes: per frame it may give any answers, or end the session.
- The undefined behaviour of reading past a frame's buffer when the writer has its length reversed: the model lets any bytes be there.
- Which descriptor numbers the system reuses: a number is accepted again only when no item for it is queued or in either thread's hands, and histories then start over.
- Reading the handler table without its lock, and using a connection entry after it was erased: a step, such as one socket call with the updates around it, is atomic in the model.
- Deleting a coder's buffers when it is replaced: they are only never used again.
- Whether stopping always ends: a cancellation before the wait is forgotten (WorkQueue.cpp:17); `terminate`, the destructors and the case of a server without a worker are not modelled.
- The `txReady` flag and the `readInProgress` flag, which are set but never read.
- A client that times out and then reads a late reply, or calls connect again.
- Changing the item limit of a queue in use.
- ServerLoop.Server.WorkerRuns: an interference point; its contract allows any run of the worker (while the table is locked, none that closes a connection) and its body takes none.
- ServerLoop.Server.EventLoopRuns: an interference point; its contract allows any run of the event loop and its body takes none.
- Conversation.ConversationAgrees: for a user who answers a frame at most once, with what fits a sealed frame; a session that ends itself may close the connection before its last reply is written, which is outside the open connections it speaks of.
- Realised.ExchangesTakePlace: for users as in `Conversation.ConversationAgrees`, and up to the moment a session ends itself.
