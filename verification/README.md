# Crouton: models and proofs

Crouton is a C++20 coroutine runtime with network protocols on top of it. This project models its five hard parts in
Dafny and proves what they are for:

- **WebSocket framing.** The resumable parser is a class that is fed chunks; it refines a parser of whole streams. The
  frame printer, the UTF-8 validator and the close payload sit beside it.
- **BLIP.** Messages are numbered, cut into frames, interleaved by a priority queue, flow-controlled by ACKs and put
  together by the peer. Two endpoints joined by channels that keep order are a step system; every run is covered.
- **Wake-ups.** The Scheduler's hand-off and the Future and Blocker state machines, as steps between atomic operations
  of any number of threads.
- **Queues and pipelines.** The bounded queue, and a pipeline of an Emitter, any number of connectors and a Collector,
  under every schedule.
- **Small algorithms.** The intrusive circular list, `readUntil`, the Framer and varints.

`dafny verify dfyconfig.toml` checks the whole project.

## How it is laid out

| files | what they hold |
|---|---|
| `Common`, `Bytes`, `Varint`, `ByteStream` | options, bytes, exclusive-or, big-endian numbers, varints, a stream that arrives in pieces |
| `WebSocketFraming`, `WebSocketParser`, `WebSocketPrinter`, `WebSocketFragments`, `Utf8` | the stream parser as functions, the parser object, the printer, messages in fragments, UTF-8 and close payloads |
| `BlipFrame`, `BlipMessage`, `BlipOutbox` | frames as bytes and their checksum, building and reading messages, the priority queue |
| `BlipEndpoint`, `BlipConservation`, `BlipFlow` | what an endpoint does, as functions, and what every operation keeps, with any peer |
| `BlipIO` | the object whose methods do it in place and keep that |
| `BlipClosing`, `BlipAcks` | what closing does to messages and futures; which message an ACK reaches |
| `BlipStream`, `BlipLink`, `BlipDelivery`, `BlipRuns` | one direction of a connection, two endpoints, their ACKs, and every run |
| `BlipReplies` | which reply is whose, and what flags messages carry, in every run |
| `BlipFrozen`, `BlipLostAcks` | responses that are frozen for good, and a run that ends so |
| `Scheduler`, `Future` | wake-ups and hand-offs between threads |
| `AsyncQueue`, `Pipeline` | the bounded queue and pipelines |
| `LinkedList`, `CoCondition`, `ReadUntil`, `Framer` | the small algorithms |

A protocol between threads or tasks is a state, a datatype of steps, `Enabled` and `Apply`; an invariant is proved of
every step, and so of every run. Code that works on its own fields is a class whose methods are proved against functions
of the old state, and the theorems are about those functions. Proofs hide definitions they do not need, to stay cheap.

## What was found

- **Pushing the last link again.** `push_back` of a link that is already the last of the list loses it: the link ends in
  a cycle of its own (`LinkedList.LinkList.PushBackLost`). A link in any other place moves to the end
  (`LinkedList.LinkList.PushBackAgain`).
- **`readUntil` at the end of a stream.** The loop ends if and only if the delimiter or `maxLen` bytes are there to be
  read; otherwise it consumes the stream and turns forever (`ReadUntil.ReadFor`).
- **Payload length as `int`.** Lengths are cut to 32 bits before they are compared, and `size_t` subtraction wraps around
  when the test is wrong. A frame's payload is read right if and only if fewer than 2^31 bytes follow its header, or the
  low half of their number is below 2^31 and not below the payload's length (`WebSocketParser.ReadRightIff`,
  `WebSocketParser.FrameReadRightIff`); a payload of one byte at the front of 2^31 bytes is not
  (`WebSocketParser.LargeBufferIsMisread`).
- **Frames between the fragments of a message.** Section 5.4 of RFC 6455 lets control frames come there. The parser reads a
  sequence of frames as that section means it, and closes the connection exactly if the order is wrong, if and only if no
  control frame and no binary frame comes while a message is unfinished (`WebSocketFragments.ReadAsMeantIff`). A ping there
  is joined to the message, which is queued too early (`WebSocketFragments.PingIsSwallowed`); a binary frame is joined to
  it too and the connection goes on (`WebSocketFragments.BinaryIsJoined`).
- **The buffer for a frame.** `send` prints a frame to ten bytes more than the message. That is enough if and only if the
  sender is a server or the message is at most 0xffff bytes long (`WebSocketPrinter.FrameFitsIff`); a client's message of
  2^16 bytes needs four more (`WebSocketPrinter.LargeFrameIsTooLong`).
- **Properties without a zero byte at the end.** The receiver refuses them, but not if they end within the first ten bytes of
  the message, which are read before that check (`BlipMessage.UnnoticedIff`, `BlipMessage.OneByteIsUnnoticed`).
- **`closePush` and a waiting generator.** The header promises that the generator ends once the queue is empty. It does
  if and only if it is not waiting when `closePush` is called (`AsyncQueue.ClosePushReachesIff`, `AsyncQueue.ClosingEnds`);
  one that waits is not notified and waits until the queue is closed in another way (`AsyncQueue.ClosingIsMissed`,
  `AsyncQueue.GeneratorLeftWaiting`).
- **`closeSend` and waiting messages.** The header says that all queued messages are still sent. A message that waits
  outside the outbox is sent when its turn comes if and only if sending is still open then (`BlipClosing.OutsideStep`);
  after `closeSend` it never is, in any run (`BlipClosing.LateMessagesAreCancelled`), and there is such a run
  (`BlipClosing.QueuedButNotSent`).
- **`sendRequest` after `closeSend`.** The header forbids it, and nothing stops it. The future it returns gets no result,
  ever, if and only if the request is urgent or the outbox has room (`BlipClosing.FutureIsLostIff`); an urgent request
  just after `closeSend` is such a one (`BlipClosing.UrgentRequestIsLost`).
- **`closeReceive` and requests still being sent.** It resolves the replies that are expected. A request still being sent
  expects its reply only later, and that has no result until `stop` (`BlipClosing.UnresolvedIff`,
  `BlipClosing.ReplyIsUnheard`). The destructor does not call `stop` once both sides are closed, and there is a run that
  ends so (`BlipClosing.ReplyIsNeverHeard`).
- **ACKs of responses.** `isResponse()` holds of ACK messages too. In every run an ACK with something new reaches a
  response, queued or frozen, if and only if no ACK with the same number stands before it in the outbox, or anywhere there
  if it is frozen (`BlipRuns.AckReachesResponseIff`); otherwise it is lost. A run of two ends that ask and answer each
  other comes to such a state (`BlipLostAcks.AckIsLost`), and goes on to one where nothing is on its way and the response
  is frozen in every state that follows (`BlipLostAcks.ResponseStaysFrozen`). In runs where no ACK of a response arrives
  while another stands before the response, no response stays frozen (`BlipRuns.NoResponseStaysFrozen`). Requests are not
  affected (`BlipRuns.NoRequestStaysFrozen`).

## Model

| member | source | states |
|---|---|---|
| WebSocketFraming.ChunkIndependence | src/io/WebSocketProtocol.hh:361-426 | However a byte stream is cut into `consume` calls, in either role, the result is that of the whole stream: messages, unfinished message, and the stop at a violation |
| WebSocketFraming.FeedComposes | src/io/WebSocketProtocol.hh:361-426 | Two feeds in a row are one feed of both chunks, from any reachable parser state |
| WebSocketFraming.FeedValid | src/io/WebSocketProtocol.hh:379-426 | Every feed keeps the parser state well formed: at most two opcodes stacked, an incomplete header kept back, a mask in the server role |
| WebSocketFraming.UnmaskByteAt | src/io/WebSocketProtocol.hh:106-114 | Byte k of unmasked data is byte k XOR key byte k mod 4 (section 5.3 of RFC 6455) |
| WebSocketFraming.UnmaskTwice | src/io/WebSocketProtocol.hh:106-138 | Masking is its own inverse |
| Bytes.XorIsBitwise | src/io/WebSocketProtocol.hh:106-114 | Each bit of the exclusive-or is set exactly if one of the two bits is |
| WebSocketParser.ReadRightIff | src/io/WebSocketProtocol.hh:163-196 | With lengths cut to `int` and wrapping subtraction, a payload in a buffer of any size is read as it should be if and only if the test of lengths is right; otherwise what follows it is taken for more of it |
| WebSocketParser.FrameReadRightIff | src/io/WebSocketProtocol.hh:144-197 | The same of a frame, header included: frames that do not open are always refused as they should be |
| WebSocketParser.LargeBufferIsMisread | src/io/WebSocketProtocol.hh:163-196 | One byte of payload at the front of 2^31 bytes: all of them are taken, and nearly 2^64 more are awaited |
| WebSocketParser.UnmaskPrecise | src/io/WebSocketProtocol.hh:106-114 | The overlapping copy unmasks the payload into its new place and touches nothing else |
| WebSocketParser.UnmaskInplace | src/io/WebSocketProtocol.hh:129-138 | The in-place loop unmasks the range and touches nothing else |
| WebSocketParser.RotateMask | src/io/WebSocketProtocol.hh:121-127 | The key is turned so that it fits the byte where the next chunk begins |
| WebSocketParser.Parser.HandleFragment | src/io/WebSocket.cc:141-163 | A fragment is added to the one message being collected; the last one queues it |
| WebSocketParser.Parser.ConsumeMessage | src/io/WebSocketProtocol.hh:144-197 | A frame at the front of a buffer of any size is begun, and finished if it seems to be all there, as the source's 32-bit test decides |
| WebSocketParser.Parser.ConsumeContinuation | src/io/WebSocketProtocol.hh:199-224 | A payload is continued, and finished if the rest is there, as the whole-stream parser would |
| WebSocketParser.Parser.ConsumeBuffer | src/io/WebSocketProtocol.hh:379-426 | A buffer is parsed frame by frame, and an incomplete header is kept back |
| WebSocketParser.Parser.Consume | src/io/WebSocketProtocol.hh:361-377 | The object's state after a chunk is that of the whole-stream parser after it |
| WebSocketParser.ReadAll | src/io/WebSocket.cc:96-108 | A connection fed any chunks under 2^31 bytes ends in the state of one scan of all the bytes |
| WebSocketPrinter.MaskPayload | src/io/WebSocketProtocol.hh:337-357 | The three-phase masking, for any alignment of the destination, masks every byte with its key byte |
| WebSocketPrinter.FormatMessage | src/io/WebSocketProtocol.hh:301-359 | Byte by byte the frame of section 5.2 of RFC 6455: FIN and opcode, the mask bit exactly if a client sends, the length in 7, 16 or 64 bits, the key, and payload byte k combined with key byte k mod 4 |
| WebSocketPrinter.FrameIs | src/io/WebSocketProtocol.hh:301-359 | The same of a frame with any first byte |
| WebSocketPrinter.FrameFitsIff | src/io/WebSocket.cc:89 | A frame fits in the buffer `send` makes for it if and only if it is not masked or the message is at most 0xffff bytes; it is never more than four bytes too long |
| WebSocketPrinter.LargeFrameIsTooLong | src/io/WebSocket.cc:89 | A client's message of 2^16 bytes needs four bytes more |
| WebSocketPrinter.FrameIsRead | src/io/WebSocketProtocol.hh:301-359 | A printed frame is read by the other role as its one message, wherever it stands in a stream |
| WebSocketPrinter.RoundTrip | src/io/WebSocketProtocol.hh:301-359 | Any list of messages, any masks, any chunking: the other role queues exactly that list |
| WebSocketFragments.FragmentedRoundTrip | src/io/WebSocketProtocol.hh:144-197 | Messages cut into any parts, sent as a first frame with the opcode and continuations with FIN on the last, with any masks and in any chunks: the other role queues one message for each, with the joined payload |
| WebSocketFragments.FragmentsAreRead | src/io/WebSocketProtocol.hh:144-197 | Any sequence of well-formed frames is read frame by frame, each refused or counted |
| WebSocketFragments.ReadAsMeantIff | src/io/WebSocketProtocol.hh:144-197 | After every frame of any sequence the messages queued, and whether the connection was closed, are as section 5.4 of RFC 6455 means it, if and only if no control or binary frame comes while a message is unfinished |
| WebSocketFragments.RefusedIff | src/io/WebSocketProtocol.hh:149-157 | After any frames, the next is refused if and only if it continues nothing, or begins while two opcodes are open, or is text after a frame without FIN |
| WebSocketFragments.HeaderRefusedIff | src/io/WebSocketProtocol.hh:389-396 | Between messages a header is refused if and only if its first byte has a reserved bit or an unknown opcode, a control frame is long or fragmented, or the payload has more than a megabyte |
| WebSocketFragments.PingIsSwallowed | src/io/WebSocketProtocol.hh:144-197 | A ping between two fragments is joined to the message, and the rest becomes a message of its own |
| WebSocketFragments.SecondPingStands | src/io/WebSocketProtocol.hh:144-197 | A second ping there is queued as a ping |
| WebSocketFragments.BinaryIsJoined | src/io/WebSocketProtocol.hh:149-157 | A binary frame between two fragments is joined to the message and not refused |
| Utf8.IsValidUtf8 | src/io/WebSocketProtocol.hh:243-270 | A byte string is accepted if and only if it is a concatenation of encodings of section 4 of RFC 3629 |
| WebSocketClose.ParseClosePayload | src/io/WebSocketProtocol.hh:277-288 | A code is given, with its text, if and only if it is 1000 to 1003, 1007 to 1011 or 4000 to 4999 and the text is UTF-8; otherwise neither is |
| WebSocketClose.CloseRoundTrip | src/io/WebSocketProtocol.hh:277-299 | Parsing inverts printing exactly on those codes with well-formed text |
| Varint.Put | src/support/Varint.cc:54-62 | The bytes written are the seven-bit digits of the number, lowest first and no more than it takes, with the high bit on all but the last |
| Varint.ReadPartial | src/support/Varint.cc:24-43 | The loop in 64-bit arithmetic gives the number; bytes are missing exactly if there are fewer than ten and all have the high bit, and there are too many exactly if the first ten have it |
| Varint.RoundTrip | src/support/Varint.cc:24-62 | Reading inverts writing for every 64-bit number, whatever follows |
| Varint.PrefixIsPartial | src/support/Varint.cc:24-43 | Every strict prefix of an encoding is incomplete, not an error |
| Varint.TenBytesSuffice | src/support/Varint.cc:54-62 | Ten bytes hold any 64-bit number |
| Framer.ReceiveMessages | src/io/Framer.cc:27-44 | For every chunking of a stream, the messages yielded and the error raised are those of the whole stream |
| Framer.FramerRoundTrip | src/io/Framer.cc:27-51 | Any list of messages is received as it was sent |
| Framer.BadLengthIsReported | src/support/Varint.cc:24-43 | Ten bytes with the high bit where a length should be are reported, after the messages before them |
| Framer.CutStream | src/io/Framer.cc:27-44 | A stream that ends early gives the messages that are wholly there and no error |
| ReadUntil.Turn | src/io/IStream.cc:78-110 | One turn consumes through the first match, or all it was shown; at the end of the stream it changes nothing |
| ReadUntil.Read | src/io/IStream.cc:74-112 | The result is the stream through the first delimiter or `maxLen` bytes, and exactly that is consumed, for every chunking |
| ReadUntil.ReadFor | src/io/IStream.cc:74-114 | The loop ends if and only if the delimiter or `maxLen` bytes are there: within as many turns as there are bytes, and otherwise after no number of turns |
| ReadUntil.FindSplit | src/io/IStream.cc:86-100 | A match that straddles old and new bytes is found, and it is the first |
| LinkedList.Link.Remove | include/crouton/util/LinkedList.hh:48-54 | The link leaves the cycle it is in and the rest stays one cycle; a link in none is left alone |
| LinkedList.Link.InsertAfter | include/crouton/util/LinkedList.hh:74-80 | A link in no list, or in another one, enters the cycle after the given one; the cycle it leaves stays one |
| LinkedList.Link.MoveAfter | include/crouton/util/LinkedList.hh:74-80 | A link already in the cycle moves after another |
| LinkedList.Link.MoveAfterSelf | include/crouton/util/LinkedList.hh:74-80 | A link told to follow itself is lost to its list |
| LinkedList.Link.Replace | include/crouton/util/LinkedList.hh:63-72 | A link takes the place of another in its cycle, which is left unlinked; nothing happens if that is in none, and the link is left pointing to it if it was alone |
| LinkedList.LinkList.Moved | include/crouton/util/LinkedList.hh:92-97 | A list constructed by moving has the other's contents and the other is empty |
| LinkedList.LinkList.Assign | include/crouton/util/LinkedList.hh:99-106 | A list assigned by moving has the other's contents, the other is empty, and the links it had are in no list; assigned to itself it stays as it is |
| LinkedList.LinkList.PushFront | include/crouton/util/LinkedList.hh:113 | The contents get a new first link, which leaves the list it was in |
| LinkedList.LinkList.PushFrontAgain | include/crouton/util/LinkedList.hh:113 | A link of the list, wherever it is, moves to the front |
| LinkedList.LinkList.PushBack | include/crouton/util/LinkedList.hh:114 | The contents get a new last link, which leaves the list it was in |
| LinkedList.LinkList.PushBackAgain | include/crouton/util/LinkedList.hh:114 | A link of the list that is not last moves to the end |
| LinkedList.LinkList.PushBackLost | include/crouton/util/LinkedList.hh:114 | The last link, pushed again, is lost |
| LinkedList.LinkList.PopFront | include/crouton/util/LinkedList.hh:116-121 | The first link is removed and left unlinked |
| LinkedList.LinkList.Erase | include/crouton/util/LinkedList.hh:123 | One link is removed, wherever it is, and left unlinked |
| LinkedList.LinkList.Clear | include/crouton/util/LinkedList.hh:125-132 | The list is empty and every link it had is unlinked |
| CoCondition.Condition.Await | src/CoCondition.cc:37-43 | An awaiter joins the end of the list |
| CoCondition.Condition.NotifyOne | src/CoCondition.cc:24-27 | The awaiter that came first is woken, if there is one |
| CoCondition.Condition.NotifyAll | src/CoCondition.cc:30-34 | Every awaiter is woken once, in the order they came, and none is left |
| Scheduler.StepKeeps | src/Scheduler.cc:43-69 | Every step of every thread keeps the invariant: no lost wake-up, safe sleep, each wake counted once, queues apart |
| Scheduler.RunKeeps | src/Scheduler.cc:193-365 | The invariant holds after every interleaving |
| Scheduler.NeverSleepsThrough | src/Scheduler.cc:193-212 | While the owner is blocked and a coroutine wants to wake, a stop is pending or a waker is still in its call |
| Scheduler.VisitedKeeps | src/Scheduler.cc:351-363 | A turn of the scan makes a flagged coroutine ready once, or cleans up a cancelled one |
| Scheduler.WokenIsDue | src/Scheduler.cc:43-69 | When no waker is in its call, every coroutine that was woken is due |
| Scheduler.LoopGoesOn | src/Scheduler.cc:193-212 | While a coroutine is due the scheduling loop can take a step, or can once another thread's call has stopped the event loop |
| Scheduler.LoopComesNearer | src/Scheduler.cc:255-266 | Each of its steps makes the coroutine ready or comes nearer to that |
| Scheduler.OthersDoNotDelay | src/Scheduler.cc:331-345 | What other threads do leaves it due and no further away |
| Scheduler.Delivered | src/Scheduler.cc:255-365 | A coroutine that is due is made ready within a bounded number of steps of the loop, in whatever order the map is scanned and whatever other threads do meanwhile |
| Scheduler.PhaseStep | src/Scheduler.cc:226-295 | Every step moves each coroutine as a five-state machine of its own says (away, waiting, woken, cancelled, in line), whatever happens to the others |
| Scheduler.EnteredStays | src/Scheduler.cc:226-266 | In every run a coroutine put in line, by `schedule` or by the scan, is in line after any later step unless it was picked, resumed or destroyed |
| Scheduler.WasPutInLine | src/Scheduler.cc:226-233 | One that is in line was there before or was put there |
| Scheduler.PickedInTurn | src/Scheduler.cc:255-266 | A coroutine with d others before it leaves the line with no more than d picks before: it is picked by the next pick but d, or taken out |
| Scheduler.FirstComeFirstServed | src/Scheduler.cc:226-266 | If none is taken out, those picked and then those in line are those that were in line and then those that came, in order |
| Scheduler.BlocksUntilStopped | src/Scheduler.cc:193-200 | With nothing ready and no stop asked for, the owner stays in the event loop until that returns for an event |
| Scheduler.NoSpuriousReturn | src/Scheduler.cc:193-212 | A blocking event loop returns at most once for every stop asked for |
| Scheduler.OneStopForAll | src/Scheduler.cc:331-345 | However many wake-ups there are, a stop is asked for once between two scans |
| Scheduler.Owner.Scan | src/Scheduler.cc:351-363 | Without interference, exactly the flagged coroutines leave the suspended map, and the live ones among them become ready, once each |
| Scheduler.Owner.ScheduleWakers | src/Scheduler.cc:348-366 | Nothing changes unless a wake-up was announced |
| Scheduler.Owner.NextOr | src/Scheduler.cc:255-266 | The coroutine returned is the first of those that were ready and, after them, exactly the live flagged ones, once each; the others stay in line in that order, and what was not flagged stays suspended |
| Future.StepKeeps | src/Future.cc:25-67 | Every load, swap, exchange, store and callback keeps the invariant |
| Future.HandOffIsSafe | src/Future.cc:25-67 | In every interleaving a result is stored at most once and is the expected one; a coroutine is woken or a chain resolved at most once and only with the result in place; errors skip callbacks |
| Future.HandOffCompletes | src/Future.cc:83-153 | When no thread has anything left to do, every future has its result, every callback due has run, and the coroutine was woken exactly once unless it never suspended |
| Future.NoNeedlessWait | include/crouton/Future.hh:115-122 | A coroutine that finds the result there when it asks, or when it looks again, goes on at once, and is never woken |
| Future.EveryRunEnds | src/Future.cc:108-153 | Every step leaves less to do |
| Future.ActKeeps | src/Future.cc:136-153 | Resolving a chain passes an error to the next future at once, or queues the callback |
| Future.LocalStep | src/CoCondition.cc:52-68 | The steps of awaiter and notifier on one future or Blocker keep its invariant |
| AsyncQueue.BoundedAsyncQueue.Push | include/crouton/Queue.hh:114-121 | The queue stays safe; an item joins the end exactly if there is room and the queue is open, and then no generator is left waiting |
| AsyncQueue.BoundedAsyncQueue.Pop | include/crouton/Queue.hh:146-153 | The queue stays safe; the item is the oldest accepted and not yet yielded, and no pusher is left waiting; the last item of a closing queue closes it |
| AsyncQueue.BoundedAsyncQueue.ClosePush | include/crouton/Queue.hh:53-60 | The queue stays safe; it is open no longer, keeps its items, takes the error if it was open and had none, and leaves no pusher waiting |
| AsyncQueue.BoundedAsyncQueue.Close | include/crouton/Queue.hh:77-85 | The queue stays safe and is closed, with the error given unless it had one or was closed; what was accepted has been yielded or dropped, and nobody is left waiting |
| AsyncQueue.BoundedAsyncQueue.CloseWhenEmpty | include/crouton/Queue.hh:64-72 | The queue stays safe and loses nothing; it is closed if it is empty, and will close otherwise, with the error given unless it had one or was closed |
| AsyncQueue.BoundedAsyncQueue.AttemptPush | include/crouton/Queue.hh:224-228 | The pusher waits exactly while the queue is full and open, and otherwise pushes exactly if it is open |
| AsyncQueue.BoundedAsyncQueue.Generate | include/crouton/Queue.hh:176-194 | The generator yields the oldest item if there is one; otherwise it ends with the error of the queue if that is closed or to close, and waits if not |
| AsyncQueue.UseQueue | include/crouton/Queue.hh:176-228 | A queue object put through any steps is where their run ends, so what is proved of runs holds of it |
| AsyncQueue.ClosePushReachesIff | include/crouton/Queue.hh:53-60 | After `closePush` of an open queue the generator waits if and only if it did before |
| AsyncQueue.ClosingEnds | include/crouton/Queue.hh:176-194 | If it does not wait then, it never waits again and has ended after a turn for each item and one more, in every run |
| AsyncQueue.ClosingIsMissed | include/crouton/Queue.hh:53-60 | If it waits then, it goes on waiting in every run in which the queue is not closed in another way |
| AsyncQueue.GeneratorLeftWaiting | include/crouton/Queue.hh:53-60 | A run in which that happens |
| AsyncQueue.StepKeeps | include/crouton/Queue.hh:176-194 | Every step of pusher, generator and whoever closes the queue keeps the invariant |
| AsyncQueue.QueueIsSafe | include/crouton/Queue.hh:176-228 | Yielded and queued items are the accepted ones in order, unless the queue was closed over some; the bound holds; the two sides never wait for each other |
| AsyncQueue.EndsWithFirstError | include/crouton/Queue.hh:53-85 | In every run the error of the queue, with which a finished generator has ended, is the first one given by a call that was not too late; once the queue is closed it does not change |
| Pipeline.StepKeeps | include/crouton/PubSub.hh:349-360 | Every step of every task keeps the invariant |
| Pipeline.PipelineMeaning | include/crouton/PubSub.hh:279-284 | Under every schedule the Collector has a prefix of what the connectors' list functions make of the items; when it is done, all of it, and the Emitter's error |
| Pipeline.NoDeadlock | include/crouton/PubSub.hh:127-137 | Until the Collector is done some task can take a step |
| Pipeline.EveryRunEnds | include/crouton/PubSub.hh:127-137 | The number of steps of any run is bounded |
| Pipeline.FilterThrough | include/crouton/PubSub.hh:373-390 | A Filter's list function keeps the items that satisfy its predicate |
| Pipeline.TransformThrough | include/crouton/PubSub.hh:431-444 | A Transformer's list function maps the items |
| Pipeline.FilterThenTransform | include/crouton/PubSub.hh:431-444 | Emitter, Filter, Transformer, Collector: the collected items are a prefix of the map of the filter, and equal it at the end |
| BlipFrame.FrameRoundTrip | src/io/blip/BLIPIO.cc:333-340 | A frame's bytes are read back as the frame: number, flags, data and checksum |
| BlipFrame.BytesAre | include/crouton/io/blip/Protocol.hh:28-40 | The bytes of a frame are its number, the flags with the codes of the protocol, the body and, unless it is an ACK, the checksum in four big-endian bytes |
| BlipFrame.CrcAppend | src/io/blip/Codec.cc:47-49 | The running checksum does not depend on how data is cut |
| BlipFrame.CrcDetectsByte | src/io/blip/Codec.cc:47-49 | Data that differs in one byte has another checksum |
| BlipMessage.MessageBuilder.AddProperty | src/io/blip/MessageBuilder.cc:75-80 | The property joins those written |
| BlipMessage.MessageBuilder.FinishProperties | src/io/blip/MessageBuilder.cc:90-103 | The properties are written with their size, unless they are too large |
| BlipMessage.MessageBuilder.Write | src/io/blip/MessageBuilder.cc:105-110 | The data joins the body |
| BlipMessage.MessageBuilder.Finish | src/io/blip/MessageBuilder.cc:113-116 | The payload is the size of the properties, the properties and the body |
| BlipMessage.BuiltIsValid | src/io/blip/MessageBuilder.cc:90-116 | What a builder writes is a valid payload, with these properties and this body |
| BlipMessage.PartIsAccepted | src/io/blip/Message.cc:143-222 | A valid payload is accepted in any cut whose first part holds the size |
| BlipMessage.WholeIsAcceptedIff | src/io/blip/Message.cc:170-216 | A message in one frame is accepted if and only if the size of its properties can be read, is at most 100 kilobytes and no more than there is, and they end with a zero byte or within the first ten bytes |
| BlipMessage.UnnoticedIff | src/io/blip/Message.cc:170-202 | Properties without a zero byte at the end go unnoticed if and only if they end within the first ten bytes |
| BlipMessage.OneByteIsUnnoticed | src/io/blip/Message.cc:170-202 | One property byte that is not zero is accepted |
| BlipMessage.MessageIn.Acknowledge | src/io/blip/Message.cc:225-237 | An ACK says all that has come; what the sender has not been told of is always less than 50000 bytes, and an ACK is sent exactly when it would not be |
| BlipMessage.MessageIn.Start | src/io/blip/Message.cc:170-183 | The size of the properties is read from the first ten bytes, and what comes with it is put where it belongs |
| BlipMessage.MessageIn.ReadProperties | src/io/blip/Message.cc:188-202 | What is missing of the properties is taken from the frame, and they must end with a zero byte |
| BlipMessage.MessageIn.ReceivedFrame | src/io/blip/Message.cc:143-222 | Properties and body are those of the payload so far; a frame is refused exactly when its data or its checksum is wrong |
| BlipMessage.GetProperty | src/io/blip/Message.cc:250-268 | The scan finds what the pure lookup finds |
| BlipMessage.PropertyIsFirst | src/io/blip/Message.cc:250-268 | A property looked up is the first one added under that name, or nothing |
| BlipOutbox.Outbox.Requeue | src/io/blip/BLIPIO.cc:82-103 | An urgent message is put behind all urgent ones and, if it is new, behind all new ones, then as near to the front as can be but not first, with one that is not urgent before it where there is one; any other goes to the end; no other moves |
| BlipOutbox.RequeuedWhereItBelongs | src/io/blip/BLIPIO.cc:82-103 | There is exactly one such place, and it is the one |
| BlipOutbox.HeadStays | src/io/blip/BLIPIO.cc:82-103 | Requeueing never displaces the head, and loses and duplicates nothing |
| BlipOutbox.RequeueKeepsWait | src/io/blip/BLIPIO.cc:82-103 | Whatever is requeued, the bound on another message's wait does not grow |
| BlipOutbox.BoundedBypass | src/io/blip/BLIPIO.cc:82-103 | A message that is not urgent and has d ahead of it is served within 2d+1 pops |
| BlipOutbox.UrgentInTurn | src/io/blip/BLIPIO.cc:82-103 | An urgent message is never overtaken: with d ahead of it, it is served by the pop after d pops |
| BlipOutbox.UrgentIsServed | src/io/blip/BLIPIO.cc:82-103 | An urgent message is served once the head, those up to one past the last urgent one and, if it is new, those up to the last new one have been, whatever is requeued |
| BlipIO.NextFrameToSend | src/io/blip/MessageOut.cc:41-53 | The loop copies all the data or all that fits |
| BlipIO.BLIPIO.ThawMessage | src/io/blip/BLIPIO.cc:231-237 | The message leaves the ice and is requeued |
| BlipIO.BLIPIO.SendRequest | src/io/blip/BLIPIO.cc:187-201 | The object stays valid; the request is in exactly one box with the payload and the flags given and its future has no result yet, unless it was cancelled at once: then its future is lost |
| BlipIO.BLIPIO.Respond | src/io/blip/Message.cc:315-325 | The object stays valid; unless it is too late the response is in exactly one box with the number, payload, flags and kind given, and no other message and no future is touched |
| BlipIO.BLIPIO.CreateNextFrame | src/io/blip/BLIPIO.cc:271-328 | The object stays valid, so the asserts on the way hold; the frame carries what comes next in the message at the head, with its flags, and says rightly whether more is to come; it has 32783 bytes at most, or 4111 if an urgent message waits behind one that is not, and exactly as many if more is to come |
| BlipIO.AddFrame | src/io/blip/Message.cc:143-222 | A frame's data is counted and added to its message object, and refused exactly for its data or checksum |
| BlipIO.BLIPIO.Receive | src/io/blip/BLIPIO.cc:333-382 | The bytes of a frame are refused exactly if they should be; otherwise the object stays valid, and a complete request is returned with its whole payload |
| BlipIO.BLIPIO.GotAck | src/io/blip/BLIPIO.cc:433-455 | The first match in the outbox, or else in the icebox, is acknowledged, and thawed if it may go on |
| BlipIO.CancelAll | src/io/blip/BLIPIO.cc:148-160 | The loop over the incoming messages, in any order, resolves the futures the specification says |
| BlipIO.BLIPIO.CloseReceive | src/io/blip/BLIPIO.cc:141-160 | The object stays valid; no message is pending, and every reply that was expected has exactly one result |
| BlipIO.BLIPIO.Discard | src/io/blip/BLIPIO.cc:163-177 | The loops over outbox, icebox and waiting messages tell each message once, box by box |
| BlipIO.BLIPIO.Stop | src/io/blip/BLIPIO.cc:163-180 | The object stays valid, is closed both ways and has no messages in any box; every reply future it had has exactly one result |
| BlipIO.Drive | src/io/blip/BLIPIO.cc:187-455 | A BLIPIO put through any operations, with frames as bytes, is in the state in which their run ends |
| BlipConservation.OpKeeps | src/io/blip/BLIPIO.cc:196-455 | Every operation keeps the boxes, the futures and the numbers right, with any peer that makes no protocol error |
| BlipConservation.NothingIsLost | src/io/blip/BLIPIO.cc:196-326 | In every run each live message is in exactly one box; no future is resolved twice; one kept and not resolved is with a message or a response expected, and one that was lost is never resolved |
| BlipConservation.BoxesTold | src/io/blip/BLIPIO.cc:166-175 | Going through the three boxes resolves the future of a message exactly if the message is in one of them, and once |
| BlipConservation.EmptiedFuture | src/io/blip/BLIPIO.cc:166-175 | As every message is in a box, the loops resolve exactly the futures of all messages |
| BlipConservation.CancelledOnce | src/io/blip/BLIPIO.cc:148-160 | Going through the incoming messages, in any order, resolves each future expected exactly once |
| BlipConservation.StopResolvesAll | src/io/blip/BLIPIO.cc:163-180 | In every run, after `stop` every reply future that was kept has exactly one result |
| BlipConservation.RopeFirst | src/io/blip/BLIPIO.cc:314-324 | Letting a waiting message in before or after the finished one is handed over makes no difference |
| BlipConservation.TransmittedFuture | src/io/blip/MessageOut.cc:99-122 | Sending a frame hands the future to the response expected, or resolves it |
| BlipConservation.ReceivedFuture | src/io/blip/Message.cc:209-222 | Receiving a frame resolves the future of the response it completes, and no other |
| BlipFlow.AssertsHold | src/io/blip/BLIPIO.cc:82-83 | The asserts of requeue, freeze and thaw never fail |
| BlipFlow.AckedCounts | src/io/blip/MessageOut.cc:93-96 | A valid ACK raises what is acknowledged to its count and lowers what is not, never the reverse |
| BlipFlow.OpFlows | src/io/blip/BLIPIO.cc:306-312 | Every operation keeps the byte counts right, and freezes only what is over the limit |
| BlipFlow.FlowIsControlled | src/io/blip/MessageOut.cc:74-96 | In every run unacknowledged bytes are those sent less the highest valid ACK, and stay under 128000 plus one frame while receiving is open |
| BlipClosing.OutsideStep | src/io/blip/BLIPIO.cc:205-218 | A message that waits outside leaves only when its turn comes or at a stop; it enters the outbox if and only if sending is open then, and otherwise its future is resolved |
| BlipClosing.LateMessagesAreCancelled | src/io/blip/BLIPIO.cc:205-218 | In every run after sending is closed such a message is never in the outbox or on ice: it waits as it was, or is gone and its future has its one result |
| BlipClosing.QueuedButNotSent | src/io/blip/BLIPIO.cc:196-218 | A run in which a message queued before `closeSend` is cancelled |
| BlipClosing.WaitersMoveUp | src/io/blip/BLIPIO.cc:314-317 | In every run without `stop` the messages that wait outside come in or are cancelled in the order they came, one for each request or response finished |
| BlipClosing.FutureIsLostIff | src/io/blip/BLIPIO.cc:187-192 | In every run a reply future has one result after `stop`, or never any; never if and only if its request was cancelled as it was sent |
| BlipClosing.UrgentRequestIsLost | src/io/blip/BLIPIO.cc:187-218 | After `closeSend` alone, an urgent request's future has no result in any run, `stop` included |
| BlipClosing.ReplyIsUnheard | src/io/blip/MessageOut.cc:99-122 | Once receiving is closed, the future of a request that is being sent with its reply wanted, or has been sent and has no reply, has no result in any run without `stop` |
| BlipClosing.UnresolvedIff | src/io/blip/BLIPIO.cc:141-160 | In every run from `closeReceive` on, a kept future has no result if and only if its request is still to be sent or its reply is expected, and then the request was still to be sent at `closeReceive` or is newer; one in the outbox or on ice then has none until `stop` |
| BlipClosing.ReplyIsNeverHeard | src/io/blip/BLIPIO.cc:125-160 | A run after which both sides are closed and nothing is left to send, so that the destructor does not stop, and a kept future has no result in any run without `stop` |
| BlipClosing.NothingFreezes | src/io/blip/BLIPIO.cc:306-312 | In every run after receiving is closed, no message is put on ice |
| BlipAcks.AckReachesIff | src/io/blip/BLIPIO.cc:433-455 | An ACK with something new reaches a response, queued or frozen, if and only if no ACK with its number stands before it in the outbox, or anywhere there if it is frozen; otherwise nothing changes for it |
| BlipStream.SendKeeps | src/io/blip/BLIPIO.cc:271-328 | A frame sent keeps sender, channel and receiver in agreement |
| BlipStream.TakeKeeps | src/io/blip/BLIPIO.cc:386-429 | The frame at the front of a channel is always accepted, and the last one of a message completes it as it was sent |
| BlipLink.EmitKeeps | src/io/blip/BLIPIO.cc:271-328 | Sending a frame keeps the two ends linked |
| BlipLink.DataKeeps | src/io/blip/BLIPIO.cc:333-382 | A data frame that arrives is accepted and keeps them linked |
| BlipLink.AnswerKeeps | src/io/blip/Message.cc:315-325 | Answering a request once keeps them linked |
| BlipDelivery.AckHeard | src/io/blip/BLIPIO.cc:433-455 | An ACK of a message that is still being sent finds it and counts: always if it is a request, and if it is a response unless an ACK with its number stands before it |
| BlipDelivery.DataExtra | src/io/blip/Message.cc:225-237 | The last ACK due for a request is always heard, on its way or about to be sent |
| BlipRuns.NextKeeps | src/io/blip/BLIPIO.cc:333-382 | Every act of either end keeps the invariant of the connection, and no frame is refused |
| BlipRuns.NoFrameIsRefused | src/io/blip/BLIPIO.cc:386-429 | In no run does any frame raise "Bad incoming REQ", "Bad incoming RES", a checksum error or any other |
| BlipRuns.BytesAreAccepted | src/io/blip/BLIPIO.cc:333-382 | In every run the frame next to arrive, with a number below 2^64, is read from its bytes as it was made, and accepted |
| BlipRuns.DataRefusedIff | src/io/blip/BLIPIO.cc:386-429 | While receiving is open a data frame is refused if and only if its number fits no message pending, no reply expected and is not the next, or its data is not what a message may have, or its checksum is wrong |
| BlipRuns.CorruptionIsNoticed | src/io/blip/Codec.cc:64-71 | In every run, if one byte of the data of the next frame is changed on its way, or its checksum is, it is refused |
| BlipRuns.MessagesArriveWhole | src/io/blip/Message.cc:143-222 | In every run a completed message has the number and the payload sent; all that was sent and is not on its way has been completed |
| BlipRuns.AckReachesResponseIff | src/io/blip/BLIPIO.cc:433-455 | In every run an ACK with something new reaches a response, queued or frozen, if and only if no ACK with its number stands before it in that end's outbox, or anywhere there if it is frozen |
| BlipRuns.MessagesReadAsBuilt | src/io/blip/Message.cc:250-268 | A completed message has the body its builder wrote, and each property has the first value added |
| BlipReplies.RepliesGoToWhoAsked | src/io/blip/MessageOut.cc:99-109 | In every run the request that arrived under a number is the one that was asked under it, and the reply expected under that number resolves the future of whoever asked |
| BlipReplies.ResponsesAreAsGiven | src/io/blip/Message.cc:315-325 | In every run a response that has arrived has the payload it was given with |
| BlipReplies.FramesCarryFlags | src/io/blip/MessageBuilder.cc:64-70 | In every run each frame on its way has the flags its request was asked with, or the kind and flags its response was given with |
| BlipReplies.ReplyIffWanted | src/io/blip/MessageOut.cc:99-109 | In every run a request may be answered, and its reply is expected or has come, only if a reply was wanted; once such a request is sent, its reply is expected and its future open, or its reply has come and its future has one result |
| BlipReplies.NoReplyIsSettled | src/io/blip/MessageOut.cc:99-122 | In every run a request asked for without a reply never expects one, and its future has one result exactly once it is no longer being sent |
| BlipRuns.NoRequestStaysFrozen | src/io/blip/BLIPIO.cc:306-312 | With nothing on its way and no ACK waiting, no request is frozen |
| BlipRuns.NoResponseStaysFrozen | src/io/blip/BLIPIO.cc:433-455 | After a run in which no ACK of a response arrives while an ACK with its number stands before the response, no response is frozen either |
| BlipFrozen.StaysStuck | src/io/blip/BLIPIO.cc:231-237 | A frozen response of which no frame and no ACK is on its way or waits to be sent stays as it is in every run from there |
| BlipFrozen.FrozenForGood | src/io/blip/BLIPIO.cc:231-237 | In every run: once nothing is on its way and no ACK waits, a response that is frozen stays frozen whatever the two ends do |
| BlipLostAcks.AckIsLost | src/io/blip/BLIPIO.cc:433-455 | Two ends ask and answer each other, and come to a state where the next ACK has something new for a frozen response and changes nothing |
| BlipLostAcks.ResponseStaysFrozen | src/io/blip/BLIPIO.cc:306-312 | The run goes on to a state where nothing is on its way or waits to be sent, all that has come is acknowledged, both ends are open, and the response is frozen in every state that follows |

## Left out

- libuv, mbedTLS, llhttp, lwIP, Network.framework and the file system: wrappers over libraries. Of the event loop only
  this is used: a thread-safe stop stays pending until the loop returns.
- Compressed WebSocket and BLIP data: they rest on zlib and miniz.
- HTTP, URLs, logging, errors, the WebSocket handshake, timers and thread pools: they would only add easy members.
- WebSocketParser.Parser.Consume: speaks of buffers under 2^31 bytes; for larger ones the exact condition is stated of
  each frame (`WebSocketParser.FrameReadRightIff`), not of the whole buffer. The caller's buffer is a value and unmasking
  runs in place on a copy of it; the bytes written before the buffer for the spill are not modelled.
- WebSocketPrinter.FormatMessage: the random mask is a parameter, and the destination is long enough, as
  `WebSocketPrinter.FrameFitsIff` says when.
- LinkedList.Link.InsertAfter: the other list's cycle stays right, but its own record of its contents is not modelled.
- Scheduler.StepKeeps: `test_and_set` and the read of the Scheduler pointer are one step, coroutine identities are not
  reused while a Suspension is out, and `destroying` a coroutine with an unused Suspension is excluded, as its assert
  demands.
- Future.HandOffIsSafe: one provider and one consumer for each future; `onReady`, `noFuture` and a second result are not
  modelled.
- AsyncQueue.QueueIsSafe: one pusher and one generator; `pushBefore` and `remove` are not modelled.
- Pipeline.PipelineMeaning: a connector function that ends the series early is not covered, and all items of a pipeline
  have one type, which may be a union, where each Transformer has two.
- BlipIO.Drive: byte counts and message numbers are unbounded where the source has 32 and 64 bits, and the two maps of
  incoming messages are one map keyed by kind and number.
- BlipIO.BLIPIO.Receive: says nothing of the object after a protocol error, since the connection is given up then.
- BlipRuns.NoFrameIsRefused: both receiving sides stay open; `closeSend` may happen at any time, `closeReceive` and
  `stop` end a run.
- That the messages waiting outside the outbox are let in at all: they are only when another message is finished.
- Connection and Dispatcher of BLIP, typed property getters and error replies: easy members.
