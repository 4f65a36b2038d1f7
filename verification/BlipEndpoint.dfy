/** One end of a BLIP connection: its queues, its numbering, and what it does with each frame. */
module BlipEndpoint {
  import opened Bytes
  import opened Common
  import opened BlipFrame
  import opened BlipMessage
  import opened BlipOutbox
  import opened BlipStream
  import Varint

  const OUTBOX_CAPACITY: nat := 10
  const DEFAULT_FRAME_SIZE: nat := 4096
  const BIG_FRAME_SIZE: nat := 32768
  const MAX_FRAME_OVERHEAD: nat := 10 + 1 + 4
  const MAX_UNACKED: nat := 128000

  /**
   * An outgoing message. `no` is 0 until a request is numbered, `acked` is the highest byte count acknowledged, and
   * `awaits` says that somebody waits for the reply.
   */
  datatype Out = Out(
    kind: Kind, urgent: bool, noReply: bool, no: nat, payload: seq<byte>,
    sent: nat, bytesSent: nat, unacked: nat, acked: nat, awaits: bool)
  {
    predicate NeedsAck() { unacked >= MAX_UNACKED }
  }

  /**
   * `requested` has the requests whose reply future is with the endpoint, `lost` those whose future is with nobody,
   * and `resolved` counts how often each reply future was given a result.
   */
  datatype Endpoint = Endpoint(
    live: map<Id, Out>, outbox: seq<Item>, wayOut: seq<Item>, icebox: seq<Id>, nextId: Id, lastNo: nat, sum: nat,
    rx: Rx, sendOpen: bool, receiveOpen: bool, requested: set<Id>, lost: set<Id>, resolved: multiset<Id>)

  const INITIAL := Endpoint(map[], [], [], [], 0, 0, 0, Rx(0, map[], 0), true, true, {}, {}, multiset{})

  function ItemOf(id: Id, m: Out): Item { Item(id, m.urgent, m.bytesSent == 0) }

  /** A reply future is resolved, if there is one. */
  function Resolved(e: Endpoint, id: Id, awaits: bool): Endpoint {
    if awaits then e.(resolved := e.resolved + multiset{id}) else e
  }

  // Sending.

  /** Puts a message in the outbox, or cancels it if it is too late to send. */
  function Queued(e: Endpoint, id: Id, m: Out): Endpoint {
    if e.sendOpen then e.(live := e.live[id := m], outbox := Requeued(e.outbox, ItemOf(id, m)))
    else Resolved(e.(live := e.live - {id}), id, m.awaits)
  }

  /** A new message is queued, or waits outside if many are being sent. */
  function Sent(e: Endpoint, m: Out): Endpoint {
    var id, d := e.nextId, e.(nextId := e.nextId + 1);
    if m.urgent || |e.outbox| < OUTBOX_CAPACITY then Queued(d, id, m)
    else d.(live := d.live[id := m], wayOut := d.wayOut + [ItemOf(id, m)])
  }

  function NewRequest(payload: seq<byte>, urgent: bool, noReply: bool): Out {
    Out(Request, urgent, noReply, 0, payload, 0, 0, 0, 0, true)
  }

  /** A message sent now is cancelled at once. */
  predicate TooLate(e: Endpoint, urgent: bool) { !e.sendOpen && (urgent || |e.outbox| < OUTBOX_CAPACITY) }

  /** The reply future is made after the message is sent. If that was cancelled, nobody will resolve the future. */
  function SentRequest(e: Endpoint, payload: seq<byte>, urgent: bool, noReply: bool): Endpoint {
    if TooLate(e, urgent) then e.(nextId := e.nextId + 1, lost := e.lost + {e.nextId})
    else Sent(e, NewRequest(payload, urgent, noReply)).(requested := e.requested + {e.nextId})
  }

  function NewResponse(no: nat, payload: seq<byte>, urgent: bool, isError: bool): Out {
    Out(if isError then ErrorReply else Response, urgent, false, no, payload, 0, 0, 0, 0, false)
  }

  function NewAck(onResponse: bool, no: nat, count: nat): Out {
    Out(if onResponse then AckResponse else AckRequest, true, true, no, Varint.Encode(count), 0, 0, 0, 0, false)
  }

  /** The bytes left in a frame after its number and flags. Bigger frames are sent when nothing urgent waits. */
  function Room(m: Out, no: nat, rest: seq<Item>): (n: nat)
    ensures 4096 + 4 <= n <= 32768 + 13
  {
    (if m.urgent || rest == [] || !rest[0].urgent then BIG_FRAME_SIZE else DEFAULT_FRAME_SIZE)
    + MAX_FRAME_OVERHEAD - (if |Varint.Encode(no)| < 10 then |Varint.Encode(no)| else 10) - 1
  }

  /** How much of the payload the next frame carries. */
  function Portion(m: Out, room: nat): nat {
    if IsAck(m.kind) then Min(|m.payload|, room)
    else if m.sent <= |m.payload| && room >= CHECKSUM_SIZE then Min(|m.payload| - m.sent, room - CHECKSUM_SIZE) else 0
  }

  function NextFrame(m: Out, n: nat, sum: nat): Frame {
    if IsAck(m.kind) then
      Frame(m.no, m.kind, m.urgent, m.noReply, false, if n <= |m.payload| then m.payload[..n] else m.payload, 0)
    else
      var body := if m.sent + n <= |m.payload| then m.payload[m.sent..m.sent + n] else [];
      Frame(m.no, m.kind, m.urgent, m.noReply, m.sent + n < |m.payload|, body, Crc(sum, body))
  }

  /** A message after a frame with `n` bytes of its data. */
  function Advanced(m: Out, n: nat): Out {
    m.(sent := m.sent + n, bytesSent := m.bytesSent + n + CHECKSUM_SIZE, unacked := m.unacked + n + CHECKSUM_SIZE)
  }

  /** A message with more to send goes to the back of the queue, or on ice until an ACK comes. */
  function PutBack(e: Endpoint, id: Id, m: Out): Endpoint {
    var d := e.(live := e.live[id := m]);
    if m.NeedsAck() && e.receiveOpen then d.(icebox := e.icebox + [id])
    else d.(outbox := Requeued(e.outbox, ItemOf(id, m)))
  }

  /** A message that waited outside may come in. */
  function RopeLifted(e: Endpoint): Endpoint {
    if e.wayOut == [] then e
    else
      var id := e.wayOut[0].id;
      var d := e.(wayOut := e.wayOut[1..]);
      if id in e.live then Queued(d, id, e.live[id]) else d
  }

  /** A request that has been sent expects its response now; other messages are done with. */
  function HandedOver(e: Endpoint, id: Id, m: Out): Endpoint {
    var d := e.(live := e.live - {id});
    if m.kind.Request? && !m.noReply then
      var k := Key(true, m.no);
      if k in d.rx.pend then d
      else d.(rx := d.rx.(pend := d.rx.pend[k := In([], 0, 0, if m.awaits then Some(id) else None)]))
    else Resolved(d, id, m.awaits)
  }

  /** A message whose last frame has been sent. */
  function Completed(e: Endpoint, id: Id, m: Out): Endpoint { RopeLifted(HandedOver(e, id, m)) }

  /** There is a message to send a frame of. */
  predicate HasOutput(e: Endpoint) { e.outbox != [] && e.outbox[0].id in e.live }

  /** The message at the head of the outbox, numbered if it is a new request. */
  function Front(e: Endpoint): Out
    requires HasOutput(e)
  {
    var m := e.live[e.outbox[0].id];
    if m.no == 0 then m.(no := e.lastNo + 1) else m
  }

  function Popped(e: Endpoint): Endpoint
    requires HasOutput(e)
  {
    e.(outbox := e.outbox[1..], lastNo := if e.live[e.outbox[0].id].no == 0 then e.lastNo + 1 else e.lastNo)
  }

  function FrontPortion(e: Endpoint): nat
    requires HasOutput(e)
  {
    Portion(Front(e), Room(Front(e), Front(e).no, e.outbox[1..]))
  }

  function FrontFrame(e: Endpoint): Frame
    requires HasOutput(e)
  {
    NextFrame(Front(e), FrontPortion(e), e.sum)
  }

  /** What becomes of a message after a frame of it. */
  function Dispatched(e: Endpoint, id: Id, m: Out, f: Frame): Endpoint {
    if IsAck(m.kind) then e.(live := e.live - {id})
    else
      var d := e.(sum := f.sum);
      if f.more then PutBack(d, id, Advanced(m, |f.body|)) else Completed(d, id, Advanced(m, |f.body|))
  }

  /** The endpoint after its next frame. */
  function Transmitted(e: Endpoint): Endpoint
    requires HasOutput(e)
  {
    Dispatched(Popped(e), e.outbox[0].id, Front(e), FrontFrame(e))
  }

  // Receiving.

  datatype Event = Nothing | GotRequest(no: nat, payload: seq<byte>, noReply: bool) | GotResponse(no: nat, payload: seq<byte>)

  datatype Receipt = Failed(numbering: bool) | Received(e: Endpoint, event: Event)

  function AckSent(e: Endpoint, f: Frame, ack: Option<nat>): Endpoint {
    if ack.Some? then Sent(e, NewAck(!f.kind.Request?, f.no, ack.value)) else e
  }

  function ReceivedData(e: Endpoint, f: Frame): Receipt {
    if !e.receiveOpen then Received(e, Nothing)
    else match Take(e.rx, f)
      case BadNumber => Failed(true)
      case BadData => Failed(false)
      case Took(rx, ack, message) =>
        var d := AckSent(e.(rx := rx), f, ack);
        if f.more then Received(d, Nothing)
        else if f.kind.Request? then Received(d, GotRequest(f.no, message.got, f.noReply))
        else
          var c := if message.reply.Some? then Resolved(d, message.reply.value, true) else d;
          Received(c, GotResponse(f.no, message.got))
  }

  predicate Matches(m: Out, no: nat, onResponse: bool) { m.no == no && !m.kind.Request? == onResponse }

  function FindItem(e: Endpoint, q: seq<Item>, no: nat, onResponse: bool): Option<Id> {
    if q == [] then None
    else if q[0].id in e.live && Matches(e.live[q[0].id], no, onResponse) then Some(q[0].id)
    else FindItem(e, q[1..], no, onResponse)
  }

  function FindFrozen(e: Endpoint, q: seq<Id>, no: nat, onResponse: bool): Option<Id> {
    if q == [] then None
    else if q[0] in e.live && Matches(e.live[q[0]], no, onResponse) then Some(q[0])
    else FindFrozen(e, q[1..], no, onResponse)
  }

  function Acked(m: Out, count: nat): Out {
    if count <= m.bytesSent then
      m.(unacked := Min(m.unacked, m.bytesSent - count), acked := if count < m.acked then m.acked else count)
    else m
  }

  function WithoutId(q: seq<Id>, id: Id): seq<Id> {
    if q == [] then [] else if q[0] == id then q[1..] else [q[0]] + WithoutId(q[1..], id)
  }

  function Thawed(e: Endpoint, id: Id, m: Out): Endpoint {
    e.(icebox := WithoutId(e.icebox, id), outbox := Requeued(e.outbox, ItemOf(id, m)))
  }

  function ReceivedAck(e: Endpoint, no: nat, onResponse: bool, body: seq<byte>): Receipt {
    var found := FindItem(e, e.outbox, no, onResponse);
    var frozen := FindFrozen(e, e.icebox, no, onResponse);
    if found.None? && frozen.None? then Received(e, Nothing)
    else
      var count := Varint.Read(body);
      var id := if found.Some? then found.value else frozen.value;
      if !count.Complete? then Failed(false)
      else if id !in e.live then Received(e, Nothing)
      else
        var m := Acked(e.live[id], count.value);
        var d := e.(live := e.live[id := m]);
        Received(if found.None? && !m.NeedsAck() then Thawed(d, id, m) else d, Nothing)
  }

  function Receive(e: Endpoint, f: Frame): Receipt {
    if IsAck(f.kind) then ReceivedAck(e, f.no, f.kind.AckResponse?, f.body) else ReceivedData(e, f)
  }

  /** What an endpoint does with the bytes of a frame. */
  function ReceiveBytes(e: Endpoint, bs: seq<byte>): Receipt {
    match Parse(bs)
    case Parsed(f) => Receive(e, f)
    case Ignored => Received(e, Nothing)
    case Invalid => Failed(false)
  }

  // Closing.

  function ReplyOf(m: In): multiset<Id> { if m.reply.Some? then multiset{m.reply.value} else multiset{} }

  /** The replies that are cancelled when each incoming message is told so, one after the other. */
  ghost function Cancelled(pend: map<Key, In>): multiset<Id>
    decreases pend.Keys
  {
    if pend == map[] then multiset{}
    else
      var k :| k in pend;
      ReplyOf(pend[k]) + Cancelled(pend - {k})
  }

  ghost function ReadClosed(e: Endpoint): Endpoint {
    e.(receiveOpen := false, rx := e.rx.(pend := map[]), resolved := e.resolved + Cancelled(e.rx.pend))
  }

  function SendClosed(e: Endpoint): Endpoint { e.(sendOpen := false) }

  ghost function ReceiveClosed(e: Endpoint): Endpoint { if e.receiveOpen then ReadClosed(e) else e }

  /** A message is told that it will not be sent: it resolves its reply future, and no longer has it. */
  function Disconnected(e: Endpoint, id: Id): Endpoint {
    if id in e.live && e.live[id].awaits
    then e.(live := e.live[id := e.live[id].(awaits := false)], resolved := e.resolved + multiset{id})
    else e
  }

  function ItemsDisconnected(e: Endpoint, q: seq<Item>): Endpoint
    decreases |q|
  {
    if q == [] then e else ItemsDisconnected(Disconnected(e, q[0].id), q[1..])
  }

  function IdsDisconnected(e: Endpoint, q: seq<Id>): Endpoint
    decreases |q|
  {
    if q == [] then e else IdsDisconnected(Disconnected(e, q[0]), q[1..])
  }

  /** Everything in the outbox is told, then everything on ice, then everything that waits outside. */
  function AllDisconnected(e: Endpoint): Endpoint {
    ItemsDisconnected(IdsDisconnected(ItemsDisconnected(e, e.outbox), e.icebox), e.wayOut)
  }

  function Emptied(e: Endpoint): Endpoint {
    AllDisconnected(e).(live := map[], outbox := [], wayOut := [], icebox := [], sendOpen := false)
  }

  ghost function Stopped(e: Endpoint): Endpoint { ReadClosed(Emptied(e)) }
}
