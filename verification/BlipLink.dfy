/**
 * Two endpoints joined by channels that keep the order of frames. Whatever the endpoints do and however the frames
 * are interleaved, every frame is accepted and every message arrives as it was sent.
 */
module BlipLink {
  import opened Bytes
  import opened Common
  import opened BlipFrame
  import opened BlipMessage
  import opened BlipOutbox
  import opened BlipStream
  import opened BlipEndpoint
  import opened BlipConservation
  import Varint

  /**
   * One end: the endpoint, the frames it has sent that have not arrived, and a history: the messages it has sent or
   * begun to, the messages it has received, the requests it has yet to answer, the requests it was asked to send, which
   * of them has which number, and the responses it was asked to send.
   */
  datatype End = End(
    e: Endpoint, out: seq<Frame>, str: map<Key, Str>, done: map<Key, seq<byte>>, toAnswer: set<nat>,
    asked: map<Id, Wish>, ids: map<nat, Id>, given: map<nat, Given>)

  datatype Wish = Wish(payload: seq<byte>, urgent: bool, noReply: bool)

  datatype Given = Given(payload: seq<byte>, urgent: bool, isError: bool)

  const NEW_END := End(BlipEndpoint.INITIAL, [], map[], map[], {}, map[], map[], map[])

  function TxOf(x: End): Tx { Tx(x.str, x.e.lastNo, x.e.sum) }

  function KeyM(m: Out): Key { Key(!m.kind.Request?, m.no) }

  predicate IsDataM(m: Out) { !IsAck(m.kind) }

  /** What one end does. */
  datatype Act =
    | Ask(payload: seq<byte>, urgent: bool, noReply: bool)
    | Answer(no: nat, payload: seq<byte>, urgent: bool, isError: bool)
    | Emit                        // its next frame goes on the channel
    | Accept                      // the next frame from the other end arrives
    | Shut                        // it will send no new messages

  predicate Can(x: End, y: End, act: Act) {
    match act
    case Ask(payload, _, _) => ValidPayload(payload)
    case Answer(no, payload, _, _) => no in x.toAnswer && ValidPayload(payload)
    case Emit => HasOutput(x.e)
    case Accept => y.out != []
    case Shut => true
  }

  function Answered(x: End, no: nat, payload: seq<byte>, urgent: bool, isError: bool): End {
    var e := Sent(x.e, NewResponse(no, payload, urgent, isError));
    x.(e := e, toAnswer := x.toAnswer - {no},
       str := if x.e.nextId in e.live then x.str[Key(true, no) := Str(payload, 0, 0)] else x.str,
       given := if x.e.nextId in e.live then x.given[no := Given(payload, urgent, isError)] else x.given)
  }

  function Emitted(x: End): End
    requires HasOutput(x.e)
  {
    var m, f := Front(x.e), FrontFrame(x.e);
    x.(e := Transmitted(x.e), out := x.out + [f],
       ids := if x.e.live[x.e.outbox[0].id].no == 0 then x.ids[m.no := x.e.outbox[0].id] else x.ids,
       str := if IsAck(m.kind) then x.str
              else x.str[KeyM(m) := Str(m.payload, m.sent + |f.body|, m.bytesSent + |f.body| + CHECKSUM_SIZE)])
  }

  /** The arrival of a frame. */
  function Arrived(x: End, f: Frame): End
    requires Receive(x.e, f).Received?
  {
    var r := Receive(x.e, f);
    match r.event
    case Nothing => x.(e := r.e)
    case GotRequest(no, payload, noReply) =>
      x.(e := r.e, done := x.done[Key(false, no) := payload], toAnswer := if noReply then x.toAnswer else x.toAnswer + {no})
    case GotResponse(no, payload) => x.(e := r.e, done := x.done[Key(true, no) := payload])
  }

  /** The acting end after an act other than the arrival of a frame. */
  function ActOf(x: End, act: Act): End
    requires !act.Accept? && (act.Emit? ==> HasOutput(x.e))
  {
    match act
    case Ask(payload, urgent, noReply) =>
      x.(e := SentRequest(x.e, payload, urgent, noReply),
         asked := if TooLate(x.e, urgent) then x.asked else x.asked[x.e.nextId := Wish(payload, urgent, noReply)])
    case Answer(no, payload, urgent, isError) => Answered(x, no, payload, urgent, isError)
    case Emit => Emitted(x)
    case Shut => x.(e := SendClosed(x.e))
  }

  // What holds.

  /** The history agrees with the messages being sent. */
  ghost predicate Ties(x: End) {
    && (forall id | id in x.e.live && IsDataM(x.e.live[id]) ::
          var m := x.e.live[id];
          && ValidPayload(m.payload) && m.sent < |m.payload| && (m.no == 0 ==> m.sent == 0 && m.bytesSent == 0)
          && (m.no > 0 ==> KeyM(m) in x.str && x.str[KeyM(m)] == Str(m.payload, m.sent, m.bytesSent)))
    && (forall i, j | i in x.e.live && j in x.e.live && i != j && IsDataM(x.e.live[i]) && IsDataM(x.e.live[j]) ::
          KeyM(x.e.live[i]) == KeyM(x.e.live[j]) ==> x.e.live[i].no == 0)
  }

  predicate IsLast(f: Frame) { f.kind.Request? && !f.more && !f.noReply }

  /** A response is expected of which nothing has come. */
  predicate Awaited(rx: Rx, no: nat) {
    && Key(true, no) in rx.pend
    && rx.pend[Key(true, no)].got == [] && rx.pend[Key(true, no)].raw == 0 && rx.pend[Key(true, no)].unacked == 0
  }

  /** The requests of `x` and the responses of `y` go together. */
  ghost predicate Paired(x: End, y: End) {
    && (forall k | k in y.str && k.res :: Key(false, k.no) in y.done)
    && (forall n | n in y.toAnswer :: Key(false, n) in y.done && Key(true, n) !in y.str && Awaited(x.e.rx, n))
    && (forall i | 0 <= i < |x.out| && IsLast(x.out[i]) :: Awaited(x.e.rx, x.out[i].no))
  }

  ghost predicate Half(x: End, y: End) {
    && Conserved(x.e) && x.e.receiveOpen
    && Agree(TxOf(x), y.e.rx, y.done, x.out)
    && Ties(x) && Paired(x, y)
  }

  ghost predicate Linked(x: End, y: End) { Half(x, y) && Half(y, x) }

  /** The other end's view depends only on what this end has received and begun. */
  lemma PeerSame(x: End, d: End, y: End)
    requires Half(y, x) && d.e.rx == x.e.rx && d.done == x.done && d.str == x.str && d.toAnswer == x.toAnswer
    ensures Half(y, d)
  {
    hide Conserved, Agree, Ties, Awaited;
  }

  lemma TiesSame(x: End, d: End)
    requires Ties(x) && d.str == x.str
    requires forall id | id in d.e.live && IsDataM(d.e.live[id]) ::
               && id in x.e.live && KeyM(d.e.live[id]) == KeyM(x.e.live[id]) && IsDataM(x.e.live[id])
               && d.e.live[id].payload == x.e.live[id].payload && d.e.live[id].sent == x.e.live[id].sent
               && d.e.live[id].bytesSent == x.e.live[id].bytesSent
    ensures Ties(d)
  {
    hide ValidPayload;
  }

  lemma AskKeeps(x: End, y: End, act: Act)
    requires Linked(x, y) && Can(x, y, act) && act.Ask?
    ensures Linked(ActOf(x, act), y)
  {
    hide Agree, Ties, Paired, BoxesOk, FuturesOk, NumbersOk, Requeued, ItemOf, ValidPayload;
    var d := ActOf(x, act);
    OpKeeps(x.e, SendRequest(act.payload, act.urgent, act.noReply));
    AskTies(x, act.payload, act.urgent, act.noReply);
    TiesSame(x.(e := d.e), d);
    PeerSame(x, d, y);
    PairedSame(x, d, y, y);
  }

  lemma PairedSame(x: End, d: End, y: End, z: End)
    requires Paired(x, y) && d.e.rx == x.e.rx && d.out == x.out
    requires z.str == y.str && z.done == y.done && z.toAnswer == y.toAnswer
    ensures Paired(d, z)
  {
    hide Awaited;
  }

  lemma AskTies(x: End, payload: seq<byte>, urgent: bool, noReply: bool)
    requires Ties(x) && BoxesOk(x.e) && ValidPayload(payload)
    ensures Ties(x.(e := SentRequest(x.e, payload, urgent, noReply)))
  {
    assert x.e.nextId !in x.e.live && payload != [] by { BeginBound(payload); }
    hide ValidPayload, BoxesOk, Sent, Ties, TooLate;
    var d := x.(e := SentRequest(x.e, payload, urgent, noReply));
    if TooLate(x.e, urgent) {
      TiesSame(x, d);
    } else {
      SentLive(x.e, NewRequest(payload, urgent, noReply));
      TiesNew(x, d, NewRequest(payload, urgent, noReply));
    }
  }

  lemma TiesNew(x: End, d: End, m: Out)
    requires Ties(x) && x.e.nextId !in x.e.live && d.str == x.str && d.e.live == x.e.live[x.e.nextId := m]
    requires m.kind.Request? && m.no == 0 && m.sent == 0 && m.bytesSent == 0 && m.payload != []
    requires ValidPayload(m.payload)
    ensures Ties(d)
  {
    hide ValidPayload;
  }

  lemma SentLive(e: Endpoint, m: Out)
    requires !TooLate(e, m.urgent)
    ensures var d := Sent(e, m);
            d.live == e.live[e.nextId := m] && d.nextId == e.nextId + 1 && d.lastNo == e.lastNo && d.rx == e.rx
  {
    hide Requeued, ItemOf;
  }

  lemma ShutKeeps(x: End, y: End)
    requires Linked(x, y)
    ensures Linked(ActOf(x, Shut), y)
  {
    hide Conserved, Agree, Ties, Paired;
    var d := ActOf(x, Shut);
    OpKeeps(x.e, CloseSend);
    PeerSame(x, d, y);
    TiesSame(x, d);
    PairedSame(x, d, y, y);
  }

  /** What becomes of a message that is sent and has no future: it is live, or gone. */
  lemma SentEffect(e: Endpoint, m: Out)
    requires BoxesOk(e) && !m.awaits
    ensures var d := Sent(e, m);
            && e.nextId !in e.live
            && d.rx == e.rx && d.lastNo == e.lastNo && d.sum == e.sum && d.receiveOpen == e.receiveOpen
            && d.live == if e.nextId in d.live then e.live[e.nextId := m] else e.live
  {
    hide Requeued, ItemOf;
    assert e.nextId !in e.live;
    assert e.live - {e.nextId} == e.live;
  }

  lemma AnswerKeeps(x: End, y: End, act: Act)
    requires Linked(x, y) && Can(x, y, act) && act.Answer? && act.no > 0
    ensures Linked(ActOf(x, act), y)
  {
    hide Agree, Ties, BoxesOk, FuturesOk, NumbersOk, Sent, ValidPayload;
    var d, n := ActOf(x, act), act.no;
    var m := NewResponse(n, act.payload, act.urgent, act.isError);
    OpKeeps(x.e, Respond(n, act.payload, act.urgent, act.isError));
    SentEffect(x.e, m);
    assert Key(true, n) !in x.str && Awaited(y.e.rx, n);
    BeginKeeps(TxOf(x), y.e.rx, y.done, x.out, Key(true, n), act.payload);
    AnswerTies(x, d, m);
    AnswerPaired(x, d, y, n, Str(act.payload, 0, 0));
    hide Paired, Conserved;
  }

  lemma AnswerTies(x: End, d: End, m: Out)
    requires Ties(x) && IsDataM(m) && !m.kind.Request? && m.no > 0 && m.sent == 0 && m.bytesSent == 0
    requires ValidPayload(m.payload) && Key(true, m.no) !in x.str && x.e.nextId !in x.e.live
    requires || (d.e.live == x.e.live && d.str == x.str)
             || (d.e.live == x.e.live[x.e.nextId := m] && d.str == x.str[Key(true, m.no) := Str(m.payload, 0, 0)])
    ensures Ties(d)
  {
    assert m.payload != [] by { BeginBound(m.payload); }
    hide ValidPayload;
  }

  lemma AnswerPaired(x: End, d: End, y: End, n: nat, s: Str)
    requires Paired(x, y) && Paired(y, x) && n in x.toAnswer
    requires d.e.rx == x.e.rx && d.out == x.out && d.done == x.done && d.toAnswer == x.toAnswer - {n}
    requires d.str == x.str || d.str == x.str[Key(true, n) := s]
    ensures Paired(d, y) && Paired(y, d)
  {
    hide Awaited;
  }

  // A frame is sent.

  /** The response a message expects once it has been sent. */
  predicate Expects(m: Out, f: Frame) { IsDataM(m) && !f.more && m.kind.Request? && !m.noReply }

  lemma RopeEffect(e: Endpoint)
    ensures var d := RopeLifted(e);
            && d.lastNo == e.lastNo && d.sum == e.sum && d.rx == e.rx && d.receiveOpen == e.receiveOpen
            && (forall j | j in d.live :: j in e.live && d.live[j] == e.live[j])
  {
    hide Requeued, ItemOf;
  }

  lemma DispatchEffect(e: Endpoint, id: Id, m: Out, f: Frame)
    ensures var d := Dispatched(e, id, m, f);
            && d.lastNo == e.lastNo && d.sum == (if IsAck(m.kind) then e.sum else f.sum) && d.receiveOpen == e.receiveOpen
            && (forall j | j in d.live && j != id :: j in e.live && d.live[j] == e.live[j])
            && (id in d.live ==> IsDataM(m) && f.more && d.live[id] == BlipEndpoint.Advanced(m, |f.body|))
            && (!Expects(m, f) || Key(true, m.no) in e.rx.pend ==> d.rx == e.rx)
            && (Expects(m, f) && Key(true, m.no) !in e.rx.pend ==>
                  Awaited(d.rx, m.no) && d.rx == e.rx.(pend := e.rx.pend[Key(true, m.no) := d.rx.pend[Key(true, m.no)]]))
  {
    if !IsAck(m.kind) && !f.more {
      RopeEffect(HandedOver(e.(sum := f.sum), id, BlipEndpoint.Advanced(m, |f.body|)));
    }
    hide Requeued, ItemOf, RopeLifted;
  }

  /** The frame is the next part of its message. */
  lemma FrontIsNext(x: End)
    requires HasOutput(x.e) && Ties(x) && IsDataM(Front(x.e))
    ensures var m, f := Front(x.e), FrontFrame(x.e);
            var s := Str(m.payload, m.sent, m.bytesSent);
            && IsNext(f, KeyM(m), s, x.e.sum)
            && BlipStream.Advanced(s, f) == Str(m.payload, m.sent + |f.body|, m.bytesSent + |f.body| + CHECKSUM_SIZE)
            && f.noReply == m.noReply && f.kind == m.kind && f.no == m.no
  {
    hide Crc, ValidPayload, Room;
  }

  lemma FrontStream(x: End, y: End)
    requires Agree(TxOf(x), y.e.rx, y.done, x.out) && Ties(x) && HasOutput(x.e) && IsDataM(Front(x.e))
    requires NumbersOk(x.e.live, x.e.lastNo, x.e.rx)
    ensures var m := Front(x.e);
            var k, s := KeyM(m), Str(m.payload, m.sent, m.bytesSent);
            && ValidPayload(m.payload) && m.sent < |m.payload|
            && (if x.e.live[x.e.outbox[0].id].no == 0 then
                  k == Key(false, x.e.lastNo + 1) && CanBegin(TxOf(x), y.e.rx, k) && m.sent == 0 && m.bytesSent == 0
                else k in x.str && s == x.str[k] && (m.kind.Request? ==> m.no <= x.e.lastNo))
  {
    hide InFlight, Ordered, Summed, NoAfter, SumAfter, StreamOk, ValidPayload;
  }

  /** What the acting end shows of itself after a frame. */
  lemma EmitShows(x: End)
    requires HasOutput(x.e) && NumbersOk(x.e.live, x.e.lastNo, x.e.rx)
    ensures var m, f, tx := Front(x.e), FrontFrame(x.e), TxOf(Emitted(x));
            && Emitted(x).out == x.out + [f]
            && (IsAck(m.kind) ==> !IsData(f) && tx == TxOf(x))
            && (IsDataM(m) ==> && tx.lastNo == (if x.e.live[x.e.outbox[0].id].no == 0 then x.e.lastNo + 1 else x.e.lastNo)
                               && tx.sum == f.sum)
  {
    assert x.e.live[x.e.outbox[0].id].no == 0 ==> x.e.live[x.e.outbox[0].id].kind.Request?;
    DispatchEffect(Popped(x.e), x.e.outbox[0].id, Front(x.e), FrontFrame(x.e));
    hide Dispatched, NumbersOk, Crc, Room;
  }

  lemma EmitAgrees(x: End, y: End)
    requires Agree(TxOf(x), y.e.rx, y.done, x.out) && Ties(x) && HasOutput(x.e)
    requires NumbersOk(x.e.live, x.e.lastNo, x.e.rx)
    ensures Agree(TxOf(Emitted(x)), y.e.rx, y.done, Emitted(x).out)
  {
    hide Agree, Ties, NumbersOk, Transmitted, ValidPayload, IsNext, FrontFrame, Front;
    EmitShows(x);
    var m, f := Front(x.e), FrontFrame(x.e);
    if IsAck(m.kind) {
      AckSentKeeps(TxOf(x), y.e.rx, y.done, x.out, f);
    } else {
      FrontIsNext(x);
      FrontStream(x, y);
      BlipStream.SendKeeps(TxOf(x), y.e.rx, y.done, x.out, KeyM(m), Str(m.payload, m.sent, m.bytesSent), f);
    }
  }

  /** The live messages after a frame: the one it is of has advanced, or is gone; others may only be gone. */
  lemma EmitLive(x: End)
    requires HasOutput(x.e)
    ensures var id, m, f, e := x.e.outbox[0].id, Front(x.e), FrontFrame(x.e), Emitted(x).e;
            && (forall j | j in e.live && j != id :: j in x.e.live && e.live[j] == x.e.live[j])
            && (id in e.live ==> IsDataM(m) && f.more && e.live[id] == BlipEndpoint.Advanced(m, |f.body|))
  {
    DispatchEffect(Popped(x.e), x.e.outbox[0].id, Front(x.e), FrontFrame(x.e));
    hide Dispatched, FrontFrame, Front;
  }

  lemma EmitTies(x: End, y: End)
    requires Agree(TxOf(x), y.e.rx, y.done, x.out) && Ties(x) && HasOutput(x.e)
    requires NumbersOk(x.e.live, x.e.lastNo, x.e.rx)
    ensures Ties(Emitted(x))
  {
    hide Agree, Ties, FrontFrame, Front, Transmitted, ValidPayload, NumbersOk, Crc, CanBegin, IsData, KeyOf, Min;
    var id, m, f, d := x.e.outbox[0].id, Front(x.e), FrontFrame(x.e), Emitted(x);
    EmitLive(x);
    EmitExpects(x);
    if IsDataM(m) {
      FrontIsNext(x);
      FrontStream(x, y);
      NoOtherHas(x, y);
    }
    EmitTiesBy(x, d, id, m, f);
  }

  /** No other message has the key of the one being sent. */
  lemma NoOtherHas(x: End, y: End)
    requires Agree(TxOf(x), y.e.rx, y.done, x.out) && Ties(x) && HasOutput(x.e) && IsDataM(Front(x.e))
    requires NumbersOk(x.e.live, x.e.lastNo, x.e.rx)
    ensures var id, k := x.e.outbox[0].id, KeyM(Front(x.e));
            forall j | j in x.e.live && j != id && IsDataM(x.e.live[j]) :: KeyM(x.e.live[j]) != k
  {
    FrontStream(x, y);
    hide InFlight, Ordered, Summed, NoAfter, SumAfter, StreamOk, ValidPayload;
  }

  lemma EmitTiesBy(x: End, d: End, id: Id, m: Out, f: Frame)
    requires Ties(x) && m.no > 0
    requires forall j | j in d.e.live && j != id :: j in x.e.live && d.e.live[j] == x.e.live[j]
    requires id in d.e.live ==> IsDataM(m) && f.more && d.e.live[id] == BlipEndpoint.Advanced(m, |f.body|)
    requires IsDataM(m) ==>
               && ValidPayload(m.payload) && m.sent + |f.body| <= |m.payload|
               && (f.more ==> m.sent + |f.body| < |m.payload|)
               && d.str == x.str[KeyM(m) := Str(m.payload, m.sent + |f.body|, m.bytesSent + |f.body| + CHECKSUM_SIZE)]
               && forall j | j in x.e.live && j != id && IsDataM(x.e.live[j]) :: KeyM(x.e.live[j]) != KeyM(m)
    requires !IsDataM(m) ==> d.str == x.str
    ensures Ties(d)
  {
    hide ValidPayload;
  }

  /** What the acting end expects after a frame: the response to a request that has been sent. */
  lemma EmitExpects(x: End)
    requires HasOutput(x.e) && NumbersOk(x.e.live, x.e.lastNo, x.e.rx)
    ensures var m, f, e := Front(x.e), FrontFrame(x.e), Emitted(x).e;
            var k := Key(true, m.no);
            && m.no > 0
            && (!Expects(m, f) ==> e.rx == x.e.rx)
            && (Expects(m, f) ==>
                  && k !in x.e.rx.pend && Awaited(e.rx, m.no)
                  && e.rx == x.e.rx.(pend := x.e.rx.pend[k := e.rx.pend[k]]))
            && (IsLast(f) <==> Expects(m, f)) && f.no == m.no && e.receiveOpen == x.e.receiveOpen
  {
    DispatchEffect(Popped(x.e), x.e.outbox[0].id, Front(x.e), FrontFrame(x.e));
    hide Dispatched, Crc, Room;
  }

  lemma EmitPaired(x: End, y: End)
    requires Paired(x, y) && Paired(y, x) && HasOutput(x.e) && NumbersOk(x.e.live, x.e.lastNo, x.e.rx)
    requires KeyM(Front(x.e)).res && IsDataM(Front(x.e)) ==> KeyM(Front(x.e)) in x.str
    ensures Paired(Emitted(x), y) && Paired(y, Emitted(x))
  {
    hide FrontFrame, Front, Transmitted, NumbersOk, Paired;
    EmitExpects(x);
    EmitPairedBy(x, Emitted(x), y, Front(x.e), FrontFrame(x.e));
  }

  lemma EmitPairedBy(x: End, d: End, y: End, m: Out, f: Frame)
    requires Paired(x, y) && Paired(y, x) && d.out == x.out + [f] && d.done == x.done && d.toAnswer == x.toAnswer
    requires d.str == x.str || (KeyM(m) in d.str && d.str == x.str[KeyM(m) := d.str[KeyM(m)]])
    requires KeyM(m).res && d.str != x.str ==> KeyM(m) in x.str
    requires d.e.rx == x.e.rx || (Awaited(d.e.rx, m.no) && Key(true, m.no) !in x.e.rx.pend
                                  && d.e.rx == x.e.rx.(pend := x.e.rx.pend[Key(true, m.no) := d.e.rx.pend[Key(true, m.no)]]))
    requires IsLast(f) ==> Awaited(d.e.rx, f.no)
    ensures Paired(d, y) && Paired(y, d)
  {
    forall n | Awaited(x.e.rx, n) ensures Awaited(d.e.rx, n) {
    }
    hide Awaited;
  }

  /** When the response comes to be expected, the other end has not begun it. */
  lemma NotYetAnswered(x: End, y: End)
    requires Agree(TxOf(x), y.e.rx, y.done, x.out) && Ties(x) && HasOutput(x.e) && Paired(x, y)
    requires NumbersOk(x.e.live, x.e.lastNo, x.e.rx) && Expects(Front(x.e), FrontFrame(x.e))
    ensures Key(true, Front(x.e).no) !in y.str
  {
    FrontStream(x, y);
    var k := Key(false, Front(x.e).no);
    assert k in x.str ==> StreamOk(y.e.rx, y.done, InFlight(x.out, k), k, x.str[k]);
    assert k !in y.done;
    hide InFlight, Ordered, Summed, NoAfter, SumAfter, FrontFrame, Front;
  }

  lemma EmitKeeps(x: End, y: End)
    requires Linked(x, y) && HasOutput(x.e)
    ensures Linked(Emitted(x), y)
  {
    hide Agree, Ties, Paired, BoxesOk, FuturesOk, NumbersOk, FrontFrame, Front, Transmitted;
    var d, m, f := Emitted(x), Front(x.e), FrontFrame(x.e);
    TransmitKeeps(x.e);
    EmitAgrees(x, y);
    EmitTies(x, y);
    if IsDataM(m) {
      FrontStream(x, y);
    }
    EmitPaired(x, y);
    EmitExpects(x);
    if Expects(m, f) {
      NotYetAnswered(x, y);
      var k := Key(true, m.no);
      ExpectKeeps(TxOf(y), x.e.rx, x.done, y.out, k, d.e.rx.pend[k]);
    }
    assert d.done == x.done;
  }

  // A frame arrives.

  lemma {:induction false} InFlightHas(chan: seq<Frame>, i: nat)
    requires i < |chan| && IsData(chan[i])
    ensures InFlight(chan, KeyOf(chan[i])) != []
  {
    if i > 0 {
      InFlightHas(chan[1..], i - 1);
    }
  }

  /** A request that has arrived has no frames left on the way. */
  lemma ArrivedIsNotInFlight(x: End, y: End, i: nat)
    requires Agree(TxOf(x), y.e.rx, y.done, x.out) && i < |x.out| && IsData(x.out[i])
    ensures KeyOf(x.out[i]) !in y.done && KeyOf(x.out[i]) in x.str
  {
    var k := KeyOf(x.out[i]);
    InFlightHas(x.out, i);
    hide InFlight, Ordered, Summed, NoAfter, SumAfter;
    assert k in x.str;
    assert StreamOk(y.e.rx, y.done, InFlight(x.out, k), k, x.str[k]);
  }

  lemma AckKeeps(x: End, y: End)
    requires Linked(x, y) && y.out != [] && IsAck(y.out[0].kind) && Varint.Read(y.out[0].body).Complete?
    ensures Receive(x.e, y.out[0]).Received? && Linked(Arrived(x, y.out[0]), y.(out := y.out[1..]))
  {
    hide Agree, Ties, Paired, Conserved, ReceivedAck, Varint.Read;
    var f := y.out[0];
    AckEffect(x.e, f.no, f.kind.AckResponse?, f.body);
    ReceiveKeeps(x.e, f);
    var d, z := Arrived(x, f), y.(out := y.out[1..]);
    AckTakenKeeps(TxOf(y), x.e.rx, x.done, y.out);
    TiesSame(x, d);
    TiesSame(y, z);
    PairedSame(x, d, y, z);
    PairedSame(y, y, x, d);
    PairedLess(y, z, d);
  }

  lemma PairedLess(y: End, z: End, x: End)
    requires Paired(y, x) && y.out != [] && z == y.(out := y.out[1..])
    ensures Paired(z, x)
  {
    hide Awaited;
  }

  /** An ACK changes only what is acknowledged of a message. */
  lemma AckEffect(e: Endpoint, no: nat, onResponse: bool, body: seq<byte>)
    requires Varint.Read(body).Complete?
    ensures var r := ReceivedAck(e, no, onResponse, body);
            && r.Received? && r.event.Nothing?
            && r.e.rx == e.rx && r.e.lastNo == e.lastNo && r.e.sum == e.sum && r.e.receiveOpen == e.receiveOpen
            && (forall id | id in r.e.live :: id in e.live && r.e.live[id]
                 == e.live[id].(unacked := r.e.live[id].unacked, acked := r.e.live[id].acked))
  {
    hide FindItem, FindFrozen, Requeued, WithoutId, ItemOf, Varint.Read;
    var r, c := ReceivedAck(e, no, onResponse, body), Varint.Read(body).value;
    var found, frozen := FindItem(e, e.outbox, no, onResponse), FindFrozen(e, e.icebox, no, onResponse);
    if found.Some? || frozen.Some? {
      var id := if found.Some? then found.value else frozen.value;
      if id in e.live {
        assert r.e.live == e.live[id := Acked(e.live[id], c)];
        AckedOnly(e.live[id], c);
      }
    }
    hide Acked, Out.NeedsAck;
  }

  lemma AckedOnly(m: Out, c: nat)
    ensures Acked(m, c) == m.(unacked := Acked(m, c).unacked, acked := Acked(m, c).acked)
  {
  }

  /** What an endpoint makes of a data frame that it takes. */
  lemma ReceiptOf(e: Endpoint, f: Frame)
    requires e.receiveOpen && IsData(f) && Take(e.rx, f).Took? && BoxesOk(e)
    ensures var t, r := Take(e.rx, f), Receive(e, f);
            && r.Received?
            && r.e.rx == t.rx && r.e.lastNo == e.lastNo && r.e.sum == e.sum && r.e.receiveOpen
            && (forall id | id in r.e.live && IsDataM(r.e.live[id]) :: id in e.live && r.e.live[id] == e.live[id])
            && r.event == (if f.more then Nothing else if f.kind.Request? then GotRequest(f.no, t.message.got, f.noReply)
                           else GotResponse(f.no, t.message.got))
  {
    hide Take, BoxesOk;
    var t := Take(e.rx, f);
    var b := e.(rx := t.rx);
    BoxesOnly(e, b);
    SentEffect(b, NewAck(!f.kind.Request?, f.no, if t.ack.Some? then t.ack.value else 0));
    hide Sent;
  }

  /** A data frame changes what has been received, and may make an ACK. */
  lemma DataEffect(x: End, y: End)
    requires Agree(TxOf(y), x.e.rx, x.done, y.out) && y.out != [] && IsData(y.out[0]) && BoxesOk(x.e) && x.e.receiveOpen
    ensures var f := y.out[0];
            && Receive(x.e, f).Received?
            && var d := Arrived(x, f);
               && d.e.rx == Updated(x.e.rx, f) && d.done == Finished(x.e.rx, x.done, f)
               && TxOf(d) == TxOf(x) && d.out == x.out && d.e.receiveOpen
               && (forall id | id in d.e.live && IsDataM(d.e.live[id]) :: id in x.e.live && d.e.live[id] == x.e.live[id])
               && d.toAnswer == (if IsLast(f) then x.toAnswer + {f.no} else x.toAnswer)
  {
    hide Agree, Take, BoxesOk, Updated, Receive, Slot, Crc, Part;
    var f := y.out[0];
    FrontSlot(TxOf(y), x.e.rx, x.done, y.out);
    TakeKeeps(TxOf(y), x.e.rx, x.done, y.out);
    TakenGot(x.e.rx, f);
    ReceiptOf(x.e, f);
  }

  lemma TakenGot(rx: Rx, f: Frame)
    requires Take(rx, f).Took? && Slot(rx, f) == Some(Part(rx, KeyOf(f)))
    ensures Take(rx, f).message.got == Part(rx, KeyOf(f)).got + f.body
  {
  }

  /** The responses `x` awaits are still awaited: the frame is of another message. */
  lemma StillAwaited(x: End, y: End, f: Frame, rx: Rx, n: nat)
    requires Awaited(x.e.rx, n) && rx == Updated(x.e.rx, f) && KeyOf(f) != Key(true, n)
    ensures Awaited(rx, n)
  {
  }

  lemma DataPairedHere(x: End, d: End, y: End, z: End)
    requires Paired(x, y) && y.out != [] && z == y.(out := y.out[1..])
    requires Agree(TxOf(x), y.e.rx, y.done, x.out) && Agree(TxOf(y), x.e.rx, x.done, y.out) && IsData(y.out[0])
    requires d.e.rx == Updated(x.e.rx, y.out[0]) && d.out == x.out
    ensures Paired(d, z)
  {
    hide Agree, Updated;
    var f := y.out[0];
    ArrivedIsNotInFlight(y, x, 0);
    forall n | n in y.toAnswer ensures Awaited(d.e.rx, n) {
      StillAwaited(x, y, f, d.e.rx, n);
    }
    forall i | 0 <= i < |x.out| && IsLast(x.out[i]) ensures Awaited(d.e.rx, x.out[i].no) {
      ArrivedIsNotInFlight(x, y, i);
      StillAwaited(x, y, f, d.e.rx, x.out[i].no);
    }
    hide Awaited;
  }

  lemma DataPairedThere(x: End, d: End, y: End, z: End)
    requires Paired(y, x) && y.out != [] && z == y.(out := y.out[1..]) && IsData(y.out[0])
    requires Agree(TxOf(y), x.e.rx, x.done, y.out)
    requires d.str == x.str && d.done == Finished(x.e.rx, x.done, y.out[0])
    requires d.toAnswer == if IsLast(y.out[0]) then x.toAnswer + {y.out[0].no} else x.toAnswer
    ensures Paired(z, d)
  {
    hide Agree, Awaited;
    var f := y.out[0];
    ArrivedIsNotInFlight(y, x, 0);
    assert forall k | k in x.done :: k in d.done;
    assert IsLast(f) ==> Key(false, f.no) in d.done && Awaited(y.e.rx, f.no);
  }

  lemma DataKeeps(x: End, y: End)
    requires Linked(x, y) && y.out != [] && IsData(y.out[0])
    ensures Receive(x.e, y.out[0]).Received? && Linked(Arrived(x, y.out[0]), y.(out := y.out[1..]))
  {
    hide Agree, Ties, Paired, BoxesOk, FuturesOk, NumbersOk, Receive, Updated, Finished;
    DataEffect(x, y);
    var f := y.out[0];
    var d, z := Arrived(x, f), y.(out := y.out[1..]);
    ReceiveKeeps(x.e, f);
    TakeKeeps(TxOf(y), x.e.rx, x.done, y.out);
    hide Arrived;
    TiesSame(x, d);
    TiesSame(y, z);
    DataPairedHere(x, d, y, z);
    DataPairedThere(x, d, y, z);
    assert Half(d, z) && Half(z, d);
  }
}
