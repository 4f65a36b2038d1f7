/** Every run of a BLIP connection: messages are delivered, and no request stays frozen for want of an ACK. */
module BlipDelivery {
  import opened Bytes
  import opened Common
  import opened BlipFrame
  import opened BlipMessage
  import opened BlipOutbox
  import opened BlipStream
  import opened BlipEndpoint
  import opened BlipConservation
  import opened BlipFlow
  import opened BlipAcks
  import opened BlipLink
  import Varint

  /** The byte count in an ACK. */
  predicate IsCount(bs: seq<byte>) { Varint.Read(bs).Complete? && |bs| <= 10 }

  function CountIn(bs: seq<byte>): nat
    requires IsCount(bs)
  {
    Varint.Read(bs).value
  }

  /** Which message an ACK is of. */
  function AckKey(kind: Kind, n: nat): Key { Key(kind.AckResponse?, n) }

  /** An end has sent at least `c` bytes of a message. */
  predicate HasSent(y: End, k: Key, c: nat) { k in y.str && c <= y.str[k].bytes }

  /** An ACK of a message of the other end is right. */
  predicate AckOk(y: End, kind: Kind, n: nat, bs: seq<byte>) {
    IsCount(bs) && HasSent(y, AckKey(kind, n), CountIn(bs))
  }

  ghost predicate AcksOk(x: End, y: End) {
    && (forall id | id in x.e.live && IsAck(x.e.live[id].kind) ::
          AckOk(y, x.e.live[id].kind, x.e.live[id].no, x.e.live[id].payload))
    && (forall i | 0 <= i < |x.out| && IsAck(x.out[i].kind) :: AckOk(y, x.out[i].kind, x.out[i].no, x.out[i].body))
  }

  /** Messages are under 2^32 bytes, and their frames add at most four bytes for each byte sent. */
  predicate SizeOk(s: Str) { |s.payload| < UINT32 && s.bytes <= 5 * s.sent }

  ghost predicate SizesOk(x: End) {
    && (forall k | k in x.str :: SizeOk(x.str[k]))
    && (forall id | id in x.e.live && IsDataM(x.e.live[id]) :: |x.e.live[id].payload| < UINT32)
  }

  predicate IsAckOf(kind: Kind, no: nat, bs: seq<byte>, k: Key, c: nat) {
    IsAck(kind) && AckKey(kind, no) == k && IsCount(bs) && CountIn(bs) == c
  }

  /** An ACK of `c` bytes of a message is waiting to be sent. */
  ghost predicate Boxed(live: map<Id, Out>, k: Key, c: nat) {
    exists id :: id in live && IsAckOf(live[id].kind, live[id].no, live[id].payload, k, c)
  }

  /** It is on its way. */
  ghost predicate OnWay(out: seq<Frame>, k: Key, c: nat) {
    exists i :: 0 <= i < |out| && IsAckOf(out[i].kind, out[i].no, out[i].body, k, c)
  }

  /** It has arrived, or the message is no longer being sent. */
  ghost predicate Heard(live: map<Id, Out>, k: Key, c: nat) {
    forall id | id in live && IsDataM(live[id]) && KeyM(live[id]) == k :: live[id].acked >= c
  }

  /** The last ACK due for a message being received has arrived, is on its way, or waits to be sent. */
  ghost predicate Told(x: End, y: End, k: Key, m: In) {
    && m.unacked <= m.raw && m.unacked < ACK_THRESHOLD
    && var c := m.raw - m.unacked;
       c == 0 || Boxed(x.e.live, k, c) || OnWay(x.out, k, c) || Heard(y.e.live, k, c)
  }

  /** That is so of all requests being received, or of all responses. */
  ghost predicate AllTold(x: End, y: End, res: bool) {
    x.e.sendOpen ==> forall k | k in x.e.rx.pend && k.res == res :: Told(x, y, k, x.e.rx.pend[k])
  }

  ghost predicate BothTold(x: End, y: End, res: bool) { AllTold(x, y, res) && AllTold(y, x, res) }

  ghost predicate Extra(x: End, y: End) { Flows(x.e) && AcksOk(x, y) && SizesOk(x) && AllTold(x, y, false) }

  ghost predicate Sound(x: End, y: End) { Linked(x, y) && Extra(x, y) && Extra(y, x) }

  // Each fact is kept by changes that keep what it speaks of.

  predicate SameText(m: Out, n: Out) { m.kind == n.kind && m.no == n.no && m.payload == n.payload }

  lemma BoxedMore(a: map<Id, Out>, b: map<Id, Out>, k: Key, c: nat)
    requires Boxed(a, k, c)
    requires forall id | id in a && IsAck(a[id].kind) :: id in b && SameText(b[id], a[id])
    ensures Boxed(b, k, c)
  {
    var id :| id in a && IsAckOf(a[id].kind, a[id].no, a[id].payload, k, c);
    assert id in b && IsAckOf(b[id].kind, b[id].no, b[id].payload, k, c);
  }

  lemma OnWayMore(out: seq<Frame>, f: Frame, k: Key, c: nat)
    requires OnWay(out, k, c)
    ensures OnWay(out + [f], k, c)
  {
    var i :| 0 <= i < |out| && IsAckOf(out[i].kind, out[i].no, out[i].body, k, c);
    assert (out + [f])[i] == out[i];
  }

  lemma OnWayLess(out: seq<Frame>, k: Key, c: nat)
    requires OnWay(out, k, c) && out != []
    ensures OnWay(out[1..], k, c) || IsAckOf(out[0].kind, out[0].no, out[0].body, k, c)
  {
    var i :| 0 <= i < |out| && IsAckOf(out[i].kind, out[i].no, out[i].body, k, c);
    if i > 0 {
      assert out[1..][i - 1] == out[i];
    }
  }

  lemma HeardMore(a: map<Id, Out>, b: map<Id, Out>, k: Key, c: nat)
    requires Heard(a, k, c)
    requires forall id | id in b && IsDataM(b[id]) && KeyM(b[id]) == k ::
               id in a && IsDataM(a[id]) && KeyM(a[id]) == k && b[id].acked >= a[id].acked
    ensures Heard(b, k, c)
  {
  }

  /** What is sent under a key stays, goes, or has more acknowledged. */
  predicate KeptFor(a: map<Id, Out>, b: map<Id, Out>, k: Key) {
    forall id | id in b && IsDataM(b[id]) && KeyM(b[id]) == k ::
      id in a && IsDataM(a[id]) && KeyM(a[id]) == k && b[id].acked >= a[id].acked
  }

  /** The acting end keeps its ACKs and its channel, or adds to them. */
  lemma ToldHere(x: End, d: End, y: End, k: Key, m: In)
    requires Told(x, y, k, m) && d.out == x.out
    requires forall id | id in x.e.live && IsAck(x.e.live[id].kind) :: id in d.e.live && SameText(d.e.live[id], x.e.live[id])
    ensures Told(d, y, k, m)
  {
    var c := m.raw - m.unacked;
    if Boxed(x.e.live, k, c) {
      BoxedMore(x.e.live, d.e.live, k, c);
    }
    hide Boxed, OnWay, Heard;
  }

  lemma ToldThere(x: End, d: End, y: End, k: Key, m: In)
    requires Told(y, x, k, m)
    requires KeptFor(x.e.live, d.e.live, k)
    ensures Told(y, d, k, m)
  {
    var c := m.raw - m.unacked;
    if Heard(x.e.live, k, c) {
      HeardMore(x.e.live, d.e.live, k, c);
    }
    hide Boxed, OnWay, Heard;
  }

  /** An end's ACKs stay as they are. */
  predicate SameAcks(a: map<Id, Out>, b: map<Id, Out>) {
    && (forall id | id in a && IsAck(a[id].kind) :: id in b && b[id] == a[id])
    && (forall id | id in b && IsAck(b[id].kind) :: id in a && b[id] == a[id])
  }

  predicate MoreSent(x: End, d: End) {
    forall k | k in x.str :: k in d.str && d.str[k].bytes >= x.str[k].bytes
  }

  lemma AcksKept(x: End, d: End, y: End)
    requires AcksOk(x, y) && AcksOk(y, x) && SameAcks(x.e.live, d.e.live) && d.out == x.out && MoreSent(x, d)
    ensures AcksOk(d, y) && AcksOk(y, d)
  {
    hide IsCount;
  }

  /** Nothing has come of a message. */
  predicate NothingCame(y: End, k: Key) { k in y.e.rx.pend && y.e.rx.pend[k].raw == 0 && y.e.rx.pend[k].unacked == 0 }

  /** An act that sends nothing and receives nothing, with a message that may be new. */
  lemma QuietTold(x: End, d: End, y: End, res: bool)
    requires BothTold(x, y, res) && d.out == x.out && d.e.rx == x.e.rx && (d.e.sendOpen ==> x.e.sendOpen)
    requires SameAcks(x.e.live, d.e.live)
    requires forall k | k in y.e.rx.pend && k.res == res :: KeptFor(x.e.live, d.e.live, k) || NothingCame(y, k)
    ensures BothTold(d, y, res)
  {
    hide KeptFor;
    forall k | k in x.e.rx.pend && k.res == res && d.e.sendOpen ensures Told(d, y, k, d.e.rx.pend[k]) {
      hide Told;
      ToldHere(x, d, y, k, x.e.rx.pend[k]);
    }
    forall k | k in y.e.rx.pend && k.res == res && y.e.sendOpen ensures Told(y, d, k, y.e.rx.pend[k]) {
      if KeptFor(x.e.live, d.e.live, k) {
        ToldThere(x, d, y, k, y.e.rx.pend[k]);
      }
      hide Boxed, OnWay, Heard;
    }
  }

  predicate Sendable(payload: seq<byte>) { ValidPayload(payload) && |payload| < UINT32 }

  /** The acts allowed: messages are built by a MessageBuilder, and a request is answered at most once. */
  predicate May(x: End, y: End, act: Act) {
    Can(x, y, act) && ((act.Ask? || act.Answer?) ==> Sendable(act.payload))
  }

  lemma LinkedGives(x: End, y: End)
    requires Linked(x, y)
    ensures Conserved(x.e) && BoxesOk(x.e) && NumbersOk(x.e.live, x.e.lastNo, x.e.rx) && x.e.nextId !in x.e.live
    ensures forall k | k in y.e.rx.pend :: k.no > 0
    ensures Agree(TxOf(x), y.e.rx, y.done, x.out) && Agree(TxOf(y), x.e.rx, x.done, y.out)
    ensures Ties(x) && Ties(y) && x.e.receiveOpen
  {
    hide Agree, Ties, Paired, FuturesOk;
  }

  /** A data message is new, unless it was cancelled at once; a response is the first under its key. */
  predicate Adds(x: End, d: End, m: Out) {
    && d.out == x.out && d.e.rx == x.e.rx && d.e.sendOpen == x.e.sendOpen && x.e.nextId !in x.e.live
    && IsDataM(m) && |m.payload| < UINT32
    && (d.e.live == x.e.live || d.e.live == x.e.live[x.e.nextId := m])
    && (d.str == x.str || (Key(true, m.no) !in x.str && d.str == x.str[Key(true, m.no) := Str(m.payload, 0, 0)]))
  }

  lemma NewMessageTold(x: End, d: End, y: End, m: Out, res: bool)
    requires BothTold(x, y, res) && Adds(x, d, m) && forall k | k in y.e.rx.pend :: k.no > 0
    requires m.no > 0 && Key(!m.kind.Request?, m.no) in y.e.rx.pend ==> NothingCame(y, KeyM(m))
    ensures BothTold(d, y, res)
  {
    hide BothTold;
    forall k | k in y.e.rx.pend ensures KeptFor(x.e.live, d.e.live, k) || NothingCame(y, k) {
    }
    QuietTold(x, d, y, res);
  }

  lemma NewMessageExtra(x: End, d: End, y: End, m: Out)
    requires Extra(x, y) && Extra(y, x) && Flows(d.e) && Adds(x, d, m) && forall k | k in y.e.rx.pend :: k.no > 0
    requires m.no > 0 && Key(!m.kind.Request?, m.no) in y.e.rx.pend ==> NothingCame(y, KeyM(m))
    ensures Extra(d, y) && Extra(y, d)
  {
    NewSizes(x, d, m);
    hide Flows, AcksOk, SizesOk;
    NewMessageTold(x, d, y, m, false);
    AcksKept(x, d, y);
  }

  lemma NewSizes(x: End, d: End, m: Out)
    requires SizesOk(x) && Adds(x, d, m)
    ensures SizesOk(d)
  {
  }

  lemma AskAdds(x: End, y: End, act: Act)
    requires Linked(x, y) && May(x, y, act) && act.Ask?
    ensures Adds(x, ActOf(x, act), NewRequest(act.payload, act.urgent, act.noReply))
  {
    hide Linked, Conserved, BoxesOk, NumbersOk, Agree, Ties, ValidPayload, Requeued, ItemOf;
    LinkedGives(x, y);
  }

  lemma AskTold(x: End, y: End, act: Act, res: bool)
    requires Linked(x, y) && BothTold(x, y, res) && May(x, y, act) && act.Ask?
    ensures BothTold(ActOf(x, act), y, res)
  {
    hide Linked, BothTold, Adds, ActOf, May, Conserved, BoxesOk, NumbersOk, Agree, Ties;
    LinkedGives(x, y);
    AskAdds(x, y, act);
    NewMessageTold(x, ActOf(x, act), y, NewRequest(act.payload, act.urgent, act.noReply), res);
  }

  lemma AskExtra(x: End, y: End, act: Act)
    requires Sound(x, y) && May(x, y, act) && act.Ask?
    ensures Extra(ActOf(x, act), y) && Extra(y, ActOf(x, act))
  {
    hide Linked, Flows, Extra, Adds, Conserved, BoxesOk, NumbersOk, Agree, Ties, ValidPayload, SentRequest;
    LinkedGives(x, y);
    ExtraGives(x, y);
    AskFlows(x.e, act);
    AskAdds(x, y, act);
    NewMessageExtra(x, ActOf(x, act), y, NewRequest(act.payload, act.urgent, act.noReply));
  }

  lemma AskFlows(e: Endpoint, act: Act)
    requires Flows(e) && Conserved(e) && act.Ask?
    ensures Flows(SentRequest(e, act.payload, act.urgent, act.noReply))
  {
    hide Flows, Conserved, SentRequest;
    OpFlows(e, SendRequest(act.payload, act.urgent, act.noReply));
  }

  lemma ExtraGives(x: End, y: End)
    requires Extra(x, y)
    ensures Flows(x.e) && AcksOk(x, y) && SizesOk(x) && AllTold(x, y, false)
  {
  }

  lemma AnswerAdds(x: End, y: End, act: Act)
    requires Linked(x, y) && May(x, y, act) && act.Answer? && act.no > 0
    ensures var m := NewResponse(act.no, act.payload, act.urgent, act.isError);
            Adds(x, ActOf(x, act), m) && NothingCame(y, KeyM(m))
  {
    hide Linked, Conserved, BoxesOk, NumbersOk, Agree, Ties, ValidPayload, Requeued, ItemOf;
    LinkedGives(x, y);
    NotAnsweredYet(x, y, act.no);
    SentEffect(x.e, NewResponse(act.no, act.payload, act.urgent, act.isError));
  }

  lemma NotAnsweredYet(x: End, y: End, n: nat)
    requires Linked(x, y) && n in x.toAnswer
    ensures Key(true, n) !in x.str && NothingCame(y, Key(true, n))
  {
    hide Conserved, Agree, Ties;
  }

  lemma AnswerTold(x: End, y: End, act: Act, res: bool)
    requires Linked(x, y) && BothTold(x, y, res) && May(x, y, act) && act.Answer? && act.no > 0
    ensures BothTold(ActOf(x, act), y, res)
  {
    hide Linked, BothTold, Adds, ActOf, May, Conserved, BoxesOk, NumbersOk, Agree, Ties, NothingCame;
    LinkedGives(x, y);
    AnswerAdds(x, y, act);
    NewMessageTold(x, ActOf(x, act), y, NewResponse(act.no, act.payload, act.urgent, act.isError), res);
  }

  lemma AnswerExtra(x: End, y: End, act: Act)
    requires Sound(x, y) && May(x, y, act) && act.Answer? && act.no > 0
    ensures Extra(ActOf(x, act), y) && Extra(y, ActOf(x, act))
  {
    hide Linked, Flows, Extra, Adds, Conserved, BoxesOk, NumbersOk, Agree, Ties, ValidPayload, NothingCame, Sent;
    LinkedGives(x, y);
    ExtraGives(x, y);
    var m := NewResponse(act.no, act.payload, act.urgent, act.isError);
    AnswerFlows(x.e, m, act);
    AnswerAdds(x, y, act);
    NewMessageExtra(x, ActOf(x, act), y, m);
  }

  lemma AnswerFlows(e: Endpoint, m: Out, act: Act)
    requires Flows(e) && Conserved(e) && act.Answer? && act.no > 0
    requires m == NewResponse(act.no, act.payload, act.urgent, act.isError)
    ensures Flows(Sent(e, m))
  {
    hide Flows, Conserved, Sent;
    OpFlows(e, Respond(act.no, act.payload, act.urgent, act.isError));
  }

  lemma ShutTold(x: End, y: End, res: bool)
    requires BothTold(x, y, res)
    ensures BothTold(ActOf(x, Shut), y, res)
  {
    hide BothTold;
    QuietTold(x, ActOf(x, Shut), y, res);
  }

  lemma ShutExtra(x: End, y: End)
    requires Sound(x, y)
    ensures Extra(ActOf(x, Shut), y) && Extra(y, ActOf(x, Shut))
  {
    hide Linked, Flows, AcksOk, Conserved, BoxesOk, NumbersOk, Agree, Ties;
    LinkedGives(x, y);
    FlowsOnly(x.e, SendClosed(x.e));
    AcksKept(x, ActOf(x, Shut), y);
    ShutTold(x, y, false);
  }

  // A frame is sent.

  lemma RopeKeepsLive(e: Endpoint)
    requires e.sendOpen
    ensures RopeLifted(e).live == e.live && RopeLifted(e).sendOpen
  {
    hide Requeued, ItemOf;
    if e.wayOut != [] && e.wayOut[0].id in e.live {
      assert e.live[e.wayOut[0].id := e.live[e.wayOut[0].id]] == e.live;
    }
  }

  lemma EmitKeepsLive(e: Endpoint)
    requires HasOutput(e) && e.sendOpen
    ensures forall j | j in e.live && j != e.outbox[0].id :: j in Transmitted(e).live
    ensures Transmitted(e).sendOpen
  {
    hide Dispatched, FrontFrame, Front;
    DispatchKeepsLive(Popped(e), e.outbox[0].id, Front(e), FrontFrame(e));
  }

  lemma DispatchKeepsLive(e: Endpoint, id: Id, m: Out, f: Frame)
    requires e.sendOpen
    ensures var d := Dispatched(e, id, m, f);
            d.sendOpen && forall j | j in e.live && j != id :: j in d.live
  {
    hide Requeued, ItemOf, RopeLifted;
    if !IsAck(m.kind) && !f.more {
      RopeKeepsLive(HandedOver(e.(sum := f.sum), id, BlipEndpoint.Advanced(m, |f.body|)));
    }
  }

  lemma EmitOpen(e: Endpoint)
    requires HasOutput(e)
    ensures Transmitted(e).sendOpen == e.sendOpen
  {
    hide Requeued, ItemOf, FrontFrame, Front;
  }

  /** The frame of an ACK has all of it. */
  lemma AckFrame(e: Endpoint)
    requires HasOutput(e) && IsAck(Front(e).kind) && |Front(e).payload| <= 10
    ensures FrontFrame(e).body == Front(e).payload && FrontFrame(e).kind == Front(e).kind && FrontFrame(e).no == Front(e).no
  {
    var m := Front(e);
    hide Front;
    assert m.payload[..|m.payload|] == m.payload;
  }

  lemma EmitAcks(x: End, d: End, y: End, id: Id, m: Out, f: Frame)
    requires AcksOk(x, y) && AcksOk(y, x) && MoreSent(x, d) && d.out == x.out + [f]
    requires forall j | j in d.e.live && j != id :: j in x.e.live && d.e.live[j] == x.e.live[j]
    requires id in d.e.live ==> !IsAck(d.e.live[id].kind)
    requires IsAck(f.kind) ==> AckOk(y, f.kind, f.no, f.body)
    ensures AcksOk(d, y) && AcksOk(y, d)
  {
    hide IsCount;
  }

  lemma EmitToldHere(x: End, d: End, y: End, id: Id, f: Frame, k: Key, p: In)
    requires Told(x, y, k, p) && d.out == x.out + [f] && id in x.e.live
    requires forall j | j in x.e.live && j != id && IsAck(x.e.live[j].kind) :: j in d.e.live && d.e.live[j] == x.e.live[j]
    requires IsAck(x.e.live[id].kind) ==>
               f.kind == x.e.live[id].kind && f.no == x.e.live[id].no && f.body == x.e.live[id].payload
    ensures Told(d, y, k, p)
  {
    var c := p.raw - p.unacked;
    if OnWay(x.out, k, c) {
      OnWayMore(x.out, f, k, c);
    } else if Boxed(x.e.live, k, c) {
      var j :| j in x.e.live && IsAckOf(x.e.live[j].kind, x.e.live[j].no, x.e.live[j].payload, k, c);
      if j == id {
        assert (x.out + [f])[|x.out|] == f;
        assert OnWay(d.out, k, c);
      } else {
        assert IsAckOf(d.e.live[j].kind, d.e.live[j].no, d.e.live[j].payload, k, c);
        assert Boxed(d.e.live, k, c);
      }
    }
    hide Heard, IsCount;
  }

  lemma EmitSizes(x: End, y: End)
    requires SizesOk(x) && HasOutput(x.e) && Ties(x) && NumbersOk(x.e.live, x.e.lastNo, x.e.rx)
    requires Agree(TxOf(x), y.e.rx, y.done, x.out)
    ensures SizesOk(Emitted(x)) && MoreSent(x, Emitted(x))
  {
    hide Agree, Ties, NumbersOk, Front, FrontFrame, Transmitted, ValidPayload, Crc, IsData, KeyOf, Min;
    var id, m, f, d := x.e.outbox[0].id, Front(x.e), FrontFrame(x.e), Emitted(x);
    EmitLive(x);
    FrontIs(x.e);
    if IsDataM(m) {
      FrontIsNext(x);
      FrontStream(x, y);
      assert SizeOk(Str(m.payload, m.sent, m.bytesSent));
    }
  }

  lemma FrontIs(e: Endpoint)
    requires HasOutput(e)
    ensures Front(e) == e.live[e.outbox[0].id].(no := Front(e).no)
    ensures e.live[e.outbox[0].id].no > 0 ==> Front(e) == e.live[e.outbox[0].id]
    ensures e.live[e.outbox[0].id].no == 0 ==> Front(e).no == e.lastNo + 1
  {
  }

  /** A request the other end has begun to receive is numbered, and so is a response: the number stays. */
  lemma EmitKept(x: End, y: End, k: Key)
    requires HasOutput(x.e) && Agree(TxOf(x), y.e.rx, y.done, x.out) && k in y.e.rx.pend && k.no > 0
    requires NumbersOk(x.e.live, x.e.lastNo, x.e.rx)
    ensures KeptFor(x.e.live, Emitted(x).e.live, k)
  {
    if !k.res {
      BegunIsNumbered(x, y, k);
    }
    hide Agree, Front, FrontFrame, Transmitted, NumbersOk, KeptFor;
    EmitLive(x);
    FrontIs(x.e);
    UnnumberedIsRequest(x.e, x.e.outbox[0].id);
    EmitKeptBy(x.e.live, Emitted(x).e.live, x.e.outbox[0].id, Front(x.e), k);
  }

  lemma BegunIsNumbered(x: End, y: End, k: Key)
    requires Agree(TxOf(x), y.e.rx, y.done, x.out) && k in y.e.rx.pend && !k.res
    ensures k.no <= x.e.lastNo
  {
    hide Ordered, Summed, NoAfter, SumAfter, StreamOk, InFlight;
  }

  lemma UnnumberedIsRequest(e: Endpoint, id: Id)
    requires NumbersOk(e.live, e.lastNo, e.rx) && id in e.live
    ensures e.live[id].no == 0 ==> e.live[id].kind.Request?
  {
  }

  lemma EmitKeptBy(a: map<Id, Out>, b: map<Id, Out>, id: Id, m: Out, k: Key)
    requires id in a && m == a[id].(no := m.no) && (KeyM(m) == k ==> a[id].no == m.no)
    requires forall j | j in b && j != id :: j in a && b[j] == a[j]
    requires id in b && IsDataM(b[id]) ==> KeyM(b[id]) == KeyM(m) && b[id].acked >= m.acked && IsDataM(m)
    ensures KeptFor(a, b, k)
  {
  }

  lemma EmitTold(x: End, y: End, res: bool)
    requires BothTold(x, y, res) && AcksOk(x, y) && HasOutput(x.e) && NumbersOk(x.e.live, x.e.lastNo, x.e.rx)
    requires Agree(TxOf(x), y.e.rx, y.done, x.out) && forall k | k in y.e.rx.pend :: k.no > 0
    ensures BothTold(Emitted(x), y, res)
  {
    hide Agree, AcksOk, Told, Emitted, NumbersOk, KeptFor;
    EmitTellsHere(x, y, res);
    var d := Emitted(x);
    forall k | k in y.e.rx.pend && k.res == res && y.e.sendOpen ensures Told(y, d, k, y.e.rx.pend[k]) {
      EmitKept(x, y, k);
      ToldThere(x, d, y, k, y.e.rx.pend[k]);
    }
  }

  lemma EmitTellsHere(x: End, y: End, res: bool)
    requires AllTold(x, y, res) && AcksOk(x, y) && HasOutput(x.e) && NumbersOk(x.e.live, x.e.lastNo, x.e.rx)
    ensures AllTold(Emitted(x), y, res)
  {
    var id, f, d := x.e.outbox[0].id, FrontFrame(x.e), Emitted(x);
    hide Told, Front, FrontFrame, Transmitted, NumbersOk;
    EmitLive(x);
    EmitExpects(x);
    EmitOpen(x.e);
    FrontIs(x.e);
    if d.e.sendOpen {
      EmitKeepsLive(x.e);
      if IsAck(x.e.live[id].kind) {
        AckFrame(x.e);
        AckIsNumbered(x, y, id);
      }
      forall k | k in d.e.rx.pend && k.res == res ensures Told(d, y, k, d.e.rx.pend[k]) {
        if k in x.e.rx.pend {
          EmitToldHere(x, d, y, id, f, k, d.e.rx.pend[k]);
        } else {
          ToldOfNothing(d, y, k, d.e.rx.pend[k]);
        }
      }
    }
  }

  lemma ToldOfNothing(x: End, y: End, k: Key, m: In)
    requires m.raw == 0 && m.unacked == 0
    ensures Told(x, y, k, m)
  {
  }

  lemma AckIsNumbered(x: End, y: End, id: Id)
    requires NumbersOk(x.e.live, x.e.lastNo, x.e.rx) && id in x.e.live && IsAck(x.e.live[id].kind)
    ensures x.e.live[id].no > 0
  {
  }

  lemma EmitExtra(x: End, y: End)
    requires Sound(x, y) && HasOutput(x.e)
    ensures Extra(Emitted(x), y) && Extra(y, Emitted(x))
  {
    hide Linked, Agree, Ties, Flows, SizesOk, AcksOk, MoreSent, Told, Conserved, BoxesOk, NumbersOk, Front,
         FrontFrame, Transmitted;
    var id, m, f, d := x.e.outbox[0].id, Front(x.e), FrontFrame(x.e), Emitted(x);
    LinkedGives(x, y);
    TransmittedFlows(x.e);
    EmitSizes(x, y);
    LinkedSwaps(x, y);
    EmitTold(x, y, false);
    EmitLive(x);
    EmitFrameAck(x, y);
    EmitAcks(x, d, y, id, m, f);
  }

  lemma EmitFrameAck(x: End, y: End)
    requires AcksOk(x, y) && HasOutput(x.e) && NumbersOk(x.e.live, x.e.lastNo, x.e.rx)
    ensures var f := FrontFrame(x.e);
            IsAck(f.kind) ==> AckOk(y, f.kind, f.no, f.body)
  {
    var id, m := x.e.outbox[0].id, Front(x.e);
    FrontIs(x.e);
    assert FrontFrame(x.e).kind == m.kind;
    if IsAck(m.kind) {
      AckIsNumbered(x, y, id);
      AckFrame(x.e);
    }
    hide FrontFrame, NumbersOk;
  }

  // A data frame arrives.

  /** How many bytes of a message have come with this frame. */
  function Arriving(x: End, f: Frame): nat { Extended(Part(x.e.rx, KeyOf(f)), f).raw }

  lemma ArrivingWasSent(x: End, y: End)
    requires Agree(TxOf(y), x.e.rx, x.done, y.out) && y.out != [] && IsData(y.out[0]) && SizesOk(y)
    ensures var f, k := y.out[0], KeyOf(y.out[0]);
            k in y.str && Arriving(x, f) <= y.str[k].bytes && Arriving(x, f) < Varint.UINT64
  {
    hide Ordered, Summed, NoAfter, SumAfter, Refused;
    FrontSlot(TxOf(y), x.e.rx, x.done, y.out);
    var f, k := y.out[0], KeyOf(y.out[0]);
    var rest := InFlight(y.out[1..], k);
    assert StreamOk(x.e.rx, x.done, [f] + rest, k, y.str[k]);
    hide InFlight;
    assert k !in x.done;
    FrontPart(Part(x.e.rx, k), f, rest, y.str[k]);
  }

  lemma CountRead(c: nat)
    requires c < Varint.UINT64
    ensures IsCount(Varint.Encode(c)) && CountIn(Varint.Encode(c)) == c
  {
    assert Varint.Encode(c) + [] == Varint.Encode(c);
    Varint.RoundTrip(c, []);
    Varint.TenBytesSuffice(c);
    hide Varint.Encode, Varint.Read;
  }

  /** The live messages after a data frame: an ACK may have been added. */
  lemma ReceiptLive(e: Endpoint, f: Frame)
    requires e.receiveOpen && IsData(f) && Take(e.rx, f).Took? && BoxesOk(e)
    ensures var t, r := Take(e.rx, f), Receive(e, f);
            && r.Received? && r.e.sendOpen == e.sendOpen && e.nextId !in e.live
            && (t.ack.None? ==> r.e.live == e.live)
            && (r.e.live == e.live
                || (t.ack.Some? && r.e.live == e.live[e.nextId := NewAck(!f.kind.Request?, f.no, t.ack.value)]))
            && (t.ack.Some? && e.sendOpen ==> r.e.live == e.live[e.nextId := NewAck(!f.kind.Request?, f.no, t.ack.value)])
  {
    hide Take, BoxesOk, Requeued, ItemOf;
    var t := Take(e.rx, f);
    var b := e.(rx := t.rx);
    BoxesOnly(e, b);
    SentEffect(b, NewAck(!f.kind.Request?, f.no, if t.ack.Some? then t.ack.value else 0));
    hide NewAck;
  }

  lemma TakenAck(rx: Rx, f: Frame)
    requires Take(rx, f).Took? && Slot(rx, f) == Some(Part(rx, KeyOf(f)))
    ensures Take(rx, f).ack == AckDue(Part(rx, KeyOf(f)), f)
    ensures Take(rx, f).ack.Some? ==> Take(rx, f).ack.value == Extended(Part(rx, KeyOf(f)), f).raw
  {
    hide Refused, Crc;
  }

  /** What the arrival of a data frame changes, as far as ACKs go. */
  lemma DataLive(x: End, y: End)
    requires Linked(x, y) && y.out != [] && IsData(y.out[0]) && Receive(x.e, y.out[0]).Received?
    ensures var f, d := y.out[0], Arrived(x, y.out[0]);
            var due := AckDue(Part(x.e.rx, KeyOf(f)), f);
            var ack := NewAck(!f.kind.Request?, f.no, Arriving(x, f));
            && d.e.sendOpen == x.e.sendOpen && x.e.nextId !in x.e.live
            && (d.e.live == x.e.live || (due.Some? && d.e.live == x.e.live[x.e.nextId := ack]))
            && (due.Some? && x.e.sendOpen ==> d.e.live == x.e.live[x.e.nextId := ack])
            && d.str == x.str && d.out == x.out && d.e.rx == Updated(x.e.rx, f)
  {
    hide Linked, Agree, Ties, Conserved, BoxesOk, NumbersOk, Take, Slot, AckDue, Updated, Receive, NewAck, Arrived, Finished,
         Part, Extended;
    var f := y.out[0];
    LinkedGives(x, y);
    ArrivedEndpoint(x, f);
    FrontSlot(TxOf(y), x.e.rx, x.done, y.out);
    TakeKeeps(TxOf(y), x.e.rx, x.done, y.out);
    TakenAck(x.e.rx, f);
    ReceiptLive(x.e, f);
    DataEffect(x, y);
  }

  lemma DataAcks(x: End, d: End, y: End, z: End, ack: Out, f: Frame)
    requires AcksOk(x, y) && AcksOk(y, x) && y.out != [] && z == y.(out := y.out[1..]) && d.out == x.out
    requires d.str == x.str
    requires d.e.live == x.e.live || d.e.live == x.e.live[x.e.nextId := ack]
    requires AckOk(y, ack.kind, ack.no, ack.payload)
    ensures AcksOk(d, z) && AcksOk(z, d)
  {
    hide IsCount;
    assert forall k, n, bs | AckOk(y, k, n, bs) :: AckOk(z, k, n, bs);
    assert forall k, n, bs | AckOk(x, k, n, bs) :: AckOk(d, k, n, bs);
    hide AckOk;
  }

  /** The message the frame is of: an ACK is due and has been made, or what was last acknowledged stays. */
  lemma DataToldMessage(x: End, d: End, y: End, f: Frame)
    requires IsData(f) && (KeyOf(f) in x.e.rx.pend ==> Told(x, y, KeyOf(f), x.e.rx.pend[KeyOf(f)]))
    requires AckDue(Part(x.e.rx, KeyOf(f)), f).None? ==> d.e.live == x.e.live
    requires AckDue(Part(x.e.rx, KeyOf(f)), f).Some? ==>
               && x.e.nextId !in x.e.live
               && d.e.live == x.e.live[x.e.nextId := NewAck(KeyOf(f).res, f.no, Arriving(x, f))]
    requires d.out == x.out && Arriving(x, f) < Varint.UINT64
    ensures Told(d, y, KeyOf(f), Extended(Part(x.e.rx, KeyOf(f)), f))
  {
    var m, k := Part(x.e.rx, KeyOf(f)), KeyOf(f);
    if AckDue(m, f).Some? {
      CountRead(Arriving(x, f));
      var a := NewAck(k.res, f.no, Arriving(x, f));
      assert d.e.live[x.e.nextId] == a && IsAckOf(a.kind, a.no, a.payload, k, Arriving(x, f));
      assert Boxed(d.e.live, k, Arriving(x, f));
    } else if k in x.e.rx.pend {
      ToldHere(x, d, y, k, m);
    }
    hide Boxed, OnWay, Heard, IsCount;
  }

  lemma ToldTail(y: End, z: End, x: End, k: Key, m: In)
    requires Told(y, x, k, m) && y.out != [] && IsData(y.out[0]) && z == y.(out := y.out[1..])
    ensures Told(z, x, k, m)
  {
    var c := m.raw - m.unacked;
    if OnWay(y.out, k, c) {
      OnWayLess(y.out, k, c);
    }
    hide Boxed, OnWay, Heard;
  }

  /** A data frame has come: an ACK was made if it was due and could be. */
  predicate Took(x: End, d: End, f: Frame) {
    var due, ack := AckDue(Part(x.e.rx, KeyOf(f)), f), NewAck(!f.kind.Request?, f.no, Arriving(x, f));
    && d.e.sendOpen == x.e.sendOpen && x.e.nextId !in x.e.live && Arriving(x, f) < Varint.UINT64
    && (d.e.live == x.e.live || (due.Some? && d.e.live == x.e.live[x.e.nextId := ack]))
    && (due.Some? && x.e.sendOpen ==> d.e.live == x.e.live[x.e.nextId := ack])
    && d.out == x.out && d.e.rx == Updated(x.e.rx, f)
  }

  lemma DataToldBy(x: End, d: End, y: End, z: End, f: Frame, res: bool)
    requires BothTold(x, y, res) && y.out != [] && f == y.out[0] && IsData(f) && z == y.(out := y.out[1..])
    requires Took(x, d, f) && forall k | k in y.e.rx.pend :: k.no > 0
    ensures BothTold(d, z, res)
  {
    hide Told, AckDue, Varint.Encode, KeptFor;
    forall k | k in d.e.rx.pend && k.res == res && d.e.sendOpen ensures Told(d, z, k, d.e.rx.pend[k]) {
      if k == KeyOf(f) {
        DataToldMessage(x, d, y, f);
        assert d.e.rx.pend[k] == Extended(Part(x.e.rx, k), f);
        ToldSame(d, y, z, k, d.e.rx.pend[k]);
      } else {
        ToldHere(x, d, y, k, x.e.rx.pend[k]);
        ToldSame(d, y, z, k, d.e.rx.pend[k]);
      }
    }
    forall k | k in y.e.rx.pend && k.res == res && y.e.sendOpen ensures Told(z, d, k, y.e.rx.pend[k]) {
      ToldTail(y, z, x, k, y.e.rx.pend[k]);
      TookKeeps(x, d, f, k);
      ToldThere(x, d, z, k, y.e.rx.pend[k]);
    }
  }

  lemma TookKeeps(x: End, d: End, f: Frame, k: Key)
    requires Took(x, d, f)
    ensures KeptFor(x.e.live, d.e.live, k)
  {
    hide AckDue, Varint.Encode, Updated;
  }

  lemma ToldSame(d: End, y: End, z: End, k: Key, m: In)
    requires Told(d, y, k, m) && z.e.live == y.e.live
    ensures Told(d, z, k, m)
  {
    hide Boxed, OnWay, Heard;
  }

  lemma DataTook(x: End, y: End)
    requires Linked(x, y) && SizesOk(y) && y.out != [] && IsData(y.out[0]) && Receive(x.e, y.out[0]).Received?
    ensures Took(x, Arrived(x, y.out[0]), y.out[0])
  {
    hide Linked, Agree, Ties, Conserved, BoxesOk, NumbersOk, Receive, AckDue, Updated, Varint.Encode, Arrived, SizesOk;
    LinkedGives(x, y);
    DataLive(x, y);
    ArrivingWasSent(x, y);
  }

  lemma DataTold(x: End, y: End, res: bool)
    requires Linked(x, y) && SizesOk(y) && BothTold(x, y, res)
    requires y.out != [] && IsData(y.out[0]) && Receive(x.e, y.out[0]).Received?
    ensures BothTold(Arrived(x, y.out[0]), y.(out := y.out[1..]), res)
  {
    hide Linked, Agree, Ties, Conserved, BoxesOk, NumbersOk, BothTold, Receive, Arrived, SizesOk, Took;
    LinkedGives(x, y);
    DataTook(x, y);
    DataToldBy(x, Arrived(x, y.out[0]), y, y.(out := y.out[1..]), y.out[0], res);
  }

  lemma DataExtra(x: End, y: End)
    requires Sound(x, y) && y.out != [] && IsData(y.out[0])
    ensures Receive(x.e, y.out[0]).Received?
    ensures Extra(Arrived(x, y.out[0]), y.(out := y.out[1..])) && Extra(y.(out := y.out[1..]), Arrived(x, y.out[0]))
  {
    hide Linked, Agree, Ties, Conserved, BoxesOk, NumbersOk, Flows, Receive, AckDue, Updated, AcksOk, Told,
         Varint.Encode;
    LinkedGives(x, y);
    LinkedSwaps(x, y);
    LinkedGives(y, x);
    DataEffect(x, y);
    DataTold(x, y, false);
    DataLive(x, y);
    ArrivingWasSent(x, y);
    var f, d, z := y.out[0], Arrived(x, y.out[0]), y.(out := y.out[1..]);
    hide Arrived;
    ReceivedFlows(x.e, f);
    ArrivedEndpoint(x, f);
    var due, ack := AckDue(Part(x.e.rx, KeyOf(f)), f), NewAck(!f.kind.Request?, f.no, Arriving(x, f));
    CountRead(Arriving(x, f));
    assert AckOk(y, ack.kind, ack.no, ack.payload);
    DataAcks(x, d, y, z, ack, f);
    assert SizesOk(d) && SizesOk(z);
  }

  lemma LinkedSwaps(x: End, y: End)
    requires Linked(x, y)
    ensures Linked(y, x)
  {
    hide Half;
  }

  lemma ArrivedEndpoint(x: End, f: Frame)
    requires Receive(x.e, f).Received?
    ensures Arrived(x, f).e == Receive(x.e, f).e
  {
    hide Receive;
  }

  // An ACK arrives.

  /** A request being sent is in the outbox or the icebox. */
  lemma StartedIsInReach(e: Endpoint, id: Id)
    requires BoxesOk(e) && Flows(e) && id in e.live && e.live[id].kind.Request? && e.live[id].no > 0
    ensures Count(e.outbox, id) > 0 || CountIds(e.icebox, id) > 0
  {
    assert Places(e, id) == 1;
    assert e.live[id].bytesSent > 0;
    CountNone(e.wayOut, id);
  }

  /** An ACK of a request that is still being sent finds it. */
  lemma AckFinds(e: Endpoint, id: Id, body: seq<byte>)
    requires BoxesOk(e) && Flows(e) && NumbersOk(e.live, e.lastNo, e.rx) && Varint.Read(body).Complete?
    requires id in e.live && e.live[id].kind.Request? && e.live[id].no > 0
    ensures var r := ReceivedAck(e, e.live[id].no, false, body);
            r.Received? && id in r.e.live && r.e.live[id] == Acked(e.live[id], Varint.Read(body).value)
  {
    var no := e.live[id].no;
    var found, frozen := FindItem(e, e.outbox, no, false), FindFrozen(e, e.icebox, no, false);
    StartedIsInReach(e, id);
    FoundIsLive(e, e.outbox, no, false);
    FrozenIsLive(e, e.icebox, no, false);
    if Count(e.outbox, id) > 0 {
      QueuedIsFound(e, e.outbox, id, no, false);
    } else {
      IcedIsFound(e, e.icebox, id, no, false);
    }
    assert found.Some? ==> found.value == id;
    assert found.None? ==> frozen.value == id;
    hide FindItem, FindFrozen, BoxesOk, Flows, NumbersOk, Thawed, Acked, Varint.Read;
    ThawedLive(e.(live := e.live[id := Acked(e.live[id], Varint.Read(body).value)]), id);
  }

  lemma ThawedLive(e: Endpoint, id: Id)
    requires id in e.live
    ensures Thawed(e, id, e.live[id]).live == e.live
  {
    hide Requeued, ItemOf, WithoutId;
  }

  /** An ACK changes no message but in what is acknowledged, which can only grow. */
  lemma AckedMore(e: Endpoint, no: nat, onResponse: bool, body: seq<byte>)
    requires Flows(e) && Varint.Read(body).Complete?
    ensures var r := ReceivedAck(e, no, onResponse, body);
            && r.Received? && r.e.sendOpen == e.sendOpen && r.e.live.Keys == e.live.Keys
            && forall id | id in e.live :: SameText(r.e.live[id], e.live[id]) && r.e.live[id].acked >= e.live[id].acked
  {
    hide FindItem, FindFrozen, Requeued, WithoutId, ItemOf, Varint.Read;
    var r, c := ReceivedAck(e, no, onResponse, body), Varint.Read(body).value;
    var found, frozen := FindItem(e, e.outbox, no, onResponse), FindFrozen(e, e.icebox, no, onResponse);
    if found.Some? || frozen.Some? {
      var id := if found.Some? then found.value else frozen.value;
      if id in e.live {
        assert r.e.live == e.live[id := Acked(e.live[id], c)];
        AckedOnly(e.live[id], c);
        AckedCounts(e.live[id], c);
      }
    }
    hide Acked, Counted, Flows;
  }

  /** The message of an ACK has been told of it, unless it is a response behind another ACK. */
  predicate Reaches(x: End, f: Frame) {
    f.kind.AckResponse? ==>
      forall id | id in x.e.live && IsResponse(x.e.live[id]) && x.e.live[id].no == f.no :: !AckBefore(x.e, id, f.no)
  }

  lemma AckHeard(x: End, f: Frame)
    requires BoxesOk(x.e) && Flows(x.e) && NumbersOk(x.e.live, x.e.lastNo, x.e.rx) && Ties(x)
    requires IsAck(f.kind) && f.no > 0 && AckOk(x, f.kind, f.no, f.body) && Reaches(x, f)
    ensures Receive(x.e, f).Received? && Heard(Receive(x.e, f).e.live, AckKey(f.kind, f.no), CountIn(f.body))
  {
    hide BoxesOk, NumbersOk, Flows, Ties, ReceivedAck, Reaches;
    var c, k := CountIn(f.body), AckKey(f.kind, f.no);
    AckedMore(x.e, f.no, f.kind.AckResponse?, f.body);
    var d := Receive(x.e, f).e;
    forall id | id in d.live && IsDataM(d.live[id]) && KeyM(d.live[id]) == k ensures d.live[id].acked >= c {
      AckHeardBy(x, f, id);
    }
  }

  lemma AckHeardBy(x: End, f: Frame, id: Id)
    requires BoxesOk(x.e) && Flows(x.e) && NumbersOk(x.e.live, x.e.lastNo, x.e.rx) && Ties(x)
    requires IsAck(f.kind) && f.no > 0 && AckOk(x, f.kind, f.no, f.body) && Reaches(x, f)
    requires id in x.e.live && IsDataM(x.e.live[id]) && KeyM(x.e.live[id]) == AckKey(f.kind, f.no)
    ensures var r := Receive(x.e, f);
            r.Received? && id in r.e.live && r.e.live[id].acked >= CountIn(f.body)
  {
    var c, m := CountIn(f.body), x.e.live[id];
    assert Counted(m) && m.bytesSent == x.str[KeyM(m)].bytes;
    hide BoxesOk, NumbersOk, Flows, ReceivedAck;
    AckedMore(x.e, f.no, f.kind.AckResponse?, f.body);
    if f.kind.AckRequest? {
      AckFinds(x.e, id, f.body);
      AckedCounts(m, c);
    } else if c > m.acked {
      OneOfEach(x, id);
      hide Ties, OnlyResponse;
      AckReachesIff(x.e, id, f.body);
    }
  }

  /** A response is the only one with its number. */
  lemma OneOfEach(x: End, id: Id)
    requires Ties(x) && NumbersOk(x.e.live, x.e.lastNo, x.e.rx) && id in x.e.live && IsResponse(x.e.live[id])
    ensures OnlyResponse(x.e, id)
  {
  }

  lemma AckToldBy(x: End, d: End, y: End, z: End, f: Frame, k: Key, m: In)
    requires Told(y, x, k, m) && y.out != [] && f == y.out[0] && z == y.(out := y.out[1..])
    requires d.e.live.Keys == x.e.live.Keys
    requires forall id | id in x.e.live :: SameText(d.e.live[id], x.e.live[id]) && d.e.live[id].acked >= x.e.live[id].acked
    requires IsAck(f.kind) && AckKey(f.kind, f.no) == k && IsCount(f.body) ==> Heard(d.e.live, k, CountIn(f.body))
    ensures Told(z, d, k, m)
  {
    var c := m.raw - m.unacked;
    if OnWay(y.out, k, c) {
      OnWayLess(y.out, k, c);
    }
    if Heard(x.e.live, k, c) {
      HeardMore(x.e.live, d.e.live, k, c);
    }
    hide Boxed, OnWay, Heard, IsCount;
  }

  /** What the arrival of an ACK changes. */
  predicate Acks(x: End, d: End) {
    && d.e.rx == x.e.rx && d.out == x.out && d.str == x.str && d.e.sendOpen == x.e.sendOpen && d.e.live.Keys == x.e.live.Keys
    && forall id | id in x.e.live :: SameText(d.e.live[id], x.e.live[id]) && d.e.live[id].acked >= x.e.live[id].acked
  }

  lemma AckArrives(x: End, y: End)
    requires Linked(x, y) && Flows(x.e) && AcksOk(y, x) && y.out != [] && IsAck(y.out[0].kind)
    ensures Varint.Read(y.out[0].body).Complete? && Receive(x.e, y.out[0]).Received? && Acks(x, Arrived(x, y.out[0]))
  {
    hide Linked, Flows, ReceivedAck, AcksOk;
    var f := y.out[0];
    FrontAck(x, y);
    AckedMore(x.e, f.no, f.kind.AckResponse?, f.body);
    AckEffect(x.e, f.no, f.kind.AckResponse?, f.body);
  }

  /** An ACK that reaches its message, if it is of the kind spoken of. */
  lemma AckTold(x: End, y: End, res: bool)
    requires Linked(x, y) && Flows(x.e) && AcksOk(y, x) && BothTold(x, y, res) && y.out != [] && IsAck(y.out[0].kind)
    requires y.out[0].kind.AckResponse? && res ==> Reaches(x, y.out[0])
    ensures Receive(x.e, y.out[0]).Received?
    ensures BothTold(Arrived(x, y.out[0]), y.(out := y.out[1..]), res)
  {
    hide Linked, Agree, Ties, Conserved, BoxesOk, NumbersOk, Flows, AcksOk, BothTold, Receive, Arrived, Reaches, Acks;
    LinkedGives(x, y);
    AckArrives(x, y);
    FrontAck(x, y);
    var f, d, z := y.out[0], Arrived(x, y.out[0]), y.(out := y.out[1..]);
    ArrivedEndpoint(x, f);
    if f.no > 0 && f.kind.AckResponse? == res {
      AckReaches(x, f);
      AckHeard(x, f);
    }
    AckAllTold(x, d, y, z, f, res);
  }

  lemma AckReaches(x: End, f: Frame)
    requires IsAck(f.kind) && (f.kind.AckResponse? ==> Reaches(x, f))
    ensures Reaches(x, f)
  {
  }

  lemma AckExtra(x: End, y: End)
    requires Sound(x, y) && y.out != [] && IsAck(y.out[0].kind)
    ensures Varint.Read(y.out[0].body).Complete? && Receive(x.e, y.out[0]).Received?
    ensures Extra(Arrived(x, y.out[0]), y.(out := y.out[1..])) && Extra(y.(out := y.out[1..]), Arrived(x, y.out[0]))
  {
    hide Linked, Agree, Ties, Conserved, BoxesOk, NumbersOk, Flows, Told, SizesOk, AcksOk, Receive, Arrived;
    LinkedGives(x, y);
    var f, z := y.out[0], y.(out := y.out[1..]);
    AckArrives(x, y);
    var d := Arrived(x, f);
    ArrivedEndpoint(x, f);
    ReceivedFlows(x.e, f);
    AckSizes(x, d);
    AckSizes(y, z);
    AckAcks(x, d, y, z);
    AckTold(x, y, false);
  }

  lemma FrontAck(x: End, y: End)
    requires AcksOk(y, x) && y.out != [] && IsAck(y.out[0].kind)
    ensures AckOk(x, y.out[0].kind, y.out[0].no, y.out[0].body)
  {
  }

  lemma AckSizes(x: End, d: End)
    requires SizesOk(x) && d.str == x.str && d.e.live.Keys == x.e.live.Keys
    requires forall id | id in x.e.live :: SameText(d.e.live[id], x.e.live[id])
    ensures SizesOk(d)
  {
  }

  lemma AckAllTold(x: End, d: End, y: End, z: End, f: Frame, res: bool)
    requires BothTold(x, y, res) && y.out != [] && f == y.out[0] && IsAck(f.kind) && z == y.(out := y.out[1..])
    requires Acks(x, d) && forall k | k in y.e.rx.pend :: k.no > 0
    requires f.no > 0 && f.kind.AckResponse? == res && IsCount(f.body) ==>
               Heard(d.e.live, AckKey(f.kind, f.no), CountIn(f.body))
    ensures BothTold(d, z, res)
  {
    hide Told, IsCount, Heard;
    forall k | k in y.e.rx.pend && k.res == res && y.e.sendOpen ensures Told(z, d, k, y.e.rx.pend[k]) {
      AckToldBy(x, d, y, z, f, k, y.e.rx.pend[k]);
    }
    forall k | k in x.e.rx.pend && k.res == res && x.e.sendOpen ensures Told(d, z, k, x.e.rx.pend[k]) {
      ToldHere(x, d, y, k, x.e.rx.pend[k]);
      ToldSame(d, y, z, k, x.e.rx.pend[k]);
    }
  }

  lemma AckAcks(x: End, d: End, y: End, z: End)
    requires AcksOk(x, y) && AcksOk(y, x) && y.out != [] && z == y.(out := y.out[1..]) && d.out == x.out
    requires d.str == x.str
    requires d.e.live.Keys == x.e.live.Keys && forall id | id in x.e.live :: SameText(d.e.live[id], x.e.live[id])
    ensures AcksOk(d, z) && AcksOk(z, d)
  {
    hide IsCount;
    assert forall k, n, bs | AckOk(y, k, n, bs) :: AckOk(z, k, n, bs);
    assert forall k, n, bs | AckOk(x, k, n, bs) :: AckOk(d, k, n, bs);
    hide AckOk;
  }
}
