/**
 * Which request is which, in every run: its frames carry what it was sent with, a reply is expected under its number
 * exactly if one is wanted, and that reply is for whoever asked. Responses carry what they were given with.
 */
module BlipReplies {
  import opened Bytes
  import opened Common
  import opened BlipFrame
  import opened BlipMessage
  import opened BlipOutbox
  import opened BlipStream
  import opened BlipEndpoint
  import opened BlipConservation
  import opened BlipFlow
  import opened BlipClosing
  import opened BlipAcks
  import opened BlipLink
  import opened BlipDelivery
  import opened BlipRuns
  import Varint

  /** Nothing that a message is sent with differs. */
  predicate SameWish(a: Out, b: Out) {
    && a.kind == b.kind && a.no == b.no && a.payload == b.payload && a.urgent == b.urgent && a.noReply == b.noReply
    && a.awaits == b.awaits
  }

  predicate AsAsked(x: End, id: Id, m: Out) {
    id in x.asked && x.asked[id] == Wish(m.payload, m.urgent, m.noReply) && m.awaits
  }

  predicate AsGiven(x: End, m: Out) {
    m.no in x.given && x.given[m.no] == Given(m.payload, m.urgent, m.kind.ErrorReply?) && !m.noReply
  }

  /** Number `n` is that of a request that was asked for. */
  predicate Known(x: End, n: nat) { n in x.ids && x.ids[n] in x.asked }

  /** And a reply to it is wanted. */
  predicate Wanted(x: End, n: nat) { Known(x, n) && !x.asked[x.ids[n]].noReply }

  /** The flags of a frame are those its message was asked or given with. */
  predicate MarkedAs(x: End, f: Frame) {
    && (f.kind.Request? ==>
          Known(x, f.no) && f.urgent == x.asked[x.ids[f.no]].urgent && f.noReply == x.asked[x.ids[f.no]].noReply)
    && (f.kind.Response? || f.kind.ErrorReply? ==>
          f.no in x.given && f.urgent == x.given[f.no].urgent && !f.noReply
          && f.kind.ErrorReply? == x.given[f.no].isError)
    && (IsAck(f.kind) ==> f.urgent && f.noReply && !f.more)
  }

  /** Requests are as they were asked for, and each has one number. */
  ghost predicate Requests(x: End) {
    && (forall id | id in x.e.live && x.e.live[id].kind.Request? ::
          && AsAsked(x, id, x.e.live[id])
          && (x.e.live[id].no > 0 ==> x.e.live[id].no in x.ids && x.ids[x.e.live[id].no] == id))
    && (forall id | id in x.asked ::
          id < x.e.nextId && id in x.e.requested && (id in x.e.live ==> x.e.live[id].kind.Request?))
    && (forall n | n in x.ids ::
          && 0 < n <= x.e.lastNo && x.ids[n] in x.asked
          && (x.ids[n] in x.e.live ==> x.e.live[x.ids[n]].no == n && x.e.live[x.ids[n]].kind.Request?))
    && (forall m, n | m in x.ids && n in x.ids :: x.ids[m] == x.ids[n] ==> m == n)
  }

  /** A reply is expected or has come only if it is wanted, and then it is once the request has been sent. */
  ghost predicate Replies(x: End) {
    && (forall k | k in x.e.rx.pend && k.res :: Wanted(x, k.no) && x.e.rx.pend[k].reply == Some(x.ids[k.no]))
    && (forall k | k in x.done && k.res :: Wanted(x, k.no))
    && (forall n | Wanted(x, n) && x.ids[n] !in x.e.live :: Key(true, n) in x.e.rx.pend || Key(true, n) in x.done)
  }

  ghost predicate Marks(x: End) {
    && (forall id | id in x.e.live && IsResponse(x.e.live[id]) :: AsGiven(x, x.e.live[id]))
    && (forall id | id in x.e.live && IsAck(x.e.live[id].kind) :: x.e.live[id].urgent && x.e.live[id].noReply)
    && (forall n | n in x.given :: Key(true, n) in x.str && x.str[Key(true, n)].payload == x.given[n].payload)
    && (forall k | k in x.str && !k.res :: Known(x, k.no) && x.str[k].payload == x.asked[x.ids[k.no]].payload)
    && (forall i | 0 <= i < |x.out| :: MarkedAs(x, x.out[i]))
  }

  ghost predicate Named(x: End) { Requests(x) && Replies(x) && Marks(x) }

  /** The requests an end may answer want a reply. */
  predicate AnswersWanted(x: End, y: End) { forall n | n in y.toAnswer :: Wanted(x, n) }

  /** What is known of requests stays known. */
  predicate Remembers(x: End, d: End) {
    && (forall id | id in x.asked :: id in d.asked && d.asked[id] == x.asked[id])
    && (forall n | n in x.ids :: n in d.ids && d.ids[n] == x.ids[n])
    && (forall n | n in x.given :: n in d.given && d.given[n] == x.given[n])
  }

  lemma StillMarked(x: End, d: End, f: Frame)
    requires Remembers(x, d) && MarkedAs(x, f)
    ensures MarkedAs(d, f)
  {
  }

  // Acts that leave the requests as they are.

  /** Messages stay as they are or go; new ones are no requests. */
  predicate SameRequests(x: End, d: End) {
    && d.ids == x.ids && d.asked == x.asked && d.e.lastNo == x.e.lastNo && d.e.nextId >= x.e.nextId
    && x.e.requested <= d.e.requested
    && (forall id | id in d.e.live ::
          (id >= x.e.nextId && !d.e.live[id].kind.Request?) || (id in x.e.live && SameWish(d.e.live[id], x.e.live[id])))
  }

  lemma RequestsKept(x: End, d: End)
    requires Requests(x) && SameRequests(x, d)
    ensures Requests(d)
  {
  }

  /** No numbered request goes. */
  predicate NoneGoes(x: End, d: End) { forall n | n in x.ids && x.ids[n] in x.e.live :: x.ids[n] in d.e.live }

  lemma RepliesKept(x: End, d: End)
    requires Replies(x) && SameRequests(x, d) && NoneGoes(x, d)
    requires forall k | k in d.e.rx.pend && k.res :: k in x.e.rx.pend && d.e.rx.pend[k].reply == x.e.rx.pend[k].reply
    requires forall k | k in d.done && k.res :: k in x.done || k in x.e.rx.pend
    requires forall k | k in x.e.rx.pend && k.res :: k in d.e.rx.pend || k in d.done
    requires forall k | k in x.done :: k in d.done
    ensures Replies(d)
  {
  }

  lemma MarksKept(x: End, d: End)
    requires Marks(x) && d.ids == x.ids && d.asked == x.asked && d.given == x.given && d.str == x.str
    requires forall i | 0 <= i < |d.out| :: d.out[i] in x.out
    requires forall id | id in d.e.live && IsResponse(d.e.live[id]) :: id in x.e.live && SameWish(d.e.live[id], x.e.live[id])
    requires forall id | id in d.e.live && IsAck(d.e.live[id].kind) ::
               (d.e.live[id].urgent && d.e.live[id].noReply) || (id in x.e.live && SameWish(d.e.live[id], x.e.live[id]))
    ensures Marks(d)
  {
    forall i | 0 <= i < |d.out| ensures MarkedAs(d, d.out[i]) {
      var j :| 0 <= j < |x.out| && x.out[j] == d.out[i];
      assert MarkedAs(x, x.out[j]);
    }
  }

  /** Nothing happens but that the end is no longer as new. */
  lemma NothingNamed(x: End, d: End)
    requires Named(x) && d == x.(e := d.e) && d.e.live == x.e.live && d.e.rx == x.e.rx && d.e.lastNo == x.e.lastNo
    requires d.e.nextId >= x.e.nextId && x.e.requested <= d.e.requested
    ensures Named(d)
  {
    hide Requests, Replies, Marks;
    RequestsKept(x, d);
    RepliesKept(x, d);
    MarksKept(x, d);
  }

  // A request is asked for.

  lemma AskNamed(x: End, act: Act)
    requires Named(x) && act.Ask?
    ensures Named(ActOf(x, act))
  {
    hide Named, Sent, TooLate;
    var d := ActOf(x, act);
    if TooLate(x.e, act.urgent) {
      NothingNamed(x, d);
    } else {
      var m := NewRequest(act.payload, act.urgent, act.noReply);
      SentLive(x.e, m);
      NewRequestNamed(x, d, m);
    }
  }

  lemma NewRequestNamed(x: End, d: End, m: Out)
    requires Named(x) && m.kind.Request? && m.no == 0 && m.awaits
    requires d == x.(e := d.e, asked := x.asked[x.e.nextId := Wish(m.payload, m.urgent, m.noReply)])
    requires d.e.live == x.e.live[x.e.nextId := m] && d.e.nextId == x.e.nextId + 1
    requires d.e.rx == x.e.rx && d.e.lastNo == x.e.lastNo && d.e.requested == x.e.requested + {x.e.nextId}
    ensures Named(d)
  {
    hide Requests, Replies, Marks;
    NewRequestAsked(x, d, m);
    NewRequestReplies(x, d);
    NewRequestMarks(x, d);
  }

  lemma NewRequestAsked(x: End, d: End, m: Out)
    requires Requests(x) && m.kind.Request? && m.no == 0 && m.awaits
    requires d.ids == x.ids && d.asked == x.asked[x.e.nextId := Wish(m.payload, m.urgent, m.noReply)]
    requires d.e.live == x.e.live[x.e.nextId := m] && d.e.nextId == x.e.nextId + 1
    requires d.e.lastNo == x.e.lastNo && d.e.requested == x.e.requested + {x.e.nextId}
    ensures Requests(d)
  {
  }

  lemma NewRequestReplies(x: End, d: End)
    requires Requests(x) && Replies(x) && d.ids == x.ids && d.done == x.done && d.e.rx == x.e.rx
    requires x.e.nextId in d.asked && d.asked == x.asked[x.e.nextId := d.asked[x.e.nextId]]
    requires forall id | id in x.e.live :: id in d.e.live
    ensures Replies(d)
  {
    assert forall n | n in x.ids :: x.ids[n] in x.asked && x.ids[n] != x.e.nextId;
    assert forall n :: Wanted(d, n) <==> Wanted(x, n);
  }

  lemma NewRequestMarks(x: End, d: End)
    requires Requests(x) && Marks(x) && d.ids == x.ids && d.given == x.given && d.str == x.str && d.out == x.out
    requires x.e.nextId in d.asked && d.asked == x.asked[x.e.nextId := d.asked[x.e.nextId]]
    requires forall id | id in d.e.live && !d.e.live[id].kind.Request? :: id in x.e.live && d.e.live[id] == x.e.live[id]
    ensures Marks(d)
  {
    assert Remembers(x, d) by { assert forall id | id in x.asked :: id != x.e.nextId; }
    hide Requests, MarkedAs;
    forall i | 0 <= i < |d.out| ensures MarkedAs(d, d.out[i]) {
      assert MarkedAs(x, x.out[i]);
      StillMarked(x, d, d.out[i]);
    }
  }

  // A request is answered.

  lemma AnswerNamed(x: End, y: End, act: Act)
    requires Linked(x, y) && Named(x) && May(x, y, act) && act.Answer?
    ensures Named(ActOf(x, act))
  {
    hide Linked, Named, Sent, Conserved, BoxesOk, NumbersOk, Agree, Ties, ValidPayload;
    LinkedGives(x, y);
    NotAnsweredYet(x, y, act.no);
    var m := NewResponse(act.no, act.payload, act.urgent, act.isError);
    SentEffect(x.e, m);
    SentNext(x.e, m);
    NewResponseNamed(x, ActOf(x, act), m);
  }

  lemma SentNext(e: Endpoint, m: Out)
    ensures Sent(e, m).nextId == e.nextId + 1 && Sent(e, m).requested == e.requested
  {
    hide Requeued, ItemOf;
  }

  lemma NewResponseNamed(x: End, d: End, m: Out)
    requires Named(x) && IsResponse(m) && !m.noReply && Key(true, m.no) !in x.str
    requires d == x.(e := d.e, toAnswer := d.toAnswer, str := d.str, given := d.given)
    requires d.e.rx == x.e.rx && d.e.lastNo == x.e.lastNo && d.e.requested == x.e.requested
    requires d.e.nextId == x.e.nextId + 1 && x.e.nextId !in x.e.live
    requires if x.e.nextId in d.e.live
             then && d.e.live == x.e.live[x.e.nextId := m]
                  && d.given == x.given[m.no := Given(m.payload, m.urgent, m.kind.ErrorReply?)]
                  && d.str == x.str[Key(true, m.no) := Str(m.payload, 0, 0)]
             else d.e.live == x.e.live && d.given == x.given && d.str == x.str
    ensures Named(d)
  {
    hide Requests, Replies, Marks;
    RequestsKept(x, d);
    RepliesKept(x, d);
    if x.e.nextId in d.e.live {
      NewResponseMarks(x, d, m);
    } else {
      MarksKept(x, d);
    }
  }

  lemma NewResponseMarks(x: End, d: End, m: Out)
    requires Marks(x) && IsResponse(m) && !m.noReply && Key(true, m.no) !in x.str && d.out == x.out
    requires d.ids == x.ids && d.asked == x.asked && d.e.live == x.e.live[x.e.nextId := m]
    requires d.given == x.given[m.no := Given(m.payload, m.urgent, m.kind.ErrorReply?)]
    requires d.str == x.str[Key(true, m.no) := Str(m.payload, 0, 0)]
    ensures Marks(d)
  {
    assert m.no !in x.given;
    hide MarkedAs;
    NewResponseFrames(x, d);
  }

  lemma NewResponseFrames(x: End, d: End)
    requires Marks(x) && Remembers(x, d) && d.out == x.out
    ensures forall i | 0 <= i < |d.out| :: MarkedAs(d, d.out[i])
  {
    hide MarkedAs;
    forall i | 0 <= i < |d.out| ensures MarkedAs(d, d.out[i]) {
      assert MarkedAs(x, x.out[i]);
      StillMarked(x, d, d.out[i]);
    }
  }

  // A frame arrives.

  lemma DataNamed(x: End, y: End)
    requires Linked(x, y) && Named(x) && y.out != [] && IsData(y.out[0]) && Receive(x.e, y.out[0]).Received?
    ensures Named(Arrived(x, y.out[0]))
  {
    hide Linked, Agree, Ties, Conserved, BoxesOk, NumbersOk, Receive, Requests, Replies, Marks, AckDue, Varint.Encode, Updated,
         Finished, Arrived;
    LinkedGives(x, y);
    DataEffect(x, y);
    DataLive(x, y);
    var f, d := y.out[0], Arrived(x, y.out[0]);
    ArrivedKeeps(x, f);
    FrontSlot(TxOf(y), x.e.rx, x.done, y.out);
    UpdatedReplies(x.e.rx, x.done, f);
    RequestsKept(x, d);
    RepliesKept(x, d);
    MarksKept(x, d);
  }

  lemma ArrivedKeeps(x: End, f: Frame)
    requires Receive(x.e, f).Received?
    ensures var d := Arrived(x, f);
            && d.asked == x.asked && d.ids == x.ids && d.str == x.str && d.given == x.given && d.out == x.out
            && d.e.nextId >= x.e.nextId && x.e.requested <= d.e.requested
  {
    hide Receive;
    ReceivedOnward(x.e, f);
  }

  lemma UpdatedReplies(rx: Rx, done: map<Key, seq<byte>>, f: Frame)
    requires KeyOf(f) !in rx.pend ==> !KeyOf(f).res
    ensures var p, q := Updated(rx, f).pend, Finished(rx, done, f);
            && (forall k | k in p && k.res :: k in rx.pend && p[k].reply == rx.pend[k].reply)
            && (forall k | k in q && k.res :: k in done || k in rx.pend)
            && (forall k | k in rx.pend && k.res :: k in p || k in q)
            && (forall k | k in done :: k in q)
  {
  }

  lemma AckNamed(x: End, f: Frame)
    requires Named(x) && IsAck(f.kind) && Varint.Read(f.body).Complete? && Flows(x.e)
    ensures Receive(x.e, f).Received? && Named(Arrived(x, f))
  {
    hide Requests, Replies, Marks, Flows, ReceivedAck;
    AckedMore(x.e, f.no, f.kind.AckResponse?, f.body);
    AckEffect(x.e, f.no, f.kind.AckResponse?, f.body);
    ArrivedKeeps(x, f);
    var d := Arrived(x, f);
    RequestsKept(x, d);
    RepliesKept(x, d);
    MarksKept(x, d);
  }

  lemma AcceptNamed(x: End, y: End)
    requires Sound(x, y) && Named(x) && Named(y) && y.out != []
    ensures Receive(x.e, y.out[0]).Received? && Named(Arrived(x, y.out[0])) && Named(y.(out := y.out[1..]))
  {
    hide Linked, Extra, Requests, Replies, Marks, Receive, Arrived;
    AcceptSound(x, y);
    ExtraGives(x, y);
    MarksKept(y, y.(out := y.out[1..]));
    RequestsKept(y, y.(out := y.out[1..]));
    RepliesKept(y, y.(out := y.out[1..]));
    if IsData(y.out[0]) {
      DataNamed(x, y);
    } else {
      AckExtra(x, y);
      AckNamed(x, y.out[0]);
    }
  }

  // A frame is sent.

  lemma RopeKeeps(e: Endpoint)
    ensures RopeLifted(e).nextId == e.nextId && RopeLifted(e).rx == e.rx
    ensures forall j | j in e.live && (e.wayOut != [] ==> j != e.wayOut[0].id) :: j in RopeLifted(e).live
  {
    hide Requeued, ItemOf;
  }

  /** Whose reply is expected after a frame, and which messages are still being sent. */
  lemma DispatchKeeps(e: Endpoint, h: Id, m: Out, f: Frame)
    requires Expects(m, f) ==> Key(true, m.no) !in e.rx.pend
    ensures var d := Dispatched(e, h, m, f);
            && d.nextId == e.nextId && (IsDataM(m) && f.more ==> h in d.live)
            && (Expects(m, f) ==> Key(true, m.no) in d.rx.pend
                                  && d.rx.pend[Key(true, m.no)].reply == if m.awaits then Some(h) else None)
            && (forall j | j in e.live && j != h && (e.wayOut != [] ==> j != e.wayOut[0].id) :: j in d.live)
  {
    if !IsAck(m.kind) && !f.more {
      RopeKeeps(HandedOver(e.(sum := f.sum), h, BlipEndpoint.Advanced(m, |f.body|)));
    }
    hide Requeued, ItemOf, RopeLifted;
  }

  /** A numbered request does not wait outside. */
  lemma NumberedIsInside(e: Endpoint, id: Id)
    requires Flows(e) && id in e.live && e.live[id].kind.Request? && e.live[id].no > 0
    ensures e.wayOut != [] ==> id != e.wayOut[0].id
  {
  }

  /** What sending a frame of message `h`, now `m`, changes. */
  predicate Sends(x: End, d: End, h: Id, m: Out, f: Frame) {
    && h in x.e.live && m == x.e.live[h].(no := m.no) && m.no > 0
    && d.asked == x.asked && d.given == x.given && d.done == x.done && d.e.nextId == x.e.nextId
    && x.e.requested <= d.e.requested
    && (if x.e.live[h].no == 0
        then m.kind.Request? && m.no == x.e.lastNo + 1 == d.e.lastNo && d.ids == x.ids[m.no := h]
        else m.no == x.e.live[h].no && d.e.lastNo == x.e.lastNo && d.ids == x.ids)
    && (forall j | j in d.e.live && j != h :: j in x.e.live && d.e.live[j] == x.e.live[j])
    && (h in d.e.live ==> SameWish(d.e.live[h], m))
    && (h !in d.e.live && IsDataM(m) ==> !f.more)
    && d.out == x.out + [f] && f.kind == m.kind && f.no == m.no && f.urgent == m.urgent && f.noReply == m.noReply
    && (IsAck(m.kind) ==> !f.more)
    && (IsAck(m.kind) ==> d.str == x.str)
    && (IsDataM(m) ==> KeyM(m) in d.str && d.str[KeyM(m)].payload == m.payload && d.str == x.str[KeyM(m) := d.str[KeyM(m)]])
  }

  /** The replies expected after that. */
  predicate SendsExpecting(x: End, d: End, h: Id, m: Out, f: Frame) {
    && (forall n | n in x.ids && x.ids[n] in x.e.live && x.ids[n] != h :: x.ids[n] in d.e.live)
    && (forall k | k in x.e.rx.pend :: k in d.e.rx.pend)
    && (forall k | k in d.e.rx.pend ::
          || (k in x.e.rx.pend && d.e.rx.pend[k] == x.e.rx.pend[k])
          || (Expects(m, f) && k == Key(true, m.no) && d.e.rx.pend[k].reply == if m.awaits then Some(h) else None))
    && (Expects(m, f) ==> Key(true, m.no) in d.e.rx.pend)
  }

  lemma EmitSends(x: End)
    requires HasOutput(x.e) && NumbersOk(x.e.live, x.e.lastNo, x.e.rx)
    ensures Sends(x, Emitted(x), x.e.outbox[0].id, Front(x.e), FrontFrame(x.e))
  {
    hide Front, FrontFrame, Dispatched, NumbersOk;
    var h, m, f := x.e.outbox[0].id, Front(x.e), FrontFrame(x.e);
    UnnumberedIsRequest(x.e, h);
    EmitExpects(x);
    EmitLive(x);
    EmitShows(x);
    FrontIs(x.e);
    FrontFlags(x.e);
    DispatchKeeps(Popped(x.e), h, m, f);
    TransmittedOnward(x.e);
  }

  lemma FrontFlags(e: Endpoint)
    requires HasOutput(e)
    ensures var m, f := Front(e), FrontFrame(e);
            && f.kind == m.kind && f.no == m.no && f.urgent == m.urgent && f.noReply == m.noReply
            && (IsAck(m.kind) ==> !f.more)
  {
    hide Crc, Portion, Room, Front;
  }

  lemma EmitExpecting(x: End)
    requires HasOutput(x.e) && NumbersOk(x.e.live, x.e.lastNo, x.e.rx) && Requests(x) && Flows(x.e)
    ensures SendsExpecting(x, Emitted(x), x.e.outbox[0].id, Front(x.e), FrontFrame(x.e))
  {
    hide Front, FrontFrame, Dispatched, NumbersOk, Flows;
    var h, m, f, d := x.e.outbox[0].id, Front(x.e), FrontFrame(x.e), Emitted(x);
    EmitExpects(x);
    DispatchKeeps(Popped(x.e), h, m, f);
    forall n | n in x.ids && x.ids[n] in x.e.live && x.ids[n] != h ensures x.ids[n] in d.e.live {
      NumberedStays(x, d, n);
    }
    hide Requests;
  }

  lemma NumberedStays(x: End, d: End, n: nat)
    requires Requests(x) && Flows(x.e) && HasOutput(x.e) && n in x.ids && x.ids[n] in x.e.live && x.ids[n] != x.e.outbox[0].id
    requires NumbersOk(x.e.live, x.e.lastNo, x.e.rx)
    requires forall j | j in x.e.live && j != x.e.outbox[0].id && (x.e.wayOut != [] ==> j != x.e.wayOut[0].id) :: j in d.e.live
    ensures x.ids[n] in d.e.live
  {
    NumberedIsInside(x.e, x.ids[n]);
  }

  lemma SendsRemember(x: End, d: End, h: Id, m: Out, f: Frame)
    requires Requests(x) && Sends(x, d, h, m, f)
    ensures Remembers(x, d) && (m.kind.Request? ==> Known(d, m.no) && d.ids[m.no] == h && AsAsked(d, h, m))
    ensures forall n | n in d.ids && n != m.no :: n in x.ids
    ensures m.kind.Request? ==> forall n | n in x.ids && x.ids[n] == h :: n == m.no
  {
    assert m.kind.Request? ==> AsAsked(x, h, x.e.live[h]);
  }

  lemma EmitRequests(x: End, d: End, h: Id, m: Out, f: Frame)
    requires Requests(x) && Sends(x, d, h, m, f)
    ensures Requests(d)
  {
    SendsRemember(x, d, h, m, f);
    EmitNumbers(x, d, h, m, f);
    forall id | id in d.e.live && d.e.live[id].kind.Request?
      ensures AsAsked(d, id, d.e.live[id]) && (d.e.live[id].no > 0 ==> d.e.live[id].no in d.ids && d.ids[d.e.live[id].no] == id)
    {
      assert id != h ==> AsAsked(x, id, x.e.live[id]);
    }
  }

  lemma EmitNumbers(x: End, d: End, h: Id, m: Out, f: Frame)
    requires Requests(x) && Sends(x, d, h, m, f)
    ensures forall n | n in d.ids ::
              && 0 < n <= d.e.lastNo && d.ids[n] in d.asked
              && (d.ids[n] in d.e.live ==> d.e.live[d.ids[n]].no == n && d.e.live[d.ids[n]].kind.Request?)
    ensures forall m, n | m in d.ids && n in d.ids :: d.ids[m] == d.ids[n] ==> m == n
  {
    SendsRemember(x, d, h, m, f);
    hide AsAsked;
    forall n | n in d.ids
      ensures && 0 < n <= d.e.lastNo && d.ids[n] in d.asked
              && (d.ids[n] in d.e.live ==> d.e.live[d.ids[n]].no == n && d.e.live[d.ids[n]].kind.Request?)
    {
      if n in x.ids {
        assert d.ids[n] == x.ids[n];
      }
    }
  }

  lemma EmitReplies(x: End, d: End, h: Id, m: Out, f: Frame)
    requires Requests(x) && Replies(x) && Sends(x, d, h, m, f) && SendsExpecting(x, d, h, m, f)
    ensures Replies(d)
  {
    SendsRemember(x, d, h, m, f);
    hide Requests;
    forall k | k in d.e.rx.pend && k.res ensures Wanted(d, k.no) && d.e.rx.pend[k].reply == Some(d.ids[k.no]) {
    }
    forall k | k in d.done && k.res ensures Wanted(d, k.no) {
    }
    forall n | Wanted(d, n) && d.ids[n] !in d.e.live ensures Key(true, n) in d.e.rx.pend || Key(true, n) in d.done {
      if n in x.ids && x.ids[n] != h {
        assert Wanted(x, n);
      }
    }
  }

  lemma EmitMarks(x: End, d: End, h: Id, m: Out, f: Frame)
    requires Requests(x) && Marks(x) && Sends(x, d, h, m, f)
    ensures Marks(d)
  {
    SendsRemember(x, d, h, m, f);
    hide Requests;
    EmitMark(x, d, h, m, f);
    EmitStrings(x, d, h, m, f);
    hide MarkedAs, Known, AsAsked, AsGiven, Remembers;
    EmitMessages(x, d, h, m, f);
    forall i | 0 <= i < |d.out| ensures MarkedAs(d, d.out[i]) {
      if i < |x.out| {
        assert MarkedAs(x, x.out[i]);
        StillMarked(x, d, d.out[i]);
      }
    }
  }

  lemma EmitMark(x: End, d: End, h: Id, m: Out, f: Frame)
    requires Marks(x) && Sends(x, d, h, m, f) && Remembers(x, d)
    requires m.kind.Request? ==> Known(d, m.no) && d.ids[m.no] == h && AsAsked(d, h, m)
    ensures MarkedAs(d, f) && (IsResponse(m) ==> AsGiven(x, m))
  {
    assert IsResponse(m) ==> AsGiven(x, m);
  }

  lemma EmitMessages(x: End, d: End, h: Id, m: Out, f: Frame)
    requires Marks(x) && Sends(x, d, h, m, f)
    ensures forall id | id in d.e.live && IsResponse(d.e.live[id]) :: AsGiven(d, d.e.live[id])
    ensures forall id | id in d.e.live && IsAck(d.e.live[id].kind) :: d.e.live[id].urgent && d.e.live[id].noReply
  {
  }

  lemma EmitStrings(x: End, d: End, h: Id, m: Out, f: Frame)
    requires Marks(x) && Sends(x, d, h, m, f) && Remembers(x, d) && (IsResponse(m) ==> AsGiven(x, m))
    requires m.kind.Request? ==> Known(d, m.no) && d.ids[m.no] == h && AsAsked(d, h, m)
    ensures forall n | n in d.given :: Key(true, n) in d.str && d.str[Key(true, n)].payload == d.given[n].payload
    ensures forall k | k in d.str && !k.res :: Known(d, k.no) && d.str[k].payload == d.asked[d.ids[k.no]].payload
  {
  }

  lemma EmitNamed(x: End)
    requires Named(x) && HasOutput(x.e) && NumbersOk(x.e.live, x.e.lastNo, x.e.rx) && Flows(x.e)
    ensures Named(Emitted(x))
  {
    hide Requests, Replies, Marks, Front, FrontFrame, Emitted, NumbersOk, Flows, Sends, SendsExpecting;
    var h, m, f, d := x.e.outbox[0].id, Front(x.e), FrontFrame(x.e), Emitted(x);
    EmitSends(x);
    EmitExpecting(x);
    EmitRequests(x, d, h, m, f);
    EmitReplies(x, d, h, m, f);
    EmitMarks(x, d, h, m, f);
  }

  // Every run.

  ghost predicate BothNamed(x: End, y: End) { Named(x) && Named(y) && AnswersWanted(x, y) && AnswersWanted(y, x) }

  lemma NextRemembers(x: End, y: End, act: Act)
    requires Sound(x, y) && Named(x) && May(x, y, act) && Next(x, y, act).Ends?
    ensures Remembers(x, Next(x, y, act).x) && Remembers(y, Next(x, y, act).y)
  {
    hide Linked, Extra, Replies, Conserved, BoxesOk, NumbersOk, Agree, Ties, Sendable, ValidPayload, Receive, Arrived, Emitted;
    LinkedGives(x, y);
    match act
    case Ask(_, _, _) => assert forall id | id in x.asked :: id != x.e.nextId; hide SentRequest;
    case Answer(n, _, _, _) => NotAnsweredYet(x, y, n); assert n !in x.given; hide Sent;
    case Emit =>
      EmitSends(x);
      SendsRemember(x, Emitted(x), x.e.outbox[0].id, Front(x.e), FrontFrame(x.e));
    case Accept => ArrivedKeeps(x, y.out[0]);
    case Shut =>
  }

  lemma StillWanted(x: End, d: End, y: End)
    requires AnswersWanted(x, y) && Remembers(x, d)
    ensures AnswersWanted(d, y)
  {
  }

  /** Whether the other end may answer a request is decided by its last frame. */
  lemma AcceptAnswers(x: End, y: End)
    requires Sound(x, y) && Marks(y) && AnswersWanted(y, x) && y.out != [] && Receive(x.e, y.out[0]).Received?
    ensures AnswersWanted(y, Arrived(x, y.out[0]))
  {
    hide Linked, Extra, Agree, Ties, Conserved, BoxesOk, NumbersOk, Receive, Arrived;
    assert MarkedAs(y, y.out[0]);
    LinkedGives(x, y);
    if IsData(y.out[0]) {
      DataEffect(x, y);
    } else {
      AckExtra(x, y);
      AckAnswers(x, y.out[0]);
    }
    hide Marks, Updated, Finished;
  }

  lemma AckAnswers(x: End, f: Frame)
    requires IsAck(f.kind) && Receive(x.e, f).Received?
    ensures Arrived(x, f).toAnswer == x.toAnswer
  {
    hide FindItem, FindFrozen, Requeued, Varint.Read;
  }

  lemma NextNamed(x: End, y: End, act: Act)
    requires Sound(x, y) && BothNamed(x, y) && May(x, y, act)
    ensures var o := Next(x, y, act);
            o.Ends? && Sound(o.x, o.y) && BothNamed(o.x, o.y)
  {
    hide Linked, Extra, Requests, Replies, Marks, Sendable, Receive, Arrived, Emitted, Answered, SentRequest, Remembers,
         AnswersWanted, Conserved, BoxesOk, NumbersOk, Agree, Ties;
    NextKeeps(x, y, act);
    NextRemembers(x, y, act);
    NextAnswers(x, y, act);
    LinkedGives(x, y);
    ExtraGives(x, y);
    match act
    case Ask(_, _, _) => AskNamed(x, act);
    case Answer(_, _, _, _) => AnswerNamed(x, y, act);
    case Emit => EmitNamed(x);
    case Accept => AcceptNamed(x, y);
    case Shut => NothingNamed(x, ActOf(x, act));
  }

  lemma NextAnswers(x: End, y: End, act: Act)
    requires Sound(x, y) && BothNamed(x, y) && May(x, y, act) && Next(x, y, act).Ends?
    requires Remembers(x, Next(x, y, act).x) && Remembers(y, Next(x, y, act).y)
    ensures AnswersWanted(Next(x, y, act).x, Next(x, y, act).y) && AnswersWanted(Next(x, y, act).y, Next(x, y, act).x)
  {
    hide Sound, Requests, Replies, Marks, Remembers, Sendable, Receive, Arrived, Emitted, SentRequest, Sent, Wanted;
    var o := Next(x, y, act);
    StillWanted(x, o.x, y);
    if act.Accept? {
      AcceptAnswers(x, y);
      StillWanted(y, o.y, o.x);
      ToAnswerSame(y);
    } else {
      ActAnswers(x, act);
    }
  }

  lemma ToAnswerSame(y: End)
    requires y.out != []
    ensures y.(out := y.out[1..]).toAnswer == y.toAnswer
  {
  }

  lemma ActAnswers(x: End, act: Act)
    requires !act.Accept? && (act.Emit? ==> HasOutput(x.e))
    ensures ActOf(x, act).toAnswer <= x.toAnswer
  {
    hide Sent, SentRequest, Transmitted, FrontFrame;
  }

  lemma MovedNamed(x: End, y: End, m: Move)
    requires Sound(x, y) && BothNamed(x, y) && BlipRuns.Allowed(x, y, m)
    ensures var o := Moved(x, y, m);
            o.Ends? && Sound(o.x, o.y) && BothNamed(o.x, o.y)
  {
    hide Sound, Named, AnswersWanted, Next, May;
    MovedKeeps(x, y, m);
    if m.first {
      NextNamed(x, y, m.act);
    } else {
      SoundSwaps(x, y);
      NextNamed(y, x, m.act);
    }
  }

  lemma {:induction false} RunNamed(x: End, y: End, moves: seq<Move>)
    requires Sound(x, y) && BothNamed(x, y) && BlipRuns.Run(x, y, moves)
    ensures var o := BlipRuns.After(x, y, moves);
            o.Ends? && BothNamed(o.x, o.y)
    decreases |moves|
  {
    if moves != [] {
      hide Sound, BothNamed, Moved, BlipRuns.Allowed;
      MovedNamed(x, y, moves[0]);
      RunNamed(Moved(x, y, moves[0]).x, Moved(x, y, moves[0]).y, moves[1..]);
    }
  }

  lemma ReachableIsNamed(x: End, y: End)
    requires Reachable(x, y)
    ensures BothNamed(x, y)
  {
    hide Sound, BlipRuns.Run, BlipRuns.After, BothNamed;
    var moves :| BlipRuns.Run(NEW_END, NEW_END, moves) && BlipRuns.After(NEW_END, NEW_END, moves) == Ends(x, y);
    StartIsNamed();
    StartIsSound();
    RunNamed(NEW_END, NEW_END, moves);
  }

  lemma StartIsNamed()
    ensures BothNamed(NEW_END, NEW_END)
  {
  }

  /**
   * In every run: the request with number n, once it has arrived, is the one that was asked for, and the reply
   * expected under that number is for whoever asked.
   */
  lemma RepliesGoToWhoAsked(x: End, y: End, n: nat)
    requires Reachable(x, y)
    ensures Key(false, n) in y.done ==> Known(x, n) && y.done[Key(false, n)] == x.asked[x.ids[n]].payload
    ensures Key(true, n) in x.e.rx.pend ==> Known(x, n) && x.e.rx.pend[Key(true, n)].reply == Some(x.ids[n])
  {
    hide Reachable;
    MessagesArriveWhole(x, y, Key(false, n));
    ReachableIsNamed(x, y);
  }

  /** A response that has arrived is the one that was given. */
  lemma ResponsesAreAsGiven(x: End, y: End, n: nat)
    requires Reachable(x, y) && Key(true, n) in y.done && n in x.given
    ensures y.done[Key(true, n)] == x.given[n].payload
  {
    hide Reachable;
    MessagesArriveWhole(x, y, Key(true, n));
    ReachableIsNamed(x, y);
  }

  /** In every run each frame carries the flags its request was asked with, or its response was given with. */
  lemma FramesCarryFlags(x: End, y: End, f: Frame)
    requires Reachable(x, y) && f in x.out
    ensures f.kind.Request? ==> f.no in x.ids && x.ids[f.no] in x.asked
                                && f.urgent == x.asked[x.ids[f.no]].urgent && f.noReply == x.asked[x.ids[f.no]].noReply
    ensures f.kind.Response? || f.kind.ErrorReply? ==>
              f.no in x.given && f.urgent == x.given[f.no].urgent && !f.noReply && f.kind.ErrorReply? == x.given[f.no].isError
    ensures IsAck(f.kind) ==> f.urgent && f.noReply && !f.more
  {
    hide Reachable;
    ReachableIsNamed(x, y);
    assert Marks(x);
    hide BothNamed, Marks;
    MarkedOne(x, f);
  }

  lemma MarkedOne(x: End, f: Frame)
    requires Marks(x) && f in x.out
    ensures MarkedAs(x, f)
  {
    var i :| 0 <= i < |x.out| && x.out[i] == f;
    hide MarkedAs;
  }

  /**
   * In every run: a request may be answered, and a reply to it is expected or has come, only if it was asked for with a
   * reply. Once it has been sent, its reply is expected and its future has no result, or its reply has come and the
   * future has one.
   */
  lemma ReplyIffWanted(x: End, y: End, n: nat)
    requires Reachable(x, y)
    ensures n in y.toAnswer || Key(true, n) in x.e.rx.pend || Key(true, n) in x.done ==> Wanted(x, n)
    ensures Wanted(x, n) && x.ids[n] !in x.e.live ==>
              && (Key(true, n) in x.e.rx.pend <==> Key(true, n) !in x.done)
              && x.e.resolved[x.ids[n]] == if Key(true, n) in x.done then 1 else 0
  {
    hide Reachable, Sound;
    ReachableIsNamed(x, y);
    if Wanted(x, n) && x.ids[n] !in x.e.live {
      ReachableIsSound(x, y);
      ReachableFutures(x, y);
      PendingIsNotDone(x, y, Key(true, n));
      SentIsSettled(x, n);
    }
    hide Wanted, Requests, Marks;
  }

  lemma ReachableFutures(x: End, y: End)
    requires Sound(x, y)
    ensures FuturesOk(x.e) && Agree(TxOf(y), x.e.rx, x.done, y.out)
  {
    hide Agree, BoxesOk, NumbersOk, FuturesOk, Extra, Ties, Paired;
  }

  lemma PendingIsNotDone(x: End, y: End, k: Key)
    requires Agree(TxOf(y), x.e.rx, x.done, y.out)
    ensures k in x.done ==> k !in x.e.rx.pend
  {
    if k in x.done {
      assert StreamOk(x.e.rx, x.done, InFlight(y.out, k), k, y.str[k]);
    }
    hide Ordered, Summed, NoAfter, SumAfter, InFlight;
  }

  lemma ExpectedIsWanted(x: End, id: Id) returns (n: nat)
    requires Replies(x) && FuturesOk(x.e) && Expected(x.e.rx, id)
    ensures Key(true, n) in x.e.rx.pend && Wanted(x, n) && x.ids[n] == id
  {
    var k :| k in x.e.rx.pend && x.e.rx.pend[k].reply == Some(id);
    n := k.no;
    hide Wanted;
  }

  lemma SentIsSettled(x: End, n: nat)
    requires Requests(x) && Replies(x) && FuturesOk(x.e) && Wanted(x, n) && x.ids[n] !in x.e.live
    requires Key(true, n) in x.done ==> Key(true, n) !in x.e.rx.pend
    ensures Key(true, n) in x.e.rx.pend <==> Key(true, n) !in x.done
    ensures x.e.resolved[x.ids[n]] == if Key(true, n) in x.done then 1 else 0
  {
    var id := x.ids[n];
    assert id in x.asked && id in x.e.requested;
    if Expected(x.e.rx, id) {
      var m := ExpectedIsWanted(x, id);
    }
  }

  /** A request asked for without a reply never expects one, and its future has a result exactly once it is sent. */
  lemma NoReplyIsSettled(x: End, y: End, id: Id)
    requires Reachable(x, y) && id in x.asked && x.asked[id].noReply
    ensures !Expected(x.e.rx, id) && x.e.resolved[id] == if id in x.e.live then 0 else 1
  {
    hide Reachable, Sound;
    ReachableIsNamed(x, y);
    ReachableIsSound(x, y);
    ReachableFutures(x, y);
    assert Requests(x) && Replies(x);
    hide BothNamed, Agree;
    assert id in x.e.live ==> AsAsked(x, id, x.e.live[id]);
    if Expected(x.e.rx, id) {
      var n := ExpectedIsWanted(x, id);
    }
  }
}
