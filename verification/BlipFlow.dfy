/** Flow control: how much may be unacknowledged, and why nothing stays frozen. */
module BlipFlow {
  import opened Bytes
  import opened BlipFrame
  import opened BlipOutbox
  import opened BlipStream
  import opened BlipEndpoint
  import opened BlipConservation
  import Varint

  /** The most that one frame adds to a message's unacknowledged bytes. */
  const MAX_FRAME: nat := 32768 + 13

  /** What is unacknowledged is what was sent less the highest ACK. */
  predicate Counted(m: Out) {
    && m.sent <= |m.payload|
    && m.acked <= m.bytesSent && m.unacked == m.bytesSent - m.acked
    && (IsAck(m.kind) ==> m.bytesSent == 0 && m.urgent)
    && (m.kind.Request? ==> (m.no == 0 <==> m.bytesSent == 0))
  }

  predicate Flows(e: Endpoint) {
    && (forall id | id in e.live :: Counted(e.live[id]) && (e.receiveOpen ==> e.live[id].unacked < MAX_UNACKED + MAX_FRAME))
    && (forall i | 0 <= i < |e.icebox| :: e.icebox[i] in e.live && e.live[e.icebox[i]].NeedsAck())
    && (forall i | 0 <= i < |e.wayOut| :: e.wayOut[i].id in e.live && e.live[e.wayOut[i].id].bytesSent == 0)
    && (forall i | 0 <= i < |e.outbox| :: e.outbox[i].id in e.live && (e.receiveOpen ==> !e.live[e.outbox[i].id].NeedsAck()))
  }

  /** A message that is in no box is put in the outbox. */
  lemma RequeuedFlows(e: Endpoint, id: Id, m: Out)
    requires Flows(e) && Places(e, id) == 0 && Counted(m) && (e.receiveOpen ==> !m.NeedsAck())
    ensures Flows(e.(live := e.live[id := m], outbox := Requeued(e.outbox, ItemOf(id, m))))
  {
    var q := Requeued(e.outbox, ItemOf(id, m));
    NotInBoxes(e, id);
    var at := Place(e.outbox, ItemOf(id, m));
    forall i | 0 <= i < |q| ensures q[i] == if i < at then e.outbox[i] else if i == at then ItemOf(id, m) else e.outbox[i - 1] {
    }
    hide Requeued, Place, Counted;
  }

  lemma {:induction false} CountIdsHas(q: seq<Id>, i: nat)
    requires i < |q|
    ensures CountIds(q, q[i]) > 0
  {
    if i > 0 {
      CountIdsHas(q[1..], i - 1);
    }
  }

  lemma NotInBoxes(e: Endpoint, id: Id)
    requires Places(e, id) == 0
    ensures forall i | 0 <= i < |e.outbox| :: e.outbox[i].id != id
    ensures forall i | 0 <= i < |e.wayOut| :: e.wayOut[i].id != id
    ensures forall i | 0 <= i < |e.icebox| :: e.icebox[i] != id
  {
    forall i | 0 <= i < |e.outbox| ensures e.outbox[i].id != id {
      CountHas(e.outbox, i);
    }
    forall i | 0 <= i < |e.wayOut| ensures e.wayOut[i].id != id {
      CountHas(e.wayOut, i);
    }
    forall i | 0 <= i < |e.icebox| ensures e.icebox[i] != id {
      CountIdsHas(e.icebox, i);
    }
  }

  lemma DroppedFlows(e: Endpoint, id: Id)
    requires Flows(e) && Places(e, id) == 0
    ensures Flows(e.(live := e.live - {id}))
  {
    NotInBoxes(e, id);
    hide Counted, Places;
  }

  lemma QueuedFlows(e: Endpoint, id: Id, m: Out)
    requires Flows(e) && Places(e, id) == 0 && Counted(m) && (m.bytesSent == 0 || !m.NeedsAck())
    ensures Flows(Queued(e, id, m))
  {
    RequeuedFlows(e, id, m);
    DroppedFlows(e, id);
    hide Requeued, ItemOf, Counted, Places;
  }

  lemma SentFlows(e: Endpoint, m: Out)
    requires Flows(e) && BoxesOk(e) && Counted(m) && m.bytesSent == 0
    ensures Flows(Sent(e, m))
  {
    hide Flows, BoxesOk, Places, Counted, Queued, ItemOf;
    var id, d := e.nextId, e.(nextId := e.nextId + 1);
    NewIsNowhere(e, d);
    FlowsOnly(e, d);
    if m.urgent || |e.outbox| < OUTBOX_CAPACITY {
      QueuedFlows(d, id, m);
    } else {
      WaitingFlows(d, id, m);
    }
  }

  lemma NewIsNowhere(e: Endpoint, d: Endpoint)
    requires BoxesOk(e) && d == e.(nextId := e.nextId + 1)
    ensures Places(d, e.nextId) == 0
  {
    assert Places(e, e.nextId) == 0;
  }

  lemma WaitingFlows(e: Endpoint, id: Id, m: Out)
    requires Flows(e) && Places(e, id) == 0 && Counted(m) && m.bytesSent == 0
    ensures Flows(e.(live := e.live[id := m], wayOut := e.wayOut + [ItemOf(id, m)]))
  {
    NotInBoxes(e, id);
    hide Places;
  }

  lemma RopeLiftedFlows(e: Endpoint)
    requires Flows(e) && BoxesOk(e)
    ensures Flows(RopeLifted(e))
  {
    if e.wayOut != [] {
      var x, d := e.wayOut[0].id, e.(wayOut := e.wayOut[1..]);
      assert Places(e, x) == 1 && Places(d, x) == 0;
      hide BoxesOk, Places, Queued;
      QueuedFlows(d, x, e.live[x]);
    }
  }

  lemma InHand(e: Endpoint, id: Id)
    requires BoxesBut(e, id)
    ensures Places(e, id) == 0
  {
  }

  lemma CompletedFlows(e: Endpoint, id: Id, m: Out)
    requires Flows(e) && BoxesBut(e, id)
    ensures Flows(Completed(e, id, m))
  {
    hide BoxesBut, Places, Flows, RopeLifted;
    InHand(e, id);
    DroppedFlows(e, id);
    DroppedOk(e, id);
    var d, h := e.(live := e.live - {id}), HandedOver(e, id, m);
    hide BoxesOk;
    BoxesOnly(d, h);
    FlowsOnly(d, h);
    RopeLiftedFlows(h);
  }

  lemma FlowsOnly(e: Endpoint, d: Endpoint)
    requires Flows(e) && d.live == e.live && d.outbox == e.outbox && d.wayOut == e.wayOut && d.icebox == e.icebox
    requires d.receiveOpen ==> e.receiveOpen
    ensures Flows(d)
  {
    hide Counted;
  }

  lemma FrozenFlows(e: Endpoint, id: Id, m: Out)
    requires Flows(e) && Places(e, id) == 0 && Counted(m) && m.NeedsAck() && m.unacked < MAX_UNACKED + MAX_FRAME
    ensures Flows(e.(live := e.live[id := m], icebox := e.icebox + [id]))
  {
    NotInBoxes(e, id);
    hide Counted, Places;
  }

  lemma DispatchedFlows(e: Endpoint, id: Id, m: Out, f: Frame)
    requires Flows(e) && BoxesBut(e, id) && BoxesBut(e.(sum := f.sum), id)
    requires m.acked <= m.bytesSent && m.unacked == m.bytesSent - m.acked && (m.kind.Request? ==> m.no > 0)
    requires !IsAck(m.kind) ==> m.sent + |f.body| <= |m.payload|
    requires |f.body| + CHECKSUM_SIZE <= MAX_FRAME && (e.receiveOpen ==> m.unacked < MAX_UNACKED)
    ensures Flows(Dispatched(e, id, m, f))
  {
    var d, n := e.(sum := f.sum), BlipEndpoint.Advanced(m, |f.body|);
    assert Places(e, id) == 0 && Places(d, id) == 0;
    FlowsOnly(e, d);
    hide BoxesBut, Places, Flows, Completed, Requeued, ItemOf;
    if IsAck(m.kind) {
      DroppedFlows(e, id);
    } else if !f.more {
      CompletedFlows(d, id, n);
    } else if n.NeedsAck() && d.receiveOpen {
      FrozenFlows(d, id, n);
    } else {
      RequeuedFlows(d, id, n);
    }
  }

  lemma FrontFits(e: Endpoint)
    requires HasOutput(e)
    ensures |FrontFrame(e).body| + CHECKSUM_SIZE <= MAX_FRAME || IsAck(Front(e).kind)
    ensures IsAck(Front(e).kind) ==> |FrontFrame(e).body| <= MAX_FRAME
    ensures !IsAck(Front(e).kind) && Front(e).sent <= |Front(e).payload| ==>
              Front(e).sent + |FrontFrame(e).body| <= |Front(e).payload|
  {
    hide Crc;
  }

  lemma TransmittedFlows(e: Endpoint)
    requires Flows(e) && BoxesOk(e) && NumbersOk(e.live, e.lastNo, e.rx) && e.outbox != []
    ensures HasOutput(e) && Flows(Transmitted(e))
  {
    hide Flows, BoxesOk, BoxesBut, Dispatched, FrontFrame, Front, NumbersOk;
    PoppedIsInHand(e, e.(outbox := e.outbox[1..]));
    var p, id, m, f := Popped(e), e.outbox[0].id, Front(e), FrontFrame(e);
    PoppedIsInHand(e, p);
    PoppedIsInHand(e, p.(sum := f.sum));
    FrontFits(e);
    FrontCounts(e);
    if IsAck(m.kind) {
      AckDispatchedFlows(p, id, m, f);
    } else {
      DispatchedFlows(p, id, m, f);
    }
  }

  lemma FrontCounts(e: Endpoint)
    requires Flows(e) && HasOutput(e) && NumbersOk(e.live, e.lastNo, e.rx)
    ensures var m := Front(e);
            && m.acked <= m.bytesSent && m.unacked == m.bytesSent - m.acked && m.no > 0 && m.sent <= |m.payload|
            && (e.receiveOpen ==> m.unacked < MAX_UNACKED)
    ensures Flows(Popped(e))
  {
    hide NumbersOk;
  }

  lemma AckDispatchedFlows(e: Endpoint, id: Id, m: Out, f: Frame)
    requires Flows(e) && BoxesBut(e, id) && IsAck(m.kind)
    ensures Flows(Dispatched(e, id, m, f))
  {
    hide Flows, BoxesBut;
    InHand(e, id);
    DroppedFlows(e, id);
  }

  lemma AckedCounts(m: Out, c: nat)
    requires Counted(m)
    ensures Counted(Acked(m, c)) && Acked(m, c).unacked <= m.unacked
    ensures Acked(m, c).acked == if c <= m.bytesSent && c > m.acked then c else m.acked
  {
  }

  /** An ACK for a message in the outbox. */
  lemma AckedFlows(e: Endpoint, id: Id, c: nat)
    requires Flows(e) && id in e.live && (id in e.icebox ==> Acked(e.live[id], c).NeedsAck())
    ensures Flows(e.(live := e.live[id := Acked(e.live[id], c)]))
  {
    AckedCounts(e.live[id], c);
    assert Acked(e.live[id], c).bytesSent == e.live[id].bytesSent;
    hide Acked, Counted;
  }

  lemma {:induction false} WithoutMembers(q: seq<Id>, id: Id, i: nat)
    requires i < |WithoutId(q, id)|
    ensures WithoutId(q, id)[i] in q
  {
    if q[0] != id && i > 0 {
      WithoutMembers(q[1..], id, i - 1);
    }
  }

  /** An ACK that lets a frozen message go on. */
  lemma ThawedFlows(e: Endpoint, id: Id, c: nat)
    requires Flows(e) && BoxesOk(e) && id in e.live && id in e.icebox && CountIds(e.icebox, id) > 0
    requires !Acked(e.live[id], c).NeedsAck()
    ensures Flows(Thawed(e.(live := e.live[id := Acked(e.live[id], c)]), id, Acked(e.live[id], c)))
  {
    var m, d := Acked(e.live[id], c), e.(icebox := WithoutId(e.icebox, id));
    AckedCounts(e.live[id], c);
    assert Places(e, id) == 1;
    CountWithout(e.icebox, id, id);
    assert Places(d, id) == 0;
    assert Flows(d) by {
      forall i | 0 <= i < |d.icebox| ensures d.icebox[i] in e.icebox {
        WithoutMembers(e.icebox, id, i);
      }
      hide Counted, BoxesOk, Places, WithoutId;
    }
    hide Flows, BoxesOk, Places, Acked;
    RequeuedFlows(d, id, m);
  }

  lemma ReceivedAckFlows(e: Endpoint, no: nat, onResponse: bool, body: seq<byte>)
    requires Flows(e) && BoxesOk(e)
    ensures var r := ReceivedAck(e, no, onResponse, body);
            r.Received? ==> Flows(r.e)
  {
    var found, frozen := FindItem(e, e.outbox, no, onResponse), FindFrozen(e, e.icebox, no, onResponse);
    FoundIsLive(e, e.outbox, no, onResponse);
    FrozenIsLive(e, e.icebox, no, onResponse);
    if (found.Some? || frozen.Some?) && Varint.Read(body).Complete? {
      var id, c := if found.Some? then found.value else frozen.value, Varint.Read(body).value;
      if found.Some? {
        assert id !in e.icebox by {
          assert Places(e, id) == 1;
          if id in e.icebox {
            var i :| 0 <= i < |e.icebox| && e.icebox[i] == id;
            CountIdsHas(e.icebox, i);
          }
        }
        AckedFlows(e, id, c);
      } else if Acked(e.live[id], c).NeedsAck() {
        AckedFlows(e, id, c);
      } else {
        ThawedFlows(e, id, c);
      }
    }
    hide Flows, BoxesOk, FindItem, FindFrozen, Thawed, Acked;
  }

  lemma ReceivedFlows(e: Endpoint, f: Frame)
    requires Flows(e) && BoxesOk(e) && Receive(e, f).Received? && NumbersOk(e.live, e.lastNo, e.rx)
    ensures Flows(Receive(e, f).e)
  {
    hide Take, ReceivedAck, Flows, BoxesOk, NumbersOk, Varint.Encode;
    if IsAck(f.kind) {
      ReceivedAckFlows(e, f.no, f.kind.AckResponse?, f.body);
    } else if e.receiveOpen {
      var t := Take(e.rx, f);
      var d := e.(rx := t.rx);
      BoxesOnly(e, d);
      FlowsOnly(e, d);
      SentFlows(d, NewAck(!f.kind.Request?, f.no, if t.ack.Some? then t.ack.value else 0));
      hide Sent;
      FlowsOnly(AckSent(d, f, t.ack), Receive(e, f).e);
    }
  }

  lemma OpFlows(e: Endpoint, op: Op)
    requires Flows(e) && Conserved(e) && Allowed(e, op)
    ensures Flows(Done(e, op))
  {
    hide Flows, BoxesOk, FuturesOk, NumbersOk, Sent, Transmitted, Receive;
    match op
    case SendRequest(payload, urgent, noReply) =>
      SentFlows(e, NewRequest(payload, urgent, noReply));
      FlowsOnly(if TooLate(e, urgent) then e else Sent(e, NewRequest(payload, urgent, noReply)), Done(e, op));
    case Respond(no, payload, urgent, isError) => SentFlows(e, NewResponse(no, payload, urgent, isError));
    case Transmit => TransmittedFlows(e);
    case ReceiveFrame(f) => ReceivedFlows(e, f);
    case CloseSend => FlowsOnly(e, Done(e, op));
    case CloseReceive => FlowsOnly(e, Done(e, op));
    case Stop => StoppedFlows(e);
  }

  lemma StoppedFlows(e: Endpoint)
    ensures Flows(Stopped(e))
  {
    BoxesTold(e, 0);
    hide Emptied, Cancelled;
  }

  lemma {:induction false} RunFlows(e: Endpoint, ops: seq<Op>)
    requires Flows(e) && Conserved(e) && Run(e, ops)
    ensures Flows(After(e, ops))
    decreases |ops|
  {
    if ops != [] {
      OpFlows(e, ops[0]);
      OpKeeps(e, ops[0]);
      hide Flows, Conserved, Allowed, Done;
      RunFlows(Done(e, ops[0]), ops[1..]);
    }
  }

  /**
   * In every run, with any peer: a message's unacknowledged bytes are what was sent less the highest valid ACK; while
   * frames can be received they stay under the limit plus one frame; and only messages over the limit are frozen.
   */
  lemma FlowIsControlled(ops: seq<Op>, id: Id)
    requires Run(INITIAL, ops) && id in After(INITIAL, ops).live
    ensures var e, m := After(INITIAL, ops), After(INITIAL, ops).live[id];
            && m.unacked == m.bytesSent - m.acked
            && (e.receiveOpen ==> m.unacked < MAX_UNACKED + MAX_FRAME)
            && (id in e.icebox ==> m.unacked >= MAX_UNACKED)
  {
    InitialIsConserved();
    hide Conserved;
    RunFlows(INITIAL, ops);
    hide Run, After;
  }

  // What the boxes being right means for the code.

  predicate Nowhere(e: Endpoint, id: Id) {
    (forall i | 0 <= i < |e.outbox| :: e.outbox[i].id != id) && (forall i | 0 <= i < |e.icebox| :: e.icebox[i] != id)
  }

  /** The asserts of requeue, freeze and thaw never fail. */
  lemma AssertsHold(e: Endpoint)
    requires BoxesOk(e)
    ensures Nowhere(e, e.nextId)
    ensures e.outbox != [] ==> Nowhere(e.(outbox := e.outbox[1..]), e.outbox[0].id)
    ensures e.wayOut != [] ==> Nowhere(e, e.wayOut[0].id)
    ensures forall id | id in e.icebox :: id in e.live && forall i | 0 <= i < |e.outbox| :: e.outbox[i].id != id
  {
    assert Places(e, e.nextId) == 0;
    NotInBoxes(e, e.nextId);
    if e.outbox != [] {
      var d := e.(outbox := e.outbox[1..]);
      PoppedIsInHand(e, d);
      NotInBoxes(d, e.outbox[0].id);
    }
    if e.wayOut != [] {
      var d, id := e.(wayOut := e.wayOut[1..]), e.wayOut[0].id;
      assert Places(e, id) == Places(d, id) + 1 && Places(e, id) <= 1;
      NotInBoxes(d, id);
    }
    forall id, i | id in e.icebox && 0 <= i < |e.outbox| ensures id in e.live && e.outbox[i].id != id {
      var j :| 0 <= j < |e.icebox| && e.icebox[j] == id;
      CountIdsHas(e.icebox, j);
      CountHas(e.outbox, i);
      assert Places(e, id) <= 1;
    }
    forall id | id in e.icebox ensures id in e.live {
      var j :| 0 <= j < |e.icebox| && e.icebox[j] == id;
      CountIdsHas(e.icebox, j);
      assert Places(e, id) > 0;
    }
  }

  // The search for the message that an ACK is for finds one that is there.

  lemma {:induction false} IcedIsFound(e: Endpoint, q: seq<Id>, id: Id, no: nat, onResponse: bool)
    requires CountIds(q, id) > 0 && id in e.live && Matches(e.live[id], no, onResponse)
    ensures FindFrozen(e, q, no, onResponse).Some?
  {
    if q[0] != id {
      IcedIsFound(e, q[1..], id, no, onResponse);
    }
  }

  lemma {:induction false} QueuedIsFound(e: Endpoint, q: seq<Item>, id: Id, no: nat, onResponse: bool)
    requires Count(q, id) > 0 && id in e.live && Matches(e.live[id], no, onResponse)
    ensures FindItem(e, q, no, onResponse).Some?
  {
    if q[0].id != id {
      QueuedIsFound(e, q[1..], id, no, onResponse);
    }
  }
}
