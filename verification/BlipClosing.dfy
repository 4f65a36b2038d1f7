/** What becomes of messages, and of the futures of their replies, once an endpoint is closed for sending or receiving. */
module BlipClosing {
  import opened Bytes
  import opened Common
  import opened BlipFrame
  import opened BlipOutbox
  import opened BlipStream
  import opened BlipEndpoint
  import opened BlipConservation
  import Varint

  /** What no operation takes back; and a message that is gone does not return. */
  ghost predicate Onward(e: Endpoint, d: Endpoint) {
    && e.nextId <= d.nextId && e.requested <= d.requested && e.lost <= d.lost && (d.sendOpen ==> e.sendOpen)
    && (forall id | id in d.requested && id < e.nextId :: id in e.requested)
    && (forall id :: e.resolved[id] <= d.resolved[id])
    && (forall id | id in d.live && id < e.nextId :: id in e.live)
  }

  lemma OnwardTwice(a: Endpoint, b: Endpoint, c: Endpoint)
    requires Onward(a, b) && Onward(b, c)
    ensures Onward(a, c)
  {
  }

  lemma SentOnward(e: Endpoint, m: Out)
    ensures Onward(e, Sent(e, m))
  {
    hide Requeued, ItemOf;
  }

  lemma RopeOnward(e: Endpoint)
    ensures Onward(e, RopeLifted(e))
  {
    hide Requeued, ItemOf;
  }

  lemma HandedOverOnward(e: Endpoint, id: Id, m: Out)
    ensures Onward(e, HandedOver(e, id, m))
  {
  }

  lemma DispatchedOnward(e: Endpoint, id: Id, m: Out, f: Frame)
    requires id in e.live
    ensures Onward(e, Dispatched(e, id, m, f))
  {
    hide Requeued, ItemOf, HandedOver, RopeLifted;
    var d, n := e.(sum := f.sum), BlipEndpoint.Advanced(m, |f.body|);
    HandedOverOnward(d, id, n);
    RopeOnward(HandedOver(d, id, n));
    OnwardTwice(d, HandedOver(d, id, n), Completed(d, id, n));
    hide Completed;
  }

  lemma TransmittedOnward(e: Endpoint)
    requires HasOutput(e)
    ensures Onward(e, Transmitted(e))
  {
    hide Dispatched, FrontFrame, Front;
    DispatchedOnward(Popped(e), e.outbox[0].id, Front(e), FrontFrame(e));
  }

  lemma ReceivedOnward(e: Endpoint, f: Frame)
    requires Receive(e, f).Received?
    ensures Onward(e, Receive(e, f).e)
  {
    hide ReceivedAck, Take, Sent, Varint.Encode;
    if IsAck(f.kind) {
      AckedOnward(e, f.no, f.kind.AckResponse?, f.body);
    } else if e.receiveOpen {
      var t := Take(e.rx, f);
      var d := e.(rx := t.rx);
      SentOnward(d, NewAck(!f.kind.Request?, f.no, if t.ack.Some? then t.ack.value else 0));
      assert Onward(d, AckSent(d, f, t.ack));
      hide AckSent;
    }
  }

  lemma AckedOnward(e: Endpoint, no: nat, onResponse: bool, body: seq<byte>)
    requires ReceivedAck(e, no, onResponse, body).Received?
    ensures Onward(e, ReceivedAck(e, no, onResponse, body).e)
  {
    hide FindItem, FindFrozen, Requeued, ItemOf, WithoutId, Acked, Varint.Read;
  }

  lemma StoppedOnward(e: Endpoint)
    ensures Onward(e, Stopped(e))
  {
    BoxesTold(e, 0);
    forall id ensures e.resolved[id] <= Stopped(e).resolved[id] {
      BoxesTold(e, id);
    }
    hide Emptied, Cancelled, Places;
  }

  lemma OpOnward(e: Endpoint, op: Op)
    requires Allowed(e, op)
    ensures Onward(e, Done(e, op))
  {
    hide Sent, Transmitted, Receive, Stopped, Cancelled;
    match op
    case SendRequest(payload, urgent, noReply) => SentOnward(e, NewRequest(payload, urgent, noReply));
    case Respond(no, payload, urgent, isError) => SentOnward(e, NewResponse(no, payload, urgent, isError));
    case Transmit => TransmittedOnward(e);
    case ReceiveFrame(f) => ReceivedOnward(e, f);
    case Stop => StoppedOnward(e);
    case _ =>
  }

  lemma {:induction false} RunOnward(e: Endpoint, ops: seq<Op>)
    requires Run(e, ops)
    ensures Onward(e, After(e, ops))
    decreases |ops|
  {
    if ops != [] {
      OpOnward(e, ops[0]);
      hide Allowed, Done, Onward;
      RunOnward(Done(e, ops[0]), ops[1..]);
      OnwardTwice(e, Done(e, ops[0]), After(e, ops));
    } else {
      assert After(e, ops) == e;
    }
  }

  /**
   * The reply future of a request gets its one result by the time the connection is stopped, or never, in no run
   * whatever: never if and only if the request was cancelled as it was sent.
   */
  lemma FutureIsLostIff(before: seq<Op>, payload: seq<byte>, urgent: bool, noReply: bool, after: seq<Op>)
    requires Run(INITIAL, before) && Run(SentRequest(After(INITIAL, before), payload, urgent, noReply), after)
    ensures var e := After(INITIAL, before);
            var id, d := e.nextId, After(SentRequest(e, payload, urgent, noReply), after);
            if TooLate(e, urgent) then d.resolved[id] == 0 && Stopped(d).resolved[id] == 0 else Stopped(d).resolved[id] == 1
  {
    var e := After(INITIAL, before);
    var id, s := e.nextId, SentRequest(e, payload, urgent, noReply);
    InitialIsConserved();
    RunKeeps(INITIAL, before);
    OpKeeps(e, SendRequest(payload, urgent, noReply));
    RunKeeps(s, after);
    RunOnward(s, after);
    var d := After(s, after);
    assert Conserved(d) && if TooLate(e, urgent) then id in d.lost else id in d.requested;
    hide Run, After, SentRequest;
    StoppedFuture(d);
    StoppedOnward(d);
    hide Stopped;
  }

  // Messages that wait outside the outbox.

  predicate Outside(e: Endpoint, id: Id) { Count(e.wayOut, id) > 0 }

  /** A message that waits outside goes on waiting, or enters the outbox, or is dropped and its future resolved. */
  predicate Stays(e: Endpoint, d: Endpoint, id: Id) {
    Outside(d, id) && id in e.live && id in d.live && d.live[id] == e.live[id]
  }

  predicate Enters(e: Endpoint, d: Endpoint, id: Id) {
    !Outside(d, id) && Count(d.outbox, id) > 0 && id in e.live && id in d.live && d.live[id] == e.live[id]
  }

  predicate Ends(e: Endpoint, d: Endpoint, id: Id) {
    id in e.live && id !in d.live && (e.live[id].awaits ==> d.resolved[id] > 0)
  }

  lemma RopeOutside(e: Endpoint, id: Id)
    requires BoxesOk(e) && Outside(e, id)
    ensures var d := RopeLifted(e);
            || Stays(e, d, id)
            || (e.sendOpen && Enters(e, d, id))
            || (!e.sendOpen && Ends(e, d, id))
  {
    assert Places(e, id) == 1;
    var x := e.wayOut[0].id;
    assert Count(e.wayOut, x) > 0 && Places(e, x) == 1;
    CountRequeued(e.outbox, ItemOf(x, e.live[x]), x);
    hide Requeued, BoxesOk;
  }

  lemma HandedOverBoxes(e: Endpoint, id: Id, m: Out)
    requires BoxesBut(e, id)
    ensures BoxesOk(HandedOver(e, id, m))
  {
    hide BoxesOk, BoxesBut;
    DroppedOk(e, id);
    BoxesOnly(e.(live := e.live - {id}), HandedOver(e, id, m));
  }

  lemma DispatchedOutside(e: Endpoint, x: Id, m: Out, f: Frame, id: Id)
    requires BoxesBut(e, x) && BoxesBut(e.(sum := f.sum), x) && Outside(e, id) && x != id && id in e.live
    ensures var d := Dispatched(e, x, m, f);
            || Stays(e, d, id)
            || (e.sendOpen && Enters(e, d, id))
            || (!e.sendOpen && Ends(e, d, id))
  {
    hide BoxesBut, BoxesOk, RopeLifted, Requeued, ItemOf, Count;
    if !IsAck(m.kind) && !f.more {
      var n := BlipEndpoint.Advanced(m, |f.body|);
      var h := HandedOver(e.(sum := f.sum), x, n);
      HandedOverBoxes(e.(sum := f.sum), x, n);
      RopeOutside(h, id);
    }
  }

  lemma TransmittedOutside(e: Endpoint, id: Id)
    requires BoxesOk(e) && HasOutput(e) && Outside(e, id)
    ensures var d := Transmitted(e);
            || Stays(e, d, id)
            || (e.sendOpen && Enters(e, d, id))
            || (!e.sendOpen && Ends(e, d, id))
  {
    var x := e.outbox[0].id;
    assert Places(e, id) == 1 && Places(e, x) == 1 && x != id && id in e.live;
    hide BoxesOk, BoxesBut, Dispatched, FrontFrame, Front, Count;
    PoppedIsInHand(e, Popped(e));
    PoppedIsInHand(e, Popped(e).(sum := FrontFrame(e).sum));
    DispatchedOutside(Popped(e), x, Front(e), FrontFrame(e), id);
  }

  lemma SentOutside(e: Endpoint, m: Out, id: Id)
    requires id in e.live && id != e.nextId && Outside(e, id)
    ensures Stays(e, Sent(e, m), id)
  {
    CountAppend(e.wayOut, [ItemOf(e.nextId, m)], id);
    hide Requeued, ItemOf, Count;
  }

  lemma ReceivedOutside(e: Endpoint, f: Frame, id: Id)
    requires BoxesOk(e) && Receive(e, f).Received? && Outside(e, id)
    ensures Stays(e, Receive(e, f).e, id)
  {
    assert Places(e, id) == 1 && id in e.live && id != e.nextId;
    if IsAck(f.kind) {
      AckedOutside(e, f.no, f.kind.AckResponse?, f.body, id);
    } else if e.receiveOpen {
      hide Take, Sent, BoxesOk, Places, Varint.Encode;
      var t := Take(e.rx, f);
      SentOutside(e.(rx := t.rx), NewAck(!f.kind.Request?, f.no, if t.ack.Some? then t.ack.value else 0), id);
    }
  }

  lemma AckedOutside(e: Endpoint, no: nat, onResponse: bool, body: seq<byte>, id: Id)
    requires BoxesOk(e) && Outside(e, id) && Places(e, id) == 1 && id in e.live
    requires ReceivedAck(e, no, onResponse, body).Received?
    ensures Stays(e, ReceivedAck(e, no, onResponse, body).e, id)
  {
    FoundIsLive(e, e.outbox, no, onResponse);
    FrozenIsLive(e, e.icebox, no, onResponse);
    hide FindItem, FindFrozen, Requeued, WithoutId, ItemOf, Varint.Read, BoxesOk, Count, CountIds;
  }

  /**
   * A message that waits outside leaves only when the endpoint is stopped or its turn comes; then it is sent if and
   * only if the endpoint has not been closed for sending.
   */
  lemma OutsideStep(e: Endpoint, op: Op, id: Id)
    requires Conserved(e) && Allowed(e, op) && Outside(e, id)
    ensures var d := Done(e, op);
            || Stays(e, d, id)
            || (e.sendOpen && !op.Stop? && Enters(e, d, id))
            || ((!e.sendOpen || op.Stop?) && Ends(e, d, id))
  {
    assert Places(e, id) == 1 && id in e.live && id != e.nextId;
    hide Conserved, Sent, Transmitted, Receive, Stopped, Cancelled, Places;
    match op
    case SendRequest(payload, urgent, noReply) => SentOutside(e, NewRequest(payload, urgent, noReply), id);
    case Respond(no, payload, urgent, isError) => SentOutside(e, NewResponse(no, payload, urgent, isError), id);
    case Transmit => ConservedBoxes(e); TransmittedOutside(e, id);
    case ReceiveFrame(f) => ConservedBoxes(e); ReceivedOutside(e, f, id);
    case Stop => ConservedBoxes(e); StoppedOutside(e, id);
    case _ =>
  }

  lemma ConservedBoxes(e: Endpoint)
    requires Conserved(e)
    ensures BoxesOk(e) && FuturesOk(e)
  {
  }

  lemma StoppedOutside(e: Endpoint, id: Id)
    requires BoxesOk(e) && id in e.live
    ensures Ends(e, Stopped(e), id)
  {
    BoxesTold(e, id);
    assert Places(e, id) == 1;
    hide Emptied, Cancelled, BoxesOk, Places;
  }

  /**
   * Messages that wait outside when the endpoint is closed for sending are never sent: in every run such a message
   * waits as it was, or it is gone and its reply future has its result; it is never in the outbox or on ice.
   */
  lemma {:induction false} LateMessagesAreCancelled(e: Endpoint, ops: seq<Op>, id: Id)
    requires Conserved(e) && Outside(e, id) && !e.sendOpen && Run(e, ops) && id in e.live
    ensures var d := After(e, ops);
            && Count(d.outbox, id) == 0 && CountIds(d.icebox, id) == 0
            && (id in d.live ==> Outside(d, id) && d.live[id] == e.live[id])
            && (id !in d.live && e.live[id].awaits ==> d.resolved[id] == 1)
    decreases |ops|
  {
    if ops == [] {
      assert Places(e, id) == 1;
    } else {
      var d := Done(e, ops[0]);
      OutsideStep(e, ops[0], id);
      OpKeeps(e, ops[0]);
      OpOnward(e, ops[0]);
      assert id < d.nextId;
      hide Done, Allowed, Conserved, Outside;
      if id in d.live {
        LateMessagesAreCancelled(d, ops[1..], id);
      } else {
        GoneStaysGone(d, ops[1..], id);
      }
    }
  }

  lemma GoneStaysGone(e: Endpoint, ops: seq<Op>, id: Id)
    requires Conserved(e) && id < e.nextId && id !in e.live && Run(e, ops)
    ensures var d := After(e, ops);
            && id !in d.live && Count(d.outbox, id) == 0 && CountIds(d.icebox, id) == 0
            && (e.resolved[id] > 0 ==> d.resolved[id] == 1)
  {
    RunKeeps(e, ops);
    RunOnward(e, ops);
    var d := After(e, ops);
    hide Run, After;
    assert Places(d, id) == 0;
  }

  // They come in, or are cancelled, in the order they came: one for each message that is finished.

  /** The last frame of a request or response is sent. */
  predicate Finishes(e: Endpoint, op: Op) {
    op.Transmit? && HasOutput(e) && !IsAck(Front(e).kind) && !FrontFrame(e).more
  }

  /** The message that leaves the waiting ones, if any, and the one that joins them. */
  function Leaving(e: Endpoint, op: Op): seq<Item> { if Finishes(e, op) && e.wayOut != [] then [e.wayOut[0]] else [] }

  function Joining(e: Endpoint, op: Op): seq<Item> {
    if (op.SendRequest? || op.Respond?) && !op.urgent && |e.outbox| >= 10 then [Item(e.nextId, false, true)] else []
  }

  lemma RopeMoves(e: Endpoint)
    ensures (if e.wayOut != [] then [e.wayOut[0]] else []) + RopeLifted(e).wayOut == e.wayOut
  {
    hide Requeued, ItemOf;
  }

  lemma TransmittedMoves(e: Endpoint)
    requires HasOutput(e)
    ensures Leaving(e, Transmit) + Transmitted(e).wayOut == e.wayOut
  {
    hide Requeued, ItemOf, RopeLifted, FrontFrame, Front;
    var m, f, x := Front(e), FrontFrame(e), e.outbox[0].id;
    if !IsAck(m.kind) && !f.more {
      RopeMoves(HandedOver(Popped(e).(sum := f.sum), x, BlipEndpoint.Advanced(m, |f.body|)));
    }
  }

  lemma ReceivedMoves(e: Endpoint, f: Frame)
    requires Receive(e, f).Received?
    ensures Receive(e, f).e.wayOut == e.wayOut
  {
    hide FindItem, FindFrozen, Requeued, ItemOf, WithoutId, Acked, Varint.Read, Varint.Encode, Take;
  }

  lemma SentMoves(e: Endpoint, m: Out)
    requires m.bytesSent == 0
    ensures Sent(e, m).wayOut == e.wayOut + if m.urgent || |e.outbox| < 10 then [] else [Item(e.nextId, false, true)]
  {
    hide Requeued;
  }

  lemma WaitersStep(e: Endpoint, op: Op)
    requires Allowed(e, op) && !op.Stop?
    ensures Leaving(e, op) + Done(e, op).wayOut == e.wayOut + Joining(e, op)
  {
    hide Sent, Transmitted, Receive, Cancelled;
    match op
    case SendRequest(payload, urgent, noReply) => SentMoves(e, NewRequest(payload, urgent, noReply));
    case Respond(no, payload, urgent, isError) => SentMoves(e, NewResponse(no, payload, urgent, isError));
    case Transmit => TransmittedMoves(e);
    case ReceiveFrame(f) => ReceivedMoves(e, f);
    case _ =>
  }

  ghost function AllLeaving(e: Endpoint, ops: seq<Op>): seq<Item>
    requires Run(e, ops)
    decreases |ops|
  {
    if ops == [] then [] else Leaving(e, ops[0]) + AllLeaving(Done(e, ops[0]), ops[1..])
  }

  ghost function AllJoining(e: Endpoint, ops: seq<Op>): seq<Item>
    requires Run(e, ops)
    decreases |ops|
  {
    if ops == [] then [] else Joining(e, ops[0]) + AllJoining(Done(e, ops[0]), ops[1..])
  }

  lemma {:induction false} WaitersMoveUp(e: Endpoint, ops: seq<Op>)
    requires Run(e, ops) && NoStop(ops)
    ensures AllLeaving(e, ops) + After(e, ops).wayOut == e.wayOut + AllJoining(e, ops)
    decreases |ops|
  {
    hide Allowed, Done, Leaving, Joining;
    if ops != [] {
      assert !ops[0].Stop?;
      var d := Done(e, ops[0]);
      WaitersStep(e, ops[0]);
      WaitersMoveUp(d, ops[1..]);
      QueuesJoin(Leaving(e, ops[0]), AllLeaving(d, ops[1..]), After(d, ops[1..]).wayOut, d.wayOut,
                e.wayOut, Joining(e, ops[0]), AllJoining(d, ops[1..]));
    }
  }

  // Nothing freezes once receiving is closed, since no ACK may come.

  lemma RopeKeepsIce(e: Endpoint)
    ensures RopeLifted(e).icebox == e.icebox && RopeLifted(e).receiveOpen == e.receiveOpen
  {
    hide Requeued, ItemOf;
  }

  lemma DispatchedIce(e: Endpoint, id: Id, m: Out, f: Frame)
    requires !e.receiveOpen
    ensures Dispatched(e, id, m, f).icebox == e.icebox && !Dispatched(e, id, m, f).receiveOpen
  {
    hide Requeued, ItemOf, RopeLifted;
    if !IsAck(m.kind) && !f.more {
      RopeKeepsIce(HandedOver(e.(sum := f.sum), id, BlipEndpoint.Advanced(m, |f.body|)));
    }
  }

  lemma {:induction false} WithoutIsLess(q: seq<Id>, id: Id, j: Id)
    requires j in WithoutId(q, id)
    ensures j in q
  {
    if q != [] && q[0] != id && j != q[0] {
      WithoutIsLess(q[1..], id, j);
    }
  }

  lemma ReceivedIce(e: Endpoint, f: Frame, j: Id)
    requires !e.receiveOpen && Receive(e, f).Received? && j in Receive(e, f).e.icebox
    ensures !Receive(e, f).e.receiveOpen && j in e.icebox
  {
    if IsAck(f.kind) {
      AckedIce(e, f.no, f.kind.AckResponse?, f.body, j);
    }
  }

  lemma AckedIce(e: Endpoint, no: nat, onResponse: bool, body: seq<byte>, j: Id)
    requires ReceivedAck(e, no, onResponse, body).Received? && j in ReceivedAck(e, no, onResponse, body).e.icebox
    ensures j in e.icebox && ReceivedAck(e, no, onResponse, body).e.receiveOpen == e.receiveOpen
  {
    hide FindItem, FindFrozen, Requeued, ItemOf, WithoutId, Acked, Varint.Read;
    var found, frozen := FindItem(e, e.outbox, no, onResponse), FindFrozen(e, e.icebox, no, onResponse);
    if frozen.Some? && j in WithoutId(e.icebox, frozen.value) {
      WithoutIsLess(e.icebox, frozen.value, j);
    }
  }

  lemma IceStep(e: Endpoint, op: Op, j: Id)
    requires !e.receiveOpen && Allowed(e, op) && j in Done(e, op).icebox
    ensures j in e.icebox
  {
    hide Requeued, ItemOf, Receive, Cancelled, AllDisconnected, Dispatched, FrontFrame, Front;
    if op.Transmit? {
      DispatchedIce(Popped(e), e.outbox[0].id, Front(e), FrontFrame(e));
    } else if op.ReceiveFrame? {
      ReceivedIce(e, op.f, j);
    }
  }

  lemma StaysClosed(e: Endpoint, op: Op)
    requires !e.receiveOpen && Allowed(e, op)
    ensures !Done(e, op).receiveOpen
  {
    hide Requeued, ItemOf, Receive, Cancelled, Dispatched, FrontFrame, Front;
    if op.Transmit? {
      DispatchedIce(Popped(e), e.outbox[0].id, Front(e), FrontFrame(e));
    } else if op.ReceiveFrame? {
      ReceivedClosed(e, op.f);
    } else if op.Stop? {
      hide Emptied;
    }
  }

  lemma ReceivedClosed(e: Endpoint, f: Frame)
    requires !e.receiveOpen && Receive(e, f).Received?
    ensures !Receive(e, f).e.receiveOpen
  {
    hide FindItem, FindFrozen, Requeued, ItemOf, WithoutId, Acked, Varint.Read;
  }

  /** In every run after receiving is closed, what is on ice was on ice before. */
  lemma {:induction false} NothingFreezes(e: Endpoint, ops: seq<Op>, j: Id)
    requires !e.receiveOpen && Run(e, ops) && j in After(e, ops).icebox
    ensures j in e.icebox
    decreases |ops|
  {
    if ops != [] {
      StaysClosed(e, ops[0]);
      hide Allowed, Done;
      NothingFreezes(Done(e, ops[0]), ops[1..], j);
      IceStep(e, ops[0], j);
    }
  }

  // Replies that nobody hears.

  /** A request, not outside the outbox, of which the reply is wanted. */
  predicate Outgoing(e: Endpoint, id: Id) {
    Waits(e.live, id) && e.live[id].kind.Request? && !e.live[id].noReply && !Outside(e, id)
  }

  /** Receiving is closed, and the reply is expected or will be. */
  ghost predicate Unheard(e: Endpoint, id: Id) { !e.receiveOpen && (Expected(e.rx, id) || Outgoing(e, id)) }

  lemma SentUnheard(e: Endpoint, m: Out, id: Id)
    requires Unheard(e, id) && e.nextId !in e.live
    ensures Unheard(Sent(e, m), id)
  {
    CountAppend(e.wayOut, [ItemOf(e.nextId, m)], id);
    hide Requeued, Expected;
  }

  lemma RopeUnheard(e: Endpoint, id: Id)
    requires BoxesOk(e) && Unheard(e, id)
    ensures Unheard(RopeLifted(e), id)
  {
    hide Requeued, ItemOf, Expected, BoxesOk;
  }

  lemma HandedOverUnheard(e: Endpoint, x: Id, m: Out, id: Id)
    requires Unheard(e, id) && x in e.live && SameAim(e.live[x], m)
    requires m.kind.Request? && !m.noReply ==> Key(true, m.no) !in e.rx.pend
    ensures Unheard(HandedOver(e, x, m), id)
  {
    if m.kind.Request? && !m.noReply {
      MoreExpected(e.rx, HandedOver(e, x, m).rx, Key(true, m.no), x);
    }
    hide Expected;
  }

  /** The message is of the same kind, and its reply is wanted or not as before. */
  predicate SameAim(a: Out, b: Out) { a.kind == b.kind && a.noReply == b.noReply && a.awaits == b.awaits }

  lemma DispatchedUnheard(e: Endpoint, x: Id, m: Out, f: Frame, id: Id)
    requires Unheard(e, id) && x in e.live && SameAim(e.live[x], m) && BoxesBut(e.(sum := f.sum), x)
    requires m.kind.Request? && !m.noReply ==> Key(true, m.no) !in e.rx.pend
    ensures Unheard(Dispatched(e, x, m, f), id)
  {
    hide Requeued, ItemOf, HandedOver, RopeLifted, Expected, BoxesOk, BoxesBut, Count;
    var d, n := e.(sum := f.sum), BlipEndpoint.Advanced(m, |f.body|);
    if !IsAck(m.kind) && !f.more {
      HandedOverBoxes(d, x, n);
      HandedOverUnheard(d, x, n, id);
      RopeUnheard(HandedOver(d, x, n), id);
    }
  }

  lemma TransmittedUnheard(e: Endpoint, id: Id)
    requires Conserved(e) && HasOutput(e) && Unheard(e, id)
    ensures Unheard(Transmitted(e), id)
  {
    var x, m := e.outbox[0].id, Front(e);
    assert m.kind.Request? ==> Key(true, m.no) !in e.rx.pend;
    ConservedBoxes(e);
    hide Conserved, BoxesOk, BoxesBut, Dispatched, FrontFrame, Count, Expected;
    PoppedIsInHand(e, Popped(e).(sum := FrontFrame(e).sum));
    DispatchedUnheard(Popped(e), x, m, FrontFrame(e), id);
  }

  lemma ReceivedUnheard(e: Endpoint, f: Frame, id: Id)
    requires Receive(e, f).Received? && Unheard(e, id)
    ensures Unheard(Receive(e, f).e, id)
  {
    hide FindItem, FindFrozen, Requeued, ItemOf, WithoutId, Varint.Read, Take, Expected, Count;
  }

  lemma UnheardStep(e: Endpoint, op: Op, id: Id)
    requires Conserved(e) && Allowed(e, op) && !op.Stop? && Unheard(e, id)
    ensures Unheard(Done(e, op), id)
  {
    assert e.nextId !in e.live;
    hide Conserved, Sent, Transmitted, Receive, Cancelled, Expected;
    match op
    case SendRequest(payload, urgent, noReply) => SentUnheard(e, NewRequest(payload, urgent, noReply), id);
    case Respond(no, payload, urgent, isError) => SentUnheard(e, NewResponse(no, payload, urgent, isError), id);
    case Transmit => TransmittedUnheard(e, id);
    case ReceiveFrame(f) => ReceivedUnheard(e, f, id);
    case _ =>
  }

  /** The operations other than `stop`. */
  predicate NoStop(ops: seq<Op>) { forall i | 0 <= i < |ops| :: !ops[i].Stop? }

  /**
   * Once receiving is closed, a request that is being sent, or that has been and has no reply, has no result in any run
   * without `stop`.
   */
  lemma {:induction false} ReplyIsUnheard(e: Endpoint, ops: seq<Op>, id: Id)
    requires Conserved(e) && Unheard(e, id) && Run(e, ops) && NoStop(ops)
    ensures Unheard(After(e, ops), id) && After(e, ops).resolved[id] == 0
    decreases |ops|
  {
    if ops == [] {
      ConservedBoxes(e);
    } else {
      assert !ops[0].Stop?;
      hide Conserved, Allowed, Done, Unheard;
      OpKeeps(e, ops[0]);
      UnheardStep(e, ops[0], id);
      ReplyIsUnheard(Done(e, ops[0]), ops[1..], id);
    }
  }

  /**
   * From `closeReceive` on, a future that is with the endpoint has no result if and only if its request is still to be
   * sent or its reply is expected; and then the request was still to be sent when receiving was closed, or is newer. A
   * request in the outbox or on ice at that time, with its reply wanted, has no result until `stop`.
   */
  lemma UnresolvedIff(e: Endpoint, ops: seq<Op>, id: Id)
    requires Conserved(e) && e.receiveOpen && Run(ReadClosed(e), ops) && id in After(ReadClosed(e), ops).requested
    ensures var d := After(ReadClosed(e), ops);
            && (d.resolved[id] == 0 <==> Waits(d.live, id) || Expected(d.rx, id))
            && (d.resolved[id] == 0 ==> Waits(e.live, id) || id >= e.nextId)
            && (NoStop(ops) && Outgoing(e, id) ==> d.resolved[id] == 0)
  {
    hide Conserved, Run, After, ReadClosed, Expected, BoxesOk, NoStop, Unheard, Outgoing;
    var c := ReadClosed(e);
    ReadClosedIs(e, id);
    RunKeeps(c, ops);
    RunOnward(c, ops);
    var d := After(c, ops);
    ConservedFuture(d, id);
    if id < c.nextId {
      ConservedFuture(c, id);
    }
    if NoStop(ops) && Outgoing(e, id) {
      ReplyIsUnheard(c, ops, id);
    }
  }

  lemma ConservedFuture(e: Endpoint, id: Id)
    requires Conserved(e) && id in e.requested
    ensures e.resolved[id] == if Waits(e.live, id) || Expected(e.rx, id) then 0 else 1
  {
    hide BoxesOk, NumbersOk;
  }

  lemma ReadClosedIs(e: Endpoint, id: Id)
    requires Conserved(e) && e.receiveOpen
    ensures var c := ReadClosed(e);
            && Conserved(c) && c.live == e.live && c.nextId == e.nextId && !Expected(c.rx, id)
            && (Outgoing(e, id) ==> Unheard(c, id))
  {
    OpKeeps(e, CloseReceive);
    hide Conserved, Cancelled;
  }

  // Such a run.

  lemma {:induction false} RunAppend(e: Endpoint, ops: seq<Op>, op: Op)
    requires Run(e, ops) && Allowed(After(e, ops), op)
    ensures Run(e, ops + [op]) && After(e, ops + [op]) == Done(After(e, ops), op)
    decreases |ops|
  {
    hide Allowed, Done;
    if ops == [] {
      assert [] + [op] == [op] && [op][1..] == [];
      assert Run(Done(e, op), []) && After(Done(e, op), []) == Done(e, op);
    } else {
      RunAppend(Done(e, ops[0]), ops[1..], op);
      assert (ops + [op])[1..] == ops[1..] + [op];
    }
  }

  const SHORT: seq<byte> := [0]
  const SMALL := SendRequest(SHORT, false, false)
  const NEW_SMALL := NewRequest(SHORT, false, false)

  /** An endpoint after `n` small requests, if that is no more than the outbox holds. */
  function Loaded(n: nat): Endpoint {
    if n == 0 then INITIAL
    else
      var e := Loaded(n - 1);
      e.(live := e.live[n - 1 := NEW_SMALL], outbox := e.outbox + [Item(n - 1, false, true)], nextId := n,
         requested := e.requested + {n - 1})
  }

  lemma {:induction false} LoadedIs(n: nat)
    ensures var e := Loaded(n);
            && e == INITIAL.(live := e.live, outbox := e.outbox, nextId := n, requested := e.requested)
            && |e.outbox| == n && (n > 0 ==> e.outbox[0] == Item(0, false, true))
            && (forall id: nat :: id in e.live <==> id < n) && (forall id: nat | id < n :: e.live[id] == NEW_SMALL)
  {
    if n > 0 {
      LoadedIs(n - 1);
    }
  }

  lemma LoadOne(n: nat)
    requires n < OUTBOX_CAPACITY
    ensures Done(Loaded(n), SMALL) == Loaded(n + 1)
  {
    LoadedIs(n);
  }

  lemma SmallIsAllowed(e: Endpoint)
    ensures Allowed(e, SMALL)
  {
  }

  lemma {:induction false} LoadAll(n: nat) returns (ops: seq<Op>)
    requires n <= OUTBOX_CAPACITY
    ensures Run(INITIAL, ops) && After(INITIAL, ops) == Loaded(n)
  {
    if n == 0 {
      ops := [];
    } else {
      hide Loaded, Done, Allowed, Run, After;
      ops := LoadAll(n - 1);
      LoadOne(n - 1);
      assert Allowed(Loaded(n - 1), SMALL) by { SmallIsAllowed(Loaded(n - 1)); }
      RunAppend(INITIAL, ops, SMALL);
      ops := ops + [SMALL];
    }
  }

  lemma SmallFrontEnds(e: Endpoint)
    requires HasOutput(e) && e.live[e.outbox[0].id] == NEW_SMALL
    ensures |FrontFrame(e).body| == 1 && !FrontFrame(e).more
    ensures Front(e) == NEW_SMALL.(no := e.lastNo + 1)
  {
    hide Room, Crc;
  }

  /** The first message is sent, and the one outside is cancelled. */
  lemma CancelledInTurn(e: Endpoint, id: Id)
    requires HasOutput(e) && e.live[e.outbox[0].id] == NEW_SMALL && e.outbox[0].id != id && !e.sendOpen
    requires e.wayOut == [Item(id, false, true)] && id in e.live && e.live[id] == NEW_SMALL && e.resolved == multiset{}
    ensures id !in Transmitted(e).live && Transmitted(e).resolved[id] == 1
  {
    hide FrontFrame, Front, RopeLifted, HandedOver, ReplyExpected, Ended;
    SmallFrontEnds(e);
    var f := FrontFrame(e);
    var x, n := e.outbox[0].id, BlipEndpoint.Advanced(Front(e), |f.body|);
    var h := HandedOver(Popped(e).(sum := f.sum), x, n);
    HandedOverIs(Popped(e).(sum := f.sum), x, n);
    NotEnded(x, n);
    RopeLiftedIs(h, id);
  }

  lemma NotEnded(id: Id, m: Out)
    requires m.kind.Request? && !m.noReply
    ensures Ended(id, m) == multiset{}
  {
  }

  lemma OneOutside(e: Endpoint, n: nat)
    requires n == OUTBOX_CAPACITY && e == Loaded(n)
    ensures var d := SendClosed(Done(e, SMALL));
            && HasOutput(d) && d.outbox[0].id == 0 && d.live[0] == NEW_SMALL && !d.sendOpen
            && d.wayOut == [Item(n, false, true)] && n in d.live && d.live[n] == NEW_SMALL
            && d.resolved == multiset{} && n in d.requested
  {
    LoadedIs(n);
    hide Loaded;
  }

  /**
   * Eleven requests, then `closeSend`, then the first one is sent: the eleventh is cancelled, though it was queued
   * before.
   */
  lemma QueuedButNotSent(id: Id) returns (ops: seq<Op>)
    requires id == OUTBOX_CAPACITY
    ensures Run(INITIAL, ops) && Allowed(After(INITIAL, ops), Transmit)
    ensures var e := After(INITIAL, ops);
            var d := Done(e, Transmit);
            && id in e.requested && id in e.live && Outside(e, id) && !e.sendOpen
            && id !in d.live && d.resolved[id] == 1
  {
    hide Loaded, Transmitted, SentRequest;
    ops := LoadAll(id);
    var e := Loaded(id);
    OneOutside(e, id);
    var d := SendClosed(Done(e, SMALL));
    assert Outside(d, id);
    CancelledInTurn(d, id);
    RunAppend(INITIAL, ops, SMALL);
    RunAppend(INITIAL, ops + [SMALL], CloseSend);
    ops := ops + [SMALL] + [CloseSend];
  }

  /** After `closeSend`, an urgent request is lost: its future has no result in any run, with or without `stop`. */
  lemma UrgentRequestIsLost(payload: seq<byte>, after: seq<Op>)
    requires Run(SentRequest(SendClosed(INITIAL), payload, true, false), after)
    ensures Run(INITIAL, [CloseSend]) && After(INITIAL, [CloseSend]) == SendClosed(INITIAL)
    ensures var d := After(SentRequest(SendClosed(INITIAL), payload, true, false), after);
            INITIAL.nextId in d.lost && d.resolved[INITIAL.nextId] == 0 && Stopped(d).resolved[INITIAL.nextId] == 0
  {
    var s := SentRequest(SendClosed(INITIAL), payload, true, false);
    assert Run(INITIAL, []) && After(INITIAL, []) == INITIAL && [] + [CloseSend] == [CloseSend];
    RunAppend(INITIAL, [], CloseSend);
    hide Run, After, Stopped;
    RunOnward(s, after);
    FutureIsLostIff([CloseSend], payload, true, false, after);
  }

  lemma SmallIsSent(e: Endpoint)
    requires e == SendClosed(ReceiveClosed(Done(INITIAL, SMALL)))
    ensures HasOutput(e) && Transmitted(e).live == map[] && Expected(Transmitted(e).rx, 0)
    ensures !Transmitted(e).sendOpen && !Transmitted(e).receiveOpen
  {
    hide Transmitted;
    SmallWaits(e);
    SmallGoes(e);
  }

  lemma SmallWaits(e: Endpoint)
    requires e == SendClosed(ReceiveClosed(Done(INITIAL, SMALL)))
    ensures e.live == map[0 := NEW_SMALL] && e.outbox == [Item(0, false, true)] && e.wayOut == []
    ensures e.rx.pend == map[] && !e.sendOpen && !e.receiveOpen
  {
    hide Cancelled;
    assert Requeued([], Item(0, false, true)) == [Item(0, false, true)];
    hide Requeued;
  }

  lemma SmallGoes(e: Endpoint)
    requires e.live == map[0 := NEW_SMALL] && e.outbox == [Item(0, false, true)] && e.wayOut == []
    requires e.rx.pend == map[] && !e.sendOpen && !e.receiveOpen
    ensures HasOutput(e) && Transmitted(e).live == map[] && Expected(Transmitted(e).rx, 0)
    ensures !Transmitted(e).sendOpen && !Transmitted(e).receiveOpen
  {
    hide FrontFrame, Front;
    SmallFrontEnds(e);
    assert map[0 := NEW_SMALL] - {0} == map[];
    assert Transmitted(e).rx.pend[Key(true, e.lastNo + 1)].reply == Some(0);
  }

  /**
   * A request, `closeReceive`, `closeSend`, and the request is sent: both sides are closed and nothing is left to send,
   * so the destructor has nothing to stop; and the reply future has no result in any run without `stop`.
   */
  lemma ReplyIsNeverHeard() returns (ops: seq<Op>)
    ensures Run(INITIAL, ops)
    ensures var d := After(INITIAL, ops);
            && 0 in d.requested && d.live == map[] && !d.sendOpen && !d.receiveOpen
            && forall more | Run(d, more) && NoStop(more) :: After(d, more).resolved[0] == 0
  {
    hide Run, After, Transmitted, Conserved, Done, Expected, NoStop;
    var e := AskedThenClosed();
    ops := AskCloseSend(e);
    SmallIsSent(e);
    TransmittedOnward(e);
    InitialIsConserved();
    RunKeeps(INITIAL, ops);
    var d := After(INITIAL, ops);
    forall more | Run(d, more) && NoStop(more) ensures After(d, more).resolved[0] == 0 {
      ReplyIsUnheard(d, more, 0);
    }
  }

  lemma AskedThenClosed() returns (e: Endpoint)
    ensures e == SendClosed(ReceiveClosed(Done(INITIAL, SMALL))) && 0 in e.requested
  {
    e := SendClosed(ReceiveClosed(Done(INITIAL, SMALL)));
    hide Cancelled, Requeued;
  }

  lemma AskCloseSend(e: Endpoint) returns (ops: seq<Op>)
    requires e == SendClosed(ReceiveClosed(Done(INITIAL, SMALL)))
    ensures HasOutput(e) && Run(INITIAL, ops) && After(INITIAL, ops) == Transmitted(e)
  {
    hide Run, After, Transmitted, Sent, ReceiveClosed, SendClosed, SentRequest;
    assert Run(INITIAL, []) && After(INITIAL, []) == INITIAL by { EmptyRun(INITIAL); }
    SmallIsSent(e);
    RunAppend(INITIAL, [], SMALL);
    RunAppend(INITIAL, [] + [SMALL], CloseReceive);
    RunAppend(INITIAL, [] + [SMALL] + [CloseReceive], CloseSend);
    ops := [] + [SMALL] + [CloseReceive] + [CloseSend];
    RunAppend(INITIAL, ops, Transmit);
    ops := ops + [Transmit];
  }

  lemma EmptyRun(e: Endpoint)
    ensures Run(e, []) && After(e, []) == e
  {
  }
}
