/** No message is lost or duplicated inside an endpoint, and every reply future gets one result. */
module BlipConservation {
  import opened Bytes
  import opened Common
  import opened BlipFrame
  import opened BlipMessage
  import opened BlipOutbox
  import opened BlipStream
  import opened BlipEndpoint
  import Varint

  function Count(q: seq<Item>, id: Id): nat {
    if q == [] then 0 else (if q[0].id == id then 1 else 0) + Count(q[1..], id)
  }

  function CountIds(q: seq<Id>, id: Id): nat {
    if q == [] then 0 else (if q[0] == id then 1 else 0) + CountIds(q[1..], id)
  }

  lemma {:induction false} CountAppend(a: seq<Item>, b: seq<Item>, id: Id)
    ensures Count(a + b, id) == Count(a, id) + Count(b, id)
  {
    if a == [] {
      assert a + b == b;
    } else {
      CountAppend(a[1..], b, id);
      assert (a + b)[1..] == a[1..] + b;
    }
  }

  lemma {:induction false} CountIdsAppend(q: seq<Id>, x: Id, id: Id)
    ensures CountIds(q + [x], id) == CountIds(q, id) + if x == id then 1 else 0
  {
    if q == [] {
      assert [x][1..] == [] && [] + [x] == [x];
    } else {
      CountIdsAppend(q[1..], x, id);
      assert (q + [x])[1..] == q[1..] + [x];
    }
  }

  lemma {:induction false} CountWithout(q: seq<Id>, x: Id, id: Id)
    ensures CountIds(WithoutId(q, x), id) == CountIds(q, id) - if x == id && x in q then 1 else 0
  {
    if q != [] && q[0] != x {
      CountWithout(q[1..], x, id);
      assert WithoutId(q, x)[1..] == WithoutId(q[1..], x);
    }
  }

  lemma {:induction false} CountHas(q: seq<Item>, i: nat)
    requires i < |q|
    ensures Count(q, q[i].id) > 0
  {
    if i > 0 {
      CountHas(q[1..], i - 1);
    }
  }

  lemma CountOne(m: Item, id: Id)
    ensures Count([m], id) == if m.id == id then 1 else 0
  {
    assert [m][1..] == [];
  }

  lemma CountRequeued(q: seq<Item>, m: Item, id: Id)
    ensures Count(Requeued(q, m), id) == Count(q, id) + if m.id == id then 1 else 0
  {
    hide Count, Place;
    var at := Place(q, m);
    CountAppend(q[..at] + [m], q[at..], id);
    CountAppend(q[..at], [m], id);
    CountAppend(q[..at], q[at..], id);
    CountOne(m, id);
    assert q == q[..at] + q[at..];
  }

  /** How many times a message is in the three boxes. */
  function Places(e: Endpoint, id: Id): nat { Count(e.outbox, id) + Count(e.wayOut, id) + CountIds(e.icebox, id) }

  /** What a box knows of its messages is true of them. */
  predicate Labelled(live: map<Id, Out>, q: seq<Item>) {
    forall i | 0 <= i < |q| :: q[i].id in live && q[i] == ItemOf(q[i].id, live[q[i].id])
  }

  /** Every live message is in exactly one box, once. */
  ghost predicate BoxesOk(e: Endpoint) {
    && (forall id :: Places(e, id) == if id in e.live then 1 else 0)
    && Labelled(e.live, e.outbox) && Labelled(e.live, e.wayOut)
    && (forall id | id in e.live :: id < e.nextId)
  }

  /** The same but for one message, which is in hand: in no box. */
  ghost predicate BoxesBut(e: Endpoint, x: Id) {
    && (forall id :: Places(e, id) == if id in e.live && id != x then 1 else 0)
    && Labelled(e.live - {x}, e.outbox) && Labelled(e.live - {x}, e.wayOut)
    && (forall id | id in e.live :: id < e.nextId) && x < e.nextId
  }

  lemma LabelledOther(live: map<Id, Out>, q: seq<Item>, id: Id)
    requires Labelled(live, q) && Count(q, id) == 0
    ensures Labelled(live - {id}, q)
  {
    forall i | 0 <= i < |q| ensures q[i].id != id {
      CountHas(q, i);
    }
  }

  lemma LabelledWith(live: map<Id, Out>, q: seq<Item>, id: Id, m: Out)
    requires Labelled(live - {id}, q)
    ensures Labelled(live[id := m], q)
  {
  }

  lemma LabelledRequeued(live: map<Id, Out>, q: seq<Item>, id: Id)
    requires Labelled(live, q) && id in live
    ensures Labelled(live, Requeued(q, ItemOf(id, live[id])))
  {
    var m := ItemOf(id, live[id]);
    var at, r := Place(q, m), Requeued(q, m);
    forall i | 0 <= i < |r| ensures r[i].id in live && r[i] == ItemOf(r[i].id, live[r[i].id]) {
      assert r[i] == if i < at then q[i] else if i == at then m else q[i - 1];
    }
  }

  /** The head of the outbox, once popped, is in no box: so the asserts of requeue, freeze and thaw hold. */
  lemma PoppedIsInHand(e: Endpoint, d: Endpoint)
    requires BoxesOk(e) && e.outbox != [] && d.outbox == e.outbox[1..]
    requires d.live == e.live && d.wayOut == e.wayOut && d.icebox == e.icebox && d.nextId == e.nextId
    ensures BoxesBut(d, e.outbox[0].id) && e.outbox[0].id in e.live && Places(d, e.outbox[0].id) == 0
  {
    var x := e.outbox[0].id;
    forall id ensures Places(d, id) == if id in d.live && id != x then 1 else 0 {
      assert Places(e, id) == if id in e.live then 1 else 0;
    }
    hide ItemOf;
    LabelledOther(d.live, d.outbox, x);
    LabelledOther(d.live, d.wayOut, x);
  }

  /** A message in hand enters the outbox. */
  lemma RequeuedOk(e: Endpoint, id: Id, m: Out)
    requires BoxesBut(e, id)
    ensures BoxesOk(e.(live := e.live[id := m], outbox := Requeued(e.outbox, ItemOf(id, m))))
  {
    var d := e.(live := e.live[id := m], outbox := Requeued(e.outbox, ItemOf(id, m)));
    hide Requeued, Count, CountIds;
    forall j ensures Places(d, j) == if j in d.live then 1 else 0 {
      CountRequeued(e.outbox, ItemOf(id, m), j);
      assert Places(e, j) == if j in e.live && j != id then 1 else 0;
    }
    LabelledWith(e.live, e.outbox, id, m);
    LabelledWith(e.live, e.wayOut, id, m);
    LabelledRequeued(d.live, e.outbox, id);
  }

  /** A message in hand is finished with. */
  lemma DroppedOk(e: Endpoint, id: Id)
    requires BoxesBut(e, id)
    ensures BoxesOk(e.(live := e.live - {id}))
  {
    var d := e.(live := e.live - {id});
    forall j ensures Places(d, j) == if j in d.live then 1 else 0 {
      assert Places(e, j) == if j in e.live && j != id then 1 else 0;
    }
    hide Labelled, Places;
  }

  lemma FrozenOk(e: Endpoint, id: Id, m: Out)
    requires BoxesBut(e, id)
    ensures BoxesOk(e.(live := e.live[id := m], icebox := e.icebox + [id]))
  {
    var d := e.(live := e.live[id := m], icebox := e.icebox + [id]);
    hide Count, CountIds;
    forall j ensures Places(d, j) == if j in d.live then 1 else 0 {
      CountIdsAppend(e.icebox, id, j);
      assert Places(e, j) == if j in e.live && j != id then 1 else 0;
    }
    LabelledWith(e.live, e.outbox, id, m);
    LabelledWith(e.live, e.wayOut, id, m);
  }

  lemma QueuedOk(e: Endpoint, id: Id, m: Out)
    requires BoxesBut(e, id)
    ensures BoxesOk(Queued(e, id, m))
  {
    if e.sendOpen {
      RequeuedOk(e, id, m);
    } else {
      DroppedOk(e, id);
      BoxesOnly(e.(live := e.live - {id}), Queued(e, id, m));
    }
  }

  /** Only the boxes matter. */
  lemma BoxesOnly(e: Endpoint, d: Endpoint)
    requires BoxesOk(e) && d.live == e.live && d.outbox == e.outbox && d.wayOut == e.wayOut && d.icebox == e.icebox
    requires d.nextId >= e.nextId
    ensures BoxesOk(d)
  {
    forall j ensures Places(d, j) == if j in d.live then 1 else 0 {
      assert Places(e, j) == if j in e.live then 1 else 0;
    }
  }

  lemma SentOk(e: Endpoint, m: Out)
    requires BoxesOk(e)
    ensures BoxesOk(Sent(e, m))
  {
    hide BoxesOk, BoxesBut, Queued, ItemOf;
    var id, d := e.nextId, e.(nextId := e.nextId + 1);
    NewInHand(e, d);
    if m.urgent || |e.outbox| < OUTBOX_CAPACITY {
      QueuedOk(d, id, m);
    } else {
      WaitingOk(d, id, m);
    }
  }

  lemma NewInHand(e: Endpoint, d: Endpoint)
    requires BoxesOk(e) && d == e.(nextId := e.nextId + 1)
    ensures BoxesBut(d, e.nextId)
  {
    var id := e.nextId;
    assert id !in e.live && e.live - {id} == e.live;
    forall j ensures Places(d, j) == if j in d.live && j != id then 1 else 0 {
      assert Places(e, j) == if j in e.live then 1 else 0;
    }
    hide Labelled, Places;
  }

  /** A message in hand waits outside. */
  lemma WaitingOk(e: Endpoint, id: Id, m: Out)
    requires BoxesBut(e, id)
    ensures BoxesOk(e.(live := e.live[id := m], wayOut := e.wayOut + [ItemOf(id, m)]))
  {
    var d := e.(live := e.live[id := m], wayOut := e.wayOut + [ItemOf(id, m)]);
    forall j ensures Places(d, j) == if j in d.live then 1 else 0 {
      CountAppend(e.wayOut, [ItemOf(id, m)], j);
      CountOne(ItemOf(id, m), j);
      assert Places(e, j) == if j in e.live && j != id then 1 else 0;
    }
    hide Count, CountIds;
    LabelledWith(e.live, e.outbox, id, m);
    LabelledWith(e.live, e.wayOut, id, m);
  }

  // What handing a message over and lifting the rope change.

  function ReplyExpected(rx: Rx, id: Id, m: Out): Rx {
    if m.kind.Request? && !m.noReply && Key(true, m.no) !in rx.pend
    then rx.(pend := rx.pend[Key(true, m.no) := In([], 0, 0, if m.awaits then Some(id) else None)])
    else rx
  }

  function Ended(id: Id, m: Out): multiset<Id> {
    if m.awaits && (!m.kind.Request? || m.noReply) then multiset{id} else multiset{}
  }

  lemma HandedOverIs(e: Endpoint, id: Id, m: Out)
    ensures HandedOver(e, id, m) ==
            e.(live := e.live - {id}, rx := ReplyExpected(e.rx, id, m), resolved := e.resolved + Ended(id, m))
  {
    assert e.resolved + multiset{} == e.resolved;
  }

  lemma RopeLiftedIs(e: Endpoint, w: Id)
    requires e.wayOut != [] && e.wayOut[0].id == w
    ensures RopeLifted(e) ==
            if w !in e.live then e.(wayOut := e.wayOut[1..])
            else if e.sendOpen then
              e.(wayOut := e.wayOut[1..], live := e.live[w := e.live[w]], outbox := Requeued(e.outbox, ItemOf(w, e.live[w])))
            else
              e.(wayOut := e.wayOut[1..], live := e.live - {w},
                 resolved := e.resolved + if e.live[w].awaits then multiset{w} else multiset{})
  {
    assert e.resolved + multiset{} == e.resolved;
    hide Requeued, ItemOf;
  }

  /** The rope may be lifted before a message is handed over, as the code does, or after. */
  lemma RopeFirst(e: Endpoint, id: Id, m: Out)
    requires e.wayOut != [] ==> e.wayOut[0].id != id
    ensures HandedOver(RopeLifted(e), id, m) == RopeLifted(HandedOver(e, id, m))
  {
    hide HandedOver, RopeLifted, Requeued, ItemOf, ReplyExpected, Ended;
    HandedOverIs(e, id, m);
    HandedOverIs(RopeLifted(e), id, m);
    if e.wayOut != [] {
      var w := e.wayOut[0].id;
      RopeLiftedIs(e, w);
      RopeLiftedIs(HandedOver(e, id, m), w);
      if w in e.live {
        var x, r, a, b := e.live[w], e.resolved, if e.live[w].awaits then multiset{w} else multiset{}, Ended(id, m);
        assert e.live[w := x] - {id} == (e.live - {id})[w := x];
        assert e.live - {w} - {id} == e.live - {id} - {w};
        assert r + a + b == r + b + a;
      }
    } else {
      NoRope(e);
      NoRope(HandedOver(e, id, m));
    }
  }

  lemma NoRope(e: Endpoint)
    requires e.wayOut == []
    ensures RopeLifted(e) == e
  {
  }

  lemma RopeLiftedOk(e: Endpoint)
    requires BoxesOk(e)
    ensures BoxesOk(RopeLifted(e))
  {
    if e.wayOut != [] {
      var x, d := e.wayOut[0].id, e.(wayOut := e.wayOut[1..]);
      assert x in e.live;
      forall id ensures Places(d, id) == if id in d.live && id != x then 1 else 0 {
        assert Places(e, id) == if id in e.live then 1 else 0;
      }
      hide ItemOf;
      LabelledOther(d.live, d.outbox, x);
      LabelledOther(d.live, d.wayOut, x);
      QueuedOk(d, x, e.live[x]);
    }
  }

  lemma CompletedOk(e: Endpoint, id: Id, m: Out)
    requires BoxesBut(e, id)
    ensures BoxesOk(Completed(e, id, m))
  {
    hide BoxesOk, BoxesBut, RopeLifted;
    DroppedOk(e, id);
    BoxesOnly(e.(live := e.live - {id}), HandedOver(e, id, m));
    RopeLiftedOk(HandedOver(e, id, m));
  }

  lemma DispatchedOk(e: Endpoint, id: Id, m: Out, f: Frame)
    requires BoxesBut(e, id) && BoxesBut(e.(sum := f.sum), id)
    ensures BoxesOk(Dispatched(e, id, m, f))
  {
    hide BoxesOk, BoxesBut, Completed, Requeued;
    if IsAck(m.kind) {
      DroppedOk(e, id);
    } else {
      var d, n := e.(sum := f.sum), BlipEndpoint.Advanced(m, |f.body|);
      RequeuedOk(d, id, n);
      FrozenOk(d, id, n);
      CompletedOk(d, id, n);
    }
  }

  lemma TransmittedOk(e: Endpoint)
    requires BoxesOk(e) && e.outbox != []
    ensures HasOutput(e) && BoxesOk(Transmitted(e))
  {
    hide BoxesOk, BoxesBut, Dispatched, FrontFrame;
    PoppedIsInHand(e, e.(outbox := e.outbox[1..]));
    PoppedIsInHand(e, Popped(e));
    PoppedIsInHand(e, Popped(e).(sum := FrontFrame(e).sum));
    DispatchedOk(Popped(e), e.outbox[0].id, Front(e), FrontFrame(e));
  }

  lemma {:induction false} FoundIsLive(e: Endpoint, q: seq<Item>, no: nat, onResponse: bool)
    ensures var id := FindItem(e, q, no, onResponse);
            id.Some? ==> id.value in e.live && Matches(e.live[id.value], no, onResponse) && Count(q, id.value) > 0
  {
    if q != [] && !(q[0].id in e.live && Matches(e.live[q[0].id], no, onResponse)) {
      FoundIsLive(e, q[1..], no, onResponse);
    }
  }

  lemma {:induction false} FrozenIsLive(e: Endpoint, q: seq<Id>, no: nat, onResponse: bool)
    ensures var id := FindFrozen(e, q, no, onResponse);
            id.Some? ==> id.value in e.live && Matches(e.live[id.value], no, onResponse)
                         && id.value in q && CountIds(q, id.value) > 0
  {
    if q != [] && !(q[0] in e.live && Matches(e.live[q[0]], no, onResponse)) {
      FrozenIsLive(e, q[1..], no, onResponse);
    }
  }

  /** An ACK changes neither a message's label nor its box. */
  lemma AckedOk(e: Endpoint, id: Id, m: Out)
    requires BoxesOk(e) && id in e.live && m.urgent == e.live[id].urgent && m.bytesSent == e.live[id].bytesSent
    ensures BoxesOk(e.(live := e.live[id := m]))
  {
    var d := e.(live := e.live[id := m]);
    forall j ensures Places(d, j) == if j in d.live then 1 else 0 {
      assert Places(e, j) == if j in e.live then 1 else 0;
    }
    hide Places;
  }

  lemma ThawedOk(e: Endpoint, id: Id)
    requires BoxesOk(e) && id in e.live && id in e.icebox && CountIds(e.icebox, id) > 0
    ensures BoxesOk(Thawed(e, id, e.live[id]))
  {
    var d := e.(icebox := WithoutId(e.icebox, id));
    assert Places(e, id) == 1;
    forall j ensures Places(d, j) == if j in d.live && j != id then 1 else 0 {
      CountWithout(e.icebox, id, j);
      assert Places(e, j) == if j in e.live then 1 else 0;
    }
    LabelledOther(d.live, d.outbox, id);
    LabelledOther(d.live, d.wayOut, id);
    hide Count, CountIds;
    RequeuedOk(d, id, e.live[id]);
    assert e.live[id := e.live[id]] == e.live;
  }

  lemma ReceivedAckOk(e: Endpoint, no: nat, onResponse: bool, body: seq<byte>)
    requires BoxesOk(e)
    ensures var r := ReceivedAck(e, no, onResponse, body);
            r.Received? ==> BoxesOk(r.e)
  {
    var found, frozen := FindItem(e, e.outbox, no, onResponse), FindFrozen(e, e.icebox, no, onResponse);
    FoundIsLive(e, e.outbox, no, onResponse);
    FrozenIsLive(e, e.icebox, no, onResponse);
    if (found.Some? || frozen.Some?) && Varint.Read(body).Complete? {
      var id := if found.Some? then found.value else frozen.value;
      var m := Acked(e.live[id], Varint.Read(body).value);
      AckedOk(e, id, m);
      if found.None? {
        ThawedOk(e.(live := e.live[id := m]), id);
      }
    }
    hide BoxesOk, FindItem, FindFrozen, Thawed;
  }

  lemma ReceivedOk(e: Endpoint, f: Frame)
    requires BoxesOk(e) && Receive(e, f).Received?
    ensures BoxesOk(Receive(e, f).e)
  {
    hide Take, ReceivedAck;
    if IsAck(f.kind) {
      ReceivedAckOk(e, f.no, f.kind.AckResponse?, f.body);
    } else if e.receiveOpen {
      var t := Take(e.rx, f);
      var d := e.(rx := t.rx);
      BoxesOnly(e, d);
      SentOk(d, NewAck(!f.kind.Request?, f.no, if t.ack.Some? then t.ack.value else 0));
      hide BoxesOk, Sent;
      var c := AckSent(d, f, t.ack);
      BoxesOnly(c, Receive(e, f).e);
    }
  }

  lemma StoppedOk(e: Endpoint)
    ensures BoxesOk(Stopped(e))
  {
    BoxesTold(e, 0);
    hide Emptied;
    var d := Stopped(e);
    forall j ensures Places(d, j) == 0 {
    }
  }

  // Reply futures.

  ghost predicate Expected(rx: Rx, id: Id) { exists k :: k in rx.pend && rx.pend[k].reply == Some(id) }

  predicate Waits(live: map<Id, Out>, id: Id) { id in live && live[id].awaits }

  /** The numbers of requests: each is used once, and a response is expected only after its request was sent. */
  ghost predicate NumbersOk(live: map<Id, Out>, lastNo: nat, rx: Rx) {
    && (forall id | id in live && live[id].kind.Request? :: live[id].no <= lastNo)
    && (forall id | id in live && live[id].no == 0 :: live[id].kind.Request?)
    && (forall k | k in rx.pend :: k.no > 0 && (k.res ==> k.no <= lastNo))
    && (forall id | id in live && live[id].kind.Request? && live[id].no > 0 :: Key(true, live[id].no) !in rx.pend)
    && (forall i, j | i in live && j in live && i != j && live[i].kind.Request? && live[j].kind.Request? ::
          live[i].no == live[j].no ==> live[i].no == 0)
  }

  /** A future is with the message, or with the response expected, or resolved; and only one of these. */
  ghost predicate FuturesOk(e: Endpoint) {
    && (forall id | Waits(e.live, id) :: id in e.requested && e.resolved[id] == 0 && e.live[id].kind.Request?)
    && (forall k | k in e.rx.pend && e.rx.pend[k].reply.Some? ::
          var id := e.rx.pend[k].reply.value;
          k.res && id !in e.live && id in e.requested && e.resolved[id] == 0)
    && (forall j, k | j in e.rx.pend && k in e.rx.pend && e.rx.pend[j].reply.Some? && e.rx.pend[k].reply.Some? ::
          e.rx.pend[j].reply == e.rx.pend[k].reply ==> j == k)
    && (forall id :: e.resolved[id] <= 1)
    && (forall id | id in e.resolved :: id in e.requested)
    && (forall id | id in e.lost :: id < e.nextId && id !in e.requested)
    && (forall id | id in e.requested :: id < e.nextId && (Waits(e.live, id) || Expected(e.rx, id) || e.resolved[id] == 1))
    && (forall id | id in e.live :: id < e.nextId)
  }

  /** A change to the live messages that leaves each future where it is. */
  lemma FuturesSame(e: Endpoint, d: Endpoint)
    requires FuturesOk(e) && d.rx == e.rx && d.requested == e.requested && d.lost == e.lost
    requires d.resolved == e.resolved && d.nextId >= e.nextId
    requires forall id :: Waits(d.live, id) <==> Waits(e.live, id)
    requires forall id | id in d.live && id !in e.live :: e.nextId <= id < d.nextId
    requires forall id | Waits(d.live, id) :: d.live[id].kind == e.live[id].kind
    ensures FuturesOk(d)
  {
  }

  lemma QueuedFuture(e: Endpoint, id: Id)
    requires FuturesOk(e) && id in e.live
    ensures FuturesOk(Queued(e, id, e.live[id]))
  {
    hide FuturesOk, Requeued, ItemOf;
    var d := Queued(e, id, e.live[id]);
    if e.sendOpen {
      FuturesSame(e, d);
    } else {
      EndedFuture(e, d, id, e.live[id].awaits);
    }
  }

  /** A message without a future is sent, or cannot be. */
  lemma SentFuture(e: Endpoint, m: Out)
    requires FuturesOk(e) && !m.awaits
    ensures FuturesOk(Sent(e, m))
  {
    FuturesSame(e, Sent(e, m));
  }

  lemma SentRequestFuture(e: Endpoint, payload: seq<byte>, urgent: bool, noReply: bool)
    requires FuturesOk(e)
    ensures FuturesOk(SentRequest(e, payload, urgent, noReply))
  {
    hide FuturesOk, Requeued, ItemOf;
    NewFuture(e, SentRequest(e, payload, urgent, noReply), NewRequest(payload, urgent, noReply));
  }

  lemma NewFuture(e: Endpoint, d: Endpoint, m: Out)
    requires FuturesOk(e) && m.awaits && m.kind.Request? && d.rx == e.rx && d.resolved == e.resolved
    requires d.nextId == e.nextId + 1
    requires || (d.live == e.live[e.nextId := m] && d.requested == e.requested + {e.nextId} && d.lost == e.lost)
             || (d.live == e.live && d.requested == e.requested && d.lost == e.lost + {e.nextId})
    ensures FuturesOk(d)
  {
    hide Expected;
    assert e.nextId !in e.resolved && e.nextId !in e.requested && e.nextId !in e.lost && e.nextId !in e.live;
  }

  lemma RopeLiftedFuture(e: Endpoint)
    requires FuturesOk(e)
    ensures FuturesOk(RopeLifted(e))
  {
    if e.wayOut != [] {
      var d := e.(wayOut := e.wayOut[1..]);
      FuturesSame(e, d);
      if e.wayOut[0].id in e.live {
        QueuedFuture(d, e.wayOut[0].id);
      }
    }
    hide FuturesOk;
  }

  lemma HandedOverFuture(e: Endpoint, id: Id, m: Out)
    requires FuturesOk(e) && id in e.live && e.live[id].awaits == m.awaits
    requires m.kind.Request? && !m.noReply ==> Key(true, m.no) !in e.rx.pend
    ensures FuturesOk(HandedOver(e, id, m))
  {
    hide FuturesOk;
    if m.kind.Request? && !m.noReply {
      ExpectedFuture(e, HandedOver(e, id, m), id, Key(true, m.no), m.awaits);
    } else {
      EndedFuture(e, HandedOver(e, id, m), id, m.awaits);
    }
  }

  /** A message goes, and its future to the response expected. */
  lemma ExpectedFuture(e: Endpoint, d: Endpoint, id: Id, k: Key, awaits: bool)
    requires FuturesOk(e) && id in e.live && e.live[id].awaits == awaits && k.res && k !in e.rx.pend
    requires d == e.(live := e.live - {id}, rx := d.rx)
    requires d.rx.pend == e.rx.pend[k := In([], 0, 0, if awaits then Some(id) else None)]
    ensures FuturesOk(d)
  {
    assert d.rx.pend[k].reply == if awaits then Some(id) else None;
    MoreExpected(e.rx, d.rx, k, id);
    assert d.live == e.live - {id};
    assert forall j | j in e.requested && j != id :: Waits(e.live, j) <==> Waits(d.live, j);
    hide Expected;
  }

  lemma MoreExpected(rx: Rx, rx': Rx, k: Key, id: Id)
    requires k in rx'.pend && k !in rx.pend && rx'.pend == rx.pend[k := rx'.pend[k]]
    ensures forall j: Id | Expected(rx, j) :: Expected(rx', j)
    ensures rx'.pend[k].reply == Some(id) ==> Expected(rx', id)
  {
    forall j: Id | Expected(rx, j) ensures Expected(rx', j) {
      var i :| i in rx.pend && rx.pend[i].reply == Some(j);
      assert i in rx'.pend && rx'.pend[i].reply == Some(j);
    }
  }

  /** A message goes, and its future is resolved. */
  lemma EndedFuture(e: Endpoint, d: Endpoint, id: Id, awaits: bool)
    requires FuturesOk(e) && id in e.live && e.live[id].awaits == awaits
    requires d == Resolved(e.(live := e.live - {id}), id, awaits)
    ensures FuturesOk(d)
  {
    hide Expected;
  }

  lemma CompletedFuture(e: Endpoint, id: Id, m: Out)
    requires FuturesOk(e) && id in e.live && e.live[id].awaits == m.awaits
    requires m.kind.Request? && !m.noReply ==> Key(true, m.no) !in e.rx.pend
    ensures FuturesOk(Completed(e, id, m))
  {
    hide FuturesOk, HandedOver, RopeLifted;
    HandedOverFuture(e, id, m);
    RopeLiftedFuture(HandedOver(e, id, m));
  }

  lemma DispatchedFuture(e: Endpoint, id: Id, m: Out, f: Frame)
    requires FuturesOk(e) && id in e.live && e.live[id].awaits == m.awaits && e.live[id].kind == m.kind
    requires m.kind.Request? && !m.noReply ==> Key(true, m.no) !in e.rx.pend
    ensures FuturesOk(Dispatched(e, id, m, f))
  {
    assert IsAck(m.kind) ==> !m.awaits by { assert e.live[id].awaits ==> Waits(e.live, id); }
    hide Requeued, Completed, FuturesOk, PutBack;
    var d, n := e.(sum := f.sum), BlipEndpoint.Advanced(m, |f.body|);
    FuturesSame(e, d);
    if IsAck(m.kind) {
      EndedOther(e, id);
    } else if f.more {
      PutBackFuture(d, id, n);
    } else {
      CompletedFuture(d, id, n);
    }
  }

  lemma EndedOther(e: Endpoint, id: Id)
    requires FuturesOk(e) && id in e.live && !e.live[id].awaits
    ensures FuturesOk(e.(live := e.live - {id}))
  {
    hide FuturesOk;
    FuturesSame(e, e.(live := e.live - {id}));
  }

  lemma PutBackFuture(e: Endpoint, id: Id, m: Out)
    requires FuturesOk(e) && id in e.live && e.live[id].awaits == m.awaits && e.live[id].kind == m.kind
    ensures FuturesOk(PutBack(e, id, m))
  {
    hide FuturesOk, Requeued, ItemOf;
    FuturesSame(e, PutBack(e, id, m));
  }

  lemma TransmittedFuture(e: Endpoint)
    requires FuturesOk(e) && NumbersOk(e.live, e.lastNo, e.rx) && HasOutput(e)
    ensures FuturesOk(Transmitted(e))
  {
    var id, m := e.outbox[0].id, Front(e);
    FuturesSame(e, Popped(e));
    assert m.kind.Request? ==> Key(true, m.no) !in e.rx.pend;
    hide FuturesOk, FrontFrame, Dispatched;
    DispatchedFuture(Popped(e), id, m, FrontFrame(e));
  }

  lemma AckedFuture(e: Endpoint, no: nat, onResponse: bool, body: seq<byte>)
    requires FuturesOk(e)
    ensures var r := ReceivedAck(e, no, onResponse, body);
            r.Received? ==> FuturesOk(r.e)
  {
    hide FindItem, FindFrozen, Requeued, WithoutId, FuturesOk, ItemOf, Varint.Read;
    var r := ReceivedAck(e, no, onResponse, body);
    if r.Received? {
      FuturesSame(e, r.e);
    }
  }

  /** A frame is taken; if it completes a response somebody waits for, their future is resolved. */
  function Taken(e: Endpoint, f: Frame, rx: Rx, message: In): Endpoint {
    var d := e.(rx := rx);
    if !f.more && !f.kind.Request? && message.reply.Some? then Resolved(d, message.reply.value, true) else d
  }

  lemma TakenFuture(e: Endpoint, f: Frame)
    requires FuturesOk(e) && Take(e.rx, f).Took?
    ensures FuturesOk(Taken(e, f, Take(e.rx, f).rx, Take(e.rx, f).message))
  {
    var t, k := Take(e.rx, f), KeyOf(f);
    TakeShape(e.rx, f);
    assert k in e.rx.pend && !k.res ==> e.rx.pend[k].reply.None?;
    var d := Taken(e, f, t.rx, t.message);
    hide Take, FuturesOk;
    if f.more {
      SameReplies(e, d);
    } else {
      OneReplyLess(e, d, k);
    }
  }

  lemma TakeShape(rx: Rx, f: Frame)
    requires Take(rx, f).Took?
    ensures var t, k := Take(rx, f), KeyOf(f);
            && t.message.reply == (if k in rx.pend then rx.pend[k].reply else None)
            && t.rx.pend == if f.more then rx.pend[k := t.message] else rx.pend - {k}
  {
    hide Refused, Crc;
  }

  lemma SameReplies(e: Endpoint, d: Endpoint)
    requires FuturesOk(e) && d == e.(rx := d.rx)
    requires forall j | j in e.rx.pend :: j in d.rx.pend && d.rx.pend[j].reply == e.rx.pend[j].reply
    requires forall j | j in d.rx.pend && j !in e.rx.pend :: d.rx.pend[j].reply.None?
    ensures FuturesOk(d)
  {
    forall id: Id | Expected(e.rx, id) ensures Expected(d.rx, id) {
      var j :| j in e.rx.pend && e.rx.pend[j].reply == Some(id);
      assert j in d.rx.pend && d.rx.pend[j].reply == Some(id);
    }
    hide Expected, Waits;
  }

  lemma OneReplyLess(e: Endpoint, d: Endpoint, k: Key)
    requires FuturesOk(e) && d.rx.pend == e.rx.pend - {k}
    requires d == e.(rx := d.rx, resolved := if k in e.rx.pend && e.rx.pend[k].reply.Some?
                                             then e.resolved + multiset{e.rx.pend[k].reply.value} else e.resolved)
    ensures FuturesOk(d)
  {
    forall id: Id | Expected(e.rx, id) ensures Expected(d.rx, id) || (k in e.rx.pend && e.rx.pend[k].reply == Some(id)) {
      var j :| j in e.rx.pend && e.rx.pend[j].reply == Some(id);
      assert j != k ==> j in d.rx.pend && d.rx.pend[j].reply == Some(id);
    }
    hide Expected, Waits;
  }

  lemma ReceivedFuture(e: Endpoint, f: Frame)
    requires FuturesOk(e) && Receive(e, f).Received?
    ensures FuturesOk(Receive(e, f).e)
  {
    hide Take, ReceivedAck, FuturesOk;
    if IsAck(f.kind) {
      AckedFuture(e, f.no, f.kind.AckResponse?, f.body);
    } else if e.receiveOpen {
      var t := Take(e.rx, f);
      TakenFuture(e, f);
      var d := Taken(e, f, t.rx, t.message);
      SentFuture(d, NewAck(!f.kind.Request?, f.no, if t.ack.Some? then t.ack.value else 0));
      hide NewAck, Requeued, ItemOf;
      assert Receive(e, f).e == AckSent(d, f, t.ack);
    }
  }

  lemma CancelledFirst(pend: map<Key, In>) returns (j: Key)
    requires pend != map[]
    ensures j in pend && Cancelled(pend) == ReplyOf(pend[j]) + Cancelled(pend - {j})
  {
    hide ReplyOf;
    j :| j in pend && Cancelled(pend) == ReplyOf(pend[j]) + Cancelled(pend - {j});
  }

  /** It does not matter in which order the incoming messages are told. */
  lemma {:induction false} CancelledAny(pend: map<Key, In>, k: Key)
    requires k in pend
    ensures Cancelled(pend) == ReplyOf(pend[k]) + Cancelled(pend - {k})
    decreases pend.Keys
  {
    hide ReplyOf, Cancelled;
    var j := CancelledFirst(pend);
    if j != k {
      CancelledAny(pend - {j}, k);
      CancelledAny(pend - {k}, j);
      assert pend - {j} - {k} == pend - {k} - {j};
    }
  }

  /** Two incoming messages never resolve the same future. */
  ghost predicate OneReplyEach(pend: map<Key, In>) {
    forall j, k | j in pend && k in pend && pend[j].reply.Some? && pend[j].reply == pend[k].reply :: j == k
  }

  lemma OneMoreReply(pend: map<Key, In>, less: map<Key, In>, k: Key, id: Id)
    requires OneReplyEach(pend) && k in pend && less == pend - {k}
    ensures ReplyOf(pend[k])[id] + (if exists j :: j in less && less[j].reply == Some(id) then 1 else 0)
         == if exists j :: j in pend && pend[j].reply == Some(id) then 1 else 0
  {
    if pend[k].reply == Some(id) {
      assert forall j | j in less :: less[j].reply != Some(id);
    } else {
      assert forall j | j in pend && pend[j].reply == Some(id) :: j in less && less[j].reply == Some(id);
      assert forall j | j in less && less[j].reply == Some(id) :: j in pend && pend[j].reply == Some(id);
    }
  }

  lemma {:induction false} CancelledOnce(pend: map<Key, In>, id: Id)
    requires OneReplyEach(pend)
    ensures Cancelled(pend)[id] == if exists k :: k in pend && pend[k].reply == Some(id) then 1 else 0
    decreases pend.Keys
  {
    if k :| k in pend {
      CancelledAny(pend, k);
      var less := pend - {k};
      assert OneReplyEach(less);
      CancelledOnce(less, id);
      hide Cancelled, OneReplyEach;
      OneMoreReply(pend, less, k, id);
    } else {
      assert pend == map[];
    }
  }

  lemma ReadClosedFuture(e: Endpoint)
    requires FuturesOk(e)
    ensures FuturesOk(ReadClosed(e))
    ensures forall id | Expected(e.rx, id) :: ReadClosed(e).resolved[id] == e.resolved[id] + 1
  {
    var d := ReadClosed(e);
    assert OneReplyEach(e.rx.pend);
    hide Cancelled;
    forall id: Id ensures d.resolved[id] == e.resolved[id] + if Expected(e.rx, id) then 1 else 0 {
      CancelledOnce(e.rx.pend, id);
    }
  }

  lemma {:induction false} ItemsTold(e: Endpoint, q: seq<Item>, id: Id)
    ensures var d := ItemsDisconnected(e, q);
            && d == e.(live := d.live, resolved := d.resolved)
            && (Waits(d.live, id) <==> Waits(e.live, id) && Count(q, id) == 0)
            && d.resolved[id] == e.resolved[id] + (if Waits(e.live, id) && Count(q, id) > 0 then 1 else 0)
    decreases |q|
  {
    if q != [] {
      ItemsTold(Disconnected(e, q[0].id), q[1..], id);
    }
  }

  lemma {:induction false} IdsTold(e: Endpoint, q: seq<Id>, id: Id)
    ensures var d := IdsDisconnected(e, q);
            && d == e.(live := d.live, resolved := d.resolved)
            && (Waits(d.live, id) <==> Waits(e.live, id) && CountIds(q, id) == 0)
            && d.resolved[id] == e.resolved[id] + (if Waits(e.live, id) && CountIds(q, id) > 0 then 1 else 0)
    decreases |q|
  {
    if q != [] {
      IdsTold(Disconnected(e, q[0]), q[1..], id);
    }
  }

  /**
   * Going through the three boxes resolves a future exactly if its message is in one of them: once, however often it is
   * there.
   */
  lemma BoxesTold(e: Endpoint, id: Id)
    ensures var d := Emptied(e);
            && d == e.(live := map[], outbox := [], wayOut := [], icebox := [], sendOpen := false, resolved := d.resolved)
            && d.resolved[id] == e.resolved[id] + (if Waits(e.live, id) && Places(e, id) > 0 then 1 else 0)
  {
    hide ItemsDisconnected, IdsDisconnected, Count, CountIds, Waits;
    var a := ItemsDisconnected(e, e.outbox);
    var b := IdsDisconnected(a, e.icebox);
    ItemsTold(e, e.outbox, id);
    IdsTold(a, e.icebox, id);
    ItemsTold(b, e.wayOut, id);
  }

  /** As every message is in a box, they resolve the futures of all messages, */
  lemma EmptiedFuture(e: Endpoint)
    requires FuturesOk(e) && BoxesOk(e)
    ensures FuturesOk(Emptied(e))
    ensures forall id | Waits(e.live, id) :: Emptied(e).resolved[id] == e.resolved[id] + 1
  {
    var d := Emptied(e);
    BoxesTold(e, 0);
    forall id ensures d.resolved[id] == e.resolved[id] + if Waits(e.live, id) then 1 else 0 {
      BoxesTold(e, id);
      assert Places(e, id) == if id in e.live then 1 else 0;
    }
    hide Emptied, Expected, BoxesOk, Places;
  }

  /** and after a stop every future has exactly one result. */
  lemma StoppedFuture(e: Endpoint)
    requires FuturesOk(e) && BoxesOk(e)
    ensures FuturesOk(Stopped(e)) && forall id | id in e.requested :: Stopped(e).resolved[id] == 1
  {
    EmptiedFuture(e);
    BoxesTold(e, 0);
    ReadClosedFuture(Emptied(e));
    assert Stopped(e).rx.pend == map[] && Stopped(e).live == map[] && Stopped(e).requested == e.requested;
    assert !exists k :: k in Stopped(e).rx.pend;
    hide Emptied, ReadClosed, BoxesOk;
  }

  // Numbers.

  lemma NumberedSent(e: Endpoint, m: Out)
    requires NumbersOk(e.live, e.lastNo, e.rx) && (m.no == 0 <==> m.kind.Request?)
    ensures var d := Sent(e, m);
            NumbersOk(d.live, d.lastNo, d.rx)
  {
    hide Requeued, ItemOf, NumbersOk;
    var d := Sent(e, m);
    if d.live == e.live[e.nextId := m] {
      NumberedNew(e.live, e.nextId, m, e.lastNo, e.rx);
    } else {
      NumberedSame(e.live, d.live, e.lastNo, e.rx);
    }
  }

  lemma NumberedNew(live: map<Id, Out>, id: Id, m: Out, lastNo: nat, rx: Rx)
    requires NumbersOk(live, lastNo, rx) && (m.no == 0 <==> m.kind.Request?)
    ensures NumbersOk(live[id := m], lastNo, rx)
  {
  }

  lemma NumberedPopped(e: Endpoint)
    requires NumbersOk(e.live, e.lastNo, e.rx) && HasOutput(e)
    ensures NumbersOk(Popped(e).live[e.outbox[0].id := Front(e)], Popped(e).lastNo, e.rx)
    ensures Front(e).no > 0
  {
  }

  /** Only the kinds and numbers matter. */
  lemma NumberedSame(a: map<Id, Out>, b: map<Id, Out>, lastNo: nat, rx: Rx)
    requires NumbersOk(a, lastNo, rx)
    requires forall id | id in b :: id in a && b[id].kind == a[id].kind && b[id].no == a[id].no
    ensures NumbersOk(b, lastNo, rx)
  {
  }

  lemma NumberedHandedOver(e: Endpoint, id: Id, m: Out)
    requires NumbersOk(e.live[id := m], e.lastNo, e.rx) && m.no > 0
    ensures NumbersOk(HandedOver(e, id, m).live, e.lastNo, HandedOver(e, id, m).rx)
  {
    var all, d := e.live[id := m], HandedOver(e, id, m);
    assert forall j | j in d.live :: j in all && d.live[j] == all[j];
    NumberedSame(all, d.live, e.lastNo, e.rx);
    if d.rx != e.rx {
      assert all[id] == m && id !in d.live;
      NumberedExpect(d.live, e.lastNo, e.rx, d.rx, Key(true, m.no));
    }
  }

  lemma NumberedExpect(live: map<Id, Out>, lastNo: nat, rx: Rx, rx': Rx, k: Key)
    requires NumbersOk(live, lastNo, rx) && k.res && 0 < k.no <= lastNo
    requires forall id | id in live && live[id].kind.Request? :: live[id].no != k.no
    requires forall j | j in rx'.pend :: j in rx.pend || j == k
    ensures NumbersOk(live, lastNo, rx')
  {
  }

  lemma HandedOverNumber(e: Endpoint, id: Id, m: Out)
    ensures HandedOver(e, id, m).lastNo == e.lastNo
  {
  }

  lemma NumberedCompleted(e: Endpoint, id: Id, m: Out)
    requires NumbersOk(e.live[id := m], e.lastNo, e.rx) && m.no > 0
    ensures var d := Completed(e, id, m);
            NumbersOk(d.live, d.lastNo, d.rx)
  {
    hide HandedOver, Requeued, ItemOf, NumbersOk;
    NumberedHandedOver(e, id, m);
    var h, d := HandedOver(e, id, m), Completed(e, id, m);
    assert h.lastNo == e.lastNo by { HandedOverNumber(e, id, m); }
    assert forall j | j in d.live :: j in h.live && d.live[j] == h.live[j];
    NumberedSame(h.live, d.live, h.lastNo, h.rx);
  }

  lemma NumberedTransmitted(e: Endpoint)
    requires NumbersOk(e.live, e.lastNo, e.rx) && HasOutput(e)
    ensures var d := Transmitted(e);
            NumbersOk(d.live, d.lastNo, d.rx)
  {
    NumberedPopped(e);
    var id, m, f, p := e.outbox[0].id, Front(e), FrontFrame(e), Popped(e);
    var n := BlipEndpoint.Advanced(m, |f.body|);
    var d := p.(sum := f.sum);
    hide NumbersOk, FrontFrame, Front, Requeued, ItemOf;
    NumberedSame(p.live[id := m], p.live[id := n], p.lastNo, p.rx);
    if IsAck(m.kind) {
      NumberedSame(p.live[id := m], p.live - {id}, p.lastNo, p.rx);
    } else if !f.more {
      NumberedCompleted(d, id, n);
    }
  }

  lemma NumberedAcked(e: Endpoint, no: nat, onResponse: bool, body: seq<byte>)
    requires NumbersOk(e.live, e.lastNo, e.rx)
    ensures var r := ReceivedAck(e, no, onResponse, body);
            r.Received? ==> NumbersOk(r.e.live, r.e.lastNo, r.e.rx)
  {
    var r := ReceivedAck(e, no, onResponse, body);
    hide FindItem, FindFrozen, Requeued, WithoutId, ItemOf, NumbersOk;
    if r.Received? {
      assert forall id | id in r.e.live ::
          id in e.live && r.e.live[id].kind == e.live[id].kind && r.e.live[id].no == e.live[id].no;
      NumberedSame(e.live, r.e.live, e.lastNo, e.rx);
    }
  }

  lemma NumberedTaken(e: Endpoint, f: Frame)
    requires NumbersOk(e.live, e.lastNo, e.rx) && Take(e.rx, f).Took?
    ensures NumbersOk(e.live, e.lastNo, Take(e.rx, f).rx) && f.no > 0
  {
    var rx := Take(e.rx, f).rx;
    assert forall k | k in rx.pend :: k in e.rx.pend || (k == KeyOf(f) && !k.res && k.no > 0);
    hide Take;
  }

  lemma NumberedReceived(e: Endpoint, f: Frame)
    requires NumbersOk(e.live, e.lastNo, e.rx) && Receive(e, f).Received?
    ensures var d := Receive(e, f).e;
            NumbersOk(d.live, d.lastNo, d.rx)
  {
    hide Take, ReceivedAck, NumbersOk;
    if IsAck(f.kind) {
      NumberedAcked(e, f.no, f.kind.AckResponse?, f.body);
    } else if e.receiveOpen {
      var t := Take(e.rx, f);
      NumberedTaken(e, f);
      NumberedSent(e.(rx := t.rx), NewAck(!f.kind.Request?, f.no, if t.ack.Some? then t.ack.value else 0));
      hide Sent;
    }
  }

  // All runs.

  datatype Op =
    | SendRequest(payload: seq<byte>, urgent: bool, noReply: bool)
    | Respond(no: nat, payload: seq<byte>, urgent: bool, isError: bool)
    | Transmit
    | ReceiveFrame(f: Frame)
    | CloseSend
    | CloseReceive
    | Stop

  /** Anything may be asked for at any time, and anything may be received that is no protocol error. */
  predicate Allowed(e: Endpoint, op: Op) {
    match op
    case Respond(no, _, _, _) => no > 0
    case Transmit => HasOutput(e)
    case ReceiveFrame(f) => Receive(e, f).Received?
    case _ => true
  }

  ghost function Done(e: Endpoint, op: Op): Endpoint
    requires Allowed(e, op)
  {
    match op
    case SendRequest(payload, urgent, noReply) => SentRequest(e, payload, urgent, noReply)
    case Respond(no, payload, urgent, isError) => Sent(e, NewResponse(no, payload, urgent, isError))
    case Transmit => Transmitted(e)
    case ReceiveFrame(f) => Receive(e, f).e
    case CloseSend => SendClosed(e)
    case CloseReceive => ReceiveClosed(e)
    case Stop => Stopped(e)
  }

  ghost predicate Conserved(e: Endpoint) { BoxesOk(e) && FuturesOk(e) && NumbersOk(e.live, e.lastNo, e.rx) }

  lemma SendKeeps(e: Endpoint, op: Op)
    requires Conserved(e) && Allowed(e, op) && (op.SendRequest? || op.Respond?)
    ensures Conserved(Done(e, op))
  {
    hide BoxesOk, FuturesOk, NumbersOk, Sent;
    if op.SendRequest? {
      var m := NewRequest(op.payload, op.urgent, op.noReply);
      SentOk(e, m);
      BoxesOnly(if TooLate(e, op.urgent) then e else Sent(e, m), Done(e, op));
      SentRequestFuture(e, op.payload, op.urgent, op.noReply);
      NumberedSent(e, m);
    } else {
      var m := NewResponse(op.no, op.payload, op.urgent, op.isError);
      SentOk(e, m);
      SentFuture(e, m);
      NumberedSent(e, m);
    }
  }

  lemma CloseKeeps(e: Endpoint, op: Op)
    requires Conserved(e) && (op.CloseSend? || op.CloseReceive? || op.Stop?)
    ensures Conserved(Done(e, op))
  {
    hide BoxesOk, FuturesOk, Cancelled, Emptied;
    if op.CloseSend? {
      BoxesOnly(e, SendClosed(e));
      FuturesSame(e, SendClosed(e));
    } else if op.CloseReceive? {
      BoxesOnly(e, ReceiveClosed(e));
      ReadClosedFuture(e);
    } else {
      StoppedOk(e);
      StoppedFuture(e);
      BoxesTold(e, 0);
    }
  }

  lemma TransmitKeeps(e: Endpoint)
    requires Conserved(e) && HasOutput(e)
    ensures Conserved(Transmitted(e))
  {
    hide BoxesOk, FuturesOk, NumbersOk, Transmitted;
    TransmittedOk(e);
    TransmittedFuture(e);
    NumberedTransmitted(e);
  }

  lemma ReceiveKeeps(e: Endpoint, f: Frame)
    requires Conserved(e) && Receive(e, f).Received?
    ensures Conserved(Receive(e, f).e)
  {
    hide BoxesOk, FuturesOk, NumbersOk, Receive;
    ReceivedOk(e, f);
    ReceivedFuture(e, f);
    NumberedReceived(e, f);
  }

  lemma OpKeeps(e: Endpoint, op: Op)
    requires Conserved(e) && Allowed(e, op)
    ensures Conserved(Done(e, op))
  {
    hide Conserved, Transmitted, Receive, Sent, SentRequest, Stopped, ReadClosed;
    match op
    case SendRequest(_, _, _) => SendKeeps(e, op);
    case Respond(_, _, _, _) => SendKeeps(e, op);
    case Transmit => TransmitKeeps(e);
    case ReceiveFrame(f) => ReceiveKeeps(e, f);
    case _ => CloseKeeps(e, op);
  }

  ghost predicate Run(e: Endpoint, ops: seq<Op>)
    decreases |ops|
  {
    ops == [] || (Allowed(e, ops[0]) && Run(Done(e, ops[0]), ops[1..]))
  }

  ghost function After(e: Endpoint, ops: seq<Op>): Endpoint
    requires Run(e, ops)
    decreases |ops|
  {
    if ops == [] then e else After(Done(e, ops[0]), ops[1..])
  }

  lemma {:induction false} RunKeeps(e: Endpoint, ops: seq<Op>)
    requires Conserved(e) && Run(e, ops)
    ensures Conserved(After(e, ops))
    decreases |ops|
  {
    if ops != [] {
      OpKeeps(e, ops[0]);
      hide Conserved, Allowed, Done;
      RunKeeps(Done(e, ops[0]), ops[1..]);
    }
  }

  /**
   * In every run: each live message is in exactly one box; no future is resolved twice, and one that is not resolved
   * is with a message still to be sent or a response still expected.
   */
  lemma NothingIsLost(ops: seq<Op>, id: Id)
    requires Run(INITIAL, ops)
    ensures var e := After(INITIAL, ops);
            && Places(e, id) == (if id in e.live then 1 else 0)
            && e.resolved[id] <= 1 && (id in e.lost ==> e.resolved[id] == 0 && id !in e.requested)
            && (id in e.requested ==> e.resolved[id] == (if Waits(e.live, id) || Expected(e.rx, id) then 0 else 1))
  {
    InitialIsConserved();
    RunKeeps(INITIAL, ops);
    var e := After(INITIAL, ops);
    hide Run, After;
  }

  lemma InitialIsConserved()
    ensures Conserved(INITIAL)
  {
    forall j ensures Places(INITIAL, j) == 0 {
    }
  }

  lemma ConservedStops(e: Endpoint)
    requires Conserved(e)
    ensures forall id | id in e.requested :: Stopped(e).resolved[id] == 1
  {
    hide Stopped;
    StoppedFuture(e);
  }

  /** Once the connection is stopped, every reply future ever handed out has its one result. */
  lemma StopResolvesAll(ops: seq<Op>, id: Id)
    requires Run(INITIAL, ops) && id in After(INITIAL, ops).requested
    ensures Stopped(After(INITIAL, ops)).resolved[id] == 1
  {
    hide Conserved, Run, After, Stopped;
    InitialIsConserved();
    RunKeeps(INITIAL, ops);
    ConservedStops(After(INITIAL, ops));
  }
}
