/**
 * The BLIPIO object, whose methods update its queues and its incoming messages in place. Each public method keeps what
 * is proved of an endpoint's operations, and a BLIPIO that has performed any operations is where their run ends.
 */
module BlipIO {
  import opened Bytes
  import opened Common
  import opened BlipFrame
  import opened BlipMessage
  import opened BlipOutbox
  import opened BlipStream
  import opened BlipEndpoint
  import opened BlipConservation
  import opened BlipFlow
  import Varint

  /** Copies data into a frame of `room` bytes, checksum included, until either is used up. */
  method NextFrameToSend(m: Out, room: nat) returns (n: nat)
    requires !IsAck(m.kind) && m.sent <= |m.payload| && room >= CHECKSUM_SIZE
    ensures n == Portion(m, room)
  {
    n := 0;
    var frame := room - CHECKSUM_SIZE;
    while true
      invariant m.sent + n <= |m.payload| && 0 <= frame == room - CHECKSUM_SIZE - n
      invariant n == 0 || n == |m.payload| - m.sent || frame == 0
      decreases |m.payload| - m.sent - n
    {
      var data := |m.payload| - m.sent - n;
      if data == 0 {
        break;
      }
      var count := if data < frame then data else frame;
      n := n + count;
      frame := frame - count;
      if frame < 1024 {
        break;
      }
    }
  }

  /** The object is the incoming message `m`, of which more is to come. */
  ghost predicate Holds(o: MessageIn, k: Key, m: In)
    reads o
  {
    && o.Valid() && !o.complete && Key(o.isResponse, o.number) == k
    && o.got == m.got && o.rawBytesReceived == m.raw && o.unackedBytes == m.unacked && o.reply == m.reply
  }

  /** A frame's data is counted, and added to its message. */
  method AddFrame(m: MessageIn, f: Frame, sum0: nat, ghost k: Key, ghost v: In)
    returns (ok: bool, ack: Option<nat>, sum: nat)
    requires Holds(m, k, v)
    modifies m
    ensures ok <==> !Refused(v.got, f.body, f.more) && f.sum == Crc(sum0, f.body)
    ensures ok ==> ack == AckDue(v, f) && sum == f.sum && (f.more ==> Holds(m, k, Extended(v, f)))
    ensures ok ==> m.Valid() && m.complete == !f.more && m.got == Extended(v, f).got && m.reply == v.reply
  {
    hide Refused, Crc;
    ack := m.Acknowledge(|f.body| + CHECKSUM_SIZE);
    ok, sum := m.ReceivedFrame(f.body, f.more, f.sum, sum0);
  }

  /** Every incoming message is told that the connection is closed, in any order; `now` is what is resolved then. */
  method CancelAll(pending: map<Key, MessageIn>, ghost pend: map<Key, In>, ghost resolved: multiset<Id>)
    returns (ghost now: multiset<Id>)
    requires pending.Keys == pend.Keys && forall k | k in pending :: pending[k].reply == pend[k].reply
    ensures now == resolved + Cancelled(pend)
  {
    hide Cancelled, ReplyOf;
    var left := pending.Keys;
    ghost var rest := pend;
    now := resolved;
    while left != {}
      invariant left == rest.Keys && left <= pending.Keys && forall k | k in left :: rest[k].reply == pending[k].reply
      invariant now + Cancelled(rest) == resolved + Cancelled(pend)
    {
      var k :| k in left;
      TellOne(rest, k, pending[k].reply, now);
      now := now + ReplyOf(In([], 0, 0, pending[k].reply));
      left, rest := left - {k}, rest - {k};
    }
    assert rest == map[];
    NothingCancelled();
    assert now + multiset{} == now;
  }

  method NewMessage(k: Key, reply: Option<Id>) returns (m: MessageIn)
    ensures fresh(m) && Holds(m, k, In([], 0, 0, reply))
  {
    m := new MessageIn(k.res, k.no, reply);
  }

  class BLIPIO {
    const outbox: Outbox
    var live: map<Id, Out>              // the outgoing messages, by identity
    var wayOut: seq<Item>
    var icebox: seq<Id>
    var nextId: Id
    var lastNo: nat
    var outSum: nat
    var numReq: nat
    var pending: map<Key, MessageIn>    // unfinished requests, and responses expected
    var inSum: nat
    var sendOpen: bool
    var receiveOpen: bool
    ghost var pend: map<Key, In>        // what is in the pending messages
    ghost var messages: set<MessageIn>  // all that were ever pending
    ghost var requested: set<Id>
    ghost var lost: set<Id>
    ghost var resolved: multiset<Id>

    ghost function Receiver(): Rx
      reads `numReq, `pend, `inSum
    {
      Rx(numReq, pend, inSum)
    }

    ghost function State(): Endpoint
      reads this, outbox
    {
      Endpoint(live, outbox.items, wayOut, icebox, nextId, lastNo, outSum, Receiver(), sendOpen, receiveOpen,
               requested, lost, resolved)
    }

    /** The pending messages hold what they should. */
    ghost predicate Held()
      reads `pending, `pend, `messages, messages
    {
      pending.Keys == pend.Keys && forall k | k in pending :: pending[k] in messages && Holds(pending[k], k, pend[k])
    }

    ghost predicate Valid()
      reads this, outbox, messages
    {
      Held() && Sound(State())
    }

    constructor ()
      ensures Valid() && State() == INITIAL && fresh(outbox) && fresh(messages)
    {
      outbox := new Outbox();
      live, wayOut, icebox, nextId, lastNo, outSum := map[], [], [], 0, 0, 0;
      numReq, pending, inSum, sendOpen, receiveOpen := 0, map[], 0, true, true;
      pend, messages, requested, lost, resolved := map[], {}, {}, {}, multiset{};
      new;
      InitialIsSound();
      hide Sound;
    }

    // Sending.

    method QueueMessage(id: Id, m: Out)
      requires sendOpen ==> Nowhere(State(), id)
      modifies `live, `resolved, outbox
      ensures State() == Queued(old(State()), id, m)
    {
      if !sendOpen {
        live := live - {id};
        if m.awaits {
          resolved := resolved + multiset{id};
        }
        return;
      }
      live := live[id := m];
      outbox.Requeue(ItemOf(id, m));
    }

    method Send(m: Out)
      requires Nowhere(State(), nextId)
      modifies `nextId, `live, `wayOut, `resolved, outbox
      ensures State() == Sent(old(State()), m)
    {
      var id := nextId;
      nextId := nextId + 1;
      if m.urgent || |outbox.items| < OUTBOX_CAPACITY {
        QueueMessage(id, m);
      } else {
        live := live[id := m];
        wayOut := wayOut + [ItemOf(id, m)];
      }
    }

    /**
     * Sends a request. Its reply future is made once it has been sent, and is in the message's hands unless that is
     * gone.
     */
    method SendRequest(payload: seq<byte>, urgent: bool, noReply: bool) returns (ghost id: Id)
      requires Valid()
      modifies `nextId, `live, `wayOut, `resolved, `requested, `lost, outbox
      ensures Valid() && State() == SentRequest(old(State()), payload, urgent, noReply)
      ensures id !in old(requested) && id !in old(lost)
      ensures if old(TooLate(State(), urgent)) then id in lost && id !in live
              else id in requested && resolved[id] == 0 && Places(State(), id) == 1
                   && id in live && AsRequested(live[id], payload, urgent, noReply)
    {
      hide AsRequested, Sound, Sent, SentRequest, TooLate, Held, Nowhere, NewRequest, Done, Places;
      ghost var e := State();
      RequestSound(e, payload, urgent, noReply);
      RequestEffect(e, payload, urgent, noReply);
      var i := nextId;
      Send(NewRequest(payload, urgent, noReply).(awaits := false));
      if i in live {
        live := live[i := live[i].(awaits := true)];
        requested := requested + {i};
      } else {
        lost := lost + {i};
      }
      id := i;
    }

    /** Sends a response, unless it is too late for that. No other message and no future is touched. */
    method Respond(no: nat, payload: seq<byte>, urgent: bool, isError: bool) returns (ghost id: Id)
      requires Valid() && no > 0
      modifies `nextId, `live, `wayOut, `resolved, outbox
      ensures Valid() && State() == Sent(old(State()), NewResponse(no, payload, urgent, isError))
      ensures id !in old(live) && resolved == old(resolved)
      ensures if old(TooLate(State(), urgent)) then live == old(live)
              else && id in live && live == old(live)[id := live[id]] && Places(State(), id) == 1
                   && AsAnswered(live[id], no, payload, urgent, isError)
    {
      hide Sound, Sent, Held, Nowhere, Done, Places, TooLate, AsAnswered;
      id := nextId;
      ghost var e := State();
      ResponseSound(e, no, payload, urgent, isError);
      ResponseEffect(e, no, payload, urgent, isError);
      SoundAsserts(e);
      Send(NewResponse(no, payload, urgent, isError));
    }

    method FreezeMessage(id: Id, m: Out)
      requires Nowhere(State(), id)
      modifies `live, `icebox
      ensures State() == old(State()).(live := old(live)[id := m], icebox := old(icebox) + [id])
    {
      live := live[id := m];
      icebox := icebox + [id];
    }

    method ThawMessage(id: Id)
      requires id in live && id in icebox
      requires forall i | 0 <= i < |outbox.items| :: outbox.items[i].id != id
      modifies `icebox, outbox
      ensures State() == Thawed(old(State()), id, live[id])
    {
      var i := 0;
      while i < |icebox| && icebox[i] != id
        invariant i <= |icebox| && id !in icebox[..i]
      {
        i := i + 1;
      }
      assert i < |icebox| by { assert icebox[..|icebox|] == icebox; }
      WithoutAt(icebox, id, i);
      icebox := icebox[..i] + icebox[i + 1..];
      outbox.Requeue(ItemOf(id, live[id]));
    }

    /** A message that waited outside comes in. */
    method LiftRope()
      requires wayOut != [] && wayOut[0].id in live && sendOpen ==> Nowhere(State(), wayOut[0].id)
      modifies `wayOut, `live, `resolved, outbox
      ensures State() == RopeLifted(old(State()))
    {
      hide Queued;
      if wayOut != [] {
        var item := wayOut[0];
        wayOut := wayOut[1..];
        if item.id in live {
          QueueMessage(item.id, live[item.id]);
        }
      }
    }

    method Remember(k: Key, m: MessageIn, ghost v: In)
      requires Held() && k !in pending && Holds(m, k, v)
      modifies `pending, `pend, `messages
      ensures Held() && pend == old(pend)[k := v] && pending == old(pending)[k := m] && messages == old(messages) + {m}
    {
      hide Holds;
      pending := pending[k := m];
      pend := pend[k := v];
      messages := messages + {m};
    }

    method Forget(k: Key)
      requires Held()
      modifies `pending, `pend
      ensures Held() && pend == old(pend) - {k} && pending == old(pending) - {k}
    {
      hide Holds;
      pending, pend := pending - {k}, pend - {k};
    }

    /** An incoming message is expected, of which nothing has come. */
    method Expect(k: Key, reply: Option<Id>) returns (m: MessageIn)
      requires Held() && k !in pending
      modifies `pending, `pend, `messages
      ensures Held() && pend == old(pend)[k := In([], 0, 0, reply)] && pending == old(pending)[k := m]
      ensures fresh(m) && messages == old(messages) + {m} && Holds(m, k, In([], 0, 0, reply))
    {
      hide Held, Holds;
      m := NewMessage(k, reply);
      Remember(k, m, In([], 0, 0, reply));
    }

    /** A request that has been sent expects its response; other messages are done with. */
    method HandOver(id: Id, m: Out)
      requires Held()
      modifies `live, `pending, `pend, `messages, `resolved
      ensures Held() && fresh(messages - old(messages))
      ensures live == old(live) - {id} && resolved == old(resolved) + Ended(id, m)
      ensures Receiver() == ReplyExpected(old(Receiver()), id, m)
    {
      SameKeys();
      hide Held, Holds;
      live := live - {id};
      if m.kind.Request? && !m.noReply {
        var k := Key(true, m.no);
        if k !in pending {
          var _ := Expect(k, if m.awaits then Some(id) else None);
        }
      } else if m.awaits {
        resolved := resolved + multiset{id};
      }
    }

    lemma HeldAt(k: Key)
      requires Held() && k in pending
      ensures k in pend && Holds(pending[k], k, pend[k]) && pending[k] in messages
      ensures forall j | j in pending && j != k :: pending[j] != pending[k]
    {
    }

    lemma SameKeys()
      requires Held()
      ensures pending.Keys == pend.Keys
    {
    }

    /** The last frame of a message has been sent. */
    method Complete(id: Id, m: Out)
      requires Held() && (wayOut != [] ==> Nowhere(State(), wayOut[0].id) && wayOut[0].id != id)
      modifies `live, `wayOut, `resolved, `pending, `pend, `messages, outbox
      ensures State() == Completed(old(State()), id, m) && Held() && fresh(messages - old(messages))
    {
      hide RopeLifted, HandedOver, Held, Nowhere, ReplyExpected, Ended;
      RopeFirst(State(), id, m);
      LiftRope();
      HandedOverIs(State(), id, m);
      HandOver(id, m);
    }

    /** A message with more to send goes back to the queue, or on ice. */
    method ReturnMessage(id: Id, m: Out)
      requires Nowhere(State(), id)
      modifies `live, `icebox, outbox
      ensures State() == PutBack(old(State()), id, m)
    {
      assert ItemOf(id, m) !in outbox.items;
      hide Requeued, ItemOf;
      if m.NeedsAck() && receiveOpen {
        FreezeMessage(id, m);
      } else {
        live := live[id := m];
        outbox.Requeue(ItemOf(id, m));
      }
    }

    /** Decides what becomes of a message after a frame of it. */
    method Dispatch(id: Id, m: Out, f: Frame)
      requires Held() && Nowhere(State(), id) && (wayOut != [] ==> Nowhere(State(), wayOut[0].id) && wayOut[0].id != id)
      modifies `live, `outSum, `icebox, `wayOut, `resolved, `pending, `pend, `messages, outbox
      ensures State() == Dispatched(old(State()), id, m, f) && Held() && fresh(messages - old(messages))
    {
      hide Completed, PutBack, Held, BlipEndpoint.Advanced;
      if IsAck(m.kind) {
        live := live - {id};
        return;
      }
      outSum := f.sum;
      var n := BlipEndpoint.Advanced(m, |f.body|);
      if f.more {
        ReturnMessage(id, n);
      } else {
        Complete(id, n);
      }
    }

    /** Takes the message at the head of the outbox and makes a frame of what comes next in it. */
    method CreateNextFrame() returns (f: Frame)
      requires Valid() && outbox.items != []
      modifies `live, `lastNo, `outSum, `icebox, `wayOut, `resolved, `pending, `pend, `messages, outbox
      ensures Valid() && fresh(messages - old(messages))
      ensures HasOutput(old(State())) && f == FrontFrame(old(State())) && State() == Transmitted(old(State()))
      ensures NextOf(f, old(live[outbox.items[0].id])) && FitsFrame(f)
      ensures f.no < Varint.UINT64 ==>
                FillsFrame(f, old(live[outbox.items[0].id].urgent || |outbox.items| == 1 || !outbox.items[1].urgent))
    {
      hide FillsFrame, Dispatched, NextFrame, Portion, Room, Sound, Held, Nowhere, Done, NextOf, FitsFrame;
      ghost var e := State();
      HeadIsReady(e);
      TransmitSound(e);
      FrontGoesOn(e);
      FrontFills(e);
      var id := outbox.items[0].id;
      outbox.items := outbox.items[1..];
      var m := live[id];
      if m.no == 0 {
        lastNo := lastNo + 1;
        m := m.(no := lastNo);
      }
      var room, n := Room(m, m.no, outbox.items), 0;
      if IsAck(m.kind) {
        n := Portion(m, room);
      } else {
        n := NextFrameToSend(m, room);
      }
      f := NextFrame(m, n, outSum);
      Dispatch(id, m, f);
    }

    // Receiving.

    /** The first message in the outbox that an ACK may be for. */
    method FindMessage(no: nat, onResponse: bool) returns (id: Option<Id>)
      ensures id == FindItem(State(), outbox.items, no, onResponse)
    {
      var i := 0;
      while i < |outbox.items|
        invariant i <= |outbox.items|
        invariant FindItem(State(), outbox.items[i..], no, onResponse) == FindItem(State(), outbox.items, no, onResponse)
      {
        var item := outbox.items[i];
        if item.id in live && Matches(live[item.id], no, onResponse) {
          return Some(item.id);
        }
        assert outbox.items[i..][1..] == outbox.items[i + 1..];
        i := i + 1;
      }
      id := None;
    }

    method FindIced(no: nat, onResponse: bool) returns (id: Option<Id>)
      ensures id == FindFrozen(State(), icebox, no, onResponse)
    {
      var i := 0;
      while i < |icebox|
        invariant i <= |icebox|
        invariant FindFrozen(State(), icebox[i..], no, onResponse) == FindFrozen(State(), icebox, no, onResponse)
      {
        if icebox[i] in live && Matches(live[icebox[i]], no, onResponse) {
          return Some(icebox[i]);
        }
        assert icebox[i..][1..] == icebox[i + 1..];
        i := i + 1;
      }
      id := None;
    }

    /** Finds the message an ACK is for, and lets it go on if it was frozen. */
    method GotAck(no: nat, onResponse: bool, body: seq<byte>) returns (ok: bool)
      requires BoxesOk(State())
      modifies `live, `icebox, outbox
      ensures var r := ReceivedAck(old(State()), no, onResponse, body);
              ok == r.Received? && (ok ==> State() == r.e)
    {
      AssertsHold(State());
      hide FindItem, FindFrozen, Varint.Read, Thawed, BoxesOk;
      var found := FindMessage(no, onResponse);
      var iced := FindIced(no, onResponse);
      if found.None? && iced.None? {
        return true;
      }
      var count := Varint.ReadPartial(body);
      if !count.Complete? {
        return false;
      }
      var id := if found.Some? then found.value else iced.value;
      if id !in live {
        return true;
      }
      var m := Acked(live[id], count.value);
      live := live[id := m];
      if found.None? && !m.NeedsAck() {
        assert id in icebox by { FrozenIsIced(old(State()), icebox, no, onResponse); }
        ThawMessage(id);
      }
      ok := true;
    }

    /** A message that has begun, which leaves the map with its last frame. */
    method KnownMessage(k: Key, more: bool) returns (m: MessageIn)
      requires Held() && k in pending
      modifies `pending, `pend
      ensures Held() && k in old(pend) && Holds(m, k, old(pend)[k]) && m in messages
      ensures pend == (if more then old(pend)[k := old(pend)[k]] else old(pend) - {k}) && (k in pending <==> more)
      ensures (more ==> pending[k] == m) && forall j | j in pending && j != k :: pending[j] != m
    {
      HeldAt(k);
      hide Held, Holds;
      m := pending[k];
      if !more {
        Forget(k);
      }
    }

    /** A message that begins with this frame. */
    method FirstMessage(k: Key, more: bool) returns (m: MessageIn)
      requires Held() && k !in pending
      modifies `pending, `pend, `messages
      ensures Held() && Holds(m, k, NEW_IN) && fresh(m) && fresh(messages - old(messages))
      ensures pend == (if more then old(pend)[k := NEW_IN] else old(pend) - {k}) && (k in pending <==> more)
      ensures (more ==> pending[k] == m) && forall j | j in pending && j != k :: pending[j] != m
    {
      SameKeys();
      hide Held, Holds;
      if more {
        m := Expect(k, None);
      } else {
        m := NewMessage(k, None);
        assert pend == pend - {k};
      }
    }

    /** The message a data frame is for, if its number is right. */
    method PendingMessage(f: Frame) returns (m: MessageIn?)
      requires Held()
      modifies `pending, `pend, `messages, `numReq
      ensures var slot, k := Slot(old(Receiver()), f), KeyOf(f);
              && (m == null <==> slot.None?)
              && (m != null ==>
                    && Holds(m, k, slot.value) && (m in old(messages) || fresh(m))
                    && numReq == (if k in old(pend) then old(numReq) else f.no)
                    && pend == (if f.more then old(pend)[k := slot.value] else old(pend) - {k})
                    && (k in pending <==> f.more) && (f.more ==> pending[k] == m)
                    && forall j | j in pending && j != k :: pending[j] != m)
      ensures Held() && fresh(messages - old(messages))
    {
      SameKeys();
      hide Held, Holds;
      var k := KeyOf(f);
      m := null;
      if k in pending {
        m := KnownMessage(k, f.more);
      } else if f.kind.Request? && f.no == numReq + 1 {
        numReq := f.no;
        m := FirstMessage(k, f.more);
      }
    }

    /** A frame is added to its message, which is still pending unless this is the last frame. */
    method Absorb(m: MessageIn, f: Frame, ghost k: Key, ghost v: In) returns (ok: bool, ack: Option<nat>)
      requires Held() && Holds(m, k, v) && (k in pending <==> f.more) && (f.more ==> pending[k] == m)
      requires forall j | j in pending && j != k :: pending[j] != m
      modifies `inSum, `pend, m
      ensures ok <==> !Refused(v.got, f.body, f.more) && f.sum == Crc(old(inSum), f.body)
      ensures ok ==> Held() && inSum == f.sum && pend == if f.more then old(pend)[k := Extended(v, f)] else old(pend)
      ensures ok ==> ack == AckDue(v, f) && m.Valid() && m.complete == !f.more
      ensures ok ==> m.got == Extended(v, f).got && m.reply == v.reply
    {
      hide Holds, Extended, AckDue, Refused, Crc;
      var sum;
      ok, ack, sum := AddFrame(m, f, inSum, k, v);
      if ok {
        inSum := sum;
        if f.more {
          pend := pend[k := Extended(v, f)];
        }
        assert forall j | j in pending && j != k :: Holds(pending[j], j, pend[j]);
      }
    }

    /** Adds a data frame to its message. */
    method TakeFrame(f: Frame) returns (ok: bool, ack: Option<nat>, m: MessageIn?)
      requires Held()
      modifies `pending, `pend, `numReq, `inSum, `messages, messages
      ensures ok <==> Take(old(Receiver()), f).Took?
      ensures ok ==> Receiver() == Take(old(Receiver()), f).rx && Held()
      ensures ok ==> fresh(messages - old(messages)) && ack == Take(old(Receiver()), f).ack
      ensures ok ==> m != null && m.Valid() && m.complete == !f.more
                     && m.got == Take(old(Receiver()), f).message.got && m.reply == Take(old(Receiver()), f).message.reply
    {
      ghost var rx := Receiver();
      TakeIs(rx, f);
      hide Take, Slot, Holds, Held, Extended, AckDue;
      m := PendingMessage(f);
      if m == null {
        return false, None, m;
      }
      ok, ack := Absorb(m, f, KeyOf(f), Slot(rx, f).value);
      SetTwice(rx.pend, KeyOf(f), Slot(rx, f).value, Extended(Slot(rx, f).value, f));
    }

    /** Adds a data frame to its message, and acknowledges it if that is due. */
    method TakeAndAcknowledge(f: Frame) returns (ok: bool, m: MessageIn?)
      requires !IsAck(f.kind) && Held() && Nowhere(State(), nextId)
      modifies this, outbox, messages
      ensures var t := Take(old(State()).rx, f);
              && ok == t.Took?
              && (ok ==> State() == AckSent(old(State()).(rx := t.rx), f, t.ack) && Held() && fresh(messages - old(messages)))
              && (ok ==> m != null && m.Valid() && m.complete == !f.more && m.got == t.message.got && m.reply == t.message.reply)
    {
      hide Take, Sent, Held, Nowhere, NewAck;
      ghost var e := State();
      var ack;
      ok, ack, m := TakeFrame(f);
      if ok {
        NowhereSame(e, State(), nextId);
        if ack.Some? {
          Send(NewAck(!f.kind.Request?, f.no, ack.value));
        }
      }
    }

    /** Takes a data frame; a request that is complete is returned, and a response goes to whoever waits for it. */
    method GotData(f: Frame) returns (ok: bool, msg: MessageIn?, ghost event: Event)
      requires !IsAck(f.kind) && Held() && Nowhere(State(), nextId)
      modifies this, outbox, messages
      ensures var r := ReceivedData(old(State()), f);
              && ok == r.Received?
              && (ok ==> State() == r.e && event == r.event && Held() && fresh(messages - old(messages)))
              && (ok ==> (msg != null <==> event.GotRequest?))
              && (ok && msg != null ==> msg.Valid() && msg.complete && msg.got == event.payload)
    {
      hide Take, AckSent, Held, Nowhere;
      msg, event := null, Nothing;
      if !receiveOpen {
        return true, msg, event;
      }
      var m;
      ok, m := TakeAndAcknowledge(f);
      if ok && !f.more {
        if f.kind.Request? {
          msg, event := m, GotRequest(f.no, m.got, f.noReply);
        } else {
          if m.reply.Some? {
            resolved := resolved + multiset{m.reply.value};
          }
          event := GotResponse(f.no, m.got);
        }
      }
    }

    /**
     * Takes a frame as bytes; `msg` is the request it completes, if it does. After an error the connection is given up.
     */
    method Receive(bs: seq<byte>) returns (ok: bool, msg: MessageIn?, ghost event: Event)
      requires Valid()
      modifies this, outbox, messages
      ensures var r := ReceiveBytes(old(State()), bs);
              && ok == r.Received?
              && (ok ==> State() == r.e && event == r.event && Valid() && fresh(messages - old(messages)))
              && (ok ==> (msg != null <==> event.GotRequest?))
              && (ok && msg != null ==> msg.Valid() && msg.complete && msg.got == event.payload)
    {
      hide Sound, BoxesOk, ReceivedAck, ReceivedData, BlipFrame.Parse, Nowhere, Held, Done;
      ghost var e := State();
      SoundAsserts(e);
      match BlipFrame.Parse(bs)
      case Invalid => return false, null, Nothing;
      case Ignored => return true, null, Nothing;
      case Parsed(f) =>
        if BlipEndpoint.Receive(e, f).Received? {
          ReceiptSound(e, f);
        }
        if IsAck(f.kind) {
          ok := GotAck(f.no, f.kind.AckResponse?, f.body);
          msg, event := null, Nothing;
          AckIsNoEvent(e, f.no, f.kind.AckResponse?, f.body);
        } else {
          ok, msg, event := GotData(f);
        }
    }

    // Closing.

    /** No new message is sent from now on. */
    method CloseSend()
      requires Valid()
      modifies `sendOpen
      ensures Valid() && State() == SendClosed(old(State())) && !sendOpen
    {
      hide Sound, Held, Done, ReceiveClosed, Stopped;
      ClosingSound(State());
      if sendOpen {
        sendOpen := false;
      }
    }

    method CloseRead()
      requires Held()
      modifies `receiveOpen, `pending, `pend, `resolved
      ensures State() == ReadClosed(old(State())) && Held() && pending == map[] && !receiveOpen
    {
      hide Cancelled, Held;
      SameReplies();
      receiveOpen := false;
      resolved := CancelAll(pending, pend, resolved);
      pending, pend := map[], map[];
      NoneHeld();
    }

    lemma SameReplies()
      requires Held()
      ensures pending.Keys == pend.Keys && forall k | k in pending :: pending[k].reply == pend[k].reply
    {
    }

    lemma NoneHeld()
      requires pending == map[] && pend == map[]
      ensures Held()
    {
    }

    /** The peer's messages are not awaited any longer, and whoever waits for a reply gets none. */
    method CloseReceive()
      requires Valid()
      modifies `receiveOpen, `pending, `pend, `resolved
      ensures Valid() && State() == ReceiveClosed(old(State())) && !receiveOpen
      ensures old(receiveOpen) ==> pending == map[] && forall id | Expected(old(Receiver()), id) :: resolved[id] == 1
      ensures !old(receiveOpen) ==> pending == old(pending)
    {
      hide Sound, Held, Done, ReadClosed, Stopped, Expected;
      ClosingSound(State());
      CloseEffect(State());
      if receiveOpen {
        CloseRead();
      }
    }

    method Disconnect(id: Id)
      modifies `live, `resolved
      ensures State() == Disconnected(old(State()), id)
    {
      if id in live && live[id].awaits {
        live := live[id := live[id].(awaits := false)];
        resolved := resolved + multiset{id};
      }
    }

    method DisconnectItems(q: seq<Item>)
      modifies `live, `resolved
      ensures State() == ItemsDisconnected(old(State()), q)
    {
      hide Disconnected;
      for i := 0 to |q|
        invariant ItemsDisconnected(State(), q[i..]) == ItemsDisconnected(old(State()), q)
      {
        assert q[i..][1..] == q[i + 1..];
        Disconnect(q[i].id);
      }
    }

    method DisconnectIced()
      modifies `live, `resolved
      ensures State() == IdsDisconnected(old(State()), icebox)
    {
      hide Disconnected;
      for i := 0 to |icebox|
        invariant IdsDisconnected(State(), icebox[i..]) == IdsDisconnected(old(State()), icebox)
      {
        assert icebox[i..][1..] == icebox[i + 1..];
        Disconnect(icebox[i]);
      }
    }

    /** Every outgoing message is told, box by box, and the boxes are emptied. */
    method Discard()
      modifies `live, `resolved, `icebox, `wayOut, `sendOpen, outbox
      ensures State() == Emptied(old(State()))
    {
      hide ItemsDisconnected, IdsDisconnected;
      DisconnectItems(outbox.items);
      DisconnectIced();
      DisconnectItems(wayOut);
      outbox.items := [];
      icebox, wayOut, live, sendOpen := [], [], map[], false;
    }

    /** Everything is dropped, and every reply future that was kept has exactly one result. */
    method Stop()
      requires Valid()
      modifies `live, `resolved, `icebox, `wayOut, `sendOpen, `receiveOpen, `pending, `pend, outbox
      ensures Valid() && State() == Stopped(old(State())) && pending == map[]
      ensures live == map[] && requested == old(requested) && forall id | id in requested :: resolved[id] == 1
      ensures !sendOpen && !receiveOpen && outbox.items == [] && icebox == [] && wayOut == []
    {
      hide Sound, Held, Done, ReadClosed, Emptied, ReceiveClosed;
      ghost var e := State();
      ClosingSound(e);
      StopEffect(e);
      Discard();
      CloseRead();
    }

    /** Performs an operation; a frame that is received comes as bytes. */
    method Perform(op: Op)
      requires Valid() && Allowed(State(), op) && OnWire(op)
      modifies this, outbox, messages
      ensures Valid() && State() == Done(old(State()), op) && fresh(messages - old(messages))
    {
      hide Sound, Held, Done, Allowed, OnWire, SentRequest, Sent, ReceiveClosed, Stopped, SendClosed, Transmitted,
           FrontFrame, ReceiveBytes;
      DoneIs(State(), op);
      match op
      case SendRequest(payload, urgent, noReply) => var _ := SendRequest(payload, urgent, noReply);
      case Respond(no, payload, urgent, isError) => var _ := Respond(no, payload, urgent, isError);
      case Transmit => var _ := CreateNextFrame();
      case ReceiveFrame(f) => var _, _, _ := Receive(FrameBytes(f));
      case CloseSend => CloseSend();
      case CloseReceive => CloseReceive();
      case Stop => Stop();
    }
  }

  /** Frames received can be written as bytes. */
  predicate OnWire(op: Op) {
    op.ReceiveFrame? ==> BlipFrame.Parse(FrameBytes(op.f)) == Parsed(op.f)
  }

  /** A BLIPIO that has performed any operations is in the state in which their run ends. */
  method Drive(ops: seq<Op>) returns (io: BLIPIO)
    requires Run(INITIAL, ops) && forall op | op in ops :: OnWire(op)
    ensures io.Valid() && io.State() == After(INITIAL, ops)
  {
    io := new BLIPIO();
    hide Allowed, Done, OnWire, Sound, Holds;
    assert ops[0..] == ops;
    for i := 0 to |ops|
      invariant io.Valid() && fresh(io) && fresh(io.outbox) && fresh(io.messages)
      invariant Run(io.State(), ops[i..]) && After(io.State(), ops[i..]) == After(INITIAL, ops)
    {
      assert ops[i..][0] == ops[i] && ops[i..][1..] == ops[i + 1..];
      io.Perform(ops[i]);
    }
  }

  lemma InitialIsSound()
    ensures Sound(INITIAL)
  {
    InitialIsConserved();
    hide Conserved;
  }

  // What every operation keeps.

  ghost predicate Sound(e: Endpoint) { Conserved(e) && Flows(e) }

  lemma OpSound(e: Endpoint, op: Op)
    requires Sound(e) && Allowed(e, op)
    ensures Sound(Done(e, op))
  {
    hide Conserved, Flows, Allowed, Done;
    OpKeeps(e, op);
    OpFlows(e, op);
  }

  lemma RequestSound(e: Endpoint, payload: seq<byte>, urgent: bool, noReply: bool)
    requires Sound(e)
    ensures Done(e, Op.SendRequest(payload, urgent, noReply)) == SentRequest(e, payload, urgent, noReply)
    ensures Sound(SentRequest(e, payload, urgent, noReply))
  {
    hide Sound, SentRequest;
    OpSound(e, Op.SendRequest(payload, urgent, noReply));
  }

  lemma ResponseSound(e: Endpoint, no: nat, payload: seq<byte>, urgent: bool, isError: bool)
    requires Sound(e) && no > 0
    ensures Done(e, Op.Respond(no, payload, urgent, isError)) == Sent(e, NewResponse(no, payload, urgent, isError))
    ensures Sound(Sent(e, NewResponse(no, payload, urgent, isError)))
  {
    hide Sound, Sent;
    OpSound(e, Op.Respond(no, payload, urgent, isError));
  }

  lemma TransmitSound(e: Endpoint)
    requires Sound(e) && HasOutput(e)
    ensures Done(e, Transmit) == Transmitted(e) && Sound(Transmitted(e))
  {
    hide Sound, Transmitted;
    OpSound(e, Transmit);
  }

  lemma ReceiptSound(e: Endpoint, f: Frame)
    requires Sound(e) && Receive(e, f).Received?
    ensures Done(e, ReceiveFrame(f)) == Receive(e, f).e && Sound(Receive(e, f).e)
  {
    hide Sound, BlipEndpoint.Receive;
    OpSound(e, ReceiveFrame(f));
  }

  lemma DoneIs(e: Endpoint, op: Op)
    requires Allowed(e, op) && OnWire(op)
    ensures match op
            case SendRequest(payload, urgent, noReply) => Done(e, op) == SentRequest(e, payload, urgent, noReply)
            case Respond(no, payload, urgent, isError) =>
              no > 0 && Done(e, op) == Sent(e, NewResponse(no, payload, urgent, isError))
            case Transmit => HasOutput(e) && e.outbox != [] && Done(e, op) == Transmitted(e)
            case ReceiveFrame(f) =>
              ReceiveBytes(e, FrameBytes(f)).Received? && Done(e, op) == ReceiveBytes(e, FrameBytes(f)).e
            case CloseSend => Done(e, op) == SendClosed(e)
            case CloseReceive => Done(e, op) == ReceiveClosed(e)
            case Stop => Done(e, op) == Stopped(e)
  {
    hide SentRequest, Sent, Transmitted, BlipEndpoint.Receive, SendClosed, ReceiveClosed, Stopped, FrameBytes,
         BlipFrame.Parse;
  }

  lemma SoundAsserts(e: Endpoint)
    requires Sound(e)
    ensures BoxesOk(e) && Nowhere(e, e.nextId)
  {
    AssertsHold(e);
  }

  lemma ClosingSound(e: Endpoint)
    requires Sound(e)
    ensures Done(e, Op.CloseSend) == SendClosed(e) && Sound(SendClosed(e))
    ensures Done(e, Op.CloseReceive) == ReceiveClosed(e) && Sound(ReceiveClosed(e))
    ensures Done(e, Op.Stop) == Stopped(e) && Sound(Stopped(e))
  {
    hide Sound, SendClosed, ReceiveClosed, Stopped;
    OpSound(e, Op.CloseSend);
    OpSound(e, Op.CloseReceive);
    OpSound(e, Op.Stop);
  }

  /** A request that nothing has been sent of, with these contents and flags. */
  predicate AsRequested(m: Out, payload: seq<byte>, urgent: bool, noReply: bool) {
    && m.kind.Request? && m.payload == payload && m.urgent == urgent && m.noReply == noReply && m.awaits
    && m.no == 0 && m.sent == 0 && m.bytesSent == 0 && m.unacked == 0
  }

  lemma IsRequested(payload: seq<byte>, urgent: bool, noReply: bool)
    ensures AsRequested(NewRequest(payload, urgent, noReply), payload, urgent, noReply)
  {
  }

  /** A response that nothing has been sent of, with these contents and flags. */
  predicate AsAnswered(m: Out, no: nat, payload: seq<byte>, urgent: bool, isError: bool) {
    && m.kind == (if isError then ErrorReply else Response) && m.no == no && m.payload == payload && m.urgent == urgent
    && !m.noReply && !m.awaits && m.sent == 0 && m.bytesSent == 0 && m.unacked == 0
  }

  lemma ResponseEffect(e: Endpoint, no: nat, payload: seq<byte>, urgent: bool, isError: bool)
    requires Sound(e)
    ensures var id, d := e.nextId, Sent(e, NewResponse(no, payload, urgent, isError));
            && id !in e.live && d.resolved == e.resolved && (TooLate(e, urgent) ==> d.live == e.live)
            && (!TooLate(e, urgent) ==>
                  && id in d.live && d.live == e.live[id := d.live[id]]
                  && AsAnswered(d.live[id], no, payload, urgent, isError) && Places(d, id) == 1)
  {
    hide Conserved, Flows, Sent, Places, TooLate;
    NewIsFresh(e);
    var m := NewResponse(no, payload, urgent, isError);
    SentPlainly(e, m);
    if !TooLate(e, urgent) {
      SentIsPlaced(e, m);
    }
  }

  lemma SentPlainly(e: Endpoint, m: Out)
    requires !m.awaits && e.nextId !in e.live
    ensures Sent(e, m).resolved == e.resolved
    ensures Sent(e, m).live == if TooLate(e, m.urgent) then e.live else e.live[e.nextId := m]
  {
    assert e.live - {e.nextId} == e.live;
    hide Requeued, ItemOf;
  }

  lemma SentIsPlaced(e: Endpoint, m: Out)
    requires Conserved(e) && !TooLate(e, m.urgent)
    ensures Places(Sent(e, m), e.nextId) == 1
  {
    SentOk(e, m);
    assert e.nextId in Sent(e, m).live;
    hide Sent, FuturesOk, NumbersOk, Places;
  }

  lemma RequestEffect(e: Endpoint, payload: seq<byte>, urgent: bool, noReply: bool)
    requires Sound(e)
    ensures Nowhere(e, e.nextId)
    ensures var m := NewRequest(payload, urgent, noReply);
            var id, c, d := e.nextId, Sent(e, m.(awaits := false)), SentRequest(e, payload, urgent, noReply);
            && (id in c.live <==> !TooLate(e, urgent)) && c.requested == e.requested && c.lost == e.lost
            && (id in c.live ==> d == c.(live := c.live[id := c.live[id].(awaits := true)], requested := e.requested + {id}))
            && (id !in c.live ==> d == c.(lost := e.lost + {id}))
            && id !in e.requested && id !in e.lost && id !in e.live
            && (id in c.live ==> Places(d, id) == 1) && d.resolved[id] == 0
            && (id in c.live ==> AsRequested(c.live[id].(awaits := true), payload, urgent, noReply))
  {
    hide Conserved, NewRequest, Sent, Flows, Nowhere, Places, Done, TooLate, AsRequested;
    IsRequested(payload, urgent, noReply);
    NewIsFresh(e);
    SoundAsserts(e);
    AwaitsLater(e, NewRequest(payload, urgent, noReply));
    RequestSound(e, payload, urgent, noReply);
    var d := SentRequest(e, payload, urgent, noReply);
    InOneBox(d, e.nextId);
  }

  lemma NewIsFresh(e: Endpoint)
    requires Conserved(e)
    ensures e.nextId !in e.live && e.nextId !in e.requested && e.nextId !in e.lost && e.resolved[e.nextId] == 0
  {
    assert e.nextId !in e.resolved;
  }

  lemma InOneBox(e: Endpoint, id: Id)
    requires Conserved(e)
    ensures Places(e, id) == if id in e.live then 1 else 0
  {
  }

  /** It makes no difference that the message has no future yet when it is sent. */
  lemma AwaitsLater(e: Endpoint, m: Out)
    requires m.awaits && e.nextId !in e.live
    ensures var id, c, d := e.nextId, Sent(e, m.(awaits := false)), Sent(e, m);
            && (id in c.live <==> !TooLate(e, m.urgent)) && (id in c.live ==> c.live[id] == m.(awaits := false))
            && (id in c.live ==> d == c.(live := c.live[id := m]))
            && (id !in c.live ==> c == e.(nextId := id + 1))
            && c.requested == e.requested && c.lost == e.lost && c.resolved == e.resolved
  {
    var id, n := e.nextId, m.(awaits := false);
    assert ItemOf(id, n) == ItemOf(id, m);
    assert e.live[id := n][id := m] == e.live[id := m];
    assert e.live - {id} == e.live;
    hide Requeued, ItemOf;
  }

  /** The frame carries what comes next in a message, and says whether more is to come. */
  predicate NextOf(f: Frame, m: Out) {
    && f.kind == m.kind && f.urgent == m.urgent && f.noReply == m.noReply && f.no > 0 && (m.no > 0 ==> f.no == m.no)
    && if IsAck(m.kind) then f.body <= m.payload && !f.more
       else && m.sent + |f.body| <= |m.payload| && f.body == m.payload[m.sent..m.sent + |f.body|]
            && f.more == (m.sent + |f.body| < |m.payload|) && (m.sent < |m.payload| ==> f.body != [])
  }

  predicate FitsFrame(f: Frame) { |f.body| <= MAX_FRAME && (!IsAck(f.kind) ==> |f.body| + CHECKSUM_SIZE <= MAX_FRAME) }

  /**
   * The bytes of a frame: 32768 and the overhead at most if it may be big, and otherwise 4096; exactly as many if more is to
   * come.
   */
  predicate FillsFrame(f: Frame, big: bool) {
    var limit := (if big then 32768 else 4096) + 15;
    var size := |Varint.Encode(f.no)| + 1 + |f.body| + if IsAck(f.kind) then 0 else 4;
    size <= limit && (f.more ==> size == limit)
  }

  lemma FrontFills(e: Endpoint)
    requires HasOutput(e) && e.live[e.outbox[0].id].sent <= |e.live[e.outbox[0].id].payload|
    ensures FrontFrame(e).no < Varint.UINT64 ==>
              FillsFrame(FrontFrame(e), e.live[e.outbox[0].id].urgent || |e.outbox| == 1 || !e.outbox[1].urgent)
  {
    var m := Front(e);
    if m.no < Varint.UINT64 {
      Varint.TenBytesSuffice(m.no);
      FrameFills(m, e.outbox[1..], e.sum);
    }
    hide Varint.Encode, NextFrame, Portion, Room;
  }

  lemma FrameFills(m: Out, rest: seq<Item>, sum: nat)
    requires m.sent <= |m.payload| && |Varint.Encode(m.no)| <= 10
    ensures FillsFrame(NextFrame(m, Portion(m, Room(m, m.no, rest)), sum), m.urgent || rest == [] || !rest[0].urgent)
  {
    hide Crc, Varint.Encode;
  }

  lemma FrontGoesOn(e: Endpoint)
    requires Sound(e) && HasOutput(e)
    ensures NextOf(FrontFrame(e), e.live[e.outbox[0].id]) && FitsFrame(FrontFrame(e))
  {
    hide Sound, NextOf, NextFrame, Portion, Flows, Conserved, NumbersOk;
    SoundGives(e);
    FrontFits(e);
    FrontCounts(e);
    var m := Front(e);
    FrameIsNext(m, Room(m, m.no, e.outbox[1..]), e.sum);
    NumberedLater(FrontFrame(e), e.live[e.outbox[0].id], m);
  }

  lemma SoundGives(e: Endpoint)
    requires Sound(e)
    ensures Flows(e) && NumbersOk(e.live, e.lastNo, e.rx)
  {
  }

  lemma FrameIsNext(m: Out, room: nat, sum: nat)
    requires m.no > 0 && m.sent <= |m.payload| && room > CHECKSUM_SIZE
    ensures NextOf(NextFrame(m, Portion(m, room), sum), m)
  {
    hide Crc;
  }

  lemma NumberedLater(f: Frame, m: Out, n: Out)
    requires NextOf(f, n) && n == m.(no := n.no) && n.no > 0 && (m.no > 0 ==> n.no == m.no)
    ensures NextOf(f, m)
  {
  }

  /** What the head of the outbox needs for its next frame. */
  lemma HeadIsReady(e: Endpoint)
    requires Sound(e) && e.outbox != []
    ensures HasOutput(e) && e.live[e.outbox[0].id].sent <= |e.live[e.outbox[0].id].payload|
    ensures var d, id := Popped(e), e.outbox[0].id;
            Nowhere(d, id) && (e.wayOut != [] ==> Nowhere(d, e.wayOut[0].id) && e.wayOut[0].id != id)
  {
    AssertsHold(e);
    assert e.outbox[0].id in e.live;
    if e.wayOut != [] {
      assert e.outbox[0].id != e.wayOut[0].id;
    }
  }

  lemma TakeIs(rx: Rx, f: Frame)
    ensures var t, slot, k := Take(rx, f), Slot(rx, f), KeyOf(f);
            && (t.Took? <==> slot.Some? && !Refused(slot.value.got, f.body, f.more) && f.sum == Crc(rx.sum, f.body))
            && (t.Took? ==>
                  && t.ack == AckDue(slot.value, f)
                  && t.message == Extended(slot.value, f) && t.message.reply == slot.value.reply
                  && t.rx == Rx(if k in rx.pend then rx.numReq else f.no,
                                if f.more then rx.pend[k := t.message] else rx.pend - {k}, f.sum))
  {
    hide Refused, Crc, Slot;
  }

  lemma NowhereSame(e: Endpoint, d: Endpoint, id: Id)
    requires Nowhere(e, id) && d.outbox == e.outbox && d.icebox == e.icebox
    ensures Nowhere(d, id)
  {
  }

  lemma CloseEffect(e: Endpoint)
    requires Sound(e)
    ensures forall id | Expected(e.rx, id) :: ReadClosed(e).resolved[id] == 1
  {
    ReadClosedFuture(e);
    hide Cancelled;
    forall id: Id | Expected(e.rx, id) ensures e.resolved[id] == 0 {
      var k :| k in e.rx.pend && e.rx.pend[k].reply == Some(id);
    }
  }

  lemma StopEffect(e: Endpoint)
    requires Sound(e)
    ensures var d := Stopped(e);
            && d.live == map[] && d.requested == e.requested && (forall id | id in d.requested :: d.resolved[id] == 1)
            && !d.sendOpen && !d.receiveOpen && d.outbox == [] && d.icebox == [] && d.wayOut == []
  {
    StoppedFuture(e);
    BoxesTold(e, 0);
    assert var d := Emptied(e); !d.sendOpen && d.outbox == [] && d.icebox == [] && d.wayOut == [];
    hide Sound, Emptied, Cancelled;
  }

  lemma AckIsNoEvent(e: Endpoint, no: nat, onResponse: bool, body: seq<byte>)
    ensures var r := ReceivedAck(e, no, onResponse, body);
            r.Received? ==> r.event == Nothing
  {
    hide FindItem, FindFrozen, Varint.Read;
  }

  lemma SameReply(a: In, b: In)
    requires a.reply == b.reply
    ensures ReplyOf(a) == ReplyOf(b)
  {
  }

  lemma TellOne(rest: map<Key, In>, k: Key, reply: Option<Id>, resolved: multiset<Id>)
    requires k in rest && rest[k].reply == reply
    ensures resolved + Cancelled(rest) == resolved + ReplyOf(In([], 0, 0, reply)) + Cancelled(rest - {k})
  {
    CancelledAny(rest, k);
    SameReply(rest[k], In([], 0, 0, reply));
    hide Cancelled, ReplyOf;
  }

  lemma SetTwice(pend: map<Key, In>, k: Key, a: In, b: In)
    ensures pend[k := a][k := b] == pend[k := b]
  {
  }

  lemma NothingCancelled()
    ensures Cancelled(map[]) == multiset{}
  {
  }

  lemma {:induction false} FrozenIsIced(e: Endpoint, q: seq<Id>, no: nat, onResponse: bool)
    ensures FindFrozen(e, q, no, onResponse).Some? ==> FindFrozen(e, q, no, onResponse).value in q
  {
    if q != [] {
      FrozenIsIced(e, q[1..], no, onResponse);
    }
  }

  lemma {:induction false} WithoutAt(q: seq<Id>, id: Id, i: nat)
    requires i < |q| && q[i] == id && id !in q[..i]
    ensures WithoutId(q, id) == q[..i] + q[i + 1..]
  {
    if i > 0 {
      assert q[0] == q[..i][0];
      assert q[1..][..i - 1] == q[..i][1..];
      WithoutAt(q[1..], id, i - 1);
      assert q[1..][..i - 1] + q[1..][i..] == q[1..i] + q[i + 1..];
    }
  }
}
