/**
 * A run of two ends, each with a response to the other, in which both ACKs of a long response are taken for ACKs of the
 * ACK that its sender is about to send. It ends with nothing on its way and the response frozen.
 */
module BlipLostAcks {
  import opened Bytes
  import opened Common
  import opened BlipFrame
  import opened BlipMessage
  import opened BlipOutbox
  import opened BlipStream
  import opened BlipEndpoint
  import opened BlipAcks
  import opened BlipLink
  import opened BlipDelivery
  import opened BlipRuns
  import opened BlipFrozen
  import Varint

  const LONG: nat := 200000      // the response that is frozen, after four frames
  const MEDIUM: nat := 50000     // the other response, of two frames
  const PORTION: nat := 32777    // the data in a big frame

  function Zeros(n: nat): (p: seq<byte>)
    ensures |p| == n
  {
    seq(n, _ => 0)
  }

  lemma ZerosAreValid(n: nat)
    requires 0 < n < UINT32
    ensures Sendable(Zeros(n))
  {
    var p := Zeros(n);
    assert p == Varint.Encode(0) + p[1..];
    Varint.RoundTrip(0, p[1..]);
    hide Varint.Read;
  }

  // Runs, act by act.

  lemma {:induction false} RunAppend(x: End, y: End, moves: seq<Move>, m: Move)
    requires Run(x, y, moves) && After(x, y, moves).Ends?
    requires Allowed(After(x, y, moves).x, After(x, y, moves).y, m)
    ensures Run(x, y, moves + [m]) && After(x, y, moves + [m]) == Moved(After(x, y, moves).x, After(x, y, moves).y, m)
    decreases |moves|
  {
    hide Moved, Allowed;
    if moves == [] {
      assert [] + [m] == [m] && [m][1..] == [];
      match Moved(x, y, m) case Broken => case Ends(a, b) => assert Run(a, b, []) && After(a, b, []) == Ends(a, b);
    } else {
      assert (moves + [m])[1..] == moves[1..] + [m];
      RunAppend(Moved(x, y, moves[0]).x, Moved(x, y, moves[0]).y, moves[1..], m);
    }
  }

  /** The first end acts. */
  lemma Acts(x: End, y: End, act: Act)
    requires Reachable(x, y) && May(x, y, act)
    ensures Next(x, y, act).Ends? && Reachable(Next(x, y, act).x, Next(x, y, act).y)
  {
    hide Run, After, Next, May, Sound;
    ReachableIsSound(x, y);
    var moves :| Run(NEW_END, NEW_END, moves) && After(NEW_END, NEW_END, moves) == Ends(x, y);
    NextKeeps(x, y, act);
    RunAppend(NEW_END, NEW_END, moves, Move(true, act));
  }

  function Swapped(o: Outcome): Outcome { match o case Broken => Broken case Ends(a, b) => Ends(b, a) }

  function Mirrored(m: Move): Move { m.(first := !m.first) }

  lemma {:induction false} RunSwaps(x: End, y: End, moves: seq<Move>) returns (mirror: seq<Move>)
    requires Run(x, y, moves)
    ensures Run(y, x, mirror) && After(y, x, mirror) == Swapped(After(x, y, moves))
    decreases |moves|
  {
    if moves == [] {
      mirror := [];
    } else {
      var m := moves[0];
      MovedSwaps(x, y, m);
      hide Moved, Allowed;
      match Moved(x, y, m)
      case Broken =>
        mirror := [Mirrored(m)];
      case Ends(a, b) =>
        var rest := RunSwaps(a, b, moves[1..]);
        mirror := [Mirrored(m)] + rest;
        assert mirror[1..] == rest;
    }
  }

  lemma MovedSwaps(x: End, y: End, m: Move)
    requires Allowed(x, y, m)
    ensures Allowed(y, x, Mirrored(m)) && Moved(y, x, Mirrored(m)) == Swapped(Moved(x, y, m))
  {
    hide Next, May;
  }

  lemma ReachableSwaps(x: End, y: End)
    requires Reachable(x, y)
    ensures Reachable(y, x)
  {
    hide Run, After;
    var moves :| Run(NEW_END, NEW_END, moves) && After(NEW_END, NEW_END, moves) == Ends(x, y);
    var mirror := RunSwaps(NEW_END, NEW_END, moves);
  }

  lemma Emits(x: End, y: End)
    requires Reachable(x, y) && HasOutput(x.e)
    ensures Reachable(Emitted(x), y)
  {
    hide Reachable, Emitted, Receive, Arrived;
    Acts(x, y, Emit);
  }

  lemma Accepts(x: End, y: End)
    requires Reachable(x, y) && y.out != []
    ensures Receive(x.e, y.out[0]).Received? && Reachable(Arrived(x, y.out[0]), y.(out := y.out[1..]))
  {
    hide Reachable, Emitted, Receive, Arrived;
    Acts(x, y, Accept);
  }

  // What an end looks like.

  /** What an end that may send has to send, and where. */
  predicate Has(e: Endpoint, live: map<Id, Out>, outbox: seq<Item>, icebox: seq<Id>, next: Id) {
    && e.live == live && e.outbox == outbox && e.icebox == icebox && e.wayOut == []
    && e.nextId == next && e.sendOpen && e.receiveOpen
  }

  const REPLY := Key(true, 1)

  /** How much has come of the response to its first request, and how much of that is not acknowledged. */
  predicate Awaits(x: End, raw: nat, unacked: nat) {
    REPLY in x.e.rx.pend && x.e.rx.pend[REPLY].raw == raw && x.e.rx.pend[REPLY].unacked == unacked
  }

  predicate IsPart(f: Frame, n: nat, more: bool) { f.kind.Response? && f.no == 1 && |f.body| == n && f.more == more }

  // A frame is sent.

  /** The response to the first request, after `sent` bytes of it in `bytes` bytes of frames. */
  function Reply(payload: seq<byte>, sent: nat, bytes: nat): Out {
    Out(Response, false, false, 1, payload, sent, bytes, bytes, 0, false)
  }

  lemma OneByteNumber()
    ensures |Varint.Encode(1)| == 1
  {
  }

  lemma ReplyFrame(e: Endpoint, m: Out)
    requires m == Reply(m.payload, m.sent, m.bytesSent) && m.sent < |m.payload| && e.outbox == [ItemOf(1, m)]
    requires 1 in e.live && e.live[1] == m
    ensures HasOutput(e) && Front(e) == m && Popped(e) == e.(outbox := [])
    ensures var n := Min(|m.payload| - m.sent, PORTION);
            IsPart(FrontFrame(e), n, m.sent + n < |m.payload|)
  {
    OneByteNumber();
    hide Crc, Varint.Encode;
  }

  /** After a frame of the response. */
  predicate HasReply(e: Endpoint, m: Out, next: Id) {
    if m.sent == |m.payload| then Has(e, map[], [], [], next)
    else if m.NeedsAck() then Has(e, map[1 := m], [], [1], next)
    else Has(e, map[1 := m], [ItemOf(1, m)], [], next)
  }

  function NextReply(m: Out): Out
    requires m.sent <= |m.payload|
  {
    BlipEndpoint.Advanced(m, Min(|m.payload| - m.sent, PORTION))
  }

  lemma SendReply(e: Endpoint, m: Out, next: Id)
    requires m == Reply(m.payload, m.sent, m.bytesSent) && m.sent < |m.payload|
    requires Has(e, map[1 := m], [ItemOf(1, m)], [], next)
    ensures HasOutput(e) && Transmitted(e).rx == e.rx && HasReply(Transmitted(e), NextReply(m), next)
  {
    ReplyFrame(e, m);
    hide FrontFrame, Front, Popped, ItemOf;
    var w := NextReply(m);
    assert Requeued([], ItemOf(1, w)) == [ItemOf(1, w)];
    assert map[1 := m][1 := w] == map[1 := w] && map[1 := m] - {1} == map[];
    hide Requeued;
  }

  lemma EmitReply(x: End, y: End, m: Out, next: Id)
    requires Reachable(x, y) && m == Reply(m.payload, m.sent, m.bytesSent) && m.sent < |m.payload|
    requires Has(x.e, map[1 := m], [ItemOf(1, m)], [], next)
    ensures var d, w := Emitted(x), NextReply(m);
            && HasOutput(x.e) && Reachable(d, y) && d.e.rx == x.e.rx && HasReply(d.e, w, next)
            && |d.out| == |x.out| + 1 && d.out[..|x.out|] == x.out
            && IsPart(d.out[|x.out|], w.sent - m.sent, w.sent < |m.payload|)
  {
    hide Reachable, Transmitted, HasReply, FrontFrame, Front;
    ReplyFrame(x.e, m);
    SendReply(x.e, m, next);
    Emits(x, y);
  }

  // A frame of the response arrives.

  lemma ReceiptBoxes(e: Endpoint, f: Frame, live: map<Id, Out>, outbox: seq<Item>, icebox: seq<Id>, next: Id)
    requires Has(e, live, outbox, icebox, next) && IsData(f) && Take(e.rx, f).Took?
    requires Take(e.rx, f).ack.Some? ==> IsPart(f, |f.body|, f.more)
    ensures var t, r := Take(e.rx, f), Receive(e, f);
            && r.Received?
            && (t.ack.None? ==> Has(r.e, live, outbox, icebox, next))
            && (t.ack.Some? ==> HasAckToo(r.e, live, outbox, icebox, next, t.ack.value))
  {
    hide Take, Requeued, Varint.Encode;
  }

  /** An ACK of the response has joined the rest. */
  predicate HasAckToo(e: Endpoint, live: map<Id, Out>, outbox: seq<Item>, icebox: seq<Id>, next: Id, count: nat) {
    Has(e, live[next := NewAck(true, 1, count)], Requeued(outbox, Item(next, true, true)), icebox, next + 1)
  }

  /** What is due after `n` more bytes of the response: nothing yet, or an ACK of all of it. */
  predicate Takes(
    x: End, live: map<Id, Out>, outbox: seq<Item>, icebox: seq<Id>, next: Id, raw: nat, unacked: nat, more: bool)
  {
    if unacked < ACK_THRESHOLD then Has(x.e, live, outbox, icebox, next) && (more ==> Awaits(x, raw, unacked))
    else HasAckToo(x.e, live, outbox, icebox, next, raw) && (more ==> Awaits(x, raw, 0))
  }

  lemma AcceptPart(
    x: End, y: End, live: map<Id, Out>, outbox: seq<Item>, icebox: seq<Id>, next: Id, raw: nat, unacked: nat, n: nat)
    requires Reachable(x, y) && Has(x.e, live, outbox, icebox, next) && Awaits(x, raw, unacked)
    requires y.out != [] && IsPart(y.out[0], n, y.out[0].more)
    ensures Receive(x.e, y.out[0]).Received? && Reachable(Arrived(x, y.out[0]), y.(out := y.out[1..]))
    ensures var d, size := Arrived(x, y.out[0]), n + CHECKSUM_SIZE;
            d.out == x.out && Takes(d, live, outbox, icebox, next, raw + size, unacked + size, y.out[0].more)
  {
    hide Reachable, Receive, Take, Arrived, Updated, Has, HasAckToo;
    Accepts(x, y);
    var f := y.out[0];
    PartArrives(x, y);
    ReceiptBoxes(x.e, f, live, outbox, icebox, next);
    ArrivedOut(x, f);
    UpdatedAwaits(x.e.rx, f);
  }

  lemma PartArrives(x: End, y: End)
    requires Reachable(x, y) && y.out != [] && IsData(y.out[0]) && KeyOf(y.out[0]) == REPLY && REPLY in x.e.rx.pend
    requires Receive(x.e, y.out[0]).Received?
    ensures Take(x.e.rx, y.out[0]).Took? && Take(x.e.rx, y.out[0]).ack == AckDue(x.e.rx.pend[REPLY], y.out[0])
    ensures Arrived(x, y.out[0]).e.rx == Updated(x.e.rx, y.out[0])
  {
    hide Reachable, Linked, Extra, Receive, Take, Arrived, Updated, Agree, Slot, Part, AckDue, Finished,
         BlipConservation.BoxesOk;
    ReachableIsSound(x, y);
    LinkedGives(x, y);
    FrontSlot(TxOf(y), x.e.rx, x.done, y.out);
    TakeKeeps(TxOf(y), x.e.rx, x.done, y.out);
    TakenAck(x.e.rx, y.out[0]);
    PartIs(x.e.rx);
    DataEffect(x, y);
  }

  lemma PartIs(rx: Rx)
    requires REPLY in rx.pend
    ensures Part(rx, REPLY) == rx.pend[REPLY]
  {
  }

  lemma UpdatedAwaits(rx: Rx, f: Frame)
    requires REPLY in rx.pend && KeyOf(f) == REPLY
    ensures f.more ==> REPLY in Updated(rx, f).pend && Updated(rx, f).pend[REPLY] == Extended(rx.pend[REPLY], f)
  {
  }

  /** Two frames that make an ACK due. */
  lemma AcceptTwo(
    x: End, y: End, live: map<Id, Out>, outbox: seq<Item>, icebox: seq<Id>, next: Id, raw: nat, n: nat)
    returns (a: End, b: End)
    requires Reachable(x, y) && Has(x.e, live, outbox, icebox, next) && Awaits(x, raw, 0)
    requires |y.out| >= 2 && IsPart(y.out[0], PORTION, true) && IsPart(y.out[1], n, y.out[1].more)
    requires PORTION + CHECKSUM_SIZE + n + CHECKSUM_SIZE >= ACK_THRESHOLD
    ensures var sum := raw + PORTION + CHECKSUM_SIZE + n + CHECKSUM_SIZE;
            && Reachable(a, b) && a.out == x.out && b == y.(out := y.out[2..])
            && HasAckToo(a.e, live, outbox, icebox, next, sum) && (y.out[1].more ==> Awaits(a, sum, 0))
  {
    hide Reachable, Receive, Arrived, Has, HasAckToo, Awaits;
    AcceptPart(x, y, live, outbox, icebox, next, raw, 0, PORTION);
    a, b := Arrived(x, y.out[0]), y.(out := y.out[1..]);
    AcceptPart(a, b, live, outbox, icebox, next, raw + PORTION + CHECKSUM_SIZE, PORTION + CHECKSUM_SIZE, n);
    a, b := Arrived(a, b.out[0]), b.(out := b.out[1..]);
  }

  // An ACK is sent, or arrives.

  lemma EmitAck(x: End, y: End, id: Id, count: nat, rest: seq<Item>)
    requires Reachable(x, y) && id in x.e.live && x.e.live[id] == NewAck(true, 1, count) && count < Varint.UINT64
    requires x.e.outbox == [Item(id, true, true)] + rest
    ensures HasOutput(x.e) && Reachable(Emitted(x), y)
    ensures var d := Emitted(x);
            && d.e == x.e.(live := x.e.live - {id}, outbox := rest)
            && |d.out| == |x.out| + 1 && d.out[..|x.out|] == x.out && IsAckFrame(d.out[|x.out|], count)
  {
    hide Reachable, FrontFrame;
    Emits(x, y);
    AckIsShort(count);
    AckFrame(x.e);
    hide Varint.Encode;
  }

  predicate IsAckFrame(f: Frame, count: nat) { f.kind.AckResponse? && f.no == 1 && f.body == Varint.Encode(count) }

  lemma AckIsShort(count: nat)
    requires count < Varint.UINT64
    ensures |Varint.Encode(count)| <= 10
  {
    Varint.TenBytesSuffice(count);
  }

  /** An ACK of the response, while an ACK of the other end's response is to be sent next: nothing changes. */
  lemma AckIsMisread(e: Endpoint, f: Frame, count: nat, m: Out, told: nat)
    requires Has(e, map[1 := m, 2 := NewAck(true, 1, told)], [Item(2, true, true)], [1], 3)
    requires IsAckFrame(f, count) && 0 < count < Varint.UINT64
    ensures Receive(e, f) == Received(e, Nothing)
  {
    CountRead(count);
    hide Varint.Encode, Varint.Read;
    assert FindItem(e, e.outbox, 1, true) == Some(2);
    assert Acked(e.live[2], count) == e.live[2];
    assert e.live[2 := e.live[2]] == e.live;
  }

  /** An ACK of a response that is no longer being sent. */
  lemma AckIsIgnored(e: Endpoint, f: Frame, count: nat)
    requires e.live == map[] && e.outbox == [] && e.icebox == [] && IsAckFrame(f, count)
    ensures Receive(e, f) == Received(e, Nothing)
  {
  }

  // The run.

  const SHORT: seq<byte> := [0]
  const ASK := Ask(SHORT, false, false)

  lemma AskIs(d: End)
    requires d == ActOf(NEW_END, ASK)
    ensures Has(d.e, map[0 := NewRequest(SHORT, false, false)], [Item(0, false, true)], [], 1)
    ensures d.e.lastNo == 0 && d.e.rx == Rx(0, map[], 0) && d.out == [] && d.toAnswer == {}
  {
    assert Requeued([], Item(0, false, true)) == [Item(0, false, true)];
  }

  lemma AskedIs(a: End)
    requires Has(a.e, map[0 := NewRequest(SHORT, false, false)], [Item(0, false, true)], [], 1)
    requires a.e.lastNo == 0 && a.e.rx == Rx(0, map[], 0) && a.out == [] && a.toAnswer == {}
    ensures HasOutput(a.e)
    ensures var d := Emitted(a);
            && Has(d.e, map[], [], [], 1) && Awaits(d, 0, 0) && d.toAnswer == {} && Key(false, 1) !in d.e.rx.pend
            && |d.out| == 1 && IsLast(d.out[0]) && d.out[0].no == 1 && |d.out[0].body| == 1
  {
    hide FrontFrame, Front, Transmitted;
    AskFrame(a.e);
    AskSent(a.e);
  }

  lemma AskSent(e: Endpoint)
    requires Has(e, map[0 := NewRequest(SHORT, false, false)], [Item(0, false, true)], [], 1)
    requires e.lastNo == 0 && e.rx == Rx(0, map[], 0)
    ensures HasOutput(e) && Has(Transmitted(e), map[], [], [], 1)
    ensures Transmitted(e).rx.pend == map[REPLY := In([], 0, 0, Some(0))]
  {
    hide FrontFrame, Front;
    AskFrame(e);
    assert map[0 := NewRequest(SHORT, false, false)] - {0} == map[];
  }

  lemma AskFrame(e: Endpoint)
    requires Has(e, map[0 := NewRequest(SHORT, false, false)], [Item(0, false, true)], [], 1) && e.lastNo == 0
    ensures HasOutput(e) && Front(e) == NewRequest(SHORT, false, false).(no := 1)
    ensures var f := FrontFrame(e);
            IsLast(f) && f.no == 1 && |f.body| == 1
  {
    hide Room, Crc;
  }

  /** The other end's request arrives. */
  lemma AskArrives(x: End, y: End)
    requires Reachable(x, y) && Has(x.e, map[], [], [], 1) && Awaits(x, 0, 0) && x.toAnswer == {}
    requires Key(false, 1) !in x.e.rx.pend
    requires y.out != [] && IsLast(y.out[0]) && y.out[0].no == 1 && |y.out[0].body| == 1
    ensures Receive(x.e, y.out[0]).Received?
    ensures var d := Arrived(x, y.out[0]);
            Has(d.e, map[], [], [], 1) && Awaits(d, 0, 0) && d.toAnswer == {1} && d.out == x.out
  {
    hide Reachable, Linked, Extra, Receive, Take, Arrived, Updated, Has, Agree, Slot, BlipConservation.BoxesOk;
    ReachableIsSound(x, y);
    LinkedGives(x, y);
    var f := y.out[0];
    FrontSlot(TxOf(y), x.e.rx, x.done, y.out);
    TakeKeeps(TxOf(y), x.e.rx, x.done, y.out);
    NothingIsDue(x, y);
    ReceiptBoxes(x.e, f, map[], [], [], 1);
    ArrivedOut(x, f);
    DataEffect(x, y);
    OthersWait(x.e.rx, f);
  }

  /** A request of one byte is new, and is not acknowledged. */
  lemma NothingIsDue(x: End, y: End)
    requires Agree(TxOf(y), x.e.rx, x.done, y.out) && y.out != [] && IsLast(y.out[0]) && |y.out[0].body| == 1
    requires Take(x.e.rx, y.out[0]).Took? && KeyOf(y.out[0]) !in x.e.rx.pend
    ensures Take(x.e.rx, y.out[0]).ack.None?
  {
    hide Take, Agree;
    FrontSlot(TxOf(y), x.e.rx, x.done, y.out);
    TakenAck(x.e.rx, y.out[0]);
  }

  lemma OthersWait(rx: Rx, f: Frame)
    requires REPLY in rx.pend && KeyOf(f) != REPLY
    ensures REPLY in Updated(rx, f).pend && Updated(rx, f).pend[REPLY] == rx.pend[REPLY]
  {
  }

  /** Both ends have asked, and may answer. */
  predicate MayAnswer(x: End) { Has(x.e, map[], [], [], 1) && Awaits(x, 0, 0) && x.toAnswer == {1} && x.out == [] }

  lemma BothAsk() returns (x: End)
    ensures Reachable(x, x) && MayAnswer(x)
  {
    hide Has, Awaits, ActOf, Emitted, Receive, Arrived;
    var a := ActOf(NEW_END, ASK);
    AskIs(a);
    BothAsked(a);
    AskedIs(a);
    var b := Emitted(a);
    BothEmit(a);
    AskArrives(b, b);
    var c := Arrived(b, b.out[0]);
    BothAccept(b);
    x := c.(out := []);
    OutOnly(c, x);
  }

  lemma OutOnly(x: End, d: End)
    requires d == x.(out := []) && Has(x.e, map[], [], [], 1) && Awaits(x, 0, 0) && x.toAnswer == {1}
    ensures MayAnswer(d)
  {
  }

  lemma BothAsked(a: End)
    requires a == ActOf(NEW_END, ASK)
    ensures Reachable(a, a)
  {
    hide Reachable, Run, After, ActOf, Receive, Arrived;
    assert Reachable(NEW_END, NEW_END) by { StartIsReachable(); }
    ZerosAreValid(1);
    assert Zeros(1) == SHORT;
    hide Sendable, Zeros;
    Acts(NEW_END, NEW_END, ASK);
    ReachableSwaps(a, NEW_END);
    Acts(NEW_END, a, ASK);
  }

  lemma StartIsReachable()
    ensures Reachable(NEW_END, NEW_END)
  {
    assert Run(NEW_END, NEW_END, []) && After(NEW_END, NEW_END, []) == Ends(NEW_END, NEW_END);
  }

  lemma BothEmit(a: End)
    requires Reachable(a, a) && HasOutput(a.e)
    ensures Reachable(Emitted(a), Emitted(a))
  {
    hide Reachable, Emitted;
    Emits(a, a);
    ReachableSwaps(Emitted(a), a);
    Emits(a, Emitted(a));
  }

  lemma BothAccept(b: End)
    requires Reachable(b, b) && |b.out| == 1
    ensures Receive(b.e, b.out[0]).Received?
    ensures var c := Arrived(b, b.out[0]).(out := []);
            Reachable(c, c)
  {
    hide Reachable, Receive;
    Accepts(b, b);
    var f, d, c := b.out[0], b.(out := b.out[1..]), Arrived(b, b.out[0]);
    ArrivedOut(b, f);
    ReachableSwaps(c, d);
    Accepts(d, c);
    assert c.out[1..] == [];
  }

  /** An end answers. */
  lemma Answers(x: End, y: End, n: nat) returns (d: End)
    requires Reachable(x, y) && MayAnswer(x) && 0 < n < UINT32
    ensures Reachable(d, y) && d.out == [] && d.e.rx == x.e.rx
    ensures var m := Reply(Zeros(n), 0, 0);
            Has(d.e, map[1 := m], [ItemOf(1, m)], [], 2)
  {
    hide Reachable, Receive, Arrived, Zeros, Sendable;
    var act := Answer(1, Zeros(n), false, false);
    ZerosAreValid(n);
    SendableIsValid(Zeros(n));
    hide ValidPayload;
    Acts(x, y, act);
    d := ActOf(x, act);
    assert Requeued([], Item(1, false, true)) == [Item(1, false, true)];
  }

  lemma SendableIsValid(p: seq<byte>)
    requires Sendable(p)
    ensures ValidPayload(p)
  {
  }

  /** The long response after `k` frames. */
  function LongReply(k: nat): Out { Reply(Zeros(LONG), k * PORTION, k * (PORTION + CHECKSUM_SIZE)) }

  predicate AllParts(fs: seq<Frame>, k: nat) { |fs| == k && forall i | 0 <= i < k :: IsPart(fs[i], PORTION, true) }

  const FRAMES: nat := 4

  lemma {:induction false} SendLong(x: End, y: End, k: nat) returns (d: End)
    requires Reachable(x, y) && k < FRAMES && AllParts(x.out, k)
    requires Has(x.e, map[1 := LongReply(k)], [ItemOf(1, LongReply(k))], [], 2)
    ensures Reachable(d, y) && AllParts(d.out, FRAMES) && d.e.rx == x.e.rx
    ensures Has(d.e, map[1 := LongReply(FRAMES)], [], [1], 2)
    decreases FRAMES - k
  {
    hide Reachable, Has, Emitted, Zeros, ItemOf;
    var m := LongReply(k);
    EmitReply(x, y, m, 2);
    d := Emitted(x);
    assert NextReply(m) == LongReply(k + 1);
    assert AllParts(d.out, k + 1) by {
      forall i | 0 <= i < k ensures d.out[i] == x.out[i] {
        assert d.out[..|x.out|][i] == d.out[i];
      }
    }
    if k + 1 < FRAMES {
      d := SendLong(d, y, k + 1);
    }
  }

  lemma SendMedium(x: End, y: End) returns (d: End)
    requires Reachable(x, y) && x.out == []
    requires var m := Reply(Zeros(MEDIUM), 0, 0);
             Has(x.e, map[1 := m], [ItemOf(1, m)], [], 2)
    ensures Reachable(d, y) && Has(d.e, map[], [], [], 2) && d.e.rx == x.e.rx
    ensures |d.out| == 2 && IsPart(d.out[0], PORTION, true) && IsPart(d.out[1], MEDIUM - PORTION, false)
  {
    hide Reachable, Has, Emitted, Zeros, ItemOf;
    var m := Reply(Zeros(MEDIUM), 0, 0);
    EmitReply(x, y, m, 2);
    var c := Emitted(x);
    EmitReply(c, y, NextReply(m), 2);
    d := Emitted(c);
    assert d.out[..1][0] == d.out[0];
  }

  const TWO: nat := 2 * (PORTION + CHECKSUM_SIZE)

  /** The receiver of the long response takes its four frames, and sends the two ACKs. */
  lemma TakeLong(x: End, y: End) returns (a: End, b: End)
    requires Reachable(x, y) && Has(x.e, map[], [], [], 2) && Awaits(x, 0, 0) && AllParts(y.out, FRAMES)
    ensures Reachable(a, b) && Has(a.e, map[], [], [], 4) && Awaits(a, 2 * TWO, 0) && b == y.(out := [])
    ensures |a.out| == |x.out| + 2 && a.out[..|x.out|] == x.out
    ensures IsAckFrame(a.out[|x.out|], TWO) && IsAckFrame(a.out[|x.out| + 1], 2 * TWO)
  {
    hide Reachable, Has, Awaits, Emitted, Varint.Encode, HasAckToo;
    var c, z := AcceptTwo(x, y, map[], [], [], 2, 0, PORTION);
    FirstAck(c.e);
    c, z := AcceptTwo(c, z, map[2 := NewAck(true, 1, TWO)], [Item(2, true, true)], [], 3, TWO, PORTION);
    SecondAck(c.e);
    b := z;
    a := TellBoth(c, z);
    assert b.out == [];
  }

  lemma FirstAck(e: Endpoint)
    requires HasAckToo(e, map[], [], [], 2, TWO)
    ensures Has(e, map[2 := NewAck(true, 1, TWO)], [Item(2, true, true)], [], 3)
  {
    assert Requeued([], Item(2, true, true)) == [Item(2, true, true)];
    assert map[][2 := NewAck(true, 1, TWO)] == map[2 := NewAck(true, 1, TWO)];
    hide Varint.Encode;
  }

  lemma SecondAck(e: Endpoint)
    requires HasAckToo(e, map[2 := NewAck(true, 1, TWO)], [Item(2, true, true)], [], 3, 2 * TWO)
    ensures Has(e, map[2 := NewAck(true, 1, TWO), 3 := NewAck(true, 1, 2 * TWO)],
                [Item(2, true, true), Item(3, true, true)], [], 4)
  {
    assert Requeued([Item(2, true, true)], Item(3, true, true)) == [Item(2, true, true), Item(3, true, true)];
    hide Varint.Encode;
  }

  lemma TellBoth(x: End, y: End) returns (a: End)
    requires Reachable(x, y) && Awaits(x, 2 * TWO, 0)
    requires Has(x.e, map[2 := NewAck(true, 1, TWO), 3 := NewAck(true, 1, 2 * TWO)],
                 [Item(2, true, true), Item(3, true, true)], [], 4)
    ensures Reachable(a, y) && Has(a.e, map[], [], [], 4) && Awaits(a, 2 * TWO, 0)
    ensures |a.out| == |x.out| + 2 && a.out[..|x.out|] == x.out
    ensures IsAckFrame(a.out[|x.out|], TWO) && IsAckFrame(a.out[|x.out| + 1], 2 * TWO)
  {
    hide Reachable, Emitted, Varint.Encode, IsAckFrame;
    EmitAck(x, y, 2, TWO, [Item(3, true, true)]);
    a := Emitted(x);
    var n := |x.out|;
    EmitAck(a, y, 3, 2 * TWO, []);
    var b := Emitted(a);
    assert b.out[..n + 1][n] == b.out[n] && b.out[..n] == b.out[..n + 1][..n];
    a := b;
  }

  /** The ACK that the sender of the long response owes for the other one. */
  const OWED := NewAck(true, 1, MEDIUM + 2 * CHECKSUM_SIZE)

  /** Both ACKs of the long response are on their way to its sender, who is about to send an ACK. */
  predicate BeforeLoss(x: End, y: End) {
    && Has(x.e, map[1 := LongReply(FRAMES), 2 := OWED], [Item(2, true, true)], [1], 3) && x.out == []
    && Has(y.e, map[], [], [], 4) && Awaits(y, 2 * TWO, 0)
    && |y.out| == 2 && IsAckFrame(y.out[0], TWO) && IsAckFrame(y.out[1], 2 * TWO)
  }

  lemma RunToLoss() returns (x: End, y: End)
    ensures Reachable(x, y) && BeforeLoss(x, y)
  {
    hide Reachable, Has, Varint.Encode, HasAckToo, Zeros, ItemOf;
    var s := BothAsk();
    x, y := BothAnswer(s);
    x := SendLong(x, y, 0);
    ReachableSwaps(x, y);
    y := SendMedium(y, x);
    y, x := TakeLong(y, x);
    ReachableSwaps(y, x);
    assert y.out[..2][0] == y.out[0] && y.out[..2][1] == y.out[1];
    x, y := AcceptTwo(x, y, map[1 := LongReply(FRAMES)], [], [1], 2, 0, MEDIUM - PORTION);
    OwedAck(x.e);
  }

  lemma BothAnswer(s: End) returns (x: End, y: End)
    requires Reachable(s, s) && MayAnswer(s)
    ensures Reachable(x, y) && x.out == [] && y.out == [] && Awaits(x, 0, 0) && Awaits(y, 0, 0)
    ensures var m := LongReply(0);
            Has(x.e, map[1 := m], [ItemOf(1, m)], [], 2)
    ensures var m := Reply(Zeros(MEDIUM), 0, 0);
            Has(y.e, map[1 := m], [ItemOf(1, m)], [], 2)
  {
    hide Reachable, Has, Zeros, ItemOf;
    x := Answers(s, s, LONG);
    ReachableSwaps(x, s);
    y := Answers(s, x, MEDIUM);
    ReachableSwaps(y, x);
  }

  lemma OwedAck(e: Endpoint)
    requires HasAckToo(e, map[1 := LongReply(FRAMES)], [], [1], 2, MEDIUM + 2 * CHECKSUM_SIZE)
    ensures Has(e, map[1 := LongReply(FRAMES), 2 := OWED], [Item(2, true, true)], [1], 3)
  {
    assert Requeued([], Item(2, true, true)) == [Item(2, true, true)];
    hide Varint.Encode, Zeros;
  }

  /** A state that a run ends in, where the next ACK has something new for a response and does not reach it. */
  lemma AckIsLost() returns (x: End, y: End, id: Id)
    ensures Reachable(x, y) && id in x.e.live && id in x.e.icebox && IsResponse(x.e.live[id])
    ensures var m := x.e.live[id];
            && y.out != [] && y.out[0].kind.AckResponse? && y.out[0].no == m.no && AckBefore(x.e, id, m.no)
            && Varint.Read(y.out[0].body).Complete? && m.acked < Varint.Read(y.out[0].body).value <= m.bytesSent
            && Receive(x.e, y.out[0]) == Received(x.e, Nothing)
  {
    hide Reachable, Varint.Encode, Zeros, Receive;
    x, y := RunToLoss();
    id := 1;
    assert IsAckWith(x.e, x.e.outbox[0].id, 1) && NotAmong(x.e.outbox[..0], id);
    CountRead(TWO);
    AckIsMisread(x.e, y.out[0], TWO, LongReply(FRAMES), MEDIUM + 2 * CHECKSUM_SIZE);
  }

  /**
   * A state that a run ends in, where nothing is on its way, nothing waits to be sent, the receiver has acknowledged all
   * that has come, both ends are open, and a response is frozen: it is frozen in every state that follows.
   */
  lemma ResponseStaysFrozen() returns (x: End, y: End, id: Id)
    ensures Reachable(x, y) && x.out == [] && y.out == [] && x.e.outbox == [] && x.e.wayOut == [] && y.e.live == map[]
    ensures x.e.sendOpen && x.e.receiveOpen && y.e.sendOpen && y.e.receiveOpen
    ensures id in x.e.live && id in x.e.icebox && IsResponse(x.e.live[id])
    ensures var k := KeyM(x.e.live[id]);
            k in y.e.rx.pend && y.e.rx.pend[k].raw == x.e.live[id].bytesSent && y.e.rx.pend[k].unacked == 0
    ensures forall moves | Run(x, y, moves) ::
              var o := After(x, y, moves);
              o.Ends? && id in o.x.e.icebox && id in o.x.e.live && o.x.e.live[id] == x.e.live[id]
  {
    hide Reachable, Run, After, Varint.Encode, Zeros, Receive, Emitted;
    x, y := RunToLoss();
    id := 1;
    x, y := LoseBoth(x, y);
    x, y := TellInVain(x, y);
    forall moves | Run(x, y, moves)
      ensures var o := After(x, y, moves);
              o.Ends? && id in o.x.e.icebox && id in o.x.e.live && o.x.e.live[id] == x.e.live[id]
    {
      FrozenForGood(x, y, moves, id);
    }
  }

  lemma LoseBoth(x: End, y: End) returns (a: End, b: End)
    requires Reachable(x, y) && BeforeLoss(x, y)
    ensures Reachable(a, b) && a == x && b == y.(out := [])
  {
    hide Reachable, Has, Awaits, Receive, Varint.Encode;
    var m, told := LongReply(FRAMES), MEDIUM + 2 * CHECKSUM_SIZE;
    AckIsMisread(x.e, y.out[0], TWO, m, told);
    AckIsMisread(x.e, y.out[1], 2 * TWO, m, told);
    Accepts(x, y);
    a, b := x, y.(out := y.out[1..]);
    Accepts(a, b);
    b := b.(out := b.out[1..]);
    assert b.out == [];
  }

  /** The ACK that stood in the way is sent; its response is no longer being sent. */
  lemma TellInVain(x: End, y: End) returns (a: End, b: End)
    requires Reachable(x, y) && x.out == [] && y.out == [] && Has(y.e, map[], [], [], 4)
    requires Has(x.e, map[1 := LongReply(FRAMES), 2 := OWED], [Item(2, true, true)], [1], 3)
    ensures Reachable(a, b) && Has(a.e, map[1 := LongReply(FRAMES)], [], [1], 3) && a.out == []
    ensures b == y
  {
    hide Reachable, Varint.Encode, Zeros, Receive, Emitted;
    var told := MEDIUM + 2 * CHECKSUM_SIZE;
    EmitAck(x, y, 2, told, []);
    var c := Emitted(x);
    AckIsIgnored(y.e, c.out[0], told);
    ReachableSwaps(c, y);
    Accepts(y, c);
    b := y;
    a := c.(out := c.out[1..]);
    ReachableSwaps(b, a);
  }
}
