/**
 * A response that is frozen for good: the ACKs of its last frames were taken for ACKs of another message, nothing is on
 * its way, and no run goes on from there with the response.
 */
module BlipFrozen {
  import opened BlipFrame
  import opened BlipOutbox
  import opened BlipStream
  import opened BlipEndpoint
  import opened BlipConservation
  import opened BlipFlow
  import opened BlipAcks
  import opened BlipLink
  import opened BlipDelivery
  import opened BlipRuns
  import Varint

  // What is stuck stays so.

  predicate IsAckOfResponse(kind: Kind, no: nat, n: nat) { kind.AckResponse? && no == n }

  /** No ACK of response `n` is made or on its way. */
  predicate NoAckFrom(y: End, n: nat) {
    && (forall id | id in y.e.live :: !IsAckOfResponse(y.e.live[id].kind, y.e.live[id].no, n))
    && (forall i | 0 <= i < |y.out| :: !IsAckOfResponse(y.out[i].kind, y.out[i].no, n))
  }

  predicate NoPartFrom(x: End, k: Key) { forall i | 0 <= i < |x.out| :: !(IsData(x.out[i]) && KeyOf(x.out[i]) == k) }

  /** A response is frozen, no frame of it is on its way, and no ACK of it is made or on its way. */
  predicate Stuck(x: End, y: End, id: Id, m: Out) {
    && IsResponse(m) && id in x.e.icebox && id in x.e.live && x.e.live[id] == m
    && NoPartFrom(x, Key(true, m.no)) && NoAckFrom(y, m.no)
  }

  /** What is on ice is being sent, and is not in the outbox. */
  lemma IcedIsLive(e: Endpoint, id: Id)
    requires BoxesOk(e) && id in e.icebox
    ensures id in e.live && (e.outbox != [] ==> e.outbox[0].id != id)
  {
    IcedCounts(e.icebox, id);
    assert Places(e, id) >= 1;
  }

  lemma {:induction false} IcedCounts(q: seq<Id>, id: Id)
    requires id in q
    ensures CountIds(q, id) > 0
  {
    if q[0] != id {
      IcedCounts(q[1..], id);
    }
  }

  lemma RopeIce(e: Endpoint)
    ensures RopeLifted(e).icebox == e.icebox
  {
    hide Requeued, ItemOf;
  }

  lemma DispatchIce(e: Endpoint, h: Id, m: Out, f: Frame, id: Id)
    requires id in e.icebox
    ensures id in Dispatched(e, h, m, f).icebox
  {
    hide Requeued, ItemOf, RopeLifted;
    RopeIce(HandedOver(e.(sum := f.sum), h, BlipEndpoint.Advanced(m, |f.body|)));
  }

  lemma EmitIce(x: End, id: Id)
    requires HasOutput(x.e) && id in x.e.icebox
    ensures id in Emitted(x).e.icebox
  {
    hide Dispatched, FrontFrame, Front;
    DispatchIce(Popped(x.e), x.e.outbox[0].id, Front(x.e), FrontFrame(x.e), id);
  }

  /** The end whose response is frozen sends a frame: of another message. */
  lemma EmitStuck(x: End, y: End, id: Id, m: Out)
    requires Sound(x, y) && Stuck(x, y, id, m) && HasOutput(x.e) && BoxesOk(Emitted(x).e)
    ensures Stuck(Emitted(x), y, id, m)
  {
    hide Linked, Conserved, BoxesOk, NumbersOk, Agree, Ties, Extra, Emitted, NoAckFrom;
    LinkedGives(x, y);
    IcedIsLive(x.e, id);
    EmitIce(x, id);
    IcedIsLive(Emitted(x).e, id);
    EmitLive(x);
    FrontKeyed(x);
    if IsDataM(Front(x.e)) {
      NoOtherHas(x, y);
    }
    EmittedOut(x);
    hide Front, FrontFrame;
  }

  lemma EmittedOut(x: End)
    requires HasOutput(x.e)
    ensures Emitted(x).out == x.out + [FrontFrame(x.e)]
  {
    hide Transmitted, FrontFrame, Front;
  }

  lemma FrontKeyed(x: End)
    requires HasOutput(x.e)
    ensures var m, f := Front(x.e), FrontFrame(x.e);
            f.kind == m.kind && f.no == m.no && m.kind == x.e.live[x.e.outbox[0].id].kind
  {
    hide Crc, Portion, Room;
  }

  lemma QuietStuck(x: End, d: End, y: End, id: Id, m: Out)
    requires Stuck(x, y, id, m) && d.out == x.out && d.e.icebox == x.e.icebox
    requires id in d.e.live && d.e.live[id] == x.e.live[id]
    ensures Stuck(d, y, id, m)
  {
    hide NoAckFrom;
  }

  /** An ACK of something else does not reach it. */
  lemma OtherAck(e: Endpoint, id: Id, f: Frame)
    requires id in e.live && id in e.icebox && IsResponse(e.live[id]) && IsAck(f.kind)
    requires !IsAckOfResponse(f.kind, f.no, e.live[id].no) && Varint.Read(f.body).Complete?
    ensures var r := Receive(e, f);
            r.Received? && r.event.Nothing? && id in r.e.live && r.e.live[id] == e.live[id] && id in r.e.icebox
  {
    var res := f.kind.AckResponse?;
    FoundMatches(e, e.outbox, f.no, res);
    FrozenMatches(e, e.icebox, f.no, res);
    hide FindItem, FindFrozen, Requeued, ItemOf, Varint.Read, Acked, WithoutId;
    var found, frozen := FindItem(e, e.outbox, f.no, res), FindFrozen(e, e.icebox, f.no, res);
    if frozen.Some? {
      OthersStay(e.icebox, frozen.value, id);
    }
  }

  lemma {:induction false} FoundMatches(e: Endpoint, q: seq<Item>, no: nat, res: bool)
    ensures var r := FindItem(e, q, no, res);
            r.Some? ==> r.value in e.live && Matches(e.live[r.value], no, res)
  {
    if q != [] {
      FoundMatches(e, q[1..], no, res);
    }
  }

  lemma {:induction false} FrozenMatches(e: Endpoint, q: seq<Id>, no: nat, res: bool)
    ensures var r := FindFrozen(e, q, no, res);
            r.Some? ==> r.value in e.live && Matches(e.live[r.value], no, res)
  {
    if q != [] {
      FrozenMatches(e, q[1..], no, res);
    }
  }

  lemma {:induction false} OthersStay(q: seq<Id>, gone: Id, id: Id)
    requires id in q && id != gone
    ensures id in WithoutId(q, gone)
  {
    if q[0] != gone && q[0] != id {
      OthersStay(q[1..], gone, id);
    }
  }

  /** The end whose response is frozen acts. */
  lemma NextStuck(x: End, y: End, act: Act, id: Id, m: Out)
    requires Sound(x, y) && Stuck(x, y, id, m) && May(x, y, act)
    ensures Next(x, y, act).Ends? && Stuck(Next(x, y, act).x, Next(x, y, act).y, id, m)
  {
    hide Linked, Extra, Stuck, Receive, Arrived, Emitted, Answered, SentRequest, SendClosed, Sendable, Conserved, BoxesOk;
    NextKeeps(x, y, act);
    var d := Next(x, y, act).x;
    LinkedGives(d, Next(x, y, act).y);
    match act
    case Ask(_, _, _) => AskStuck(x, y, act, id, m);
    case Answer(_, _, _, _) => AskStuck(x, y, act, id, m);
    case Emit => EmitStuck(x, y, id, m);
    case Accept => AcceptStuck(x, y, id, m);
    case Shut => AskStuck(x, y, act, id, m);
  }

  lemma AskStuck(x: End, y: End, act: Act, id: Id, m: Out)
    requires Sound(x, y) && Stuck(x, y, id, m) && (act.Ask? || act.Answer? || act.Shut?)
    ensures Stuck(ActOf(x, act), y, id, m)
  {
    hide Linked, Extra, Conserved, BoxesOk, NumbersOk, Agree, Ties, NoAckFrom, NoPartFrom, Requeued, ItemOf;
    LinkedGives(x, y);
    QuietStuck(x, ActOf(x, act), y, id, m);
  }

  lemma AcceptStuck(x: End, y: End, id: Id, m: Out)
    requires Sound(x, y) && Stuck(x, y, id, m) && y.out != []
    ensures Receive(x.e, y.out[0]).Received? && Stuck(Arrived(x, y.out[0]), y.(out := y.out[1..]), id, m)
  {
    hide Linked, Extra, Stuck, Receive, Arrived, Conserved, BoxesOk, NumbersOk, Agree, Ties;
    AcceptSound(x, y);
    LinkedGives(x, y);
    StuckGives(x, y, id, m);
    TailStuck(x, y, id, m);
    ArrivedOut(x, y.out[0]);
    var z := y.(out := y.out[1..]);
    if IsData(y.out[0]) {
      DataLive(x, y);
      DataIce(x.e, y.out[0]);
      QuietStuck(x, Arrived(x, y.out[0]), z, id, m);
    } else {
      AckExtra(x, y);
      OtherAck(x.e, id, y.out[0]);
      IcyStuck(x, Arrived(x, y.out[0]), z, id, m);
    }
  }

  lemma StuckGives(x: End, y: End, id: Id, m: Out)
    requires Stuck(x, y, id, m)
    ensures IsResponse(m) && id in x.e.icebox && id in x.e.live && x.e.live[id] == m
    ensures y.out != [] ==> !IsAckOfResponse(y.out[0].kind, y.out[0].no, m.no)
  {
  }

  lemma TailStuck(x: End, y: End, id: Id, m: Out)
    requires Stuck(x, y, id, m) && y.out != []
    ensures Stuck(x, y.(out := y.out[1..]), id, m)
  {
    hide NoPartFrom;
  }

  lemma IcyStuck(x: End, d: End, y: End, id: Id, m: Out)
    requires Stuck(x, y, id, m) && d.out == x.out && id in d.e.icebox
    requires id in d.e.live && d.e.live[id] == x.e.live[id]
    ensures Stuck(d, y, id, m)
  {
    hide NoAckFrom;
  }

  lemma ArrivedOut(x: End, f: Frame)
    requires Receive(x.e, f).Received?
    ensures Arrived(x, f).out == x.out && Arrived(x, f).e == Receive(x.e, f).e
  {
    hide Receive;
  }

  lemma DataIce(e: Endpoint, f: Frame)
    requires IsData(f) && Receive(e, f).Received?
    ensures Receive(e, f).e.icebox == e.icebox
  {
    hide Take, Requeued, ItemOf, Varint.Encode;
  }

  /** The other end acts: it acknowledges nothing of the response. */
  lemma OtherStuck(x: End, y: End, act: Act, id: Id, m: Out)
    requires Sound(y, x) && Stuck(x, y, id, m) && May(y, x, act)
    ensures Next(y, x, act).Ends? && Stuck(Next(y, x, act).y, Next(y, x, act).x, id, m)
  {
    hide Linked, Extra, Stuck, Receive, Arrived, Emitted, Answered, SentRequest, SendClosed, Sendable, ActOf;
    NextKeeps(y, x, act);
    match act
    case Ask(_, _, _) => OtherAsks(x, y, act, id, m);
    case Answer(_, _, _, _) => OtherAsks(x, y, act, id, m);
    case Emit => OtherEmits(x, y, id, m);
    case Accept => OtherAccepts(x, y, id, m);
    case Shut => OtherAsks(x, y, act, id, m);
  }

  lemma OtherAsks(x: End, y: End, act: Act, id: Id, m: Out)
    requires Stuck(x, y, id, m) && (act.Ask? || act.Answer? || act.Shut?)
    ensures Stuck(x, ActOf(y, act), id, m)
  {
    hide NoPartFrom, Requeued, ItemOf;
  }

  lemma OtherEmits(x: End, y: End, id: Id, m: Out)
    requires Stuck(x, y, id, m) && HasOutput(y.e) && Sound(y, x)
    ensures Stuck(x, ActOf(y, Emit), id, m)
  {
    hide Linked, Extra, Conserved, BoxesOk, NumbersOk, Agree, Ties, NoPartFrom, Front, FrontFrame, Emitted;
    LinkedGives(y, x);
    EmitLive(y);
    EmittedOut(y);
    FrontKeyed(y);
    FrontIs(y.e);
    UnnumberedIsRequest(y.e, y.e.outbox[0].id);
  }

  lemma OtherAccepts(x: End, y: End, id: Id, m: Out)
    requires Stuck(x, y, id, m) && x.out != [] && Sound(y, x)
    ensures Receive(y.e, x.out[0]).Received? && Stuck(x.(out := x.out[1..]), Arrived(y, x.out[0]), id, m)
  {
    hide Linked, Extra, Receive, Arrived, Conserved, BoxesOk, NumbersOk, Agree, Ties;
    AcceptSound(y, x);
    LinkedGives(y, x);
    var f, d := x.out[0], Arrived(y, x.out[0]);
    ArrivedOut(y, f);
    if IsData(f) {
      DataLive(y, x);
    } else {
      ExtraGives(y, x);
      AckExtra(y, x);
      TextStays(y.e, f);
    }
    hide Varint.Read, Varint.Encode;
  }

  lemma TextStays(e: Endpoint, f: Frame)
    requires Flows(e) && IsAck(f.kind) && Varint.Read(f.body).Complete?
    ensures var r := Receive(e, f);
            r.Received? && r.e.live.Keys == e.live.Keys && forall id | id in e.live :: SameText(r.e.live[id], e.live[id])
  {
    hide ReceivedAck, Flows;
    AckedMore(e, f.no, f.kind.AckResponse?, f.body);
  }

  lemma MovedStuck(x: End, y: End, mv: Move, id: Id, m: Out)
    requires Sound(x, y) && Stuck(x, y, id, m) && BlipRuns.Allowed(x, y, mv)
    ensures Moved(x, y, mv).Ends? && Stuck(Moved(x, y, mv).x, Moved(x, y, mv).y, id, m)
  {
    hide Sound, Stuck, Next, May;
    if mv.first {
      NextStuck(x, y, mv.act, id, m);
    } else {
      SoundSwaps(x, y);
      OtherStuck(x, y, mv.act, id, m);
    }
  }

  /** Whatever the two ends do from there, the response stays frozen as it is. */
  lemma {:induction false} StaysStuck(x: End, y: End, moves: seq<Move>, id: Id, m: Out)
    requires Sound(x, y) && Stuck(x, y, id, m) && BlipRuns.Run(x, y, moves)
    ensures BlipRuns.After(x, y, moves).Ends? && Stuck(BlipRuns.After(x, y, moves).x, BlipRuns.After(x, y, moves).y, id, m)
    decreases |moves|
  {
    if moves != [] {
      hide Sound, Stuck, Moved, BlipRuns.Allowed;
      MovedStuck(x, y, moves[0], id, m);
      MovedKeeps(x, y, moves[0]);
      StaysStuck(Moved(x, y, moves[0]).x, Moved(x, y, moves[0]).y, moves[1..], id, m);
    }
  }

  /**
   * In every run: once nothing is on its way and no ACK waits to be sent to it, a response that is frozen stays frozen,
   * whatever the two ends do from there.
   */
  lemma FrozenForGood(x: End, y: End, moves: seq<Move>, id: Id)
    requires Reachable(x, y) && x.out == [] && y.out == [] && NoAcksBoxed(y) && BlipRuns.Run(x, y, moves)
    requires id in x.e.live && id in x.e.icebox && IsResponse(x.e.live[id])
    ensures var o := BlipRuns.After(x, y, moves);
            o.Ends? && id in o.x.e.icebox && id in o.x.e.live && o.x.e.live[id] == x.e.live[id]
  {
    hide Reachable, Sound, BlipRuns.Run, BlipRuns.After;
    ReachableIsSound(x, y);
    StaysStuck(x, y, moves, id, x.e.live[id]);
  }
}
