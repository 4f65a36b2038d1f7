/** Every run of two endpoints, from the start. */
module BlipRuns {
  import opened Bytes
  import opened BlipFrame
  import opened BlipMessage
  import opened BlipOutbox
  import opened BlipStream
  import opened BlipEndpoint
  import opened BlipConservation
  import opened BlipFlow
  import opened BlipAcks
  import opened BlipLink
  import opened BlipDelivery
  import Varint

  /** The two ends after an act, unless a frame was refused. */
  datatype Outcome = Broken | Ends(x: End, y: End)

  /** `x` acts. */
  function Next(x: End, y: End, act: Act): Outcome
    requires May(x, y, act)
  {
    if act.Accept? then
      if Receive(x.e, y.out[0]).Received? then Ends(Arrived(x, y.out[0]), y.(out := y.out[1..])) else Broken
    else Ends(ActOf(x, act), y)
  }

  /** Which end acts, and what it does. */
  datatype Move = Move(first: bool, act: Act)

  predicate Allowed(x: End, y: End, m: Move) { if m.first then May(x, y, m.act) else May(y, x, m.act) }

  function Moved(x: End, y: End, m: Move): Outcome
    requires Allowed(x, y, m)
  {
    if m.first then Next(x, y, m.act)
    else match Next(y, x, m.act) case Broken => Broken case Ends(b, a) => Ends(a, b)
  }

  /** A run: any moves, in any order, of the two ends. */
  predicate Run(x: End, y: End, moves: seq<Move>)
    decreases |moves|
  {
    moves == [] ||
    (Allowed(x, y, moves[0]) &&
     match Moved(x, y, moves[0]) case Broken => true case Ends(a, b) => Run(a, b, moves[1..]))
  }

  function After(x: End, y: End, moves: seq<Move>): Outcome
    requires Run(x, y, moves)
    decreases |moves|
  {
    if moves == [] then Ends(x, y)
    else match Moved(x, y, moves[0]) case Broken => Broken case Ends(a, b) => After(a, b, moves[1..])
  }

  lemma AnswerNumber(x: End, y: End, n: nat)
    requires Linked(x, y) && n in x.toAnswer
    ensures n > 0
  {
    assert Paired(y, x) && Agree(TxOf(y), x.e.rx, x.done, y.out);
    assert Key(false, n) in x.done;
    hide Linked, InFlight, Ordered, Summed, NoAfter, SumAfter, StreamOk;
  }

  lemma AcceptSound(x: End, y: End)
    requires Sound(x, y) && y.out != []
    ensures Receive(x.e, y.out[0]).Received? && Sound(Arrived(x, y.out[0]), y.(out := y.out[1..]))
  {
    hide Linked, Extra, Receive, Arrived;
    if IsData(y.out[0]) {
      DataKeeps(x, y);
      DataExtra(x, y);
    } else {
      AckExtra(x, y);
      AckKeeps(x, y);
    }
  }

  /** Every act of an end keeps the invariant, and no frame is refused. */
  lemma NextKeeps(x: End, y: End, act: Act)
    requires Sound(x, y) && May(x, y, act)
    ensures Next(x, y, act).Ends? && Sound(Next(x, y, act).x, Next(x, y, act).y)
  {
    hide Linked, Extra, Receive, Arrived, Emitted, Answered, SentRequest, SendClosed, Sendable;
    match act
    case Ask(_, _, _) => AskKeeps(x, y, act); AskExtra(x, y, act);
    case Answer(n, _, _, _) =>
      AnswerNumber(x, y, n);
      AnswerKeeps(x, y, act);
      AnswerExtra(x, y, act);
    case Emit => EmitKeeps(x, y); EmitExtra(x, y);
    case Accept => AcceptSound(x, y);
    case Shut => ShutKeeps(x, y); ShutExtra(x, y);
  }

  lemma SoundSwaps(x: End, y: End)
    requires Sound(x, y)
    ensures Sound(y, x)
  {
    LinkedSwaps(x, y);
    hide Linked, Extra;
  }

  lemma MovedKeeps(x: End, y: End, m: Move)
    requires Sound(x, y) && Allowed(x, y, m)
    ensures Moved(x, y, m).Ends? && Sound(Moved(x, y, m).x, Moved(x, y, m).y)
  {
    hide Sound, Next, May;
    if m.first {
      NextKeeps(x, y, m.act);
    } else {
      SoundSwaps(x, y);
      NextKeeps(y, x, m.act);
      SoundSwaps(Next(y, x, m.act).x, Next(y, x, m.act).y);
    }
  }

  lemma {:induction false} RunKeeps(x: End, y: End, moves: seq<Move>)
    requires Sound(x, y) && Run(x, y, moves)
    ensures After(x, y, moves).Ends? && Sound(After(x, y, moves).x, After(x, y, moves).y)
    decreases |moves|
  {
    if moves != [] {
      MovedKeeps(x, y, moves[0]);
      hide Sound, Moved, Allowed;
      RunKeeps(Moved(x, y, moves[0]).x, Moved(x, y, moves[0]).y, moves[1..]);
    }
  }

  lemma StartIsSound()
    ensures Sound(NEW_END, NEW_END)
  {
    assert BoxesOk(NEW_END.e) by {
      forall id ensures Places(NEW_END.e, id) == 0 {
      }
    }
  }

  /** The state a run ends in. */
  ghost predicate Reachable(x: End, y: End) {
    exists moves :: Run(NEW_END, NEW_END, moves) && After(NEW_END, NEW_END, moves) == Ends(x, y)
  }

  lemma ReachableIsSound(x: End, y: End)
    requires Reachable(x, y)
    ensures Sound(x, y)
  {
    var moves :| Run(NEW_END, NEW_END, moves) && After(NEW_END, NEW_END, moves) == Ends(x, y);
    StartIsSound();
    hide Sound, Run, After;
    RunKeeps(NEW_END, NEW_END, moves);
  }

  /** In no run is any frame refused: not for its number, not for its data, not for its checksum. */
  lemma NoFrameIsRefused(moves: seq<Move>)
    requires Run(NEW_END, NEW_END, moves)
    ensures After(NEW_END, NEW_END, moves).Ends?
  {
    StartIsSound();
    hide Sound, Run, After;
    RunKeeps(NEW_END, NEW_END, moves);
  }

  /**
   * What an end has received is what the other sent: the same number, the same payload, and all of it. And what has
   * been sent to the end and is not on its way has been received.
   */
  lemma MessagesArriveWhole(x: End, y: End, k: Key)
    requires Reachable(x, y)
    ensures k in y.done ==> k in x.str && y.done[k] == x.str[k].payload && x.str[k].sent == |x.str[k].payload|
    ensures k in x.str && x.str[k].Over() && InFlight(x.out, k) == [] ==> k in y.done
  {
    ReachableIsSound(x, y);
    hide Reachable;
    assert Agree(TxOf(x), y.e.rx, y.done, x.out);
    hide Sound, Ordered, Summed, NoAfter, SumAfter;
    if k in x.str {
      assert StreamOk(y.e.rx, y.done, InFlight(x.out, k), k, x.str[k]);
    }
    hide InFlight;
  }

  /** A message made by a MessageBuilder is read as it was built: its body, and the first value of each property. */
  lemma MessagesReadAsBuilt(
    x: End, y: End, k: Key, props: seq<Property>, body: seq<byte>, name: seq<byte>)
    requires Reachable(x, y) && k in y.done && Writable(props)
    requires k in x.str ==> x.str[k].payload == Payload(props, body)
    ensures Sized(y.done[k]) && BodyIn(y.done[k]) == body
    ensures Lookup(PropertiesIn(y.done[k]), 0, name) == FirstValue(props, name)
  {
    MessagesArriveWhole(x, y, k);
    hide Reachable;
    BuiltIsValid(props, body);
    PropertyIsFirst(props, name);
    hide Payload, PropertiesIn, BodyIn, Lookup, FirstValue, PropertyBytes, Varint.Read;
  }

  /** No ACK waits to be sent. */
  predicate NoAcksBoxed(x: End) { forall id | id in x.e.live :: !IsAck(x.e.live[id].kind) }

  /**
   * When nothing is on its way and no ACK waits to be sent by an end that may still send, no request to it is
   * frozen: what the receiver has not acknowledged is less than what the sender may send unacknowledged.
   */
  lemma NoRequestStaysFrozen(x: End, y: End, id: Id)
    requires Reachable(x, y) && x.out == [] && y.out == [] && y.e.sendOpen && NoAcksBoxed(y)
    requires id in x.e.live && x.e.live[id].kind.Request?
    ensures id !in x.e.icebox && x.e.live[id].unacked < ACK_THRESHOLD
  {
    ReachableIsSound(x, y);
    hide Reachable;
    assert AllTold(y, x, false);
    hide Sound;
    NothingIsFrozen(x, y, id);
  }

  /** Whatever is sent and is told of goes on. */
  lemma NothingIsFrozen(x: End, y: End, id: Id)
    requires Sound(x, y) && x.out == [] && y.out == [] && y.e.sendOpen && NoAcksBoxed(y)
    requires id in x.e.live && IsDataM(x.e.live[id]) && AllTold(y, x, KeyM(x.e.live[id]).res)
    ensures id !in x.e.icebox && x.e.live[id].unacked < ACK_THRESHOLD
  {
    LinkedGives(x, y);
    assert Flows(x.e);
    hide Sound, Conserved, BoxesOk, NumbersOk;
    var m, k := x.e.live[id], KeyM(x.e.live[id]);
    assert Counted(m) && (id in x.e.icebox ==> m.NeedsAck());
    if m.no > 0 {
      assert x.str[k] == Str(m.payload, m.sent, m.bytesSent) && m.sent < |m.payload|;
      hide Flows, Ties;
      ReceivedAll(x, y, k);
      if k in y.e.rx.pend {
        TellsAll(x, y, id, k);
      }
    }
  }

  /** With nothing on its way, all that was sent has been received. */
  lemma ReceivedAll(x: End, y: End, k: Key)
    requires Agree(TxOf(x), y.e.rx, y.done, x.out) && x.out == [] && k in x.str && !x.str[k].Over()
    ensures x.str[k].bytes == Part(y.e.rx, k).raw
  {
    assert InFlight(x.out, k) == [];
    assert StreamOk(y.e.rx, y.done, [], k, x.str[k]);
    hide Ordered, Summed, NoAfter, SumAfter, InFlight;
  }

  lemma TellsAll(x: End, y: End, id: Id, k: Key)
    requires AllTold(y, x, k.res) && y.e.sendOpen && NoAcksBoxed(y) && y.out == []
    requires k in y.e.rx.pend && id in x.e.live && IsDataM(x.e.live[id]) && KeyM(x.e.live[id]) == k
    ensures x.e.live[id].acked >= y.e.rx.pend[k].raw - y.e.rx.pend[k].unacked
    ensures y.e.rx.pend[k].unacked < ACK_THRESHOLD
  {
    assert Told(y, x, k, y.e.rx.pend[k]);
    var c := y.e.rx.pend[k].raw - y.e.rx.pend[k].unacked;
    assert !Boxed(y.e.live, k, c) && !OnWay(y.out, k, c);
  }

  // The frames as bytes.

  /** The checksum of a data frame has 32 bits, and an ACK has none. */
  predicate FitsOnWire(f: Frame) { f.sum < UINT32 && (IsAck(f.kind) ==> f.sum == 0) }

  predicate AllFit(fs: seq<Frame>) { forall i | 0 <= i < |fs| :: FitsOnWire(fs[i]) }

  lemma FrontFitsOnWire(e: Endpoint)
    requires HasOutput(e)
    ensures FitsOnWire(FrontFrame(e))
  {
    hide Crc, Portion, Room;
  }

  lemma NextFits(x: End, y: End, act: Act)
    requires May(x, y, act) && AllFit(x.out) && AllFit(y.out) && Next(x, y, act).Ends?
    ensures AllFit(Next(x, y, act).x.out) && AllFit(Next(x, y, act).y.out)
  {
    hide FrontFrame, Transmitted, Receive, Sent, SentRequest, FitsOnWire;
    if act.Emit? {
      FrontFitsOnWire(x.e);
    }
  }

  lemma {:induction false} RunFits(x: End, y: End, moves: seq<Move>)
    requires Run(x, y, moves) && AllFit(x.out) && AllFit(y.out) && After(x, y, moves).Ends?
    ensures AllFit(After(x, y, moves).x.out) && AllFit(After(x, y, moves).y.out)
    decreases |moves|
  {
    if moves != [] {
      var m := moves[0];
      if m.first {
        NextFits(x, y, m.act);
      } else if Next(y, x, m.act).Ends? {
        NextFits(y, x, m.act);
      }
      hide Next, May, AllFit;
      RunFits(Moved(x, y, m).x, Moved(x, y, m).y, moves[1..]);
    }
  }

  /** In every run the frame that is next to arrive is read from its bytes as it was made, and accepted. */
  lemma BytesAreAccepted(x: End, y: End)
    requires Reachable(x, y) && y.out != [] && y.out[0].no < Varint.UINT64
    ensures Parse(FrameBytes(y.out[0])) == Parsed(y.out[0])
    ensures ReceiveBytes(x.e, FrameBytes(y.out[0])) == Receive(x.e, y.out[0]) && Receive(x.e, y.out[0]).Received?
  {
    var moves :| Run(NEW_END, NEW_END, moves) && After(NEW_END, NEW_END, moves) == Ends(x, y);
    RunFits(NEW_END, NEW_END, moves);
    assert FitsOnWire(y.out[0]);
    FrameRoundTrip(y.out[0]);
    ReachableIsSound(x, y);
    hide Reachable, Run, After, Sound, Parse, FrameBytes, Receive;
    AcceptSound(x, y);
  }

  // What is refused.

  /**
   * A data frame is refused while receiving is open if and only if its number is not that of a message being received, a
   * reply expected or the next request; or its data is not what a message may have; or its checksum is wrong.
   */
  lemma DataRefusedIff(e: Endpoint, f: Frame)
    requires IsData(f) && e.receiveOpen
    ensures var known := KeyOf(f) in e.rx.pend || (f.kind.Request? && f.no == e.rx.numReq + 1);
            var got := if KeyOf(f) in e.rx.pend then e.rx.pend[KeyOf(f)].got else [];
            && (Receive(e, f) == Failed(true) <==> !known)
            && (Receive(e, f) == Failed(false) <==> known && (Refused(got, f.body, f.more) || f.sum != Crc(e.rx.sum, f.body)))
  {
    hide Refused, Crc, Sent;
  }

  /** In every run: if one byte of the data of the next frame is changed on its way, or its checksum is, it is refused. */
  lemma CorruptionIsNoticed(x: End, y: End, k: nat, b: byte, sum: nat)
    requires Reachable(x, y) && y.out != [] && IsData(y.out[0])
    ensures k < |y.out[0].body| && b != y.out[0].body[k] ==>
              Receive(x.e, y.out[0].(body := y.out[0].body[k := b])) == Failed(false)
    ensures sum != y.out[0].sum ==> Receive(x.e, y.out[0].(sum := sum)) == Failed(false)
  {
    hide Reachable, Linked, Extra, Receive, Refused, Crc, Conserved, BoxesOk, NumbersOk, Agree, Ties;
    var f, p := y.out[0], y.out[0].body;
    ReachableIsSound(x, y);
    LinkedGives(x, y);
    FrontSlot(TxOf(y), x.e.rx, x.done, y.out);
    DataRefusedIff(x.e, f.(sum := sum));
    if k < |p| && b != p[k] {
      DataRefusedIff(x.e, f.(body := p[k := b]));
      assert p == p[..k] + [p[k]] + p[k + 1..] && p[k := b] == p[..k] + [b] + p[k + 1..];
      CrcDetectsByte(x.e.rx.sum, p[..k], p[k], b, p[k + 1..]);
    }
  }

  // ACKs of responses.

  /**
   * In every run: an ACK with something new reaches a response, queued or frozen, if and only if no ACK with the same
   * number stands before it in the outbox (or, if it is frozen, anywhere in the outbox).
   */
  lemma AckReachesResponseIff(x: End, y: End, id: Id, body: seq<byte>)
    requires Reachable(x, y) && id in x.e.live && IsResponse(x.e.live[id])
    requires Varint.Read(body).Complete? && x.e.live[id].acked < Varint.Read(body).value <= x.e.live[id].bytesSent
    ensures var no := x.e.live[id].no;
            var r := ReceivedAck(x.e, no, true, body);
            && r.Received? && id in r.e.live
            && (r.e.live[id].acked == Varint.Read(body).value <==> !AckBefore(x.e, id, no))
            && (AckBefore(x.e, id, no) ==>
                  r.e.live[id] == x.e.live[id] && r.e.icebox == x.e.icebox && r.e.outbox == x.e.outbox)
  {
    ReachableIsSound(x, y);
    hide Reachable;
    LinkedGives(x, y);
    assert Flows(x.e);
    hide Sound, Conserved, Agree;
    OneOfEach(x, id);
    hide Ties, NumbersOk, ReceivedAck, AckBefore, BoxesOk, Flows, OnlyResponse, Varint.Read;
    AckReachesIff(x.e, id, body);
  }

  /** No ACK of a response arrives while an ACK with its number stands before the response. */
  predicate Heeded(x: End, y: End, m: Move)
    requires Allowed(x, y, m)
  {
    m.act.Accept? ==> if m.first then Reaches(x, y.out[0]) else Reaches(y, x.out[0])
  }

  /** That is so all through a run. */
  predicate Heedful(x: End, y: End, moves: seq<Move>)
    requires Run(x, y, moves)
    decreases |moves|
  {
    moves == [] ||
    (Heeded(x, y, moves[0]) &&
     match Moved(x, y, moves[0]) case Broken => true case Ends(a, b) => Heedful(a, b, moves[1..]))
  }

  lemma NextTold(x: End, y: End, act: Act)
    requires Sound(x, y) && BothTold(x, y, true) && May(x, y, act)
    requires act.Accept? ==> Reaches(x, y.out[0])
    ensures Next(x, y, act).Ends? && BothTold(Next(x, y, act).x, Next(x, y, act).y, true)
  {
    hide Linked, Flows, AcksOk, SizesOk, AllTold, BothTold, Reaches, Receive, Arrived, Emitted, Answered, SentRequest,
         SendClosed, Sendable, Conserved, BoxesOk, NumbersOk, Agree, Ties;
    NextKeeps(x, y, act);
    LinkedGives(x, y);
    LinkedSwaps(x, y);
    LinkedGives(y, x);
    match act
    case Ask(_, _, _) => AskTold(x, y, act, true);
    case Answer(n, _, _, _) =>
      AnswerNumber(x, y, n);
      AnswerTold(x, y, act, true);
    case Emit => EmitTold(x, y, true);
    case Accept =>
      if IsData(y.out[0]) {
        DataTold(x, y, true);
      } else {
        AckTold(x, y, true);
      }
    case Shut => ShutTold(x, y, true);
  }

  lemma MovedTold(x: End, y: End, m: Move)
    requires Sound(x, y) && BothTold(x, y, true) && Allowed(x, y, m) && Heeded(x, y, m)
    ensures Moved(x, y, m).Ends? && BothTold(Moved(x, y, m).x, Moved(x, y, m).y, true)
  {
    hide Sound, AllTold, Next, May, Reaches;
    if m.first {
      NextTold(x, y, m.act);
    } else {
      SoundSwaps(x, y);
      NextTold(y, x, m.act);
    }
  }

  lemma {:induction false} RunTold(x: End, y: End, moves: seq<Move>)
    requires Sound(x, y) && BothTold(x, y, true) && Run(x, y, moves) && Heedful(x, y, moves)
    ensures After(x, y, moves).Ends? && BothTold(After(x, y, moves).x, After(x, y, moves).y, true)
    decreases |moves|
  {
    if moves != [] {
      hide Sound, BothTold, Moved, Allowed, Heeded;
      MovedTold(x, y, moves[0]);
      MovedKeeps(x, y, moves[0]);
      RunTold(Moved(x, y, moves[0]).x, Moved(x, y, moves[0]).y, moves[1..]);
    }
  }

  /**
   * After a run in which no ACK of a response arrives while an ACK with its number stands before the response, no
   * response is frozen once nothing is on its way and no ACK waits to be sent.
   */
  lemma NoResponseStaysFrozen(moves: seq<Move>, id: Id)
    requires Run(NEW_END, NEW_END, moves) && Heedful(NEW_END, NEW_END, moves)
    ensures var o := After(NEW_END, NEW_END, moves);
            && o.Ends?
            && (o.x.out == [] && o.y.out == [] && o.y.e.sendOpen && NoAcksBoxed(o.y) && id in o.x.e.live
                && IsResponse(o.x.e.live[id]) ==>
                  id !in o.x.e.icebox && o.x.e.live[id].unacked < ACK_THRESHOLD)
  {
    StartIsSound();
    assert BothTold(NEW_END, NEW_END, true);
    hide Sound, Run, After, AllTold, Heedful;
    RunKeeps(NEW_END, NEW_END, moves);
    RunTold(NEW_END, NEW_END, moves);
    var o := After(NEW_END, NEW_END, moves);
    if o.x.out == [] && o.y.out == [] && o.y.e.sendOpen && NoAcksBoxed(o.y) && id in o.x.e.live
       && IsResponse(o.x.e.live[id]) {
      NothingIsFrozen(o.x, o.y, id);
    }
  }
}
