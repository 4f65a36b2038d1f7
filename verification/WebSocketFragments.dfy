/**
 * Messages in fragments (section 5.4 of RFC 6455): what a sequence of frames means, what the parser makes of it, and
 * exactly when the two agree.
 */
module WebSocketFragments {
  import opened Bytes
  import opened Common
  import opened WebSocketFraming
  import opened WebSocketPrinter

  datatype Fragment = Fragment(fin: bool, op: nat, data: seq<byte>)

  /** A frame that is good by itself: control frames are short and not fragmented. */
  predicate Good(f: Fragment) {
    && f.op in {0, 1, 2, 8, 9, 10}
    && |f.data| <= (if f.op >= 8 then 125 else MAX_MESSAGE_LENGTH)
    && (f.op >= 8 ==> f.fin)
  }

  function FirstByte(f: Fragment): byte
    requires Good(f)
  {
    (if f.fin then 128 else 0) + f.op
  }

  function FragmentBytes(sender: Role, f: Fragment, mask: seq<byte>): seq<byte>
    requires Good(f) && IsMask(Peer(sender), mask)
  {
    FrameWith(sender, FirstByte(f), f.data, mask)
  }

  predicate EachGood(fs: seq<Fragment>) { forall i | 0 <= i < |fs| :: Good(fs[i]) }

  predicate AllGood(sender: Role, fs: seq<Fragment>, masks: seq<seq<byte>>) {
    |masks| == |fs| && EachGood(fs) && forall i | 0 <= i < |fs| :: IsMask(Peer(sender), masks[i])
  }

  /** What is sent for a sequence of frames, with the masks that were drawn. */
  function FragmentStream(sender: Role, fs: seq<Fragment>, masks: seq<seq<byte>>): seq<byte>
    requires AllGood(sender, fs, masks)
  {
    if fs == [] then [] else FragmentBytes(sender, fs[0], masks[0]) + FragmentStream(sender, fs[1..], masks[1..])
  }

  // What the first two bytes may be.

  /** The first byte of a frame that may be accepted; a control frame is short. */
  predicate MayBegin(b0: byte, n: nat) { b0 in {0, 1, 2, 128, 129, 130} || (b0 in {136, 137, 138} && n <= 125) }

  lemma HeadIsBadIff(b0: byte, b1: byte)
    ensures BadHead(b0, b1) <==> !MayBegin(b0, b1 % 128)
  {
  }

  /**
   * Between messages, a frame that is no continuation is refused, from its header alone, if and only if its first byte has
   * a reserved bit or an unknown opcode, or it is a long or fragmented control frame, or it has more than a megabyte.
   */
  lemma HeaderRefusedIff(sender: Role, c: Conn, b0: byte, n: nat, mask: seq<byte>)
    requires n < 0x1_0000_0000_0000_0000 && IsMask(Peer(sender), mask) && c.ops == [] && c.lastFin && b0 % 16 != 0
    ensures Scan(Peer(sender), c, [b0] + LengthBytes(sender, n) + mask).Violation? <==>
            !MayBegin(b0, n) || n > 0x10_0000
  {
    var r, bs := Peer(sender), LengthBytes(sender, n);
    var bytes := [b0] + bs + mask;
    LengthIs(sender, n);
    LengthIsRead(sender, b0, n, mask);
    assert bytes[1] == bs[0];
    HeadIsBadIff(b0, bytes[1]);
    hide LengthBytes, BadHead, PayloadLength, HeaderComplete, HeaderSize, HeaderMask, Payload, Unmask;
    if BadHead(bytes[0], bytes[1]) {
      ScanStops(r, c, bytes);
    } else {
      ScanFrame(r, c, bytes);
      hide Scan;
      if n <= MAX_MESSAGE_LENGTH {
        HeaderAlone(r, Begin(c, b0), n, HeaderMask(r, bytes));
        assert bytes[HeaderSize(r, bytes[1])..] == [];
      }
    }
  }

  lemma HeaderAlone(role: Role, c: Conn, n: nat, mask: seq<byte>)
    requires |c.ops| > 0 && IsMask(role, mask)
    ensures !Payload(role, c, n, mask, []).Violation?
  {
    hide Scan;
    if n == 0 {
      PayloadEnds(role, c, n, mask, []);
      NothingIsRead(role, End(c, Unmask(mask, [])));
    }
  }

  lemma GoodHead(f: Fragment, b1: byte)
    requires Good(f) && (|f.data| <= 125 ==> Length7(b1) <= 125)
    ensures !BadHead(FirstByte(f), b1) && IsFin(FirstByte(f)) == f.fin && OpCode(FirstByte(f)) == f.op
  {
  }

  /** A frame closes the connection, or counts and what follows is read. */
  lemma FragmentIsRead(sender: Role, c: Conn, f: Fragment, mask: seq<byte>, rest: seq<byte>)
    requires Good(f) && IsMask(Peer(sender), mask)
    ensures Scan(Peer(sender), c, FragmentBytes(sender, f, mask) + rest)
         == if Refused(c, FirstByte(f)) then Violation(c) else Scan(Peer(sender), Took(c, f), rest)
  {
    var r := Peer(sender);
    var bytes := FragmentBytes(sender, f, mask) + rest;
    FrameHeader(sender, FirstByte(f), f.data, mask, rest);
    GoodHead(f, bytes[1]);
    ScanFrame(r, c, bytes);
    hide Scan, Payload, Unmask, Xor, FrameWith, PayloadLength, HeaderMask, BadHead, Refused, FirstByte;
    if !Refused(c, FirstByte(f)) {
      OpenedFirst(c, FirstByte(f));
      var body := Unmask(mask, f.data);
      PayloadEnds(r, Begin(c, FirstByte(f)), |f.data|, mask, body + rest);
      assert (body + rest)[..|f.data|] == body && (body + rest)[|f.data|..] == rest;
      UnmaskTwice(mask, f.data);
    }
  }

  lemma OpenedFirst(c: Conn, b0: byte)
    requires !Refused(c, b0)
    ensures |Begin(c, b0).ops| > 0
  {
  }

  /** The connection after a frame that is not refused. */
  function Took(c: Conn, f: Fragment): Conn
    requires Good(f) && !Refused(c, FirstByte(f))
  {
    GoodHead(f, 0);
    End(Begin(c, FirstByte(f)), f.data)
  }

  /** The parser's way through a sequence of frames. */
  function ReadAs(c: Conn, fs: seq<Fragment>): ParseState
    requires EachGood(fs)
    decreases |fs|
  {
    if fs == [] then AtHead(c, [])
    else if Refused(c, FirstByte(fs[0])) then Violation(c)
    else ReadAs(Took(c, fs[0]), fs[1..])
  }

  lemma {:induction false} FragmentsAreRead(sender: Role, c: Conn, fs: seq<Fragment>, masks: seq<seq<byte>>)
    requires AllGood(sender, fs, masks)
    ensures Scan(Peer(sender), c, FragmentStream(sender, fs, masks)) == ReadAs(c, fs)
    decreases |fs|
  {
    hide Scan, Refused, FirstByte, Took, FragmentBytes, Good;
    if fs == [] {
      NothingIsRead(Peer(sender), c);
    } else {
      FragmentIsRead(sender, c, fs[0], masks[0], FragmentStream(sender, fs[1..], masks[1..]));
      if !Refused(c, FirstByte(fs[0])) {
        FragmentsAreRead(sender, Took(c, fs[0]), fs[1..], masks[1..]);
      }
    }
  }

  // What the frames mean.

  /** The messages complete so far and the unfinished one; or the frames were in a wrong order. */
  datatype Reading = Reading(queue: seq<Message>, open: Option<Message>) | Wrong(queue: seq<Message>)

  /** Section 5.4 of RFC 6455: control frames stand for themselves, and may come between the parts of a message. */
  function Heard(r: Reading, f: Fragment): Reading {
    if r.Wrong? then r
    else if f.op >= 8 then r.(queue := r.queue + [Message(f.op, f.data)])
    else if (f.op == 0) != r.open.Some? then Wrong(r.queue)
    else
      var m := if f.op == 0 then Message(r.open.value.kind, r.open.value.payload + f.data) else Message(f.op, f.data);
      if f.fin then Reading(r.queue + [m], None) else Reading(r.queue, Some(m))
  }

  function AllHeard(r: Reading, fs: seq<Fragment>): Reading
    decreases |fs|
  {
    if fs == [] then r else AllHeard(Heard(r, fs[0]), fs[1..])
  }

  const NOTHING := Reading([], None)

  /** The parser has queued these messages, and has closed the connection exactly if it should. */
  predicate Agrees(p: ParseState, r: Reading) { p.conn.incoming == r.queue && (p.Violation? <==> r.Wrong?) }

  /** No control frame and no binary frame comes while a message is unfinished. */
  predicate Plain(r: Reading, fs: seq<Fragment>)
    decreases |fs|
  {
    fs == [] || ((r.Reading? && r.open.Some? ==> fs[0].op < 2) && Plain(Heard(r, fs[0]), fs[1..]))
  }

  /** The connection stands where the reading does. */
  predicate Stands(c: Conn, r: Reading) {
    && r.Reading? && c.incoming == r.queue && c.cur == r.open && c.lastFin == r.open.None?
    && c.ops == (if r.open.Some? then [r.open.value.kind] else [])
    && (r.open.Some? ==> r.open.value.kind in {1, 2})
  }

  lemma PlainStep(c: Conn, r: Reading, f: Fragment)
    requires Good(f) && Stands(c, r) && (r.open.Some? ==> f.op < 2)
    ensures Refused(c, FirstByte(f)) <==> Heard(r, f).Wrong?
    ensures !Refused(c, FirstByte(f)) ==> Stands(Took(c, f), Heard(r, f))
    ensures Heard(r, f).Wrong? ==> Heard(r, f).queue == r.queue
  {
    GoodHead(f, 0);
    hide FirstByte;
  }

  lemma {:induction false} WrongStays(r: Reading, fs: seq<Fragment>)
    requires r.Wrong?
    ensures AllHeard(r, fs) == r && Plain(r, fs)
  {
    if fs != [] {
      WrongStays(r, fs[1..]);
    }
  }

  lemma {:induction false} PlainAgrees(c: Conn, r: Reading, fs: seq<Fragment>)
    requires EachGood(fs) && Stands(c, r) && Plain(r, fs)
    ensures Agrees(ReadAs(c, fs), AllHeard(r, fs))
    ensures AllHeard(r, fs).Reading? ==>
              ReadAs(c, fs).AtHead? && ReadAs(c, fs).spill == [] && Stands(ReadAs(c, fs).conn, AllHeard(r, fs))
    decreases |fs|
  {
    if fs != [] {
      PlainStep(c, r, fs[0]);
      hide Refused, Took, Heard, FirstByte, Stands, Good;
      if Heard(r, fs[0]).Wrong? {
        WrongStays(Heard(r, fs[0]), fs[1..]);
      } else {
        PlainAgrees(Took(c, fs[0]), Heard(r, fs[0]), fs[1..]);
      }
    }
  }

  /** Where the first other frame comes, the two part. */
  lemma OddStep(c: Conn, r: Reading, f: Fragment)
    requires Good(f) && Stands(c, r) && r.open.Some? && f.op >= 2
    ensures !Refused(c, FirstByte(f)) && !Agrees(AtHead(Took(c, f), []), Heard(r, f))
  {
    GoodHead(f, 0);
    hide FirstByte;
    if f.op >= 8 {
      var q := Took(c, f).incoming;
      assert q[|q| - 1].kind == r.open.value.kind && Heard(r, f).queue[|r.queue|].kind == f.op;
    }
  }

  lemma {:induction false} OddParts(c: Conn, r: Reading, fs: seq<Fragment>) returns (k: nat)
    requires EachGood(fs) && Stands(c, r) && !Plain(r, fs)
    ensures k <= |fs| && !Agrees(ReadAs(c, fs[..k]), AllHeard(r, fs[..k]))
    decreases |fs|
  {
    if r.open.Some? && fs[0].op >= 2 {
      OddStep(c, r, fs[0]);
      k := 1;
      assert fs[..1][1..] == [];
    } else {
      PlainStep(c, r, fs[0]);
      hide Refused, Took, FirstByte, Stands, Good, Agrees;
      if Heard(r, fs[0]).Wrong? {
        WrongStays(Heard(r, fs[0]), fs[1..]);
      }
      var j := OddParts(Took(c, fs[0]), Heard(r, fs[0]), fs[1..]);
      k := j + 1;
      assert fs[..k][1..] == fs[1..][..j];
    }
  }

  lemma {:induction false} PlainPrefix(r: Reading, fs: seq<Fragment>, k: nat)
    requires Plain(r, fs) && k <= |fs|
    ensures Plain(r, fs[..k])
    decreases k
  {
    if k > 0 {
      PlainPrefix(Heard(r, fs[0]), fs[1..], k - 1);
      assert fs[..k][1..] == fs[1..][..k - 1];
    }
  }

  /**
   * After every frame of a sequence the parser has queued what the frames mean, and has closed the connection exactly if
   * their order is wrong, if and only if no control frame and no binary frame comes while a message is unfinished.
   */
  lemma ReadAsMeantIff(sender: Role, fs: seq<Fragment>, masks: seq<seq<byte>>)
    requires AllGood(sender, fs, masks)
    ensures (forall k | 0 <= k <= |fs| ::
               Agrees(Scan(Peer(sender), INITIAL, FragmentStream(sender, fs[..k], masks[..k])), AllHeard(NOTHING, fs[..k])))
            <==> Plain(NOTHING, fs)
  {
    hide Scan, FragmentStream, Agrees, ReadAs, AllHeard, Plain, Good;
    forall k | 0 <= k <= |fs|
      ensures Scan(Peer(sender), INITIAL, FragmentStream(sender, fs[..k], masks[..k])) == ReadAs(INITIAL, fs[..k])
    {
      FragmentsAreRead(sender, INITIAL, fs[..k], masks[..k]);
    }
    if Plain(NOTHING, fs) {
      forall k | 0 <= k <= |fs| ensures Agrees(ReadAs(INITIAL, fs[..k]), AllHeard(NOTHING, fs[..k])) {
        PlainPrefix(NOTHING, fs, k);
        PlainAgrees(INITIAL, NOTHING, fs[..k]);
      }
    } else {
      var k := OddParts(INITIAL, NOTHING, fs);
    }
  }

  // When a frame is refused.

  /** How many opcodes are open after a sequence of frames: those begun without FIN, less those ended by a continuation. */
  function Opened(fs: seq<Fragment>): int {
    if fs == [] then 0
    else
      var f := fs[|fs| - 1];
      Opened(fs[..|fs| - 1]) + (if f.op != 0 && !f.fin then 1 else if f.op == 0 && f.fin then -1 else 0)
  }

  /** A continuation is refused if nothing is open, another frame if two are, and text after a frame without FIN. */
  predicate OutOfPlace(fs: seq<Fragment>, f: Fragment) {
    if f.op == 0 then Opened(fs) == 0 else Opened(fs) >= 2 || (f.op == 1 && fs != [] && !fs[|fs| - 1].fin)
  }

  lemma {:induction false} ReadMore(c: Conn, fs: seq<Fragment>, f: Fragment)
    requires EachGood(fs) && Good(f)
    ensures EachGood(fs + [f])
    ensures ReadAs(c, fs + [f]) ==
            if ReadAs(c, fs).Violation? then ReadAs(c, fs)
            else if Refused(ReadAs(c, fs).conn, FirstByte(f)) then Violation(ReadAs(c, fs).conn)
            else AtHead(Took(ReadAs(c, fs).conn, f), [])
    decreases |fs|
  {
    hide Refused, Took, Good, FirstByte;
    if fs == [] {
      assert [] + [f] == [f] && [f][1..] == [];
    } else {
      assert (fs + [f])[1..] == fs[1..] + [f];
      if !Refused(c, FirstByte(fs[0])) {
        ReadMore(Took(c, fs[0]), fs[1..], f);
      }
    }
  }

  /** The stack of opcodes and the last FIN bit, in terms of the frames read. */
  lemma {:induction false} StackIs(fs: seq<Fragment>)
    requires EachGood(fs) && !ReadAs(INITIAL, fs).Violation?
    ensures var c := ReadAs(INITIAL, fs).conn;
            |c.ops| == Opened(fs) && c.lastFin == (fs == [] || fs[|fs| - 1].fin)
    decreases |fs|
  {
    if fs != [] {
      var front, f := fs[..|fs| - 1], fs[|fs| - 1];
      assert fs == front + [f];
      hide ReadAs, FirstByte;
      ReadMore(INITIAL, front, f);
      GoodHead(f, 0);
      StackIs(front);
    }
  }

  /** After any sequence of frames that was accepted, the next one is refused if and only if it is out of place. */
  lemma RefusedIff(sender: Role, fs: seq<Fragment>, f: Fragment, masks: seq<seq<byte>>)
    requires AllGood(sender, fs + [f], masks) && AllGood(sender, fs, masks[..|fs|])
    requires !Scan(Peer(sender), INITIAL, FragmentStream(sender, fs, masks[..|fs|])).Violation?
    ensures Scan(Peer(sender), INITIAL, FragmentStream(sender, fs + [f], masks)).Violation? <==> OutOfPlace(fs, f)
  {
    assert Good((fs + [f])[|fs|]);
    hide Scan, FragmentStream, Good, ReadAs;
    FragmentsAreRead(sender, INITIAL, fs, masks[..|fs|]);
    FragmentsAreRead(sender, INITIAL, fs + [f], masks);
    hide FirstByte, AllGood;
    ReadMore(INITIAL, fs, f);
    StackIs(fs);
    GoodHead(f, 0);
    hide Opened;
  }

  // Messages sent in parts.

  /** A message cut into one part or more. */
  datatype Cut = Cut(kind: nat, parts: seq<seq<byte>>)

  predicate Cuttable(m: Cut) {
    && m.kind in {1, 2, 8, 9, 10} && m.parts != []
    && (m.kind >= 8 ==> |m.parts| == 1 && |m.parts[0]| <= 125)
    && forall i | 0 <= i < |m.parts| :: |m.parts[i]| <= MAX_MESSAGE_LENGTH
  }

  /** The frames of parts: the first has the opcode, the others are continuations, and the last has FIN. */
  function PartFrames(op: nat, parts: seq<seq<byte>>): seq<Fragment> {
    if parts == [] then [] else [Fragment(|parts| == 1, op, parts[0])] + PartFrames(0, parts[1..])
  }

  function AllFrames(ms: seq<Cut>): seq<Fragment> {
    if ms == [] then [] else PartFrames(ms[0].kind, ms[0].parts) + AllFrames(ms[1..])
  }

  function Joined(ms: seq<Cut>): seq<Message> {
    if ms == [] then [] else [Message(ms[0].kind, Flatten(ms[0].parts))] + Joined(ms[1..])
  }

  lemma {:induction false} HeardJoins(r: Reading, a: seq<Fragment>, b: seq<Fragment>)
    ensures AllHeard(r, a + b) == AllHeard(AllHeard(r, a), b)
    ensures Plain(r, a + b) <==> Plain(r, a) && Plain(AllHeard(r, a), b)
    decreases |a|
  {
    if a == [] {
      assert a + b == b;
    } else {
      assert (a + b)[1..] == a[1..] + b;
      HeardJoins(Heard(r, a[0]), a[1..], b);
    }
  }

  /** The rest of a message that has begun. */
  lemma {:induction false} RestIsHeard(q: seq<Message>, m: Message, parts: seq<seq<byte>>)
    requires parts != []
    ensures AllHeard(Reading(q, Some(m)), PartFrames(0, parts))
         == Reading(q + [Message(m.kind, m.payload + Flatten(parts))], None)
    ensures Plain(Reading(q, Some(m)), PartFrames(0, parts))
    decreases |parts|
  {
    var fs := PartFrames(0, parts);
    assert fs[1..] == PartFrames(0, parts[1..]);
    var n := Message(m.kind, m.payload + parts[0]);
    if |parts| == 1 {
      assert Flatten(parts) == parts[0] + Flatten([]) == parts[0];
    } else {
      RestIsHeard(q, n, parts[1..]);
      assert n.payload + Flatten(parts[1..]) == m.payload + Flatten(parts);
    }
  }

  lemma CutIsHeard(q: seq<Message>, m: Cut)
    requires Cuttable(m)
    ensures var r, fs := Reading(q, None), PartFrames(m.kind, m.parts);
            AllHeard(r, fs) == Reading(q + [Message(m.kind, Flatten(m.parts))], None) && Plain(r, fs)
  {
    var fs := PartFrames(m.kind, m.parts);
    assert fs[1..] == PartFrames(0, m.parts[1..]);
    if |m.parts| == 1 {
      assert Flatten(m.parts) == m.parts[0] + Flatten([]) == m.parts[0];
    } else {
      RestIsHeard(q, Message(m.kind, m.parts[0]), m.parts[1..]);
    }
  }

  lemma {:induction false} CutsAreHeard(q: seq<Message>, ms: seq<Cut>)
    requires forall i | 0 <= i < |ms| :: Cuttable(ms[i])
    ensures var r := Reading(q, None);
            AllHeard(r, AllFrames(ms)) == Reading(q + Joined(ms), None) && Plain(r, AllFrames(ms))
    decreases |ms|
  {
    hide AllHeard, Plain, Cuttable, AllFrames, Joined;
    if ms == [] {
      NoFrames(q);
    } else {
      var fs, rest, m := PartFrames(ms[0].kind, ms[0].parts), AllFrames(ms[1..]), Message(ms[0].kind, Flatten(ms[0].parts));
      hide PartFrames, Flatten;
      HeardJoins(Reading(q, None), fs, rest);
      CutIsHeard(q, ms[0]);
      CutsAreHeard(q + [m], ms[1..]);
      FirstCut(q, ms, m);
    }
  }

  lemma NoFrames(q: seq<Message>)
    ensures AllHeard(Reading(q, None), AllFrames([])) == Reading(q + Joined([]), None)
    ensures Plain(Reading(q, None), AllFrames([]))
  {
    assert q + [] == q;
  }

  lemma FirstCut(q: seq<Message>, ms: seq<Cut>, m: Message)
    requires ms != [] && m == Message(ms[0].kind, Flatten(ms[0].parts))
    ensures AllFrames(ms) == PartFrames(ms[0].kind, ms[0].parts) + AllFrames(ms[1..])
    ensures q + [m] + Joined(ms[1..]) == q + Joined(ms)
  {
    hide PartFrames, Flatten;
  }

  /**
   * Messages cut into parts anyhow, sent with any masks, and received in any chunks, are queued by the other end: one
   * message for each, with its opcode and the joined payload, in order, with nothing left over.
   */
  lemma FragmentedRoundTrip(sender: Role, ms: seq<Cut>, masks: seq<seq<byte>>, chunks: seq<seq<byte>>)
    requires (forall i | 0 <= i < |ms| :: Cuttable(ms[i])) && AllGood(sender, AllFrames(ms), masks)
    requires Flatten(chunks) == FragmentStream(sender, AllFrames(ms), masks)
    ensures FeedAll(Peer(sender), START, chunks) == AtHead(INITIAL.(incoming := Joined(ms)), [])
  {
    hide Scan, FragmentStream, AllFrames, ReadAs, AllHeard, Plain, Cuttable, Good;
    ChunkIndependence(Peer(sender), START, chunks);
    assert [] + Flatten(chunks) == Flatten(chunks);
    FragmentsAreRead(sender, INITIAL, AllFrames(ms), masks);
    CutsAreHeard([], ms);
    assert [] + Joined(ms) == Joined(ms);
    PlainAgrees(INITIAL, NOTHING, AllFrames(ms));
  }

  /** Such frames are good by themselves. */
  lemma {:induction false} PartsAreGood(op: nat, parts: seq<seq<byte>>)
    requires op in {0, 1, 2, 8, 9, 10} && (op >= 8 ==> |parts| == 1 && |parts[0]| <= 125)
    requires forall i | 0 <= i < |parts| :: |parts[i]| <= MAX_MESSAGE_LENGTH
    ensures EachGood(PartFrames(op, parts))
    decreases |parts|
  {
    if parts != [] {
      PartsAreGood(0, parts[1..]);
    }
  }

  lemma {:induction false} FramesAreGood(ms: seq<Cut>)
    requires forall i | 0 <= i < |ms| :: Cuttable(ms[i])
    ensures EachGood(AllFrames(ms))
    decreases |ms|
  {
    if ms != [] {
      PartsAreGood(ms[0].kind, ms[0].parts);
      FramesAreGood(ms[1..]);
    }
  }

  // Inputs where the parser departs from that.

  /** A ping between the parts of a message: its data is joined to the message, which is queued too early. */
  lemma PingIsSwallowed(sender: Role, a: seq<byte>, ping: seq<byte>, b: seq<byte>, masks: seq<seq<byte>>)
    requires AllGood(sender, [Fragment(false, 1, a), Fragment(true, 9, ping), Fragment(true, 0, b)], masks)
    ensures var fs := [Fragment(false, 1, a), Fragment(true, 9, ping), Fragment(true, 0, b)];
            && AllHeard(NOTHING, fs) == Reading([Message(9, ping), Message(1, a + b)], None)
            && Scan(Peer(sender), INITIAL, FragmentStream(sender, fs, masks))
            == AtHead(INITIAL.(incoming := [Message(1, a + ping), Message(1, b)]), [])
  {
    hide Scan, FragmentStream, Good;
    var f, g, h := Fragment(false, 1, a), Fragment(true, 9, ping), Fragment(true, 0, b);
    assert [f, g, h][0] == f && [f, g, h][1] == g && [f, g, h][2] == h;
    FragmentsAreRead(sender, INITIAL, [f, g, h], masks);
    GoodHead(f, 0);
    GoodHead(g, 0);
    GoodHead(h, 0);
    hide FirstByte, AllGood, EachGood;
    assert [f, g, h][1..] == [g, h] && [g, h][1..] == [h] && [h][1..] == [];
    var c, d := Conn([1], false, [], Some(Message(1, a))), Conn([1], true, [Message(1, a + ping)], None);
    assert Took(INITIAL, f) == c && Took(c, g) == d;
    assert Took(d, h) == INITIAL.(incoming := [Message(1, a + ping), Message(1, b)]);
    assert ReadAs(d, [h]) == ReadAs(Took(d, h), []);
    assert ReadAs(c, [g, h]) == ReadAs(d, [h]);
    assert ReadAs(INITIAL, [f, g, h]) == ReadAs(c, [g, h]);
    var r := Reading([], Some(Message(1, a)));
    var t := Reading([Message(9, ping)], Some(Message(1, a)));
    assert Heard(NOTHING, f) == r && Heard(r, g) == t;
    assert AllHeard(t, [h]) == AllHeard(Heard(t, h), []);
    assert AllHeard(r, [g, h]) == AllHeard(t, [h]);
  }

  /** A second ping stands for itself again: nothing is left to join it to. */
  lemma SecondPingStands(sender: Role, a: seq<byte>, ping: seq<byte>, pong: seq<byte>, masks: seq<seq<byte>>)
    requires AllGood(sender, [Fragment(false, 1, a), Fragment(true, 9, ping), Fragment(true, 9, pong)], masks)
    ensures var fs := [Fragment(false, 1, a), Fragment(true, 9, ping), Fragment(true, 9, pong)];
            && Scan(Peer(sender), INITIAL, FragmentStream(sender, fs, masks))
            == AtHead(Conn([1], true, [Message(1, a + ping), Message(9, pong)], None), [])
  {
    hide Scan, FragmentStream, Good;
    var f, g, h := Fragment(false, 1, a), Fragment(true, 9, ping), Fragment(true, 9, pong);
    assert [f, g, h][0] == f && [f, g, h][1] == g && [f, g, h][2] == h;
    FragmentsAreRead(sender, INITIAL, [f, g, h], masks);
    GoodHead(f, 0);
    GoodHead(g, 0);
    GoodHead(h, 0);
    hide FirstByte, AllGood, EachGood;
    assert [f, g, h][1..] == [g, h] && [g, h][1..] == [h] && [h][1..] == [];
    var c, d := Conn([1], false, [], Some(Message(1, a))), Conn([1], true, [Message(1, a + ping)], None);
    assert Took(INITIAL, f) == c && Took(c, g) == d;
    assert Took(d, h) == Conn([1], true, [Message(1, a + ping), Message(9, pong)], None);
    assert ReadAs(d, [h]) == ReadAs(Took(d, h), []);
    assert ReadAs(c, [g, h]) == ReadAs(d, [h]);
  }

  /** A binary message begun before a text message is finished is joined to it, and the connection goes on. */
  lemma BinaryIsJoined(sender: Role, a: seq<byte>, b: seq<byte>, masks: seq<seq<byte>>)
    requires AllGood(sender, [Fragment(false, 1, a), Fragment(true, 2, b)], masks)
    ensures var fs := [Fragment(false, 1, a), Fragment(true, 2, b)];
            && AllHeard(NOTHING, fs).Wrong?
            && Scan(Peer(sender), INITIAL, FragmentStream(sender, fs, masks))
            == AtHead(Conn([1], true, [Message(1, a + b)], None), [])
  {
    hide Scan, FragmentStream, Good;
    var f, g := Fragment(false, 1, a), Fragment(true, 2, b);
    assert [f, g][0] == f && [f, g][1] == g;
    FragmentsAreRead(sender, INITIAL, [f, g], masks);
    GoodHead(f, 0);
    GoodHead(g, 0);
    hide FirstByte, AllGood, EachGood;
    assert [f, g][1..] == [g] && [g][1..] == [];
    var c := Conn([1], false, [], Some(Message(1, a)));
    assert Took(INITIAL, f) == c && Took(c, g) == Conn([1], true, [Message(1, a + b)], None);
    assert ReadAs(c, [g]) == ReadAs(Took(c, g), []);
    var r := Reading([], Some(Message(1, a)));
    assert Heard(NOTHING, f) == r && AllHeard(r, [g]) == AllHeard(Heard(r, g), []);
  }
}
