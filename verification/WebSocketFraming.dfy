/** The WebSocket wire format (section 5.2 of RFC 6455) as the parser understands it,
    given as functions on whole byte strings.

    `Scan` reads a stream from a frame boundary, `Payload` from inside a frame's payload.
    A `ParseState` is where a reader stands after some bytes, so `Feed` can continue it.
 */
module WebSocketFraming {
  import opened Bytes
  import opened Common

  /** Which end is reading: the C++ template parameter `isServer`. */
  datatype Role = Client | Server

  /** `kind` is the numeric opcode that began the message. */
  datatype Message = Message(kind: nat, payload: seq<byte>)

  const MAX_MESSAGE_LENGTH := 0x10_0000

  function ShortHeader(role: Role): nat { if role == Server then 6 else 2 }
  function MediumHeader(role: Role): nat { if role == Server then 8 else 4 }
  function LongHeader(role: Role): nat { if role == Server then 14 else 10 }

  // Bit fields of the first two bytes of a frame.
  function IsFin(b0: byte): bool { b0 / 128 == 1 }
  function OpCode(b0: byte): nat { b0 % 16 }
  function Rsv1(b0: byte): bool { (b0 / 64) % 2 == 1 }
  function Rsv23(b0: byte): bool { (b0 / 16) % 4 != 0 }
  function Length7(b1: byte): nat { b1 % 128 }

  /** Reserved bits, unknown opcodes, and fragmented or long control frames. */
  predicate BadHead(b0: byte, b1: byte) {
    || Rsv1(b0)
    || Rsv23(b0)
    || 2 < OpCode(b0) < 8
    || OpCode(b0) > 10
    || (OpCode(b0) > 2 && (!IsFin(b0) || Length7(b1) > 125))
  }

  function HeaderSize(role: Role, b1: byte): (n: nat)
    ensures ShortHeader(role) <= n <= LongHeader(role)
  {
    if Length7(b1) < 126 then ShortHeader(role)
    else if Length7(b1) == 126 then MediumHeader(role)
    else LongHeader(role)
  }

  /** Enough of a header is present to know that it is complete. */
  predicate HeaderComplete(role: Role, bytes: seq<byte>) {
    |bytes| >= ShortHeader(role) && |bytes| >= HeaderSize(role, bytes[1])
  }

  function PayloadLength(role: Role, bytes: seq<byte>): nat
    requires HeaderComplete(role, bytes)
  {
    if Length7(bytes[1]) < 126 then Length7(bytes[1])
    else if Length7(bytes[1]) == 126 then FromBigEndian(bytes[2..4])
    else FromBigEndian(bytes[2..10])
  }

  /** A masking key: four bytes when a server reads, none when a client does. */
  predicate IsMask(role: Role, mask: seq<byte>) {
    |mask| == if role == Server then 4 else 0
  }

  /** The key is the last four bytes of a header read by a server. The mask bit is not looked at. */
  function HeaderMask(role: Role, bytes: seq<byte>): (mask: seq<byte>)
    requires HeaderComplete(role, bytes)
    ensures IsMask(role, mask)
  {
    var h := HeaderSize(role, bytes[1]);
    if role == Server then bytes[h - 4..h] else []
  }

  predicate IsKey(mask: seq<byte>) { |mask| == 0 || |mask| == 4 }

  /** The key as it applies to the next payload byte. */
  function Turn(mask: seq<byte>): (r: seq<byte>)
    requires IsKey(mask)
    ensures |r| == |mask|
  {
    if mask == [] then [] else mask[1..] + mask[..1]
  }

  /** The key as it applies after `n` payload bytes. */
  function Rotate(mask: seq<byte>, n: nat): (r: seq<byte>)
    requires IsKey(mask)
    ensures |r| == |mask|
    decreases n
  {
    if n == 0 then mask else Rotate(Turn(mask), n - 1)
  }

  /** Exclusive-or of each byte with the next key byte, round and round. */
  function Unmask(mask: seq<byte>, data: seq<byte>): (r: seq<byte>)
    requires IsKey(mask)
    ensures |r| == |data|
    decreases |data|
  {
    if mask == [] || data == [] then data
    else [Xor(data[0], mask[0])] + Unmask(Turn(mask), data[1..])
  }

  /** Message assembly: the stack of open opcodes, the last FIN bit, what is queued and what is being collected. */
  datatype Conn = Conn(ops: seq<nat>, lastFin: bool, incoming: seq<Message>, cur: Option<Message>)

  const INITIAL := Conn([], true, [], None)

  /** A data or control opcode may not start while two are open, nor a text frame while an unfinished
      frame came last; a continuation needs an open opcode. */
  predicate Refused(c: Conn, b0: byte) {
    if OpCode(b0) != 0 then |c.ops| >= 2 || (!c.lastFin && OpCode(b0) < 2) else |c.ops| == 0
  }

  function Begin(c: Conn, b0: byte): Conn {
    c.(ops := if OpCode(b0) != 0 then c.ops + [OpCode(b0)] else c.ops, lastFin := IsFin(b0))
  }

  /** Appends payload bytes to the message being collected, starting one if there is none. */
  function Collect(c: Conn, data: seq<byte>): (r: Message)
    requires |c.ops| > 0
  {
    match c.cur
    case Some(m) => Message(m.kind, m.payload + data)
    case None => Message(c.ops[|c.ops| - 1], data)
  }

  /** Payload bytes that do not end their frame. */
  function Middle(c: Conn, data: seq<byte>): Conn
    requires |c.ops| > 0
  {
    c.(cur := Some(Collect(c, data)))
  }

  /** Payload bytes that end their frame: with FIN the message is queued and its opcode popped. */
  function End(c: Conn, data: seq<byte>): Conn
    requires |c.ops| > 0
  {
    if c.lastFin
    then Conn(c.ops[..|c.ops| - 1], true, c.incoming + [Collect(c, data)], None)
    else Middle(c, data)
  }

  datatype ParseState =
    | AtHead(conn: Conn, spill: seq<byte>)                         // waiting for the rest of a header
    | InPayload(conn: Conn, remaining: nat, mask: seq<byte>)       // waiting for payload bytes
    | Violation(conn: Conn)                                        // the connection was closed by force

  /** A complete, acceptable header is present. */
  predicate Opens(role: Role, c: Conn, bytes: seq<byte>) {
    && HeaderComplete(role, bytes)
    && !BadHead(bytes[0], bytes[1])
    && !Refused(c, bytes[0])
    && PayloadLength(role, bytes) <= MAX_MESSAGE_LENGTH
  }

  /** What happens when no frame opens: wait for more bytes, or close. The reserved bits and opcode are
      checked as soon as a short header's worth of bytes is there, the rest when the header is complete. */
  function Stop(role: Role, c: Conn, bytes: seq<byte>): (p: ParseState)
    requires !Opens(role, c, bytes)
    ensures |c.ops| <= 2 ==> Valid(role, p)
    ensures p.AtHead? ==> p == AtHead(c, bytes)
  {
    if |bytes| < ShortHeader(role) then AtHead(c, bytes)
    else if BadHead(bytes[0], bytes[1]) then Violation(c)
    else if !HeaderComplete(role, bytes) then AtHead(c, bytes)
    else if Refused(c, bytes[0]) then Violation(c)
    else Violation(Begin(c, bytes[0]))
  }

  function Scan(role: Role, c: Conn, bytes: seq<byte>): ParseState
    decreases |bytes|, 0
  {
    if Opens(role, c, bytes)
    then Payload(role, Begin(c, bytes[0]), PayloadLength(role, bytes), HeaderMask(role, bytes),
                 bytes[HeaderSize(role, bytes[1])..])
    else Stop(role, c, bytes)
  }

  function Payload(role: Role, c: Conn, n: nat, mask: seq<byte>, bytes: seq<byte>): ParseState
    requires |c.ops| > 0 && IsMask(role, mask)
    decreases |bytes|, 1
  {
    if |bytes| < n
    then InPayload(Middle(c, Unmask(mask, bytes)), n - |bytes|, Rotate(mask, |bytes|))
    else Scan(role, End(c, Unmask(mask, bytes[..n])), bytes[n..])
  }

  /** One step of `Scan` when the header is complete and its first two bytes are good. */
  lemma ScanFrame(role: Role, c: Conn, bytes: seq<byte>)
    requires HeaderComplete(role, bytes) && !BadHead(bytes[0], bytes[1])
    ensures Refused(c, bytes[0]) ==> Scan(role, c, bytes) == Violation(c)
    ensures !Refused(c, bytes[0]) && PayloadLength(role, bytes) > MAX_MESSAGE_LENGTH ==>
              Scan(role, c, bytes) == Violation(Begin(c, bytes[0]))
    ensures !Refused(c, bytes[0]) && PayloadLength(role, bytes) <= MAX_MESSAGE_LENGTH ==>
              Scan(role, c, bytes) == Payload(role, Begin(c, bytes[0]), PayloadLength(role, bytes),
                                              HeaderMask(role, bytes), bytes[HeaderSize(role, bytes[1])..])
    ensures HeaderMask(role, bytes) ==
              if role == Server then bytes[HeaderSize(role, bytes[1]) - 4..HeaderSize(role, bytes[1])] else []
  {
  }

  /** One step of `Scan` when the header is not complete or is bad. */
  lemma ScanStops(role: Role, c: Conn, bytes: seq<byte>)
    ensures |bytes| >= ShortHeader(role) && BadHead(bytes[0], bytes[1]) ==> Scan(role, c, bytes) == Violation(c)
    ensures !HeaderComplete(role, bytes) && (|bytes| >= ShortHeader(role) ==> !BadHead(bytes[0], bytes[1])) ==>
              Scan(role, c, bytes) == AtHead(c, bytes)
  {
  }

  lemma HeaderLengths(role: Role, bytes: seq<byte>)
    requires HeaderComplete(role, bytes)
    ensures PayloadLength(role, bytes) ==
            if Length7(bytes[1]) < 126 then Length7(bytes[1])
            else if Length7(bytes[1]) == 126 then FromBigEndian(bytes[2..4])
            else FromBigEndian(bytes[2..10])
  {
  }

  /** Where a parser can stand between two calls. */
  predicate Valid(role: Role, p: ParseState) {
    && |p.conn.ops| <= 2
    && match p {
      case AtHead(_, spill) =>
        && (|spill| >= ShortHeader(role) ==> !BadHead(spill[0], spill[1]))
        && !HeaderComplete(role, spill)
      case InPayload(c, remaining, mask) => |c.ops| > 0 && c.cur.Some? && remaining > 0 && IsMask(role, mask)
      case Violation(_) => true
    }
  }

  /** Continues from `p` with more bytes. A violation is final. */
  function Feed(role: Role, p: ParseState, bytes: seq<byte>): ParseState
    requires Valid(role, p)
  {
    match p
    case AtHead(c, spill) => Scan(role, c, spill + bytes)
    case InPayload(c, remaining, mask) => Payload(role, c, remaining, mask, bytes)
    case Violation(_) => p
  }

  const START := AtHead(INITIAL, [])

  // Reading a stream keeps the parser in a valid state; the spill is always shorter than a long header.

  lemma {:induction false} ScanValid(role: Role, c: Conn, bytes: seq<byte>)
    requires |c.ops| <= 2
    ensures Valid(role, Scan(role, c, bytes))
    decreases |bytes|, 0
  {
    if Opens(role, c, bytes) {
      PayloadValid(role, Begin(c, bytes[0]), PayloadLength(role, bytes), HeaderMask(role, bytes),
                   bytes[HeaderSize(role, bytes[1])..]);
    }
  }

  lemma {:induction false} PayloadValid(role: Role, c: Conn, n: nat, mask: seq<byte>, bytes: seq<byte>)
    requires 0 < |c.ops| <= 2 && IsMask(role, mask)
    ensures Valid(role, Payload(role, c, n, mask, bytes))
    decreases |bytes|, 1
  {
    if |bytes| >= n {
      ScanValid(role, End(c, Unmask(mask, bytes[..n])), bytes[n..]);
    }
  }

  lemma FeedValid(role: Role, p: ParseState, bytes: seq<byte>)
    requires Valid(role, p)
    ensures Valid(role, Feed(role, p, bytes))
    ensures Feed(role, p, bytes).AtHead? ==> |Feed(role, p, bytes).spill| < LongHeader(role)
  {
    match p
    case AtHead(c, spill) => ScanValid(role, c, spill + bytes);
    case InPayload(c, remaining, mask) => PayloadValid(role, c, remaining, mask, bytes);
    case Violation(_) =>
  }

  // Cutting a stream in two does not change what is read.

  lemma {:induction false} UnmaskSplit(mask: seq<byte>, a: seq<byte>, b: seq<byte>)
    requires IsKey(mask)
    ensures Unmask(mask, a + b) == Unmask(mask, a) + Unmask(Rotate(mask, |a|), b)
    decreases |a|
  {
    hide Unmask, Rotate, Turn, Xor;
    if mask == [] {
      NoKey(|a|);
      NoKeyNoMask(a);
      NoKeyNoMask(b);
      NoKeyNoMask(a + b);
    } else if a == [] {
      assert a + b == b;
      UnmaskNothing(mask);
    } else {
      UnmaskStep(mask, a);
      UnmaskStep(mask, a + b);
      RotateStep(mask, |a|);
      assert (a + b)[1..] == a[1..] + b && (a + b)[0] == a[0];
      UnmaskSplit(Turn(mask), a[1..], b);
    }
  }

  lemma UnmaskStep(mask: seq<byte>, data: seq<byte>)
    requires IsKey(mask) && mask != [] && data != []
    ensures Unmask(mask, data) == [Xor(data[0], mask[0])] + Unmask(Turn(mask), data[1..])
  {
  }

  lemma UnmaskNothing(mask: seq<byte>)
    requires IsKey(mask)
    ensures Unmask(mask, []) == [] && Rotate(mask, 0) == mask
  {
  }

  lemma RotateStep(mask: seq<byte>, n: nat)
    requires IsKey(mask) && n > 0
    ensures Rotate(mask, n) == Rotate(Turn(mask), n - 1)
  {
  }

  lemma {:induction false} NoKey(n: nat)
    ensures Rotate([], n) == []
  {
    if n > 0 {
      NoKey(n - 1);
    }
  }

  lemma NoKeyNoMask(data: seq<byte>)
    ensures Unmask([], data) == data && Rotate([], |data|) == []
  {
    NoKey(|data|);
  }

  lemma {:induction false} RotateTwice(mask: seq<byte>, m: nat, n: nat)
    requires IsKey(mask)
    ensures Rotate(Rotate(mask, m), n) == Rotate(mask, m + n)
    decreases m
  {
    if m > 0 {
      RotateTwice(Turn(mask), m - 1, n);
    }
  }

  /** Section 5.3 of RFC 6455: payload byte k is combined with key byte k mod 4. */
  lemma {:induction false} UnmaskByteAt(mask: seq<byte>, data: seq<byte>, k: nat)
    requires |mask| == 4 && k < |data|
    ensures Unmask(mask, data)[k] == Xor(data[k], mask[k % 4])
    decreases |data|
  {
    assert Unmask(mask, data) == [Xor(data[0], mask[0])] + Unmask(Turn(mask), data[1..]);
    hide Unmask, Xor, Turn;
    if k > 0 {
      UnmaskByteAt(Turn(mask), data[1..], k - 1);
      TurnAt(mask, k);
    }
  }

  lemma TurnAt(mask: seq<byte>, k: nat)
    requires |mask| == 4 && k > 0
    ensures Turn(mask)[(k - 1) % 4] == mask[k % 4]
  {
  }

  /** Masking is its own inverse. */
  lemma {:induction false} UnmaskTwice(mask: seq<byte>, data: seq<byte>)
    requires IsKey(mask)
    ensures Unmask(mask, Unmask(mask, data)) == data
    decreases |data|
  {
    if mask != [] && data != [] {
      UnmaskTwice(Turn(mask), data[1..]);
      XorCancels(data[0], mask[0]);
      assert Unmask(mask, data)[1..] == Unmask(Turn(mask), data[1..]);
    }
  }

  /** A payload cut before its end continues with the rotated key. */
  lemma PayloadResumes(role: Role, c: Conn, n: nat, mask: seq<byte>, a: seq<byte>, b: seq<byte>)
    requires |c.ops| > 0 && IsMask(role, mask) && |a| < n
    ensures Payload(role, c, n, mask, a + b)
         == Payload(role, Middle(c, Unmask(mask, a)), n - |a|, Rotate(mask, |a|), b)
  {
    hide Unmask, Rotate, Payload, Scan, Collect, Middle, End;
    var c', k, mask' := Middle(c, Unmask(mask, a)), n - |a|, Rotate(mask, |a|);
    StillOpen(c, Unmask(mask, a));
    if |b| < k {
      PayloadWaits(role, c, n, mask, a + b);
      CollectTwice(c, mask, a, b);
      RotateTwice(mask, |a|, |b|);
      PayloadWaits(role, c', k, mask', b);
    } else {
      var whole := a + b;
      assert whole[..n] == a + b[..k] && whole[n..] == b[k..];
      PayloadEnds(role, c, n, mask, whole);
      CollectTwice(c, mask, a, b[..k]);
      PayloadEnds(role, c', k, mask', b);
    }
  }

  lemma StillOpen(c: Conn, data: seq<byte>)
    requires |c.ops| > 0
    ensures Middle(c, data).ops == c.ops
  {
  }

  lemma PayloadWaits(role: Role, c: Conn, n: nat, mask: seq<byte>, bytes: seq<byte>)
    requires |c.ops| > 0 && IsMask(role, mask) && |bytes| < n
    ensures Payload(role, c, n, mask, bytes)
         == InPayload(Middle(c, Unmask(mask, bytes)), n - |bytes|, Rotate(mask, |bytes|))
  {
  }

  lemma PayloadEnds(role: Role, c: Conn, n: nat, mask: seq<byte>, bytes: seq<byte>)
    requires |c.ops| > 0 && IsMask(role, mask) && |bytes| >= n
    ensures Payload(role, c, n, mask, bytes) == Scan(role, End(c, Unmask(mask, bytes[..n])), bytes[n..])
  {
  }

  lemma CollectTwice(c: Conn, mask: seq<byte>, a: seq<byte>, b: seq<byte>)
    requires |c.ops| > 0 && IsKey(mask)
    ensures Collect(Middle(c, Unmask(mask, a)), Unmask(Rotate(mask, |a|), b)) == Collect(c, Unmask(mask, a + b))
    ensures Middle(Middle(c, Unmask(mask, a)), Unmask(Rotate(mask, |a|), b)) == Middle(c, Unmask(mask, a + b))
    ensures End(Middle(c, Unmask(mask, a)), Unmask(Rotate(mask, |a|), b)) == End(c, Unmask(mask, a + b))
  {
    UnmaskSplit(mask, a, b);
    var u, v := Unmask(mask, a), Unmask(Rotate(mask, |a|), b);
    if c.cur.Some? {
      assert c.cur.value.payload + u + v == c.cur.value.payload + (u + v);
    }
  }

  lemma {:induction false} ScanSplit(role: Role, c: Conn, a: seq<byte>, b: seq<byte>)
    requires |c.ops| <= 2
    ensures Valid(role, Scan(role, c, a))
    ensures Feed(role, Scan(role, c, a), b) == Scan(role, c, a + b)
    decreases |a|, 0
  {
    hide PayloadLength, HeaderMask, BadHead, Payload;
    ScanValid(role, c, a);
    if Opens(role, c, a) {
      SameHeader(role, a, b);
      var h := HeaderSize(role, a[1]);
      assert (a + b)[h..] == a[h..] + b;
      PayloadSplit(role, Begin(c, a[0]), PayloadLength(role, a), HeaderMask(role, a), a[h..], b);
    } else {
      StopSplit(role, c, a, b);
    }
  }

  lemma StopSplit(role: Role, c: Conn, a: seq<byte>, b: seq<byte>)
    requires !Opens(role, c, a)
    ensures Stop(role, c, a).Violation? ==> !Opens(role, c, a + b) && Stop(role, c, a + b) == Stop(role, c, a)
  {
    if HeaderComplete(role, a) {
      SameHeader(role, a, b);
    }
  }

  lemma SameHeader(role: Role, a: seq<byte>, b: seq<byte>)
    requires HeaderComplete(role, a)
    ensures HeaderComplete(role, a + b)
    ensures PayloadLength(role, a + b) == PayloadLength(role, a)
    ensures HeaderMask(role, a + b) == HeaderMask(role, a)
  {
    if Length7(a[1]) == 126 {
      assert (a + b)[2..4] == a[2..4];
    } else if Length7(a[1]) == 127 {
      assert (a + b)[2..10] == a[2..10];
    }
    if role == Server {
      var h := HeaderSize(role, a[1]);
      assert (a + b)[h - 4..h] == a[h - 4..h];
    }
  }

  lemma {:induction false} PayloadSplit(role: Role, c: Conn, n: nat, mask: seq<byte>, a: seq<byte>, b: seq<byte>)
    requires 0 < |c.ops| <= 2 && IsMask(role, mask)
    ensures Valid(role, Payload(role, c, n, mask, a))
    ensures Feed(role, Payload(role, c, n, mask, a), b) == Payload(role, c, n, mask, a + b)
    decreases |a|, 1
  {
    PayloadValid(role, c, n, mask, a);
    if |a| < n {
      PayloadResumes(role, c, n, mask, a, b);
    } else {
      assert (a + b)[..n] == a[..n];
      assert (a + b)[n..] == a[n..] + b;
      ScanSplit(role, End(c, Unmask(mask, a[..n])), a[n..], b);
    }
  }

  /** Feeding two chunks is feeding their concatenation. */
  lemma FeedComposes(role: Role, p: ParseState, a: seq<byte>, b: seq<byte>)
    requires Valid(role, p)
    ensures Valid(role, Feed(role, p, a))
    ensures Feed(role, Feed(role, p, a), b) == Feed(role, p, a + b)
  {
    match p
    case AtHead(c, spill) =>
      ScanSplit(role, c, spill + a, b);
      assert spill + a + b == spill + (a + b);
    case InPayload(c, remaining, mask) => PayloadSplit(role, c, remaining, mask, a, b);
    case Violation(_) =>
  }

  /** The state after feeding chunks one by one. */
  ghost function FeedAll(role: Role, p: ParseState, chunks: seq<seq<byte>>): (q: ParseState)
    requires Valid(role, p)
    ensures Valid(role, q)
    decreases |chunks|
  {
    if chunks == [] then p
    else
      FeedValid(role, p, chunks[0]);
      FeedAll(role, Feed(role, p, chunks[0]), chunks[1..])
  }

  /** However a stream is cut, feeding the pieces gives what one scan of the whole stream gives. */
  lemma {:induction false} ChunkIndependence(role: Role, p: ParseState, chunks: seq<seq<byte>>)
    requires Valid(role, p)
    ensures FeedAll(role, p, chunks) == Feed(role, p, Flatten(chunks))
    decreases |chunks|
  {
    if chunks == [] {
      match p
      case AtHead(c, spill) => assert spill + [] == spill;
      case InPayload(c, remaining, mask) => PayloadNothing(role, c, remaining, mask);
      case Violation(_) =>
    } else {
      FeedComposes(role, p, chunks[0], Flatten(chunks[1..]));
      ChunkIndependence(role, Feed(role, p, chunks[0]), chunks[1..]);
    }
  }

  lemma PayloadNothing(role: Role, c: Conn, n: nat, mask: seq<byte>)
    requires |c.ops| > 0 && c.cur.Some? && n > 0 && IsMask(role, mask)
    ensures Payload(role, c, n, mask, []) == InPayload(c, n, mask)
  {
    assert c.cur.value.payload + [] == c.cur.value.payload;
    assert Rotate(mask, 0) == mask;
  }
}
