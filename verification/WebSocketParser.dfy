/** The resumable WebSocket parser: a state machine that is handed buffers of any size,
    keeps up to a header's worth of unread bytes in a spill buffer, and unmasks payloads in place.
    Every call does to the parser's state what `WebSocketFraming.Feed` says.
 */
module WebSocketParser {
  import opened Bytes
  import opened Common
  import opened WebSocketFraming

  datatype ReadState = ReadHead | ReadMessage

  /** Conversion to a 32-bit signed integer. */
  function Int32(n: nat): int {
    var low := n % 0x1_0000_0000;
    if low < 0x8000_0000 then low else low - 0x1_0000_0000
  }

  const SIZE_MAX: nat := 0xffff_ffff_ffff_ffff

  /** The test `int(payLength) <= int(available)`, by which the whole payload is in the buffer. */
  predicate SeemsWhole(payLength: nat, available: nat) { Int32(payLength) <= Int32(available) }

  /** The low half of `available` is not negative as an int, and not less than the payload's length. */
  predicate TestIsRight(payLength: nat, available: nat) {
    available < 0x8000_0000 || payLength <= available % 0x1_0000_0000 < 0x8000_0000
  }

  lemma PayloadFitsTest(payLength: nat, available: nat)
    requires payLength <= MAX_MESSAGE_LENGTH
    ensures (SeemsWhole(payLength, available) <==> payLength <= available) <==> TestIsRight(payLength, available)
    ensures SeemsWhole(payLength, available) ==> payLength <= available
  {
  }

  /**
   * The payload after a header, as it is read from a buffer of any size: subtraction wraps around if the test is wrong.
   */
  function PayloadAsCoded(role: Role, c: Conn, n: nat, mask: seq<byte>, bytes: seq<byte>): ParseState
    requires |c.ops| > 0 && IsMask(role, mask) && n <= MAX_MESSAGE_LENGTH
  {
    PayloadFitsTest(n, |bytes|);
    if SeemsWhole(n, |bytes|) then Scan(role, End(c, Unmask(mask, bytes[..n])), bytes[n..])
    else InPayload(Middle(c, Unmask(mask, bytes)), (n - |bytes|) % (SIZE_MAX + 1), Rotate(mask, |bytes|))
  }

  /** How much of an unfinished message there is. */
  function Volume(c: Conn): nat { if c.cur.Some? then |c.cur.value.payload| else 0 }

  /** Headers do not end up in messages. */
  lemma {:induction false} ScanVolume(role: Role, c: Conn, bytes: seq<byte>)
    requires bytes != []
    ensures Volume(Scan(role, c, bytes).conn) < Volume(c) + |bytes|
    decreases |bytes|, 0
  {
    hide PayloadLength, BadHead, Unmask;
    if Opens(role, c, bytes) {
      var b := Begin(c, bytes[0]);
      PayloadVolume(role, b, PayloadLength(role, bytes), HeaderMask(role, bytes), bytes[HeaderSize(role, bytes[1])..]);
    }
  }

  lemma {:induction false} PayloadVolume(role: Role, c: Conn, n: nat, mask: seq<byte>, bytes: seq<byte>)
    requires |c.ops| > 0 && IsMask(role, mask)
    ensures Volume(Payload(role, c, n, mask, bytes).conn) <= Volume(c) + |bytes|
    decreases |bytes|, 1
  {
    if n < |bytes| {
      ScanVolume(role, End(c, Unmask(mask, bytes[..n])), bytes[n..]);
    } else if n == |bytes| {
      assert bytes[n..] == [];
    }
  }

  /**
   * A frame's payload is read as it should be if and only if the test is right; otherwise what follows is taken for
   * more of it.
   */
  lemma ReadRightIff(role: Role, c: Conn, n: nat, mask: seq<byte>, bytes: seq<byte>)
    requires |c.ops| > 0 && IsMask(role, mask) && n <= MAX_MESSAGE_LENGTH && |bytes| <= SIZE_MAX
    ensures PayloadAsCoded(role, c, n, mask, bytes) == Payload(role, c, n, mask, bytes) <==> TestIsRight(n, |bytes|)
  {
    PayloadFitsTest(n, |bytes|);
    hide Unmask, Rotate, TestIsRight, SeemsWhole;
    if !TestIsRight(n, |bytes|) {
      BeyondPayload(n, |bytes|);
      ScanVolume(role, End(c, Unmask(mask, bytes[..n])), bytes[n..]);
    }
    hide Scan;
  }

  /** The frame at the front of a buffer of any size. */
  function FrameAsCoded(role: Role, c: Conn, bytes: seq<byte>): ParseState {
    if Opens(role, c, bytes)
    then PayloadAsCoded(role, Begin(c, bytes[0]), PayloadLength(role, bytes), HeaderMask(role, bytes),
                        bytes[HeaderSize(role, bytes[1])..])
    else Stop(role, c, bytes)
  }

  /** The frame is read right if the rest of the buffer is not too large, or happens to be right. */
  lemma FrameReadRightIff(role: Role, c: Conn, bytes: seq<byte>)
    requires |bytes| <= SIZE_MAX
    ensures FrameAsCoded(role, c, bytes) == Scan(role, c, bytes) <==>
              (Opens(role, c, bytes) ==> TestIsRight(PayloadLength(role, bytes), |bytes| - HeaderSize(role, bytes[1])))
  {
    hide Payload, PayloadAsCoded, TestIsRight, PayloadLength;
    if Opens(role, c, bytes) {
      ReadRightIff(role, Begin(c, bytes[0]), PayloadLength(role, bytes), HeaderMask(role, bytes),
                   bytes[HeaderSize(role, bytes[1])..]);
    }
  }

  lemma SomeAwaited(n: nat, available: nat)
    requires n <= MAX_MESSAGE_LENGTH && available <= SIZE_MAX && !SeemsWhole(n, available)
    ensures (n - available) % (SIZE_MAX + 1) > 0
  {
  }

  lemma BeyondPayload(n: nat, available: nat)
    requires n <= MAX_MESSAGE_LENGTH && !TestIsRight(n, available)
    ensures n < available && !SeemsWhole(n, available)
  {
  }

  /**
   * One byte of payload at the front of 2^31 bytes: all of them are taken for payload, and nearly 2^64 more are
   * awaited.
   */
  lemma LargeBufferIsMisread(role: Role, c: Conn, mask: seq<byte>, bytes: seq<byte>)
    requires |c.ops| > 0 && IsMask(role, mask) && |bytes| == 0x8000_0000
    ensures PayloadAsCoded(role, c, 1, mask, bytes).InPayload?
    ensures PayloadAsCoded(role, c, 1, mask, bytes).remaining == SIZE_MAX - 0x8000_0000 + 2
    ensures PayloadAsCoded(role, c, 1, mask, bytes) != Payload(role, c, 1, mask, bytes)
  {
    hide Scan, Unmask, Rotate, Payload, PayloadAsCoded, SeemsWhole, TestIsRight;
    OneOfMany();
    ReadRightIff(role, c, 1, mask, bytes);
    PartAsCoded(role, c, 1, mask, bytes);
  }

  lemma OneOfMany()
    ensures !SeemsWhole(1, 0x8000_0000) && !TestIsRight(1, 0x8000_0000)
  {
  }

  lemma PartAsCoded(role: Role, c: Conn, n: nat, mask: seq<byte>, bytes: seq<byte>)
    requires |c.ops| > 0 && IsMask(role, mask) && n <= MAX_MESSAGE_LENGTH && !SeemsWhole(n, |bytes|)
    ensures PayloadAsCoded(role, c, n, mask, bytes)
         == InPayload(Middle(c, Unmask(mask, bytes)), (n - |bytes|) % (SIZE_MAX + 1), Rotate(mask, |bytes|))
  {
    hide Unmask, Rotate, Scan, SeemsWhole;
  }

  lemma WholeAsCoded(role: Role, c: Conn, n: nat, mask: seq<byte>, bytes: seq<byte>)
    requires |c.ops| > 0 && IsMask(role, mask) && n <= MAX_MESSAGE_LENGTH && SeemsWhole(n, |bytes|)
    ensures n <= |bytes|
    ensures PayloadAsCoded(role, c, n, mask, bytes) == Scan(role, End(c, Unmask(mask, bytes[..n])), bytes[n..])
  {
    PayloadFitsTest(n, |bytes|);
    hide Unmask, Rotate, Scan, SeemsWhole;
  }

  /** The bytes from 4q on begin a round of the key. */
  lemma RoundStarts(key: seq<byte>, data: seq<byte>, q: nat, n: nat)
    requires |key| == 4 && n == 4 * q
    ensures forall k :: n <= k < n + 4 && k < |data| ==> Unmask(key, data)[k] == Xor(data[k], key[k - n])
  {
    hide Unmask, Xor;
    forall k | n <= k < n + 4 && k < |data|
      ensures Unmask(key, data)[k] == Xor(data[k], key[k - n])
    {
      UnmaskByteAt(key, data, k);
      assert k % 4 == k - n;
    }
  }

  /** Unmasks up to four bytes after the first n, one after the other. */
  method XorRound(a: array<byte>, dst: nat, src: nat, n: nat, mask: seq<byte>, length: nat, ghost u: seq<byte>)
    requires length <= 4 && dst <= src && src + n + length <= a.Length && |mask| == 4 && n + length <= |u|
    requires forall k :: 0 <= k < n ==> a[dst + k] == u[k]
    requires forall k :: n <= k < n + length ==> u[k] == Xor(a[src + k], mask[k - n])
    modifies a
    ensures forall k :: 0 <= k < n + length ==> a[dst + k] == u[k]
    ensures forall k :: 0 <= k < dst || dst + n + length <= k < a.Length ==> a[k] == old(a[k])
  {
    hide *;
    var m := 0;
    while m < length
      invariant m <= length
      invariant forall k :: 0 <= k < n + m ==> a[dst + k] == u[k]
      invariant forall k :: 0 <= k < dst || dst + n + m <= k < a.Length ==> a[k] == old(a[k])
    {
      assert u[n + m] == Xor(old(a[src + (n + m)]), mask[m]);
      a[dst + n + m] := Xor(a[src + n + m], mask[m]);
      m := m + 1;
    }
  }

  /** The whole rounds of four bytes; fewer than four bytes are left. */
  method XorRounds(a: array<byte>, dst: nat, src: nat, mask: seq<byte>, length: nat, ghost u: seq<byte>)
    returns (n: nat)
    requires dst <= src && src + length <= a.Length && |mask| == 4
    requires u == Unmask(mask, a[src..src + length])
    modifies a
    ensures n <= length < n + 4
    ensures forall k :: 0 <= k < n ==> a[dst + k] == u[k]
    ensures forall k :: n <= k < length ==> u[k] == Xor(a[src + k], mask[k - n])
    ensures forall k :: 0 <= k < dst || dst + n <= k < a.Length ==> a[k] == old(a[k])
  {
    ghost var data := a[src..src + length];
    hide *;
    n := 0;
    ghost var q := 0;
    RoundStarts(mask, data, q, n);
    while length - n >= 4
      invariant n == 4 * q <= length
      invariant forall k :: 0 <= k < n ==> a[dst + k] == u[k]
      invariant forall k :: n <= k < n + 4 && k < length ==> u[k] == Xor(a[src + k], mask[k - n])
      invariant forall k :: 0 <= k < dst || dst + n <= k < a.Length ==> a[k] == old(a[k])
    {
      XorRound(a, dst, src, n, mask, 4, u);
      n, q := n + 4, q + 1;
      RoundStarts(mask, data, q, n);
      assert forall k :: n <= k < n + 4 && k < length ==> data[k] == a[src + k];
    }
  }

  /** Copies `length` bytes down from `src` to `dst`, unmasking them; the regions may overlap. */
  method UnmaskPrecise(a: array<byte>, dst: nat, src: nat, mask: seq<byte>, length: nat)
    requires dst <= src && src + length <= a.Length && |mask| == 4
    modifies a
    ensures a[dst..dst + length] == Unmask(mask, old(a[src..src + length]))
    ensures forall k :: 0 <= k < dst || dst + length <= k < a.Length ==> a[k] == old(a[k])
  {
    ghost var u := Unmask(mask, a[src..src + length]);
    hide *;
    var n := XorRounds(a, dst, src, mask, length, u);
    XorRound(a, dst, src, n, mask, length - n, u);
  }

  /** Unmasks `a[lo..hi]` where it is. */
  method UnmaskInplace(a: array<byte>, lo: nat, hi: nat, mask: seq<byte>)
    requires lo <= hi <= a.Length && |mask| == 4
    modifies a
    ensures a[lo..hi] == Unmask(mask, old(a[lo..hi]))
    ensures forall k :: 0 <= k < lo || hi <= k < a.Length ==> a[k] == old(a[k])
  {
    ghost var u := Unmask(mask, a[lo..hi]);
    hide *;
    var n := XorRounds(a, lo, lo, mask, hi - lo, u);
    XorRound(a, lo, lo, n, mask, hi - lo - n, u);
  }

  /** Unmasks, in the read buffer, `n` payload bytes that follow a header whose last four bytes are the key.
      They are moved to the front of the buffer; the bytes after them stay. */
  method UnmaskFrame(src: seq<byte>, header: nat, n: nat) returns (data: seq<byte>, rest: seq<byte>)
    requires 4 <= header && header + n <= |src|
    ensures data == Unmask(src[header - 4..header], src[header..header + n])
    ensures rest == src[header + n..]
  {
    var a := new byte[|src|](k requires 0 <= k < |src| => src[k]);
    assert a[..] == src;
    assert a[header..header + n] == src[header..header + n];
    hide *;
    UnmaskPrecise(a, 0, header, src[header - 4..header], n);
    data, rest := a[..n], a[header + n..];
  }

  /** Unmasks the first `n` bytes of the read buffer where they are. */
  method UnmaskFront(src: seq<byte>, n: nat, mask: seq<byte>) returns (data: seq<byte>, rest: seq<byte>)
    requires n <= |src| && |mask| == 4
    ensures data == Unmask(mask, src[..n])
    ensures rest == src[n..]
  {
    var a := new byte[|src|](k requires 0 <= k < |src| => src[k]);
    assert a[..] == src;
    assert a[0..n] == src[..n];
    hide *;
    UnmaskInplace(a, 0, n, mask);
    data, rest := a[..n], a[n..];
  }

  lemma {:induction false} RotateIsModular(key: seq<byte>, n: nat)
    requires |key| == 4
    ensures Rotate(key, n) == key[n % 4..] + key[..n % 4]
    decreases n
  {
    hide Turn;
    if n > 0 {
      RotateIsModular(Turn(key), n - 1);
      var r := (n - 1) % 4;
      assert n % 4 == if r < 3 then r + 1 else 0;
      TurnedParts(key, r);
    }
  }

  lemma TurnedParts(key: seq<byte>, r: nat)
    requires |key| == 4 && r < 4
    ensures var m := if r < 3 then r + 1 else 0;
            Turn(key)[r..] + Turn(key)[..r] == key[m..] + key[..m]
  {
    var t, m := Turn(key), if r < 3 then r + 1 else 0;
    assert t == [key[1], key[2], key[3], key[0]];
    hide Turn;
    var a, b := t[r..] + t[..r], key[m..] + key[..m];
    assert a[0] == b[0] && a[1] == b[1] && a[2] == b[2] && a[3] == b[3];
  }

  lemma RotatedKey(key: seq<byte>, moved: seq<byte>, n: nat, offset: nat)
    requires |key| == 4 == |moved| && offset == 4 - n % 4
    requires moved[offset % 4] == key[0] && moved[(1 + offset) % 4] == key[1]
    requires moved[(2 + offset) % 4] == key[2] && moved[(3 + offset) % 4] == key[3]
    ensures moved == Rotate(key, n)
  {
    RotateIsModular(key, n);
    hide *;
    var r := n % 4;
    if r == 0 {
      assert moved == key[0..] + key[..0];
    } else if r == 1 {
      assert moved == key[1..] + key[..1];
    } else if r == 2 {
      assert moved == key[2..] + key[..2];
    } else {
      assert moved == key[3..] + key[..3];
    }
  }

  /** Moves key byte i to place (i + offset) mod 4, so that the key applies after `n` more bytes. */
  method RotateMask(offset: nat, key: seq<byte>, ghost n: nat) returns (mask: seq<byte>)
    requires |key| == 4 && offset == 4 - n % 4
    ensures mask == Rotate(key, n)
  {
    hide *;
    mask := key;
    mask := mask[offset % 4 := key[0]];
    mask := mask[(1 + offset) % 4 := key[1]];
    mask := mask[(2 + offset) % 4 := key[2]];
    mask := mask[(3 + offset) % 4 := key[3]];
    RotatedKey(key, mask, n, offset);
  }

  class Parser {
    const role: Role
    var state: ReadState
    var spillLength: nat
    var opStack: int
    var lastFin: bool
    var spill: seq<byte>
    var remainingBytes: nat
    var mask: seq<byte>
    var opCode: seq<nat>
    // The owning WebSocket's queue of finished messages, and the message being collected:
    var incoming: seq<Message>
    var cur: Option<Message>
    // A protocol error was raised; nothing more is read.
    var failed: bool

    ghost predicate Shape()
      reads this
    {
      && |spill| == LongHeader(role) - 1
      && IsMask(role, mask)
      && |opCode| == 2
      && -1 <= opStack <= 1
      && spillLength <= |spill|
    }

    ghost function Connection(): (c: Conn)
      reads this
      requires Shape()
      ensures |c.ops| == opStack + 1
    {
      Conn(opCode[..opStack + 1], lastFin, incoming, cur)
    }

    ghost function State(): ParseState
      reads this
      requires Shape()
    {
      if failed then Violation(Connection())
      else if state == ReadHead then AtHead(Connection(), spill[..spillLength])
      else InPayload(Connection(), remainingBytes, mask)
    }

    ghost predicate Valid()
      reads this
    {
      Shape() && WebSocketFraming.Valid(role, State()) && (state == ReadMessage ==> spillLength == 0)
    }

    /** Between frames, with no bytes kept back. */
    ghost predicate AtFrame()
      reads this
    {
      Shape() && !failed && state == ReadHead && spillLength == 0
    }

    constructor (role: Role)
      ensures this.role == role && Valid() && State() == START
    {
      this.role := role;
      state, spillLength, opStack, lastFin := ReadHead, 0, -1, true;
      spill := seq(LongHeader(role) - 1, _ => 0);
      remainingBytes := 0;
      mask := if role == Server then [0, 0, 0, 0] else [];
      opCode := [0, 0];
      incoming, cur, failed := [], None, false;
    }

    /** WebSocket::handleFragment. */
    method HandleFragment(data: seq<byte>, remaining: nat, opcode: nat, fin: bool)
      requires Shape() && opStack >= 0 && opcode == opCode[opStack]
      modifies this`incoming, this`cur
      ensures var m := Collect(old(Connection()), data);
              if fin && remaining == 0 then incoming == old(incoming) + [m] && cur == None
              else incoming == old(incoming) && cur == Some(m)
    {
      ghost var m := Collect(Connection(), data);
      if cur == None {
        cur := Some(Message(opcode, []));
      }
      cur := Some(Message(cur.value.kind, cur.value.payload + data));
      assert cur.value == m by {
        assert [] + data == data;
      }
      if fin && remaining == 0 {
        incoming := incoming + [cur.value];
        cur := None;
      }
    }

    /** Checks a frame's opcode against the open ones and pushes it. */
    method OpenFrame(b0: byte) returns (ok: bool)
      requires Shape() && !failed
      modifies this`opStack, this`lastFin, this`failed, this`opCode
      ensures Shape() && failed == !ok
      ensures ok == !Refused(old(Connection()), b0)
      ensures ok ==> opStack >= 0 && Connection() == Begin(old(Connection()), b0)
      ensures !ok ==> Connection() == old(Connection())
    {
      ghost var c := Connection();
      if OpCode(b0) != 0 {
        if opStack == 1 || (!lastFin && OpCode(b0) < 2) {
          failed := true;
          return false;
        }
        opStack := opStack + 1;
        opCode := opCode[opStack := OpCode(b0)];
      } else if opStack == -1 {
        failed := true;
        return false;
      }
      lastFin := IsFin(b0);
      ok := true;
      assert Connection().ops == Begin(c, b0).ops;
    }

    /** A fragment that ends its frame. */
    method EndFrame(data: seq<byte>)
      requires Shape() && opStack >= 0
      modifies this`incoming, this`cur, this`opStack
      ensures Shape() && Connection() == End(old(Connection()), data)
    {
      ghost var c := Connection();
      HandleFragment(data, 0, opCode[opStack], lastFin);
      if lastFin {
        opStack := opStack - 1;
        assert Connection().ops == c.ops[..|c.ops| - 1];
      }
    }

    /** A fragment that does not end its frame. */
    method MiddleOfFrame(data: seq<byte>)
      requires Shape() && opStack >= 0 && remainingBytes > 0
      modifies this`incoming, this`cur
      ensures Shape() && Connection() == Middle(old(Connection()), data)
    {
      HandleFragment(data, remainingBytes, opCode[opStack], lastFin);
    }

    /** The `n` payload bytes after a header, unmasked when a server reads. */
    method Unmasked(src: seq<byte>, header: nat, n: nat, ghost key: seq<byte>) returns (data: seq<byte>, rest: seq<byte>)
      requires header + n <= |src|
      requires if role == Server then header >= 4 && key == src[header - 4..header] else key == []
      ensures |data| == n && data == Unmask(key, src[header..header + n])
      ensures rest == src[header + n..]
    {
      if role == Server {
        data, rest := UnmaskFrame(src, header, n);
      } else {
        data, rest := src[header..header + n], src[header + n..];
        NoKeyNoMask(data);
      }
    }

    /** The payload of the frame just opened, when all of it is in the buffer. */
    method TakeWhole(header: nat, payLength: nat, src0: seq<byte>, ghost key: seq<byte>) returns (src: seq<byte>)
      requires AtFrame() && opStack >= 0 && header <= |src0|
      requires payLength <= MAX_MESSAGE_LENGTH && SeemsWhole(payLength, |src0| - header)
      requires if role == Server then header >= 4 && key == src0[header - 4..header] else key == []
      modifies this
      ensures AtFrame() && header + |src| <= |src0|
      ensures Scan(role, Connection(), src) == PayloadAsCoded(role, old(Connection()), payLength, key, src0[header..])
    {
      hide Unmask, Rotate, Xor, Scan, SeemsWhole, PayloadAsCoded, Collect, IsMask;
      ghost var rest := src0[header..];
      KeyIsMask(key);
      WholeAsCoded(role, Connection(), payLength, key, rest);
      assert rest[..payLength] == src0[header..header + payLength];
      var data;
      data, src := Unmasked(src0, header, payLength, key);
      EndFrame(data);
    }

    /** The payload of the frame just opened, when the buffer ends before it does. */
    method TakePart(header: nat, payLength: nat, src: seq<byte>, ghost key: seq<byte>)
      requires AtFrame() && opStack >= 0 && header <= |src| <= SIZE_MAX
      requires payLength <= MAX_MESSAGE_LENGTH && !SeemsWhole(payLength, |src| - header)
      requires if role == Server then header >= 4 && key == src[header - 4..header] else key == []
      modifies this
      ensures Shape() && spillLength == 0
      ensures State() == PayloadAsCoded(role, old(Connection()), payLength, key, src[header..])
    {
      hide Unmask, Rotate, Xor, Scan, SeemsWhole, PayloadAsCoded, Collect, IsMask;
      ghost var rest := src[header..];
      KeyIsMask(key);
      PartAsCoded(role, Connection(), payLength, key, rest);
      SomeAwaited(payLength, |rest|);
      state := ReadMessage;
      remainingBytes := (payLength + header - |src|) % (SIZE_MAX + 1);
      assert src[header..|src|] == rest;
      var data, _ := Unmasked(src, header, |src| - header, key);
      KeepMask(header, src, |data|, key);
      MiddleOfFrame(data);
    }

    lemma KeyIsMask(key: seq<byte>)
      requires |key| == if role == Server then 4 else 0
      ensures IsMask(role, key)
    {
    }

    /** Remembers the mask for the bytes to come, turned by the `n` bytes it has been used for. */
    method KeepMask(header: nat, src: seq<byte>, n: nat, ghost key: seq<byte>)
      requires Shape() && header <= |src|
      requires if role == Server then header >= 4 && key == src[header - 4..header] else key == []
      modifies `mask
      ensures Shape() && mask == Rotate(key, n)
    {
      if role == Server {
        mask := RotateMask(4 - n % 4, src[header - 4..header], n);
      } else {
        NoKey(n);
      }
    }

    /** Reads one frame whose whole header is at the front of `src0`. Answers true when the buffer is done with. */
    method ConsumeMessage(header: nat, payLength: nat, src0: seq<byte>) returns (stop: bool, src: seq<byte>)
      requires AtFrame() && |src0| <= SIZE_MAX
      requires HeaderComplete(role, src0) && !BadHead(src0[0], src0[1])
      requires header == HeaderSize(role, src0[1]) && payLength == PayloadLength(role, src0)
      modifies this
      ensures Shape() && spillLength == 0
      ensures stop ==> State() == FrameAsCoded(role, old(Connection()), src0)
      ensures !stop ==> AtFrame() && |src| < |src0|
      ensures !stop ==> Scan(role, Connection(), src) == FrameAsCoded(role, old(Connection()), src0)
    {
      ScanFrame(role, Connection(), src0);
      hide Unmask, Rotate, Xor, Scan, PayloadAsCoded, PayloadLength, HeaderMask, Int32, SeemsWhole;
      src := src0;
      var ok := OpenFrame(src[0]);
      if !ok {
        return true, src;
      }
      if payLength > MAX_MESSAGE_LENGTH {
        failed := true;
        return true, src;
      }
      if SeemsWhole(payLength, |src| - header) {
        src := TakeWhole(header, payLength, src, HeaderMask(role, src0));
        return false, src;
      } else {
        TakePart(header, payLength, src, HeaderMask(role, src0));
        return true, src;
      }
    }

    /** The next `n` payload bytes, unmasked when a server reads. */
    method UnmaskedFront(src: seq<byte>, n: nat) returns (data: seq<byte>, rest: seq<byte>)
      requires Shape() && n <= |src|
      ensures |data| == n && data == Unmask(mask, src[..n])
      ensures rest == src[n..]
    {
      if role == Server {
        data, rest := UnmaskFront(src, n, mask);
      } else {
        data, rest := src[..n], src[n..];
        NoKeyNoMask(data);
      }
    }

    /** Reads the rest of the payload left unfinished. */
    method ContinueToEnd(src0: seq<byte>) returns (src: seq<byte>)
      requires Valid() && !failed && state == ReadMessage && remainingBytes <= |src0|
      modifies this
      ensures AtFrame() && |src| <= |src0| && Scan(role, Connection(), src) == Feed(role, old(State()), src0)
    {
      PayloadEnds(role, Connection(), remainingBytes, mask, src0);
      hide Unmask, Rotate, Xor, Scan, Payload;
      var data;
      data, src := UnmaskedFront(src0, remainingBytes);
      EndFrame(data);
      state := ReadHead;
    }

    /** Reads more of the payload left unfinished, not reaching its end. */
    method ContinuePart(src: seq<byte>)
      requires Valid() && !failed && state == ReadMessage && remainingBytes > |src|
      modifies this
      ensures Shape() && spillLength == 0 && State() == Feed(role, old(State()), src)
    {
      hide Unmask, Rotate, Xor, Scan, Payload, Collect, HeaderComplete, BadHead;
      PayloadWaits(role, Connection(), remainingBytes, mask, src);
      assert src[..|src|] == src;
      var data, _ := UnmaskedFront(src, |src|);
      remainingBytes := remainingBytes - |src|;
      MiddleOfFrame(data);
      if role == Server && |src| % 4 != 0 {
        mask := RotateMask(4 - |src| % 4, mask, |src|);
      } else {
        NoRotation(mask, |src|);
      }
    }

    /** Reads payload bytes into the frame left unfinished. Answers true when the frame ended. */
    method ConsumeContinuation(src0: seq<byte>) returns (more: bool, src: seq<byte>)
      requires Valid() && !failed && state == ReadMessage
      modifies this
      ensures Shape() && spillLength == 0
      ensures !more ==> State() == Feed(role, old(State()), src0)
      ensures more ==> AtFrame() && |src| <= |src0| && Scan(role, Connection(), src) == Feed(role, old(State()), src0)
    {
      hide Unmask, Rotate, Xor, Scan, Payload, Feed, State;
      if remainingBytes <= |src0| {
        src := ContinueToEnd(src0);
        more := true;
      } else {
        ContinuePart(src0);
        more, src := false, src0;
      }
    }

    /**
     * The frame at the start of `src0`: `wait` says that its header is incomplete, `stop` that the bytes are used up.
     */
    method ConsumeFrame(src0: seq<byte>) returns (wait: bool, stop: bool, src: seq<byte>)
      requires AtFrame() && ShortHeader(role) <= |src0| < 0x8000_0000
      modifies this
      ensures wait ==> AtFrame() && Connection() == old(Connection()) && src == src0 && !stop
      ensures wait ==> !HeaderComplete(role, src0) && !BadHead(src0[0], src0[1])
      ensures stop ==> Shape() && spillLength == 0 && State() == Scan(role, old(Connection()), src0)
      ensures !wait && !stop ==> AtFrame() && |src| < |src0|
      ensures !wait && !stop ==> Scan(role, Connection(), src) == Scan(role, old(Connection()), src0)
    {
      wait, stop, src := false, false, src0;
      ScanStops(role, Connection(), src);
      FrameReadRightIff(role, Connection(), src);
      hide Unmask, Rotate, Xor, Scan, Payload, PayloadLength, HeaderMask, FrameAsCoded, Opens;
      if BadHead(src[0], src[1]) {
        failed := true;
        return false, true, src;
      }
      if HeaderComplete(role, src) {
        HeaderLengths(role, src);
      }
      var len7 := Length7(src[1]);
      if len7 < 126 {
        stop, src := ConsumeMessage(ShortHeader(role), len7, src);
      } else if len7 == 126 {
        if |src| < MediumHeader(role) {
          return true, false, src;
        }
        stop, src := ConsumeMessage(MediumHeader(role), FromBigEndian(src[2..4]), src);
      } else {
        if |src| < LongHeader(role) {
          return true, false, src;
        }
        stop, src := ConsumeMessage(LongHeader(role), FromBigEndian(src[2..10]), src);
      }
    }

    /** What is left is less than a header, and is kept back. */
    method KeepBack(src: seq<byte>)
      requires AtFrame() && |src| < 0x8000_0000 && !HeaderComplete(role, src)
      requires |src| >= ShortHeader(role) ==> !BadHead(src[0], src[1])
      modifies this
      ensures Shape() && (state == ReadMessage ==> spillLength == 0)
      ensures State() == Scan(role, old(Connection()), src)
    {
      ScanStops(role, Connection(), src);
      hide Scan;
      if |src| > 0 {
        spill := src + spill[|src|..];
        spillLength := |src|;
      }
    }

    /** `_consume`, as `consume` calls it: with nothing in the spill buffer. */
    method ConsumeBuffer(src0: seq<byte>)
      requires Valid() && !failed && spillLength == 0 && |src0| < 0x8000_0000
      modifies this
      ensures Valid() && State() == Feed(role, old(State()), src0)
    {
      ghost var target := Feed(role, State(), src0);
      FeedValid(role, State(), src0);
      var src := src0;
      hide Unmask, Rotate, Xor, Scan, Payload, PayloadLength, HeaderMask, HeaderComplete;
      if state == ReadMessage {
        var more;
        more, src := ConsumeContinuation(src);
        if !more {
          return;
        }
      } else {
        assert spill[..0] + src0 == src0;
      }
      hide Feed, BadHead, Connection, State;
      while |src| >= ShortHeader(role)
        invariant AtFrame() && |src| < 0x8000_0000
        invariant Scan(role, Connection(), src) == target
        decreases |src|
      {
        var wait, stop;
        wait, stop, src := ConsumeFrame(src);
        if stop {
          return;
        }
        if wait {
          break;
        }
      }
      if |src| < ShortHeader(role) {
        ShortIsIncomplete(role, src);
      }
      KeepBack(src);
    }

    /** Reads a buffer of bytes off the wire, finishing first whatever header the last buffer left. */
    method Consume(src0: seq<byte>)
      requires Valid() && !failed && |src0| < 0x8000_0000
      modifies this
      ensures Valid() && State() == Feed(role, old(State()), src0)
    {
      var src := src0;
      ghost var target := Feed(role, State(), src0);
      while spillLength > 0
        invariant Valid() && !failed && |src| < 0x8000_0000
        invariant Feed(role, State(), src) == target
        decreases |src|
      {
        ghost var start := State();
        hide Unmask, Rotate, Xor, Scan, Payload, Feed;
        var bufLen := if spillLength + |src| < LongHeader(role) then spillLength + |src| else LongHeader(role);
        var used := bufLen - spillLength;
        var buf := spill[..spillLength] + src[..used];
        assert src == src[..used] + src[used..];
        FeedComposes(role, start, src[..used], src[used..]);
        spillLength := 0;
        FeedSpilled(role, start, State(), src[..used], buf);
        src := src[used..];
        ConsumeBuffer(buf);
        if |src| == 0 || failed {
          FeedNothing(role, State());
          FeedAfterViolation(role, State(), src);
          return;
        }
      }
      ConsumeBuffer(src);
    }
  }

  lemma ShortIsIncomplete(role: Role, src: seq<byte>)
    requires |src| < ShortHeader(role)
    ensures !HeaderComplete(role, src)
  {
  }

  lemma NoRotation(key: seq<byte>, n: nat)
    requires key == [] || (|key| == 4 && n % 4 == 0)
    ensures Rotate(key, n) == key
  {
    if key == [] {
      NoKey(n);
    } else {
      RotateIsModular(key, n);
    }
  }

  /** Feeding the spilled bytes again, from a parser that no longer holds them. */
  lemma FeedSpilled(role: Role, p: ParseState, q: ParseState, more: seq<byte>, buf: seq<byte>)
    requires WebSocketFraming.Valid(role, p) && p.AtHead? && q == AtHead(p.conn, []) && buf == p.spill + more
    ensures WebSocketFraming.Valid(role, q) && Feed(role, q, buf) == Feed(role, p, more)
  {
    assert [] + buf == buf;
  }

  lemma FeedAfterViolation(role: Role, p: ParseState, bytes: seq<byte>)
    requires WebSocketFraming.Valid(role, p)
    ensures p.Violation? ==> Feed(role, p, bytes) == p
  {
  }

  lemma FeedNothing(role: Role, p: ParseState)
    requires WebSocketFraming.Valid(role, p)
    ensures Feed(role, p, []) == p
  {
    match p
    case AtHead(c, spill) => assert spill + [] == spill;
    case InPayload(c, remaining, mask) => PayloadNothing(role, c, remaining, mask);
    case Violation(_) =>
  }

  /** The reading side of WebSocket::receive: buffers are handed to the parser until it raises an error.
      However the stream was cut into buffers, the result is that of one scan of the whole stream. */
  method ReadAll(p: Parser, chunks: seq<seq<byte>>)
    requires p.Valid() && p.State() == START
    requires forall c :: c in chunks ==> |c| < 0x8000_0000
    modifies p
    ensures p.Valid()
    ensures p.State() == Scan(p.role, INITIAL, Flatten(chunks))
  {
    var i := 0;
    assert [] + Flatten(chunks) == Flatten(chunks);
    while i < |chunks|
      invariant p.Valid() && i <= |chunks|
      invariant Feed(p.role, p.State(), Flatten(chunks[i..])) == Scan(p.role, INITIAL, Flatten(chunks))
    {
      hide Scan, Payload, Feed;
      if p.failed {
        FeedAfterViolation(p.role, p.State(), Flatten(chunks[i..]));
        return;
      }
      FeedComposes(p.role, p.State(), chunks[i], Flatten(chunks[i + 1..]));
      assert chunks[i..][1..] == chunks[i + 1..];
      p.Consume(chunks[i]);
      i := i + 1;
    }
    FeedNothing(p.role, p.State());
  }
}
