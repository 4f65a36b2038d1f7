/** Printing WebSocket frames, and the round trip through the parser of the other end. */
module WebSocketPrinter {
  import opened Bytes
  import opened Common
  import opened WebSocketFraming
  import opened WebSocketParser

  function Peer(role: Role): Role { if role == Server then Client else Server }

  /** Length field of a frame: 7, 16 or 64 bits. A client also sets the mask bit. */
  function LengthBytes(sender: Role, n: nat): (bs: seq<byte>)
    ensures |bs| == if n < 126 then 1 else if n <= 0xffff then 3 else 9
  {
    var maskBit := if sender == Client then 128 else 0;
    if n < 126 then [n + maskBit]
    else if n <= 0xffff then [126 + maskBit] + ToBigEndian(n, 2)
    else [127 + maskBit] + ToBigEndian(n, 8)
  }

  /** A frame with the first byte `b0`. A client masks it with `mask`, a server's mask is empty. */
  function FrameWith(sender: Role, b0: byte, payload: seq<byte>, mask: seq<byte>): seq<byte>
    requires IsMask(Peer(sender), mask)
  {
    [b0] + LengthBytes(sender, |payload|) + mask + Unmask(mask, payload)
  }

  /** An unfragmented frame. */
  function Frame(sender: Role, op: nat, payload: seq<byte>, mask: seq<byte>): seq<byte>
    requires op < 16 && IsMask(Peer(sender), mask)
  {
    FrameWith(sender, 128 + op, payload, mask)
  }

  function Word(a: int, b: int): int { a * 0x100 + b }

  function DoubleWord(a: int, b: int, c: int, d: int): int { Word(a, b) * 0x1_0000 + Word(c, d) }

  /**
   * The frame of section 5.2 of RFC 6455, byte by byte: the first byte, the mask bit, the length in 7, 16 or 64 bits,
   * and, from a client, the key and the payload combined with it.
   */
  predicate IsFrame(frame: seq<byte>, client: bool, b0: byte, payload: seq<byte>, key: seq<byte>)
    requires client ==> |key| == 4
  {
    var n := |payload|;
    var h := (if n < 126 then 2 else if n <= 0xffff then 4 else 10) + if client then 4 else 0;
    && |frame| == h + n && frame[0] == b0 && (frame[1] >= 128 <==> client)
    && frame[1] % 128 == (if n < 126 then n else if n <= 0xffff then 126 else 127)
    && (126 <= n <= 0xffff ==> n == Word(frame[2], frame[3]))
    && (n > 0xffff ==> n == DoubleWord(frame[2], frame[3], frame[4], frame[5]) * 0x1_0000_0000
                            + DoubleWord(frame[6], frame[7], frame[8], frame[9]))
    && (client ==> frame[h - 4..h] == key && forall k | 0 <= k < n :: frame[h + k] == Xor(payload[k], key[k % 4]))
    && (!client ==> frame[h..] == payload)
  }

  lemma TwoBytes(bs: seq<byte>)
    requires |bs| == 2
    ensures FromBigEndian(bs) == Word(bs[0], bs[1])
  {
    assert bs[..1][..0] == [];
  }

  lemma EightBytes(bs: seq<byte>)
    requires |bs| == 8
    ensures FromBigEndian(bs) == DoubleWord(bs[0], bs[1], bs[2], bs[3]) * 0x1_0000_0000 + DoubleWord(bs[4], bs[5], bs[6], bs[7])
  {
    assert bs == bs[..7] + [bs[7]];
    assert bs[..7][..6] == bs[..6] && bs[..6][..5] == bs[..5] && bs[..5][..4] == bs[..4];
    assert bs[..4][..3] == bs[..3] && bs[..3][..2] == bs[..2];
    TwoBytes(bs[..2]);
    hide FromBigEndian;
    FromOneMore(bs, 7);
    FromOneMore(bs, 6);
    FromOneMore(bs, 5);
    FromOneMore(bs, 4);
    FromOneMore(bs, 3);
    FromOneMore(bs, 2);
    assert bs[..8] == bs;
  }

  lemma LengthIs(sender: Role, n: nat)
    requires n < 0x1_0000_0000_0000_0000
    ensures var bs := LengthBytes(sender, n);
            && (bs[0] >= 128 <==> sender == Client)
            && bs[0] % 128 == (if n < 126 then n else if n <= 0xffff then 126 else 127)
            && (126 <= n <= 0xffff ==> n == Word(bs[1], bs[2]))
            && (n > 0xffff ==> n == DoubleWord(bs[1], bs[2], bs[3], bs[4]) * 0x1_0000_0000
                                    + DoubleWord(bs[5], bs[6], bs[7], bs[8]))
  {
    var bs := LengthBytes(sender, n);
    hide ToBigEndian, FromBigEndian, Word, DoubleWord;
    if 126 <= n <= 0xffff {
      ShortLength(n);
      TwoBytes(bs[1..]);
      assert bs[1..] == ToBigEndian(n, 2);
    } else if n > 0xffff {
      LongLength(n);
      EightBytes(bs[1..]);
      assert bs[1..] == ToBigEndian(n, 8);
    }
  }

  /** What is printed is that frame. */
  lemma FrameIs(sender: Role, b0: byte, payload: seq<byte>, mask: seq<byte>)
    requires IsMask(Peer(sender), mask) && |payload| < 0x1_0000_0000_0000_0000
    ensures IsFrame(FrameWith(sender, b0, payload, mask), sender == Client, b0, payload, mask)
  {
    hide LengthBytes, Unmask, Xor, Word, DoubleWord;
    var bs, u, frame := LengthBytes(sender, |payload|), Unmask(mask, payload), FrameWith(sender, b0, payload, mask);
    LengthIs(sender, |payload|);
    assert forall i | 0 <= i < |bs| :: frame[1 + i] == bs[i];
    var h := 1 + |bs| + |mask|;
    assert frame[1 + |bs|..h] == mask && frame[h..] == u;
    if sender == Client {
      forall k | 0 <= k < |payload| ensures frame[h + k] == Xor(payload[k], mask[k % 4]) {
        UnmaskByteAt(mask, payload, k);
        assert frame[h..][k] == u[k];
      }
    } else {
      NoKeyNoMask(payload);
    }
  }

  /** Masks bytes one at a time until the next one is at a multiple of four in memory. */
  method MaskToAlignment(body: array<byte>, addr: nat, mask: seq<byte>, ghost u: seq<byte>) returns (offset: nat)
    requires |mask| == 4 && u == Unmask(mask, body[..])
    modifies body
    ensures offset <= 3 && offset <= body.Length
    ensures offset == body.Length || (addr + offset) % 4 == 0
    ensures body[..offset] == u[..offset]
    ensures body[offset..] == old(body[offset..])
  {
    RoundStarts(mask, body[..], 0, 0);
    hide *;
    offset := 0;
    while (addr + offset) % 4 != 0 && offset != body.Length
      invariant offset <= body.Length && offset <= (4 - addr % 4) % 4
      invariant forall k | 0 <= k < offset :: body[k] == u[k]
      invariant forall k | offset <= k < body.Length :: body[k] == old(body[k])
      decreases body.Length - offset
    {
      NotAligned(addr, offset);
      body[offset] := Xor(body[offset], mask[offset % 4]);
      offset := offset + 1;
    }
  }

  lemma NotAligned(addr: nat, offset: nat)
    requires (addr + offset) % 4 != 0 && offset <= (4 - addr % 4) % 4
    ensures offset < 3 && offset % 4 == offset && offset + 1 <= (4 - addr % 4) % 4
  {
  }

  /** Masks a payload in place: single bytes up to alignment, then whole words, then the rest. */
  method MaskPayload(body: array<byte>, addr: nat, key: seq<byte>)
    requires |key| == 4
    modifies body
    ensures body[..] == Unmask(key, old(body[..]))
  {
    ghost var data := body[..];
    ghost var u := Unmask(key, data);
    hide Unmask, Xor, Rotate;
    var offset := MaskToAlignment(body, addr, key, u);
    var mask := key[offset..] + key[..offset];   // std::rotate
    KeyRotated(key, data, offset);
    assert body[offset..body.Length] == body[offset..] == data[offset..];
    ghost var first := body[..offset];
    UnmaskInplace(body, offset, body.Length, mask);
    assert body[..offset] == first;
    assert body[offset..body.Length] == body[offset..];
    assert body[..] == first + body[offset..];
  }

  lemma KeyRotated(key: seq<byte>, data: seq<byte>, offset: nat)
    requires |key| == 4 && offset <= 3 && offset <= |data|
    ensures Unmask(key, data) == Unmask(key, data)[..offset] + Unmask(key[offset..] + key[..offset], data[offset..])
  {
    hide Unmask, Rotate;
    RotateSmall(key, offset);
    var a, b := data[..offset], data[offset..];
    assert data == a + b && |a| == offset;
    UnmaskSplit(key, a, b);
    SplitAt(Unmask(key, a), Unmask(Rotate(key, offset), b), offset);
  }

  lemma RotateSmall(key: seq<byte>, n: nat)
    requires |key| == 4 && n <= 3
    ensures Rotate(key, n) == key[n..] + key[..n]
  {
    assert n % 4 == n;
    hide Rotate;
    RotateIsModular(key, n);
  }

  lemma SplitAt(a: seq<byte>, b: seq<byte>, n: nat)
    requires |a| == n
    ensures (a + b)[..n] == a
  {
  }

  /** The first bytes of a frame, up to the length. */
  method PrintHeader(sender: Role, op: nat, n: nat) returns (head: seq<byte>)
    requires op < 16 && n < 0x1_0000_0000_0000_0000
    ensures head == [128 + op] + LengthBytes(sender, n)
  {
    hide ToBigEndian;
    var length;
    if n < 126 {
      length := [n];
    } else if n <= 0xffff {
      length := [126] + ToBigEndian(n, 2);
    } else {
      length := [127] + ToBigEndian(n, 8);
    }
    if sender == Client {
      length := [length[0] + 128] + length[1..];
    }
    head := [128 + op] + length;
  }

  /** Prints a message as one frame; `addr` is the address of the buffer it is printed to. */
  method FormatMessage(sender: Role, op: nat, payload: seq<byte>, random: seq<byte>, addr: nat) returns (frame: seq<byte>)
    requires op < 16 && |random| == 4 && |payload| < 0x1_0000_0000_0000_0000
    ensures frame == Frame(sender, op, payload, if sender == Client then random else [])
    ensures IsFrame(frame, sender == Client, 128 + op, payload, random)
  {
    hide Unmask, Xor, LengthBytes, IsFrame;
    FrameIsPrinted(sender, op, payload, random);
    frame := PrintHeader(sender, op, |payload|);
    if sender == Client {
      frame := frame + random;
      var body := new byte[|payload|](k requires 0 <= k < |payload| => payload[k]);
      assert body[..] == payload;
      MaskPayload(body, addr + |frame|, random);
      frame := frame + body[..];
    } else {
      NoKeyNoMask(payload);
      assert frame + [] == frame;
      frame := frame + payload;
    }
  }

  lemma FrameIsPrinted(sender: Role, op: nat, payload: seq<byte>, random: seq<byte>)
    requires op < 16 && |random| == 4 && |payload| < 0x1_0000_0000_0000_0000
    ensures IsFrame(Frame(sender, op, payload, if sender == Client then random else []), sender == Client, 128 + op, payload,
                    random)
  {
    hide FrameWith, Xor;
    FrameIs(sender, 128 + op, payload, if sender == Client then random else []);
  }

  /** How much longer than the message the buffer is that `send` prints a frame to. */
  const FRAME_SLACK: nat := 10

  /**
   * The frame fits in the buffer exactly when it is not masked or its length fits in 16 bits; it is 14 bytes longer at
   * most.
   */
  lemma FrameFitsIff(sender: Role, op: nat, payload: seq<byte>, mask: seq<byte>)
    requires op < 16 && IsMask(Peer(sender), mask)
    ensures |Frame(sender, op, payload, mask)| <= |payload| + FRAME_SLACK <==> sender == Server || |payload| <= 0xffff
    ensures |Frame(sender, op, payload, mask)| <= |payload| + FRAME_SLACK + 4
  {
    hide LengthBytes, Unmask;
  }

  /** A client's message of 2^16 bytes needs four bytes more than there are. */
  lemma LargeFrameIsTooLong(payload: seq<byte>, mask: seq<byte>)
    requires |payload| == 0x1_0000 && |mask| == 4
    ensures |Frame(Client, 2, payload, mask)| == |payload| + FRAME_SLACK + 4
  {
    hide LengthBytes, Unmask;
  }

  /** The messages a WebSocket can send: control messages are short. */
  predicate Sendable(m: Message) {
    && m.kind in {1, 2, 8, 9, 10}
    && |m.payload| <= if m.kind > 2 then 125 else MAX_MESSAGE_LENGTH
  }

  predicate Idle(c: Conn) { c.ops == [] && c.lastFin && c.cur == None }

  /** The length field is read back, whichever of its three forms is used. */
  lemma LengthIsRead(sender: Role, b0: byte, n: nat, tail: seq<byte>)
    requires n < 0x1_0000_0000_0000_0000 && (sender == Client ==> |tail| >= 4)
    ensures var bytes := [b0] + LengthBytes(sender, n) + tail;
            var r := Peer(sender);
            && HeaderComplete(r, bytes)
            && HeaderSize(r, bytes[1]) == 1 + |LengthBytes(sender, n)| + (if sender == Client then 4 else 0)
            && PayloadLength(r, bytes) == n
            && bytes[0] == b0
            && (n <= 125 ==> Length7(bytes[1]) <= 125)
  {
    var bytes := [b0] + LengthBytes(sender, n) + tail;
    hide ToBigEndian, FromBigEndian;
    if 126 <= n <= 0xffff {
      ShortLength(n);
      assert bytes[2..4] == ToBigEndian(n, 2);
    } else if n > 0xffff {
      LongLength(n);
      assert bytes[2..10] == ToBigEndian(n, 8);
    }
  }

  /** The header of a frame is read as it was written, whatever its first byte. */
  lemma FrameHeader(sender: Role, b0: byte, payload: seq<byte>, mask: seq<byte>, rest: seq<byte>)
    requires |payload| <= MAX_MESSAGE_LENGTH && IsMask(Peer(sender), mask)
    ensures var bytes := FrameWith(sender, b0, payload, mask) + rest;
            && HeaderComplete(Peer(sender), bytes) && bytes[0] == b0
            && (|payload| <= 125 ==> Length7(bytes[1]) <= 125)
            && PayloadLength(Peer(sender), bytes) == |payload|
            && HeaderMask(Peer(sender), bytes) == mask
            && bytes[HeaderSize(Peer(sender), bytes[1])..] == Unmask(mask, payload) + rest
  {
    hide Unmask, Xor, LengthBytes, PayloadLength, HeaderComplete, HeaderSize;
    var body, n := Unmask(mask, payload), |payload|;
    var head := [b0] + LengthBytes(sender, n);
    var tail := mask + (body + rest);
    var bytes := head + tail;
    assert FrameWith(sender, b0, payload, mask) + rest == bytes;
    LengthIsRead(sender, b0, n, tail);
    var h := HeaderSize(Peer(sender), bytes[1]);
    assert h == |head| + |mask|;
    MaskAndRest(head, mask, body + rest);
  }

  lemma KindIsGood(m: Message, b1: byte)
    requires Sendable(m) && (|m.payload| <= 125 ==> Length7(b1) <= 125)
    ensures !BadHead(128 + m.kind, b1) && IsFin(128 + m.kind) && OpCode(128 + m.kind) == m.kind
  {
  }

  lemma MaskAndRest(head: seq<byte>, mask: seq<byte>, tail: seq<byte>)
    ensures var bytes := head + (mask + tail);
            bytes[|head|..|head| + |mask|] == mask && bytes[|head| + |mask|..] == tail
  {
  }

  lemma ShortLength(n: nat)
    requires n <= 0xffff
    ensures FromBigEndian(ToBigEndian(n, 2)) == n
  {
    assert Pow256(2) == 0x1_0000;
    BigEndianRoundTrip(n, 2);
  }

  lemma LongLength(n: nat)
    requires n < 0x1_0000_0000_0000_0000
    ensures FromBigEndian(ToBigEndian(n, 8)) == n
  {
    assert Pow256(4) == 0x1_0000_0000;
    assert Pow256(8) == 256 * (256 * (256 * (256 * Pow256(4))));
    BigEndianRoundTrip(n, 8);
  }

  /** A printed message, read by the other end between messages, is queued as it was sent. */
  lemma FrameIsRead(sender: Role, c: Conn, m: Message, mask: seq<byte>, rest: seq<byte>)
    requires Sendable(m) && IsMask(Peer(sender), mask) && Idle(c)
    ensures Scan(Peer(sender), c, Frame(sender, m.kind, m.payload, mask) + rest)
         == Scan(Peer(sender), c.(incoming := c.incoming + [m]), rest)
  {
    hide Scan, Payload, Unmask, Xor, FrameWith, PayloadLength, HeaderMask, BadHead, HeaderSize;
    var r := Peer(sender);
    var bytes := Frame(sender, m.kind, m.payload, mask) + rest;
    FrameHeader(sender, 128 + m.kind, m.payload, mask, rest);
    KindIsGood(m, bytes[1]);
    ScanFrame(r, c, bytes);
    var c1 := Begin(c, bytes[0]);
    var body := Unmask(mask, m.payload);
    PayloadEnds(r, c1, |m.payload|, mask, body + rest);
    assert (body + rest)[..|m.payload|] == body && (body + rest)[|m.payload|..] == rest;
    UnmaskTwice(mask, m.payload);
    assert End(c1, m.payload) == c.(incoming := c.incoming + [m]);
  }

  predicate AllSendable(sender: Role, ms: seq<Message>, masks: seq<seq<byte>>) {
    |masks| == |ms| && forall i :: 0 <= i < |ms| ==> Sendable(ms[i]) && IsMask(Peer(sender), masks[i])
  }

  /** What a sender writes for a list of messages, with the masks it drew. */
  function Stream(sender: Role, ms: seq<Message>, masks: seq<seq<byte>>): seq<byte>
    requires AllSendable(sender, ms, masks)
  {
    if ms == [] then []
    else Frame(sender, ms[0].kind, ms[0].payload, masks[0]) + Stream(sender, ms[1..], masks[1..])
  }

  lemma {:induction false} StreamIsRead(sender: Role, c: Conn, ms: seq<Message>, masks: seq<seq<byte>>)
    requires AllSendable(sender, ms, masks) && Idle(c)
    ensures Scan(Peer(sender), c, Stream(sender, ms, masks)) == AtHead(c.(incoming := c.incoming + ms), [])
    decreases |ms|
  {
    hide Scan, Frame, Sendable;
    if ms == [] {
      assert c.incoming + [] == c.incoming;
      NothingIsRead(Peer(sender), c);
    } else {
      FrameIsRead(sender, c, ms[0], masks[0], Stream(sender, ms[1..], masks[1..]));
      StreamIsRead(sender, c.(incoming := c.incoming + [ms[0]]), ms[1..], masks[1..]);
      assert c.incoming + [ms[0]] + ms[1..] == c.incoming + ms;
    }
  }

  lemma NothingIsRead(role: Role, c: Conn)
    ensures Scan(role, c, []) == AtHead(c, [])
  {
  }

  /** Messages printed by one end and cut into chunks anyhow are queued by the other end, all of them,
      in order, unchanged, with nothing left over. */
  lemma RoundTrip(sender: Role, ms: seq<Message>, masks: seq<seq<byte>>, chunks: seq<seq<byte>>)
    requires AllSendable(sender, ms, masks)
    requires Flatten(chunks) == Stream(sender, ms, masks)
    ensures FeedAll(Peer(sender), START, chunks) == AtHead(INITIAL.(incoming := ms), [])
  {
    ChunkIndependence(Peer(sender), START, chunks);
    StreamIsRead(sender, INITIAL, ms, masks);
    assert [] + Flatten(chunks) == Flatten(chunks);
    assert [] + ms == ms;
  }
}
