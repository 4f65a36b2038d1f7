/** The frames of the BLIP protocol as bytes, and the running checksum in them. */
module BlipFrame {
  import opened Bytes
  import opened Common
  import Varint

  datatype Kind = Request | Response | ErrorReply | AckRequest | AckResponse

  function TypeCode(k: Kind): nat {
    match k case Request => 0 case Response => 1 case ErrorReply => 2 case AckRequest => 4 case AckResponse => 5
  }

  predicate IsAck(k: Kind) { k.AckRequest? || k.AckResponse? }

  /** A frame: `sum` is the checksum after its body, which an ACK does not have. */
  datatype Frame = Frame(no: nat, kind: Kind, urgent: bool, noReply: bool, more: bool, body: seq<byte>, sum: nat)

  const CHECKSUM_SIZE: nat := 4
  const UINT32: nat := 0x1_0000_0000

  function Flags(f: Frame): byte {
    TypeCode(f.kind) + (if f.urgent then 16 else 0) + (if f.noReply then 32 else 0) + (if f.more then 64 else 0)
  }

  function FrameBytes(f: Frame): seq<byte> {
    Varint.Encode(f.no) + [Flags(f)] + f.body + (if IsAck(f.kind) then [] else ToBigEndian(f.sum, CHECKSUM_SIZE))
  }

  datatype Parsed = Parsed(frame: Frame) | Ignored | Invalid

  function KindOf(flags: nat): Option<Kind> {
    match flags % 8
    case 0 => Some(Request)
    case 1 => Some(Response)
    case 2 => Some(ErrorReply)
    case 4 => Some(AckRequest)
    case 5 => Some(AckResponse)
    case _ => None
  }

  /** What follows the header: the body, and the checksum unless the frame is an ACK. */
  function ParseData(no: nat, flags: nat, data: seq<byte>): Parsed {
    var kind := KindOf(flags);
    var urgent, noReply, more := (flags / 16) % 2 == 1, (flags / 32) % 2 == 1, (flags / 64) % 2 == 1;
    if kind.None? then Ignored
    else if IsAck(kind.value) then Parsed(Frame(no, kind.value, urgent, noReply, more, data, 0))
    else if |data| < CHECKSUM_SIZE then Invalid
    else
      var n := |data| - CHECKSUM_SIZE;
      Parsed(Frame(no, kind.value, urgent, noReply, more, data[..n], FromBigEndian(data[n..])))
  }

  function Parse(bs: seq<byte>): Parsed {
    var no := Varint.Read(bs);
    if !no.Complete? then Invalid
    else
      var rest := bs[no.size..];
      var f := Varint.Read(rest);
      if !f.Complete? || f.value > 0x80 then Invalid
      else ParseData(no.value, f.value, rest[f.size..])
  }

  lemma FlagsRead(f: Frame)
    ensures var b := Flags(f);
            && KindOf(b) == Some(f.kind) && b < 0x80
            && ((b / 16) % 2 == 1 <==> f.urgent)
            && ((b / 32) % 2 == 1 <==> f.noReply)
            && ((b / 64) % 2 == 1 <==> f.more)
  {
  }

  lemma ReadOneByte(b: byte, rest: seq<byte>)
    requires b < 0x80
    ensures Varint.Read([b] + rest) == Varint.Complete(b, 1)
  {
    assert Varint.Encode(b) == [b];
    Varint.RoundTrip(b, rest);
  }

  function Tail(f: Frame): seq<byte> { if IsAck(f.kind) then [] else ToBigEndian(f.sum, CHECKSUM_SIZE) }

  lemma DataRead(f: Frame)
    requires f.sum < UINT32 && (IsAck(f.kind) ==> f.sum == 0)
    ensures ParseData(f.no, Flags(f), f.body + Tail(f)) == Parsed(f)
  {
    var data := f.body + Tail(f);
    FlagsRead(f);
    hide Flags, KindOf;
    if IsAck(f.kind) {
      assert data == f.body;
    } else {
      assert UINT32 == Pow256(CHECKSUM_SIZE);
      BigEndianRoundTrip(f.sum, CHECKSUM_SIZE);
      hide ToBigEndian, FromBigEndian;
      assert data[..|f.body|] == f.body && data[|f.body|..] == Tail(f);
    }
  }

  /** A frame is read back as it was sent. */
  lemma FrameRoundTrip(f: Frame)
    requires f.no < Varint.UINT64 && f.sum < UINT32 && (IsAck(f.kind) ==> f.sum == 0)
    ensures Parse(FrameBytes(f)) == Parsed(f)
  {
    hide FrameBytes, Flags, ParseData, Tail, Varint.Read, Varint.Encode;
    var head, data := Varint.Encode(f.no), f.body + Tail(f);
    var rest := [Flags(f)] + data;
    BytesOf(f);
    FlagsRead(f);
    DataRead(f);
    Varint.RoundTrip(f.no, rest);
    assert (head + rest)[|head|..] == rest;
    ReadOneByte(Flags(f), data);
    assert rest[1..] == data;
  }

  lemma BytesOf(f: Frame)
    ensures FrameBytes(f) == Varint.Encode(f.no) + ([Flags(f)] + (f.body + Tail(f)))
  {
    hide Varint.Encode, Flags, ToBigEndian;
  }

  /** What the byte after the number says, with the codes of the protocol written out. */
  predicate IsFlags(b: byte, f: Frame) {
    && b < 0x80
    && b % 8 == (match f.kind case Request => 0 case Response => 1 case ErrorReply => 2 case AckRequest => 4 case AckResponse => 5)
    && b / 0x08 % 2 == 0
    && (b / 0x10 % 2 == 1 <==> f.urgent) && (b / 0x20 % 2 == 1 <==> f.noReply) && (b / 0x40 % 2 == 1 <==> f.more)
  }

  /** The bytes of a frame: its number, its flags, its body and, unless it is an ACK, the checksum in four bytes. */
  predicate IsOnWire(bs: seq<byte>, f: Frame) {
    var h := |Varint.Encode(f.no)|;
    var n := h + 1 + |f.body|;
    && |bs| == n + (if IsAck(f.kind) then 0 else 4)
    && bs[..h] == Varint.Encode(f.no) && IsFlags(bs[h], f) && bs[h + 1..n] == f.body
    && (!IsAck(f.kind) ==> f.sum == Number(bs[n], bs[n + 1], bs[n + 2], bs[n + 3]))
  }

  function Number(a: int, b: int, c: int, d: int): int { ((a * 256 + b) * 256 + c) * 256 + d }

  lemma FlagsAre(f: Frame)
    ensures IsFlags(Flags(f), f)
  {
    FlagsRead(f);
    assert Flags(f) % 16 == TypeCode(f.kind);
    hide Flags, KindOf;
  }

  lemma SumIs(n: nat)
    requires n < UINT32
    ensures var t := ToBigEndian(n, 4);
            n == Number(t[0], t[1], t[2], t[3])
  {
    var t := ToBigEndian(n, 4);
    assert UINT32 == Pow256(4);
    BigEndianRoundTrip(n, 4);
    assert t[..4] == t && FromBigEndian(t[..0]) == 0;
    hide FromBigEndian, ToBigEndian;
    FromOneMore(t, 0);
    FromOneMore(t, 1);
    FromOneMore(t, 2);
    FromOneMore(t, 3);
  }

  lemma BytesAre(f: Frame)
    requires f.sum < UINT32
    ensures IsOnWire(FrameBytes(f), f)
  {
    BytesOf(f);
    FlagsAre(f);
    SumIs(f.sum);
    hide Varint.Encode, Flags, IsFlags, ToBigEndian, Number;
  }

  // The CRC-32 of zlib, which both sides run over all data they send or receive.

  const CRC_POLYNOMIAL: nat := 0xEDB88320
  const CRC_BITS: nat := 32

  lemma {:induction false} PowersMultiply(a: nat, b: nat)
    ensures Pow2(a + b) == Pow2(a) * Pow2(b)
  {
    if a > 0 {
      PowersMultiply(a - 1, b);
    }
  }

  lemma WordSize()
    ensures Pow2(CRC_BITS) == UINT32
  {
    assert Pow2(4) == 16;
    PowersMultiply(4, 4);
    PowersMultiply(8, 8);
    PowersMultiply(16, 16);
  }

  function XorWord(a: nat, b: nat): (r: nat)
    ensures r < UINT32
  {
    WordSize();
    XorBits(a, b, CRC_BITS)
  }

  function CrcBit(c: nat): (r: nat)
    ensures c < UINT32 ==> r < UINT32
  {
    if c % 2 == 1 then XorWord(c / 2, CRC_POLYNOMIAL) else c / 2
  }

  function CrcShift(c: nat, bits: nat): (r: nat)
    ensures c < UINT32 ==> r < UINT32
    decreases bits
  {
    if bits == 0 then c else CrcShift(CrcBit(c), bits - 1)
  }

  function CrcByte(c: nat, b: byte): (r: nat)
    ensures r < UINT32
  {
    CrcShift(XorWord(c, b), BYTE_BITS)
  }

  function CrcFold(c: nat, bs: seq<byte>): (r: nat)
    ensures c < UINT32 ==> r < UINT32
    decreases |bs|
  {
    if bs == [] then c else CrcFold(CrcByte(c, bs[0]), bs[1..])
  }

  function Inverted(c: nat): (r: nat)
    ensures r < UINT32
  {
    if c < UINT32 then UINT32 - 1 - c else 0
  }

  function Crc(c: nat, bs: seq<byte>): (r: nat)
    ensures r < UINT32
  {
    Inverted(CrcFold(Inverted(c), bs))
  }

  lemma {:induction false} CrcFoldAppend(c: nat, a: seq<byte>, b: seq<byte>)
    ensures CrcFold(c, a + b) == CrcFold(CrcFold(c, a), b)
    decreases |a|
  {
    hide CrcByte;
    if a == [] {
      assert a + b == b;
    } else {
      CrcFoldAppend(CrcByte(c, a[0]), a[1..], b);
      assert (a + b)[1..] == a[1..] + b;
    }
  }

  /** The running checksum does not depend on how the data is cut up. */
  lemma CrcAppend(c: nat, a: seq<byte>, b: seq<byte>)
    ensures Crc(c, a + b) == Crc(Crc(c, a), b)
  {
    CrcFoldAppend(Inverted(c), a, b);
    hide CrcFold;
  }

  // A change within one byte changes the checksum.

  const TOP_BIT: nat := 0x8000_0000

  lemma {:induction false} XorTopBit(a: nat, b: nat, bits: nat)
    requires bits > 0 && a < Pow2(bits - 1) && Pow2(bits - 1) <= b < Pow2(bits)
    ensures XorBits(a, b, bits) >= Pow2(bits - 1)
  {
    if bits > 1 {
      XorTopBit(a / 2, b / 2, bits - 1);
    }
  }

  lemma HalfWord()
    ensures Pow2(31) == TOP_BIT
  {
    WordSize();
    assert Pow2(32) == 2 * Pow2(31);
  }

  /** Exclusive-or with the same number can be undone. */
  lemma XorWordBack(a: nat, m: nat)
    requires a < UINT32
    ensures XorWord(XorWord(a, m), m) == a
  {
    WordSize();
    XorBitsCancels(a, m, CRC_BITS);
    hide XorBits;
  }

  /** The top bit of a step's result says whether the polynomial was added. */
  lemma CrcBitTop(c: nat)
    requires c < UINT32
    ensures CrcBit(c) >= TOP_BIT <==> c % 2 == 1
  {
    HalfWord();
    if c % 2 == 1 {
      XorTopBit(c / 2, CRC_POLYNOMIAL, CRC_BITS);
    }
    hide XorBits;
  }

  lemma CrcBitIsOneToOne(c: nat, d: nat)
    requires c < UINT32 && d < UINT32 && CrcBit(c) == CrcBit(d)
    ensures c == d
  {
    CrcBitTop(c);
    CrcBitTop(d);
    XorWordBack(c / 2, CRC_POLYNOMIAL);
    XorWordBack(d / 2, CRC_POLYNOMIAL);
    hide XorWord;
  }

  lemma {:induction false} CrcShiftIsOneToOne(c: nat, d: nat, bits: nat)
    requires c < UINT32 && d < UINT32 && CrcShift(c, bits) == CrcShift(d, bits)
    ensures c == d
    decreases bits
  {
    if bits > 0 {
      hide CrcBit;
      CrcShiftIsOneToOne(CrcBit(c), CrcBit(d), bits - 1);
      CrcBitIsOneToOne(c, d);
    }
  }

  lemma {:induction false} XorCommutes(a: nat, b: nat, bits: nat)
    ensures XorBits(a, b, bits) == XorBits(b, a, bits)
  {
    if bits > 0 {
      XorCommutes(a / 2, b / 2, bits - 1);
    }
  }

  lemma CrcByteIsOneToOne(c: nat, d: nat, x: byte, y: byte)
    requires c < UINT32 && d < UINT32 && CrcByte(c, x) == CrcByte(d, y)
    ensures x == y ==> c == d
    ensures c == d ==> x == y
  {
    CrcShiftIsOneToOne(XorWord(c, x), XorWord(d, y), BYTE_BITS);
    XorWordBack(c, x);
    XorWordBack(d, y);
    XorWordBack(x, c);
    XorWordBack(y, c);
    XorCommutes(x, c, CRC_BITS);
    XorCommutes(y, c, CRC_BITS);
    hide XorBits, CrcShift;
  }

  lemma {:induction false} CrcFoldIsOneToOne(c: nat, d: nat, bs: seq<byte>)
    requires c < UINT32 && d < UINT32 && CrcFold(c, bs) == CrcFold(d, bs)
    ensures c == d
    decreases |bs|
  {
    if bs != [] {
      hide CrcByte;
      CrcFoldIsOneToOne(CrcByte(c, bs[0]), CrcByte(d, bs[0]), bs[1..]);
      CrcByteIsOneToOne(c, d, bs[0], bs[0]);
    }
  }

  /** Data that differs in one byte has another checksum. */
  lemma CrcDetectsByte(c: nat, a: seq<byte>, x: byte, y: byte, b: seq<byte>)
    requires x != y
    ensures Crc(c, a + [x] + b) != Crc(c, a + [y] + b)
  {
    hide CrcFold, CrcByte;
    var i := CrcFold(Inverted(c), a);
    CrcAfterByte(Inverted(c), a, x, b);
    CrcAfterByte(Inverted(c), a, y, b);
    if Crc(c, a + [x] + b) == Crc(c, a + [y] + b) {
      CrcFoldIsOneToOne(CrcByte(i, x), CrcByte(i, y), b);
      CrcByteIsOneToOne(i, i, x, y);
    }
  }

  lemma CrcAfterByte(c: nat, a: seq<byte>, x: byte, b: seq<byte>)
    ensures CrcFold(c, a + [x] + b) == CrcFold(CrcByte(CrcFold(c, a), x), b)
  {
    CrcFoldAppend(c, a + [x], b);
    CrcFoldAppend(c, a, [x]);
    assert CrcFold(CrcFold(c, a), [x]) == CrcFold(CrcByte(CrcFold(c, a), x), [x][1..]);
    hide CrcByte;
  }
}
