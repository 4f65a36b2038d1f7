/** UTF-8 (section 3 and 4 of RFC 3629): the encoding of scalar values, and the validator that is proved to accept
    exactly the concatenations of encodings. */
module Utf8 {
  import opened Bytes

  predicate Scalar(cp: int) { 0 <= cp < 0x11_0000 && !(0xd800 <= cp < 0xe000) }

  function Encode(cp: int): (bs: seq<byte>)
    requires Scalar(cp)
    ensures 1 <= |bs| <= 4
  {
    if cp < 0x80 then [cp]
    else if cp < 0x800 then [0xc0 + cp / 0x40, 0x80 + cp % 0x40]
    else if cp < 0x1_0000 then [0xe0 + cp / 0x1000, 0x80 + cp / 0x40 % 0x40, 0x80 + cp % 0x40]
    else [0xf0 + cp / 0x4_0000, 0x80 + cp / 0x1000 % 0x40, 0x80 + cp / 0x40 % 0x40, 0x80 + cp % 0x40]
  }

  predicate AllScalar(cps: seq<int>) { forall i :: 0 <= i < |cps| ==> Scalar(cps[i]) }

  function EncodeAll(cps: seq<int>): seq<byte>
    requires AllScalar(cps)
  {
    if cps == [] then [] else Encode(cps[0]) + EncodeAll(cps[1..])
  }

  /** A byte string is valid when it encodes some list of scalar values. */
  ghost predicate WellFormed(s: seq<byte>) {
    exists cps: seq<int> :: AllScalar(cps) && EncodeAll(cps) == s
  }

  predicate Continuation(b: byte) { b / 0x40 == 2 }

  /** Size of the character at the front of `s` by the validator's bit tests, or 0 if it refuses it. */
  function CharLength(s: seq<byte>): (n: nat)
    requires s != []
    ensures n <= 4 && n <= |s|
  {
    if s[0] < 0x80 then 1
    else if (s[0] / 0x20) % 4 == 2 then
      if |s| < 2 || !Continuation(s[1]) || s[0] / 2 == 0x60 then 0 else 2
    else if s[0] / 0x10 == 0xe then
      if |s| < 3 || !Continuation(s[1]) || !Continuation(s[2])
         || (s[0] == 0xe0 && s[1] / 0x20 == 4) || (s[0] == 0xed && s[1] / 0x20 == 5) then 0 else 3
    else if s[0] / 8 == 0x1e then
      if |s| < 4 || !Continuation(s[1]) || !Continuation(s[2]) || !Continuation(s[3])
         || (s[0] == 0xf0 && s[1] / 0x10 == 8) || (s[0] == 0xf4 && s[1] > 0x8f) || s[0] > 0xf4 then 0 else 4
    else 0
  }

  /** The scalar value of an accepted character. */
  function Decode(s: seq<byte>): (cp: int)
    requires s != [] && CharLength(s) > 0
  {
    var n, b0: int := CharLength(s), s[0];
    if n == 1 then b0
    else
      var b1: int := s[1];
      if n == 2 then (b0 - 0xc0) * 0x40 + (b1 - 0x80)
      else
        var b2: int := s[2];
        if n == 3 then (b0 - 0xe0) * 0x1000 + (b1 - 0x80) * 0x40 + (b2 - 0x80)
        else
          var b3: int := s[3];
          (b0 - 0xf0) * 0x4_0000 + (b1 - 0x80) * 0x1000 + (b2 - 0x80) * 0x40 + (b3 - 0x80)
  }

  /** Whatever the bit tests accept is the encoding of a scalar value. */
  lemma AcceptedIsEncoding(s: seq<byte>)
    requires s != [] && CharLength(s) > 0
    ensures Scalar(Decode(s)) && Encode(Decode(s)) == s[..CharLength(s)]
  {
    hide Encode;
    var n := CharLength(s);
    if n == 1 {
      OneByte(s[0]);
    } else if n == 2 {
      TwoBytes(s[0], s[1]);
    } else if n == 3 {
      ThreeBytes(s[0], s[1], s[2]);
    } else if n == 4 {
      FourBytes(s[0], s[1], s[2], s[3]);
    }
  }

  lemma OneByte(b0: int)
    requires 0 <= b0 < 0x80
    ensures Scalar(b0) && Encode(b0) == [b0]
  {
  }

  lemma TwoBytes(b0: int, b1: int)
    requires 0xc2 <= b0 <= 0xdf && 0x80 <= b1 <= 0xbf
    ensures var cp := (b0 - 0xc0) * 0x40 + (b1 - 0x80); Scalar(cp) && Encode(cp) == [b0, b1]
  {
  }

  lemma ThreeBytes(b0: int, b1: int, b2: int)
    requires 0xe0 <= b0 <= 0xef && 0x80 <= b1 <= 0xbf && 0x80 <= b2 <= 0xbf
    requires !(b0 == 0xe0 && b1 / 0x20 == 4) && !(b0 == 0xed && b1 / 0x20 == 5)
    ensures var cp := (b0 - 0xe0) * 0x1000 + (b1 - 0x80) * 0x40 + (b2 - 0x80); Scalar(cp) && Encode(cp) == [b0, b1, b2]
  {
    var cp := (b0 - 0xe0) * 0x1000 + (b1 - 0x80) * 0x40 + (b2 - 0x80);
    assert cp / 0x40 == (b0 - 0xe0) * 0x40 + (b1 - 0x80);
  }

  lemma FourBytes(b0: int, b1: int, b2: int, b3: int)
    requires 0xf0 <= b0 <= 0xf4 && 0x80 <= b1 <= 0xbf && 0x80 <= b2 <= 0xbf && 0x80 <= b3 <= 0xbf
    requires !(b0 == 0xf0 && b1 / 0x10 == 8) && !(b0 == 0xf4 && b1 > 0x8f)
    ensures var cp := (b0 - 0xf0) * 0x4_0000 + (b1 - 0x80) * 0x1000 + (b2 - 0x80) * 0x40 + (b3 - 0x80);
            Scalar(cp) && Encode(cp) == [b0, b1, b2, b3]
  {
    var a, b, c, d := b0 - 0xf0, b1 - 0x80, b2 - 0x80, b3 - 0x80;
    var cp := a * 0x4_0000 + b * 0x1000 + c * 0x40 + d;
    Digit(a * 0x1000 + b * 0x40 + c, d, cp);
    Digit(a * 0x40 + b, c, cp / 0x40);
    Digit(a, b, cp / 0x40 / 0x40);
    DivideAgain(cp);
    EncodeFour(cp);
  }

  lemma Digit(high: int, low: int, n: int)
    requires 0 <= low < 0x40 && n == high * 0x40 + low
    ensures n / 0x40 == high && n % 0x40 == low
  {
  }

  lemma DivideAgain(cp: int)
    requires cp >= 0
    ensures cp / 0x1000 == cp / 0x40 / 0x40 && cp / 0x4_0000 == cp / 0x40 / 0x40 / 0x40
  {
  }

  lemma EncodeFour(cp: int)
    requires 0x1_0000 <= cp < 0x11_0000
    ensures Scalar(cp)
    ensures Encode(cp) == [0xf0 + cp / 0x4_0000, 0x80 + cp / 0x1000 % 0x40, 0x80 + cp / 0x40 % 0x40, 0x80 + cp % 0x40]
  {
  }

  lemma AcceptsTwo(cp: int, s: seq<byte>)
    requires 0x80 <= cp < 0x800 && |s| >= 2 && s[0] == 0xc0 + cp / 0x40 && s[1] == 0x80 + cp % 0x40
    ensures CharLength(s) == 2
  {
  }

  lemma AcceptsThree(cp: int, s: seq<byte>)
    requires 0x800 <= cp < 0x1_0000 && Scalar(cp) && |s| >= 3
    requires s[0] == 0xe0 + cp / 0x1000 && s[1] == 0x80 + cp / 0x40 % 0x40 && s[2] == 0x80 + cp % 0x40
    ensures CharLength(s) == 3
  {
  }

  lemma AcceptsFour(cp: int, s: seq<byte>)
    requires 0x1_0000 <= cp && Scalar(cp) && |s| >= 4
    requires s[0] == 0xf0 + cp / 0x4_0000 && s[1] == 0x80 + cp / 0x1000 % 0x40
    requires s[2] == 0x80 + cp / 0x40 % 0x40 && s[3] == 0x80 + cp % 0x40
    ensures CharLength(s) == 4
  {
  }

  /** The bit tests accept every encoding, and see where it ends. */
  lemma EncodingIsAccepted(cp: int, rest: seq<byte>)
    requires Scalar(cp)
    ensures CharLength(Encode(cp) + rest) == |Encode(cp)|
  {
    var s := Encode(cp) + rest;
    if cp < 0x80 {
      assert s[0] == cp;
    } else if cp < 0x800 {
      AcceptsTwo(cp, s);
    } else if cp < 0x1_0000 {
      AcceptsThree(cp, s);
    } else {
      AcceptsFour(cp, s);
    }
    hide CharLength;
  }

  lemma EncodeAllFront(cps: seq<int>, s: seq<byte>)
    requires AllScalar(cps) && cps != [] && EncodeAll(cps) == s
    ensures s != [] && CharLength(s) > 0
    ensures AllScalar(cps[1..]) && EncodeAll(cps[1..]) == s[CharLength(s)..]
  {
    hide CharLength, Encode;
    EncodingIsAccepted(cps[0], EncodeAll(cps[1..]));
  }

  lemma EncodeAllCons(cps: seq<int>, s: seq<byte>)
    requires s != [] && CharLength(s) > 0 && AllScalar(cps) && EncodeAll(cps) == s[CharLength(s)..]
    ensures AllScalar([Decode(s)] + cps) && EncodeAll([Decode(s)] + cps) == s
  {
    AcceptedIsEncoding(s);
    hide CharLength, Encode, Decode;
    var all := [Decode(s)] + cps;
    assert all[1..] == cps;
    assert EncodeAll(all) == Encode(all[0]) + EncodeAll(all[1..]);
  }

  /** Reading one character off the front decides nothing about the rest. */
  lemma WellFormedFront(s: seq<byte>)
    requires s != []
    ensures WellFormed(s) <==> CharLength(s) > 0 && WellFormed(s[CharLength(s)..])
  {
    hide CharLength, Encode, Decode;
    if WellFormed(s) {
      var cps: seq<int> :| AllScalar(cps) && EncodeAll(cps) == s;
      assert cps != [];
      hide EncodeAll, AllScalar;
      EncodeAllFront(cps, s);
    }
    if CharLength(s) > 0 && WellFormed(s[CharLength(s)..]) {
      hide EncodeAll, AllScalar;
      var cps: seq<int> :| AllScalar(cps) && EncodeAll(cps) == s[CharLength(s)..];
      EncodeAllCons(cps, s);
    }
  }

  lemma EmptyIsWellFormed()
    ensures WellFormed([])
  {
    assert EncodeAll([]) == [];
  }

  /** The bit tests on the character at `s[i]`, which is not ASCII. */
  method ReadChar(s: seq<byte>, i: nat) returns (n: nat)
    requires i < |s| && s[i] >= 0x80
    ensures n == CharLength(s[i..])
  {
    ghost var t := s[i..];
    assert forall k :: 0 <= k < |t| ==> t[k] == s[i + k];
    if (s[i] / 0x20) % 4 == 2 {
      if i + 1 >= |s| || !Continuation(s[i + 1]) || s[i] / 2 == 0x60 {
        return 0;
      }
      n := 2;
    } else if s[i] / 0x10 == 0xe {
      if i + 2 >= |s| || !Continuation(s[i + 1]) || !Continuation(s[i + 2])
         || (s[i] == 0xe0 && s[i + 1] / 0x20 == 4) || (s[i] == 0xed && s[i + 1] / 0x20 == 5) {
        return 0;
      }
      n := 3;
    } else if s[i] / 8 == 0x1e {
      if i + 3 >= |s| || !Continuation(s[i + 1]) || !Continuation(s[i + 2]) || !Continuation(s[i + 3])
         || (s[i] == 0xf0 && s[i + 1] / 0x10 == 8) || (s[i] == 0xf4 && s[i + 1] > 0x8f) || s[i] > 0xf4 {
        return 0;
      }
      n := 4;
    } else {
      n := 0;
    }
  }

  lemma AsciiFront(s: seq<byte>, i: nat)
    requires i < |s| && s[i] < 0x80
    ensures WellFormed(s[i..]) <==> WellFormed(s[i + 1..])
  {
    WellFormedFront(s[i..]);
    assert s[i..][1..] == s[i + 1..];
  }

  /** The validator, with its inner loop over ASCII. */
  method IsValidUtf8(s: seq<byte>) returns (ok: bool)
    ensures ok <==> WellFormed(s)
  {
    hide *;
    EmptyIsWellFormed();
    assert s[0..] == s;
    var i := 0;
    while i != |s|
      invariant i <= |s|
      invariant WellFormed(s) <==> WellFormed(s[i..])
    {
      while s[i] < 0x80
        invariant i < |s|
        invariant WellFormed(s) <==> WellFormed(s[i..])
        decreases |s| - i
      {
        AsciiFront(s, i);
        i := i + 1;
        if i == |s| {
          assert s[i..] == [];
          return true;
        }
      }
      WellFormedFront(s[i..]);
      var n := ReadChar(s, i);
      if n == 0 {
        return false;
      }
      assert s[i..][n..] == s[i + n..];
      i := i + n;
    }
    assert s[i..] == [];
    return true;
  }
}

/** The payload of a Close frame (section 5.5.1 of RFC 6455). */
module WebSocketClose {
  import opened Bytes
  import opened Utf8

  /** Code 0 and no text stand for a payload that is empty or not acceptable. */
  datatype CloseFrame = CloseFrame(code: nat, message: seq<byte>)

  /** The status codes a peer may send (section 7.4 of RFC 6455). */
  predicate Acceptable(code: nat) {
    !(code < 1000 || code > 4999 || (1011 < code < 4000) || 1004 <= code <= 1006)
  }

  function FormatClosePayload(code: nat, message: seq<byte>): (bs: seq<byte>)
    requires code < 0x1_0000
    ensures |bs| == if code != 0 then |message| + 2 else 0
  {
    if code != 0 then ToBigEndian(code, 2) + message else []
  }

  /** What a payload says; a code that may not be sent or text that is not UTF-8 makes it say nothing. */
  ghost function CloseFrameOf(src: seq<byte>): CloseFrame {
    if |src| >= 2 && Acceptable(FromBigEndian(src[..2])) && WellFormed(src[2..])
    then CloseFrame(FromBigEndian(src[..2]), src[2..])
    else CloseFrame(0, [])
  }

  method ParseClosePayload(src: seq<byte>) returns (cf: CloseFrame)
    ensures cf == CloseFrameOf(src)
    ensures cf.code != 0 <==>
              && |src| >= 2 && WellFormed(src[2..])
              && var code := 0x100 * (src[0] as int) + src[1];
                 1000 <= code <= 1003 || 1007 <= code <= 1011 || 4000 <= code <= 4999
    ensures cf.code != 0 ==> cf.code == 0x100 * (src[0] as int) + src[1] && cf.message == src[2..]
    ensures cf.code == 0 ==> cf.message == []
  {
    if |src| >= 2 {
      assert src[..2][..1] == src[..1] && src[..1][..0] == [];
      assert FromBigEndian(src[..2]) == 0x100 * (src[0] as int) + src[1];
    }
    hide WellFormed, FromBigEndian;
    cf := CloseFrame(0, []);
    if |src| >= 2 {
      cf := CloseFrame(FromBigEndian(src[..2]), src[2..]);
      var valid := IsValidUtf8(cf.message);
      if cf.code < 1000 || cf.code > 4999 || (cf.code > 1011 && cf.code < 4000)
         || (cf.code >= 1004 && cf.code <= 1006) || !valid {
        return CloseFrame(0, []);
      }
    }
  }

  /** Parsing a printed payload gives it back exactly when there is none, or when its code may be sent
      and its text is UTF-8; otherwise it gives nothing. */
  lemma CloseRoundTrip(code: nat, message: seq<byte>)
    requires code < 0x1_0000
    ensures CloseFrameOf(FormatClosePayload(code, message)) ==
            if (1000 <= code <= 1003 || 1007 <= code <= 1011 || 4000 <= code <= 4999) && WellFormed(message)
            then CloseFrame(code, message) else CloseFrame(0, [])
  {
    var payload := FormatClosePayload(code, message);
    assert Pow256(2) == 0x1_0000;
    BigEndianRoundTrip(code, 2);
    hide WellFormed, ToBigEndian, FromBigEndian;
    if code != 0 {
      assert payload[..2] == ToBigEndian(code, 2) && payload[2..] == message;
    }
  }
}
