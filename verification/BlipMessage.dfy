/** What is in a message: how a MessageBuilder writes it, and how a MessageIn puts it together from frames. */
module BlipMessage {
  import opened Bytes
  import opened Common
  import opened BlipFrame
  import Varint

  const MAX_PROPERTIES_SIZE: nat := 100 * 1024

  datatype Property = Property(name: seq<byte>, value: seq<byte>)

  function Tokenized(s: seq<byte>): seq<byte> { s + [0] }

  function Tokens(p: Property): seq<byte> { Tokenized(p.name) + Tokenized(p.value) }

  function PropertyBytes(props: seq<Property>): seq<byte> {
    if props == [] then [] else PropertyBytes(props[..|props| - 1]) + Tokens(props[|props| - 1])
  }

  /** No name or value has a zero byte in it. */
  predicate Clean(props: seq<Property>) {
    forall i | 0 <= i < |props| :: 0 !in props[i].name && 0 !in props[i].value
  }

  /** Properties can be written when they are clean and not too long together. */
  predicate Writable(props: seq<Property>) {
    && Clean(props)
    && |PropertyBytes(props)| <= MAX_PROPERTIES_SIZE
  }

  function Payload(props: seq<Property>, body: seq<byte>): seq<byte> {
    Varint.Encode(|PropertyBytes(props)|) + PropertyBytes(props) + body
  }

  /** The builder object. */
  class MessageBuilder {
    var properties: seq<byte>
    var out: seq<byte>
    var wroteProperties: bool
    ghost var props: seq<Property>
    ghost var body: seq<byte>

    ghost predicate Valid()
      reads this
    {
      && properties == PropertyBytes(props)
      && (wroteProperties ==> out == Payload(props, body) && |properties| <= MAX_PROPERTIES_SIZE)
      && (!wroteProperties ==> out == [] && body == [])
    }

    constructor ()
      ensures Valid() && props == [] && body == [] && !wroteProperties
    {
      properties, out, wroteProperties, props, body := [], [], false, [], [];
    }

    method AddProperty(name: seq<byte>, value: seq<byte>)
      requires Valid() && !wroteProperties && 0 !in name && 0 !in value
      modifies this
      ensures Valid() && !wroteProperties && props == old(props) + [Property(name, value)] && body == old(body)
    {
      properties := properties + (Tokenized(name) + Tokenized(value));
      props := props + [Property(name, value)];
      assert props[..|props| - 1] == old(props);
    }

    method FinishProperties() returns (ok: bool)
      requires Valid()
      modifies this
      ensures ok <==> |PropertyBytes(props)| <= MAX_PROPERTIES_SIZE
      ensures Valid() && props == old(props) && body == old(body) && (ok ==> wroteProperties)
    {
      if !wroteProperties {
        if |properties| > MAX_PROPERTIES_SIZE {
          return false;
        }
        var size := Varint.Put(|properties|);
        out := out + size + properties;
        wroteProperties := true;
        assert out == Payload(props, []);
      }
      return true;
    }

    method Write(data: seq<byte>) returns (ok: bool)
      requires Valid()
      modifies this
      ensures ok <==> |PropertyBytes(props)| <= MAX_PROPERTIES_SIZE
      ensures Valid() && props == old(props) && (ok ==> wroteProperties && body == old(body) + data)
    {
      ok := FinishProperties();
      if ok {
        out := out + data;
        body := body + data;
        assert Payload(props, body) == Payload(props, old(body)) + data;
      }
    }

    method Finish() returns (ok: bool, payload: seq<byte>)
      requires Valid()
      modifies this
      ensures Valid() && props == old(props) && body == old(body)
      ensures ok <==> |PropertyBytes(props)| <= MAX_PROPERTIES_SIZE
      ensures ok ==> payload == Payload(props, body)
    {
      ok := FinishProperties();
      payload := out;
    }
  }

  // Reading a payload.

  /** The payload's first bytes say how long the properties are. */
  predicate Sized(bs: seq<byte>) { Varint.Read(bs).Complete? }

  /** Where the properties begin and end, as far as `bs` goes. */
  function Begin(bs: seq<byte>): nat
    requires Sized(bs)
  {
    Varint.Read(bs).size
  }

  function Finish(bs: seq<byte>): nat
    requires Sized(bs)
  {
    Varint.Read(bs).size + Varint.Read(bs).value
  }

  function Min(a: nat, b: nat): nat { if a < b then a else b }

  /** What there is of the bytes from `k` up to `e`. */
  function Between(bs: seq<byte>, k: nat, e: nat): seq<byte>
    requires k <= e
  {
    if k <= |bs| then bs[k..Min(e, |bs|)] else []
  }

  function Beyond(bs: seq<byte>, e: nat): seq<byte> { bs[Min(e, |bs|)..] }

  function PropertiesIn(bs: seq<byte>): seq<byte>
    requires Sized(bs)
  {
    Between(bs, Begin(bs), Finish(bs))
  }

  function BodyIn(bs: seq<byte>): seq<byte>
    requires Sized(bs)
  {
    Beyond(bs, Finish(bs))
  }

  lemma BeginBound(bs: seq<byte>)
    requires Sized(bs)
    ensures 0 < Begin(bs) <= |bs| && Begin(bs) <= 10
  {
  }

  /** The bytes a message that has `got` some reads the size of its properties from. */
  function Head(got: seq<byte>, data: seq<byte>): seq<byte> { if got == [] then data[..Min(10, |data|)] else got }

  predicate Readable(head: seq<byte>) { Sized(head) && Varint.Read(head).value <= MAX_PROPERTIES_SIZE }

  /** The properties end with the bytes that follow `head`, but not with a zero byte. */
  predicate Unterminated(head: seq<byte>, all: seq<byte>)
    requires Sized(head)
  {
    |head| < Finish(head) <= |all| && all[Finish(head) - 1] != 0
  }

  /** A frame with `data` that a message that has `got` some bytes refuses. `more` says that it is not the last. */
  predicate Refused(got: seq<byte>, data: seq<byte>, more: bool) {
    var head, all := Head(got, data), got + data;
    !Readable(head) || Unterminated(head, all) || (!more && |all| < Finish(head))
  }

  const ACK_THRESHOLD: nat := 50000

  /** An incoming message. */
  class MessageIn {
    const isResponse: bool
    const number: nat
    const reply: Option<nat>      // the request this answers, if somebody waits for that
    var gotProperties: bool
    var propertiesSize: nat
    var properties: seq<byte>
    var body: seq<byte>
    var complete: bool
    var rawBytesReceived: nat
    var unackedBytes: nat
    ghost var got: seq<byte>      // the payload so far

    ghost predicate Valid()
      reads this
    {
      && (gotProperties <==> got != [])
      && (gotProperties ==> Sized(got) && propertiesSize == Varint.Read(got).value <= MAX_PROPERTIES_SIZE
                            && properties == PropertiesIn(got) && body == BodyIn(got))
      && unackedBytes <= rawBytesReceived && unackedBytes < ACK_THRESHOLD
    }

    /** How much the sender has been told of. */
    ghost function Told(): int
      reads this
    {
      rawBytesReceived - unackedBytes
    }

    constructor (isResponse: bool, number: nat, reply: Option<nat>)
      ensures Valid() && got == [] && !complete && rawBytesReceived == 0 && unackedBytes == 0
      ensures this.isResponse == isResponse && this.number == number && this.reply == reply
    {
      this.isResponse, this.number, this.reply := isResponse, number, reply;
      gotProperties, propertiesSize, properties, body, complete := false, 0, [], [], false;
      rawBytesReceived, unackedBytes, got := 0, 0, [];
    }

    /**
     * Counts a frame. The ACK that is sent, if one is, says all that has come; and what the sender has not been told of
     * is always less than the threshold.
     */
    method Acknowledge(size: nat) returns (ack: Option<nat>)
      requires Valid()
      modifies `rawBytesReceived, `unackedBytes
      ensures Valid() && rawBytesReceived == old(rawBytesReceived) + size
      ensures ack.Some? <==> rawBytesReceived - old(Told()) >= ACK_THRESHOLD
      ensures ack.Some? ==> ack.value == rawBytesReceived
      ensures Told() == if ack.Some? then ack.value else old(Told())
    {
      hide Varint.Read, PropertiesIn, BodyIn;
      rawBytesReceived := rawBytesReceived + size;
      unackedBytes := unackedBytes + size;
      ack := None;
      if unackedBytes >= ACK_THRESHOLD {
        ack := Some(rawBytesReceived);
        unackedBytes := 0;
      }
    }

    /** Reads the size of the properties, and what comes with it, from the first ten bytes. */
    method Start(head: seq<byte>) returns (ok: bool)
      requires Valid() && got == []
      modifies this
      ensures ok <==> Sized(head) && Varint.Read(head).value <= MAX_PROPERTIES_SIZE
      ensures ok ==> Valid() && got == head && gotProperties
      ensures unchanged(`rawBytesReceived) && unchanged(`unackedBytes)
    {
      var r := Varint.ReadPartial(head);
      if !r.Complete? || r.value > MAX_PROPERTIES_SIZE {
        return false;
      }
      BeginBound(head);
      propertiesSize := r.value;
      var dst := head[r.size..];
      var n := Min(propertiesSize, |dst|);
      properties := dst[..n];
      body := dst[n..];
      gotProperties := true;
      got := head;
      assert Min(Finish(got), |got|) == r.size + n;
      assert properties == head[r.size..r.size + n] && body == head[r.size + n..];
      return true;
    }

    /** Takes the start of a message, if this is its first frame; `frame` is what remains of the data. */
    method Open(data: seq<byte>, sum0: nat) returns (ok: bool, frame: seq<byte>, sum: nat)
      requires Valid() && !complete
      modifies this
      ensures ok <==> Readable(Head(old(got), data))
      ensures ok ==> Valid() && gotProperties && got == Head(old(got), data) && got + frame == old(got) + data
      ensures ok ==> Crc(sum, frame) == Crc(sum0, data)
      ensures unchanged(`rawBytesReceived) && unchanged(`unackedBytes)
    {
      ok, frame, sum := true, data, sum0;
      if !gotProperties {
        var n := Min(10, |data|);
        assert data == data[..n] + data[n..];
        CrcAppend(sum0, data[..n], data[n..]);
        hide Crc, Varint.Read, PropertiesIn, BodyIn;
        sum := Crc(sum, data[..n]);
        ok := Start(data[..n]);
        frame := data[n..];
      }
    }

    /** Takes what is missing of the properties. */
    method ReadProperties(frame: seq<byte>) returns (ok: bool, whole: bool, n: nat)
      requires Valid() && gotProperties
      modifies `properties
      ensures n == (if Finish(got) <= |got| then 0 else Min(Finish(got) - |got|, |frame|))
      ensures properties == PropertiesIn(got) + frame[..n]
      ensures ok <==> !Unterminated(got, got + frame)
      ensures whole <==> Finish(got) <= |got| + |frame|
    {
      BeginBound(got);
      assert |properties| == Min(Finish(got), |got|) - Begin(got);
      assert propertiesSize == Finish(got) - Begin(got);
      hide Varint.Read, PropertiesIn;
      ok, whole, n := true, true, 0;
      if |properties| < propertiesSize {
        n := Min(propertiesSize - |properties|, |frame|);
        properties := properties + frame[..n];
        whole := |properties| == propertiesSize;
        if whole {
          assert properties[propertiesSize - 1] == frame[n - 1] == (got + frame)[Finish(got) - 1];
          ok := properties[propertiesSize - 1] == 0;
        }
      } else {
        assert frame[..0] == [];
      }
    }

    /** Takes the rest of a frame: what is missing of the properties first, then the body. */
    method Continue(frame: seq<byte>) returns (ok: bool, whole: bool)
      requires Valid() && gotProperties
      modifies this
      ensures ok <==> !Unterminated(old(got), old(got) + frame)
      ensures ok ==> Valid() && got == old(got) + frame && (whole <==> Finish(old(got)) <= |got|)
      ensures unchanged(`rawBytesReceived) && unchanged(`unackedBytes)
    {
      GrowsTo(got, frame);
      ghost var all := got + frame;
      assert all != [] && Sized(all) && propertiesSize == Varint.Read(all).value;
      hide Unterminated, PropertiesIn, BodyIn, Sized, Finish, Min, Varint.Read;
      var n;
      ok, whole, n := ReadProperties(frame);
      assert properties == PropertiesIn(all) && body + frame[n..] == BodyIn(all);
      body := body + frame[n..];
      got := all;
    }

    /** Takes a frame's data. `sum` is the running checksum before and after. */
    method ReceivedFrame(data: seq<byte>, more: bool, checksum: nat, sum0: nat) returns (ok: bool, sum: nat)
      requires Valid() && !complete
      modifies this
      ensures ok <==> !Refused(old(got), data, more) && checksum == Crc(sum0, data)
      ensures ok ==> Valid() && got == old(got) + data && sum == Crc(sum0, data) && complete == !more
      ensures unchanged(`rawBytesReceived) && unchanged(`unackedBytes)
    {
      hide Crc, Head, Readable, Unterminated, Finish;
      var frame;
      ok, frame, sum := Open(data, sum0);
      if ok {
        var whole;
        ok, whole := Continue(frame);
        if ok {
          sum := Crc(sum, frame);
          ok := checksum == sum && (more || whole);
          complete := !more;
        }
      }
    }
  }

  lemma SliceGrows(bs: seq<byte>, more: seq<byte>, k: nat, e: nat)
    requires k <= |bs| && k <= e
    ensures var n := if e <= |bs| then 0 else Min(e - |bs|, |more|);
            && Between(bs + more, k, e) == Between(bs, k, e) + more[..n]
            && Beyond(bs + more, e) == Beyond(bs, e) + more[n..]
  {
    if e > |bs| {
      var n := Min(e - |bs|, |more|);
      assert Min(e, |bs + more|) == |bs| + n;
    }
  }

  lemma GrowsTo(got: seq<byte>, frame: seq<byte>)
    requires Sized(got)
    ensures Sized(got + frame) && Varint.Read(got + frame) == Varint.Read(got)
    ensures var n := if Finish(got) <= |got| then 0 else Min(Finish(got) - |got|, |frame|);
            && PropertiesIn(got + frame) == PropertiesIn(got) + frame[..n]
            && BodyIn(got + frame) == BodyIn(got) + frame[n..]
  {
    Varint.ReadExtends(got, frame);
    BeginBound(got);
    hide Varint.Read, Between, Beyond;
    SliceGrows(got, frame, Begin(got), Finish(got));
  }

  // What a builder wrote is accepted, however it is cut into frames.

  predicate ValidPayload(p: seq<byte>) {
    Readable(p) && Finish(p) <= |p| && (Begin(p) < Finish(p) ==> p[Finish(p) - 1] == 0)
  }

  lemma {:induction false} PropertyBytesEnd(props: seq<Property>)
    ensures PropertyBytes(props) != [] ==> PropertyBytes(props)[|PropertyBytes(props)| - 1] == 0
  {
  }

  lemma SplitInThree(a: seq<byte>, b: seq<byte>, c: seq<byte>)
    ensures Between(a + b + c, |a|, |a| + |b|) == b && Beyond(a + b + c, |a| + |b|) == c
    ensures b != [] ==> (a + b + c)[|a| + |b| - 1] == b[|b| - 1]
  {
  }

  lemma PayloadSize(props: seq<Property>, body: seq<byte>)
    requires |PropertyBytes(props)| <= MAX_PROPERTIES_SIZE
    ensures var bytes := PropertyBytes(props);
            Varint.Read(Payload(props, body)) == Varint.Complete(|bytes|, |Varint.Encode(|bytes|)|)
  {
    hide Varint.Read, Varint.Encode, PropertyBytes;
    var bytes := PropertyBytes(props);
    Varint.RoundTrip(|bytes|, bytes + body);
    assert Payload(props, body) == Varint.Encode(|bytes|) + (bytes + body);
  }

  lemma BuiltIsValid(props: seq<Property>, body: seq<byte>)
    requires Writable(props)
    ensures ValidPayload(Payload(props, body))
    ensures PropertiesIn(Payload(props, body)) == PropertyBytes(props) && BodyIn(Payload(props, body)) == body
  {
    PropertyBytesEnd(props);
    hide Varint.Read, Varint.Encode, PropertyBytes, Between, Beyond;
    PayloadSize(props, body);
    SplitInThree(Varint.Encode(|PropertyBytes(props)|), PropertyBytes(props), body);
  }

  /** The next part of a valid payload, from `k` to `n`, is accepted: the first part must have the payload's size. */
  lemma PartIsAccepted(p: seq<byte>, k: nat, n: nat)
    requires ValidPayload(p) && k <= n <= |p| && (k == 0 ==> n >= Min(10, |p|)) && (k > 0 ==> k >= Min(10, |p|))
    ensures !Refused(p[..k], p[k..n], n < |p|)
  {
    var h := if k == 0 then Min(10, n) else k;
    HeadOfPart(p, k, n, h);
    PrefixIsReadable(p, h);
    PrefixIsTerminated(p, h, n);
    assert p[..k] + p[k..n] == p[..n];
    assert Readable(p[..h]) && Finish(p[..h]) == Finish(p) <= |p|;
    hide Readable, Unterminated, Head, Finish, ValidPayload, Varint.Read;
  }

  lemma PrefixIsTerminated(p: seq<byte>, h: nat, n: nat)
    requires ValidPayload(p) && h <= n <= |p| && Varint.Read(p[..h]) == Varint.Read(p)
    ensures !Unterminated(p[..h], p[..n])
  {
    BeginBound(p[..h]);
    var e := Finish(p);
    hide Varint.Read;
    assert h < e <= n ==> p[..n][e - 1] == p[e - 1];
  }

  lemma HeadOfPart(p: seq<byte>, k: nat, n: nat, h: nat)
    requires k <= n <= |p| && h == if k == 0 then Min(10, n) else k
    ensures Head(p[..k], p[k..n]) == p[..h]
  {
  }

  lemma PrefixIsReadable(p: seq<byte>, h: nat)
    requires Readable(p) && Min(10, |p|) <= h <= |p|
    ensures Varint.Read(p[..h]) == Varint.Read(p)
  {
    BeginBound(p);
    assert p == p[..h] + p[h..];
    Varint.RunExtends(p[..h], p[h..]);
    Varint.ReadExtends(p[..h], p[h..]);
    assert p[Begin(p) - 1] < 128 && p[..h][Begin(p) - 1] == p[Begin(p) - 1];
  }

  // What is refused.

  lemma HeadSays(p: seq<byte>)
    ensures Readable(p) <==> Readable(Head([], p))
    ensures Readable(p) ==> Varint.Read(p) == Varint.Read(Head([], p))
  {
    var h := Min(10, |p|);
    assert Head([], p) == p[..h] && p == p[..h] + p[h..];
    if Readable(p) {
      PrefixIsReadable(p, h);
    } else if Readable(p[..h]) {
      Varint.ReadExtends(p[..h], p[h..]);
    }
    hide Varint.Read;
  }

  /**
   * A message in one frame is accepted if and only if the size of its properties can be read, is at most 100 kilobytes and
   * not more than there is, and the properties end with a zero byte or within the first ten bytes of the message.
   */
  lemma WholeIsAcceptedIff(p: seq<byte>)
    ensures !Refused([], p, false) <==>
              && Varint.Read(p).Complete? && Varint.Read(p).value <= 102400 && Finish(p) <= |p|
              && (Finish(p) <= 10 || p[Finish(p) - 1] == 0)
  {
    hide Varint.Read;
    HeadSays(p);
    var head := Head([], p);
    assert |head| == Min(10, |p|) && [] + p == p;
    if Readable(p) {
      BeginBound(p);
      assert Finish(head) == Finish(p);
    }
    hide Head;
  }

  /** So properties that do not end with a zero byte are not noticed if and only if they end within the first ten bytes. */
  lemma UnnoticedIff(p: seq<byte>)
    requires Varint.Read(p).Complete? && Varint.Read(p).value <= 102400 && Begin(p) < Finish(p) <= |p| && p[Finish(p) - 1] != 0
    ensures !ValidPayload(p) && (!Refused([], p, false) <==> Finish(p) <= 10)
  {
    WholeIsAcceptedIff(p);
    hide Varint.Read, Refused;
  }

  /** One property byte that is not zero, and nothing else. */
  lemma OneByteIsUnnoticed(b: byte)
    requires b != 0
    ensures !ValidPayload([1, b]) && !Refused([], [1, b], false)
  {
    var p := [1, b];
    assert p == Varint.Encode(1) + [b];
    Varint.RoundTrip(1, [b]);
    hide Varint.Read, Refused;
    UnnoticedIff(p);
  }

  // Looking a property up.

  /** The length of the C string that begins at `at`; a zero byte follows the last byte. */
  function StrLen(bs: seq<byte>, at: nat): (n: nat)
    ensures at <= |bs| ==> at + n <= |bs|
    decreases |bs| - at
  {
    if at >= |bs| || bs[at] == 0 then 0 else 1 + StrLen(bs, at + 1)
  }

  /** The value found for `name` among the properties from `key` on; empty if there is none. */
  function Lookup(bs: seq<byte>, key: nat, name: seq<byte>): seq<byte>
    decreases |bs| - key
  {
    if key >= |bs| then []
    else
      var val := key + StrLen(bs, key) + 1;
      if val >= |bs| then []
      else
        var endOfVal := val + StrLen(bs, val);
        if bs[key..val - 1] == name then bs[val..endOfVal] else Lookup(bs, endOfVal + 1, name)
  }

  method StringLength(bs: seq<byte>, at: nat) returns (n: nat)
    ensures n == StrLen(bs, at)
  {
    n := 0;
    while at + n < |bs| && bs[at + n] != 0
      invariant StrLen(bs, at) == n + StrLen(bs, at + n)
    {
      n := n + 1;
    }
  }

  /** Scans the properties of a message. */
  method GetProperty(properties: seq<byte>, name: seq<byte>) returns (value: seq<byte>)
    ensures value == Lookup(properties, 0, name)
  {
    var key, end := 0, |properties|;
    hide StrLen;
    while key < end
      invariant Lookup(properties, key, name) == Lookup(properties, 0, name)
      decreases end - key
    {
      var n := StringLength(properties, key);
      var endOfKey := key + n;
      var val := endOfKey + 1;
      if val >= end {
        return [];
      }
      n := StringLength(properties, val);
      var endOfVal := val + n;
      if name == properties[key..endOfKey] {
        return properties[val..endOfVal];
      }
      key := endOfVal + 1;
    }
    value := [];
  }

  /** The first value added under a name. */
  function FirstValue(props: seq<Property>, name: seq<byte>): seq<byte> {
    if props == [] then [] else if props[0].name == name then props[0].value else FirstValue(props[1..], name)
  }

  lemma {:induction false} PropertyBytesFront(props: seq<Property>)
    requires props != []
    ensures PropertyBytes(props) == Tokens(props[0]) + PropertyBytes(props[1..])
  {
    hide Tokens, PropertyBytes;
    var n := |props| - 1;
    PropertyBytesBack(props);
    if n > 0 {
      PropertyBytesFront(props[..n]);
      PropertyBytesBack(props[1..]);
      assert props[..n][1..] == props[1..][..n - 1] && props[..n][0] == props[0];
    } else {
      assert props[..0] == [] && props[1..] == [];
      NoProperties();
    }
  }

  lemma PropertyBytesBack(props: seq<Property>)
    requires props != []
    ensures PropertyBytes(props) == PropertyBytes(props[..|props| - 1]) + Tokens(props[|props| - 1])
  {
  }

  lemma NoProperties()
    ensures PropertyBytes([]) == []
  {
  }

  lemma {:induction false} StrLenOf(bs: seq<byte>, at: nat, end: nat)
    requires at <= end < |bs| && bs[end] == 0 && forall i | at <= i < end :: bs[i] != 0
    ensures StrLen(bs, at) == end - at
    decreases end - at
  {
    if at < end {
      StrLenOf(bs, at + 1, end);
    }
  }

  lemma TokenAt(bs: seq<byte>, at: nat, s: seq<byte>)
    requires 0 !in s && at + |s| < |bs| && bs[at..at + |s| + 1] == Tokenized(s)
    ensures bs[at..at + |s|] == s && StrLen(bs, at) == |s|
  {
    assert forall i | 0 <= i <= |s| :: bs[at + i] == Tokenized(s)[i];
    assert forall i | at <= i < at + |s| :: bs[i] == s[i - at];
    StrLenOf(bs, at, at + |s|);
    hide StrLen;
  }

  lemma TokensAt(bs: seq<byte>, at: nat, p: Property)
    requires at + |Tokens(p)| <= |bs| && bs[at..at + |Tokens(p)|] == Tokens(p)
    ensures |Tokens(p)| == |p.name| + |p.value| + 2
    ensures bs[at..at + |p.name| + 1] == Tokenized(p.name)
    ensures bs[at + |p.name| + 1..at + |p.name| + |p.value| + 2] == Tokenized(p.value)
  {
    var t, n := Tokens(p), |p.name| + 1;
    assert t[..n] == Tokenized(p.name) && t[n..] == Tokenized(p.value);
    assert bs[at..at + n] == bs[at..at + |t|][..n];
    assert bs[at + n..at + |t|] == bs[at..at + |t|][n..];
  }

  /** The property at `at` is compared, then skipped. */
  lemma LookupFirst(bs: seq<byte>, at: nat, p: Property, name: seq<byte>)
    requires 0 !in p.name && 0 !in p.value && at + |Tokens(p)| <= |bs| && bs[at..at + |Tokens(p)|] == Tokens(p)
    ensures Lookup(bs, at, name) == if p.name == name then p.value else Lookup(bs, at + |Tokens(p)|, name)
  {
    hide StrLen, Tokenized, Tokens;
    TokensAt(bs, at, p);
    TokenAt(bs, at, p.name);
    TokenAt(bs, at + |p.name| + 1, p.value);
  }

  lemma {:induction false} LookupIsFirst(bs: seq<byte>, at: nat, props: seq<Property>, name: seq<byte>)
    requires Clean(props)
    requires at <= |bs| && bs[at..] == PropertyBytes(props)
    ensures Lookup(bs, at, name) == FirstValue(props, name)
    decreases |props|
  {
    hide *;
    if props == [] {
      LookupEnd(bs, at, name);
    } else {
      var p := props[0];
      FirstOf(props, name);
      FrontTokens(bs, at, props);
      LookupFirst(bs, at, p, name);
      LookupIsFirst(bs, at + |Tokens(p)|, props[1..], name);
    }
  }

  lemma LookupEnd(bs: seq<byte>, at: nat, name: seq<byte>)
    requires at <= |bs| && bs[at..] == PropertyBytes([])
    ensures Lookup(bs, at, name) == FirstValue([], name)
  {
  }

  lemma FirstOf(props: seq<Property>, name: seq<byte>)
    requires props != [] && Clean(props)
    ensures 0 !in props[0].name && 0 !in props[0].value && Clean(props[1..])
    ensures FirstValue(props, name) == if props[0].name == name then props[0].value else FirstValue(props[1..], name)
  {
  }

  lemma FrontTokens(bs: seq<byte>, at: nat, props: seq<Property>)
    requires props != [] && at <= |bs| && bs[at..] == PropertyBytes(props)
    ensures var t := Tokens(props[0]);
            at + |t| <= |bs| && bs[at..at + |t|] == t && bs[at + |t|..] == PropertyBytes(props[1..])
  {
    hide PropertyBytes, Tokens;
    PropertyBytesFront(props);
    var t := Tokens(props[0]);
    assert bs[at..at + |t|] == bs[at..][..|t|] && bs[at + |t|..] == bs[at..][|t|..];
  }

  /** A property read from a message is the first one its sender added under that name. */
  lemma PropertyIsFirst(props: seq<Property>, name: seq<byte>)
    requires Clean(props)
    ensures Lookup(PropertyBytes(props), 0, name) == FirstValue(props, name)
  {
    assert PropertyBytes(props)[0..] == PropertyBytes(props);
    LookupIsFirst(PropertyBytes(props), 0, props, name);
  }
}
