/** Messages over a byte stream, each prefixed with its length as a varint. */
module Framer {
  import opened Bytes
  import opened Varint
  import opened ByteStream

  /** What a sender writes for a message. */
  function Framed(msg: seq<byte>): seq<byte> { Encode(|msg|) + msg }

  function FramedAll(msgs: seq<seq<byte>>): seq<byte> {
    if msgs == [] then [] else Framed(msgs[0]) + FramedAll(msgs[1..])
  }

  /** The messages in a byte string, and whether reading stops at an invalid length. */
  datatype Decoded = Decoded(messages: seq<seq<byte>>, invalid: bool)

  /** A whole message is at the front. */
  predicate Ready(bs: seq<byte>) {
    Read(bs).Complete? && Read(bs).size + Read(bs).value <= |bs|
  }

  function Messages(bs: seq<byte>): Decoded {
    var r := Read(bs);
    if Ready(bs) then
      var later := Messages(bs[r.size + r.value..]);
      Decoded([bs[r.size..r.size + r.value]] + later.messages, later.invalid)
    else Decoded([], r.Invalid?)
  }

  /** The outcome for a reader that has yielded `out` and has `bs` to come. */
  function Outcome(out: seq<seq<byte>>, bs: seq<byte>): Decoded {
    Decoded(out + Messages(bs).messages, Messages(bs).invalid)
  }

  lemma MessagesStop(bs: seq<byte>)
    requires !Ready(bs)
    ensures Messages(bs) == Decoded([], Read(bs).Invalid?)
  {
  }

  lemma MessagesReady(buffer: seq<byte>, rest: seq<byte>)
    requires Ready(buffer)
    ensures Read(buffer).size > 0
    ensures var r := Read(buffer);
            var later := Messages(buffer[r.size + r.value..] + rest);
            Messages(buffer + rest) == Decoded([buffer[r.size..r.size + r.value]] + later.messages, later.invalid)
  {
    ReadExtends(buffer, rest);
    var r := Read(buffer);
    assert r.size > 0;
    hide Read;
    var bs := buffer + rest;
    assert bs[r.size..r.size + r.value] == buffer[r.size..r.size + r.value];
    assert bs[r.size + r.value..] == buffer[r.size + r.value..] + rest;
  }

  lemma OutcomeYields(out: seq<seq<byte>>, buffer: seq<byte>, rest: seq<byte>, len: nat, size: nat)
    requires Read(buffer) == Complete(len, size) && size + len <= |buffer|
    ensures size > 0
    ensures Outcome(out, buffer + rest) == Outcome(out + [buffer[size..size + len]], buffer[size + len..] + rest)
  {
    MessagesReady(buffer, rest);
    hide Read, Messages;
  }

  lemma OutcomeStops(out: seq<seq<byte>>, buffer: seq<byte>, rest: seq<byte>)
    ensures Read(buffer).Invalid? ==> Outcome(out, buffer + rest) == Decoded(out, true)
    ensures rest == [] && !Ready(buffer) ==> Outcome(out, buffer + rest) == Decoded(out, Read(buffer).Invalid?)
  {
    ReadExtends(buffer, rest);
    hide Read, Messages;
    if Read(buffer).Invalid? {
      MessagesStop(buffer + rest);
    } else if rest == [] && !Ready(buffer) {
      assert buffer + rest == buffer;
      MessagesStop(buffer);
    }
  }

  /** Reads messages until the end of the stream. */
  method ReceiveMessages(stream: Stream) returns (out: seq<seq<byte>>, invalid: bool)
    modifies stream
    ensures Decoded(out, invalid) == Messages(old(stream.rest))
    ensures !invalid ==> stream.rest == []
  {
    out, invalid := [], false;
    var buffer := [];
    ghost var all := Messages(stream.rest);
    assert [] + stream.rest == stream.rest;
    assert Outcome(out, buffer + stream.rest) == all;
    hide *;
    while true
      invariant Outcome(out, buffer + stream.rest) == all
      decreases |buffer| + |stream.rest|, |stream.rest|
    {
      ghost var rest := stream.rest;
      var r := ReadPartial(buffer);
      OutcomeStops(out, buffer, rest);
      if r.Invalid? {
        invalid := true;
        return;
      } else if r.Complete? && r.value <= |buffer| - r.size {
        OutcomeYields(out, buffer, rest, r.value, r.size);
        out := out + [buffer[r.size..r.size + r.value]];
        buffer := buffer[r.size + r.value..];
      } else {
        var n := if r.Complete? then r.value - (|buffer| - r.size) else 1024;
        var more := stream.ReadNoCopy(n);
        if more == [] {
          assert !Ready(buffer) by { NotReady(buffer); }
          break;
        }
        assert buffer + rest == buffer + more + stream.rest;
        buffer := buffer + more;
      }
    }
  }

  lemma NotReady(bs: seq<byte>)
    ensures Ready(bs) <==> Read(bs).Complete? && Read(bs).size + Read(bs).value <= |bs|
  {
  }

  lemma FramedIsReady(msg: seq<byte>, rest: seq<byte>)
    requires |msg| < UINT64
    ensures Ready(Framed(msg) + rest)
    ensures Read(Framed(msg) + rest) == Complete(|msg|, |Encode(|msg|)|)
  {
    assert Framed(msg) + rest == Encode(|msg|) + (msg + rest);
    RoundTrip(|msg|, msg + rest);
  }

  lemma FirstMessage(msg: seq<byte>, rest: seq<byte>)
    requires |msg| < UINT64
    ensures Messages(Framed(msg) + rest) == Decoded([msg] + Messages(rest).messages, Messages(rest).invalid)
  {
    var frame, n := Framed(msg), |Encode(|msg|)|;
    assert |frame| == n + |msg| && frame[n..] == msg;
    FramedIsReady(msg, []);
    assert frame + [] == frame;
    hide *;
    MessagesReady(frame, rest);
    assert frame[|frame|..] + rest == rest;
  }

  /** Every list of messages, however the stream is cut up on the way, is received as it was sent. */
  lemma {:induction false} FramerRoundTrip(msgs: seq<seq<byte>>)
    requires forall m :: m in msgs ==> |m| < UINT64
    ensures Messages(FramedAll(msgs)) == Decoded(msgs, false)
  {
    hide Read, Encode, Messages;
    if msgs == [] {
      EmptyIsPartial();
      MessagesStop([]);
    } else {
      FirstMessage(msgs[0], FramedAll(msgs[1..]));
      FramerRoundTrip(msgs[1..]);
      assert [msgs[0]] + msgs[1..] == msgs;
    }
  }

  /** Ten bytes with the high bit, where a length should be, are reported after the messages before them. */
  lemma {:induction false} BadLengthIsReported(msgs: seq<seq<byte>>, bad: seq<byte>)
    requires (forall m :: m in msgs ==> |m| < UINT64) && |bad| >= 10 && forall i | 0 <= i < 10 :: bad[i] >= 128
    ensures Messages(FramedAll(msgs) + bad) == Decoded(msgs, true)
  {
    hide Read, Encode, Messages;
    if msgs == [] {
      TooLongIsInvalid(bad);
      assert [] + bad == bad;
      MessagesStop(bad);
    } else {
      var rest := FramedAll(msgs[1..]) + bad;
      assert FramedAll(msgs) + bad == Framed(msgs[0]) + rest;
      FirstMessage(msgs[0], rest);
      BadLengthIsReported(msgs[1..], bad);
      assert [msgs[0]] + msgs[1..] == msgs;
    }
  }

  lemma TooLongIsInvalid(bs: seq<byte>)
    requires |bs| >= 10 && forall i | 0 <= i < 10 :: bs[i] >= 128
    ensures Read(bs).Invalid? && !Ready(bs)
  {
  }

  lemma EmptyIsPartial()
    ensures Read([]).Partial?
  {
  }

  lemma CutFrameIsNotReady(msg: seq<byte>, k: nat)
    requires |msg| < UINT64 && k < |Framed(msg)|
    ensures !Ready(Framed(msg)[..k]) && !Read(Framed(msg)[..k]).Invalid?
  {
    var head := Encode(|msg|);
    var cut := Framed(msg)[..k];
    if k < |head| {
      assert cut == head[..k];
      PrefixIsPartial(|msg|, k);
    } else {
      assert cut == head + msg[..k - |head|];
      RoundTrip(|msg|, msg[..k - |head|]);
    }
  }

  /** `n` of the messages lie within the first `k` bytes, and no more. */
  predicate Whole(msgs: seq<seq<byte>>, k: nat, n: nat) {
    && n <= |msgs|
    && |FramedAll(msgs[..n])| <= k
    && (n < |msgs| ==> k < |FramedAll(msgs[..n + 1])|)
  }

  lemma WholeGrows(msgs: seq<seq<byte>>, k: nat, n: nat)
    requires msgs != [] && Whole(msgs[1..], k, n)
    ensures Whole(msgs, |Framed(msgs[0])| + k, n + 1)
  {
    assert msgs[..n + 1][1..] == msgs[1..][..n];
    if n < |msgs[1..]| {
      assert msgs[..n + 2][1..] == msgs[1..][..n + 1];
    }
  }

  lemma WholeNone(msgs: seq<seq<byte>>, k: nat)
    requires msgs == [] || k < |Framed(msgs[0])|
    ensures Whole(msgs, k, 0)
  {
    if msgs != [] {
      assert msgs[..1][1..] == [];
    }
  }

  /** A stream that ends early gives the messages that are wholly there, and no error. */
  lemma {:induction false} CutStream(msgs: seq<seq<byte>>, k: nat) returns (n: nat)
    requires forall m :: m in msgs ==> |m| < UINT64
    requires k <= |FramedAll(msgs)|
    ensures n <= |msgs| && Whole(msgs, k, n)
    ensures Messages(FramedAll(msgs)[..k]) == Decoded(msgs[..n], false)
    decreases |msgs|
  {
    hide *;
    if msgs == [] {
      n := 0;
      CutNothing(k);
    } else if k < |Framed(msgs[0])| {
      n := 0;
      CutFirst(msgs, k);
    } else {
      var i := CutStream(msgs[1..], CutRest(msgs, k));
      CutLater(msgs, k, i);
      n := i + 1;
    }
  }

  lemma FramedFront(msgs: seq<seq<byte>>)
    requires msgs != []
    ensures FramedAll(msgs) == Framed(msgs[0]) + FramedAll(msgs[1..])
  {
  }

  lemma CutNothing(k: nat)
    requires k <= |FramedAll([])|
    ensures Whole([], k, 0) && Messages(FramedAll([])[..k]) == Decoded([][..0], false)
  {
    FramerRoundTrip([]);
  }

  lemma CutFirst(msgs: seq<seq<byte>>, k: nat)
    requires msgs != [] && |msgs[0]| < UINT64 && k < |Framed(msgs[0])|
    ensures k <= |FramedAll(msgs)| && Whole(msgs, k, 0) && Messages(FramedAll(msgs)[..k]) == Decoded(msgs[..0], false)
  {
    WholeNone(msgs, k);
    CutFrameIsNotReady(msgs[0], k);
    assert FramedAll(msgs)[..k] == Framed(msgs[0])[..k];
    hide *;
    MessagesStop(Framed(msgs[0])[..k]);
  }

  /** Where the cut is in what follows the first message. */
  function CutRest(msgs: seq<seq<byte>>, k: nat): (j: nat)
    requires msgs != [] && |Framed(msgs[0])| <= k <= |FramedAll(msgs)|
    ensures j <= |FramedAll(msgs[1..])| && j == k - |Framed(msgs[0])|
  {
    k - |Framed(msgs[0])|
  }

  lemma CutLater(msgs: seq<seq<byte>>, k: nat, i: nat)
    requires msgs != [] && |msgs[0]| < UINT64 && |Framed(msgs[0])| <= k <= |FramedAll(msgs)| && i < |msgs|
    requires Whole(msgs[1..], CutRest(msgs, k), i)
    requires Messages(FramedAll(msgs[1..])[..CutRest(msgs, k)]) == Decoded(msgs[1..][..i], false)
    ensures Whole(msgs, k, i + 1) && Messages(FramedAll(msgs)[..k]) == Decoded(msgs[..i + 1], false)
  {
    hide *;
    var j := CutRest(msgs, k);
    var frame, later := Framed(msgs[0]), FramedAll(msgs[1..]);
    FramedFront(msgs);
    WholeGrows(msgs, j, i);
    FirstMessage(msgs[0], later[..j]);
    assert (frame + later)[..k] == frame + later[..j];
    assert msgs[..i + 1][0] == msgs[0] && msgs[..i + 1][1..] == msgs[1..][..i];
    assert [msgs[0]] + msgs[1..][..i] == msgs[..i + 1];
  }
}
