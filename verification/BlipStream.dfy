/**
 * One direction of a BLIP connection: messages cut into frames, interleaved on a channel that keeps their order, and
 * put together again by the receiver.
 */
module BlipStream {
  import opened Bytes
  import opened Common
  import opened BlipFrame
  import opened BlipMessage

  /** Which message a frame belongs to. Requests are numbered by their sender, responses by the request they answer. */
  datatype Key = Key(res: bool, no: nat)

  function KeyOf(f: Frame): Key { Key(!f.kind.Request?, f.no) }

  predicate IsData(f: Frame) { !IsAck(f.kind) }

  // The receiver.

  /** A message being received; `reply` names the request it answers, if somebody waits for it. */
  datatype In = In(got: seq<byte>, raw: nat, unacked: nat, reply: Option<nat>)

  const NEW_IN := In([], 0, 0, None)

  /** The number of requests begun, the unfinished requests and the responses expected, and the running checksum. */
  datatype Rx = Rx(numReq: nat, pend: map<Key, In>, sum: nat)

  /** The message a data frame is for, if its number is right. */
  function Slot(rx: Rx, f: Frame): Option<In> {
    if KeyOf(f) in rx.pend then Some(rx.pend[KeyOf(f)])
    else if f.kind.Request? && f.no == rx.numReq + 1 then Some(NEW_IN)
    else None
  }

  datatype Taken =
    | BadNumber
    | BadData
    | Took(rx: Rx, ack: Option<nat>, message: In)

  /** The message after a frame: what it has, and how much of that is not acknowledged. */
  function Extended(m: In, f: Frame): In {
    var size := |f.body| + CHECKSUM_SIZE;
    var unacked := m.unacked + size;
    In(m.got + f.body, m.raw + size, if unacked >= ACK_THRESHOLD then 0 else unacked, m.reply)
  }

  function AckDue(m: In, f: Frame): Option<nat> {
    var size := |f.body| + CHECKSUM_SIZE;
    if m.unacked + size >= ACK_THRESHOLD then Some(m.raw + size) else None
  }

  /** The receipt of a data frame. */
  function Take(rx: Rx, f: Frame): Taken {
    var slot := Slot(rx, f);
    if slot.None? then BadNumber
    else if Refused(slot.value.got, f.body, f.more) || f.sum != Crc(rx.sum, f.body) then BadData
    else
      var m := Extended(slot.value, f);
      Took(Rx(if KeyOf(f) in rx.pend then rx.numReq else f.no,
              if f.more then rx.pend[KeyOf(f) := m] else rx.pend - {KeyOf(f)},
              f.sum),
           AckDue(slot.value, f), m)
  }

  // The sender, as the receiver needs to know it.

  /** A message: how much of its payload has been sent, and in how many bytes of frames. */
  datatype Str = Str(payload: seq<byte>, sent: nat, bytes: nat) {
    predicate Over() { sent >= |payload| }
  }

  datatype Tx = Tx(str: map<Key, Str>, lastNo: nat, sum: nat)

  // The channel.

  function InFlight(chan: seq<Frame>, k: Key): seq<Frame> {
    if chan == [] then []
    else if IsData(chan[0]) && KeyOf(chan[0]) == k then [chan[0]] + InFlight(chan[1..], k)
    else InFlight(chan[1..], k)
  }

  function Bodies(fs: seq<Frame>): seq<byte> {
    if fs == [] then [] else fs[0].body + Bodies(fs[1..])
  }

  function Weight(fs: seq<Frame>): nat {
    if fs == [] then 0 else |fs[0].body| + CHECKSUM_SIZE + Weight(fs[1..])
  }

  /** Each new request has the number after the last new one, from `n` on. */
  predicate Ordered(chan: seq<Frame>, n: nat) {
    chan == [] ||
    (if chan[0].kind.Request? then chan[0].no <= n + 1 && Ordered(chan[1..], NextNo(chan[0], n))
     else Ordered(chan[1..], n))
  }

  function NextNo(f: Frame, n: nat): nat { if f.kind.Request? && f.no == n + 1 then f.no else n }

  function NoAfter(chan: seq<Frame>, n: nat): nat {
    if chan == [] then n else NoAfter(chan[1..], NextNo(chan[0], n))
  }

  /** Each frame carries the checksum of all data so far. */
  predicate Summed(chan: seq<Frame>, sum: nat) {
    chan == [] || ((IsData(chan[0]) ==> chan[0].sum == Crc(sum, chan[0].body)) && Summed(chan[1..], NextSum(chan[0], sum)))
  }

  function NextSum(f: Frame, sum: nat): nat { if IsData(f) then f.sum else sum }

  function SumAfter(chan: seq<Frame>, sum: nat): nat {
    if chan == [] then sum else SumAfter(chan[1..], NextSum(chan[0], sum))
  }

  lemma {:induction false} InFlightAppend(chan: seq<Frame>, f: Frame, k: Key)
    ensures InFlight(chan + [f], k)
         == if IsData(f) && KeyOf(f) == k then InFlight(chan, k) + [f] else InFlight(chan, k)
  {
    if chan != [] {
      InFlightAppend(chan[1..], f, k);
      assert (chan + [f])[1..] == chan[1..] + [f];
    }
  }

  lemma {:induction false} BodiesAppend(fs: seq<Frame>, f: Frame)
    ensures Bodies(fs + [f]) == Bodies(fs) + f.body && Weight(fs + [f]) == Weight(fs) + |f.body| + CHECKSUM_SIZE
  {
    if fs == [] {
      assert [f][1..] == [] && [] + [f] == [f];
    } else {
      BodiesAppend(fs[1..], f);
      assert (fs + [f])[1..] == fs[1..] + [f];
    }
  }

  lemma {:induction false} OrderedAppend(chan: seq<Frame>, f: Frame, n: nat)
    requires Ordered(chan, n) && (f.kind.Request? ==> f.no <= NoAfter(chan, n) + 1)
    ensures Ordered(chan + [f], n) && NoAfter(chan + [f], n) == NextNo(f, NoAfter(chan, n))
    decreases |chan|
  {
    if chan == [] {
      assert [] + [f] == [f] && [f][1..] == [];
    } else {
      OrderedAppend(chan[1..], f, NextNo(chan[0], n));
      assert (chan + [f])[1..] == chan[1..] + [f];
    }
  }

  lemma {:induction false} SummedAppend(chan: seq<Frame>, f: Frame, sum: nat)
    requires Summed(chan, sum) && (IsData(f) ==> f.sum == Crc(SumAfter(chan, sum), f.body))
    ensures Summed(chan + [f], sum) && SumAfter(chan + [f], sum) == NextSum(f, SumAfter(chan, sum))
    decreases |chan|
  {
    hide Crc;
    if chan == [] {
      assert [] + [f] == [f] && [f][1..] == [];
    } else {
      SummedAppend(chan[1..], f, NextSum(chan[0], sum));
      assert (chan + [f])[1..] == chan[1..] + [f];
    }
  }

  // What holds between the two ends.

  /** The receiver's part of a message. */
  function Part(rx: Rx, k: Key): In { if k in rx.pend then rx.pend[k] else NEW_IN }

  /** The frames in flight of one message: all but the last of the message say that more is coming. */
  predicate Framed(fs: seq<Frame>, over: bool) {
    && (forall i | 0 <= i < |fs| :: fs[i].body != [])
    && (forall i | 0 <= i < |fs| - 1 :: fs[i].more)
    && (fs != [] ==> fs[|fs| - 1].more == !over)
  }

  /** A message's first frame has at least ten bytes, unless that is more than the message. */
  predicate StartsBig(fs: seq<Frame>, payload: seq<byte>) {
    fs != [] ==> |fs[0].body| >= Min(10, |payload|)
  }

  /** What the receiver has and what is in flight make up what was sent. */
  predicate AddsUp(m: In, fs: seq<Frame>, s: Str)
    requires s.sent <= |s.payload|
  {
    && m.got + Bodies(fs) == s.payload[..s.sent]
    && m.raw + Weight(fs) == s.bytes
    && (m.got == [] ==> StartsBig(fs, s.payload))
    && (m.got != [] ==> |m.got| >= Min(10, |s.payload|))
  }

  predicate StreamOk(rx: Rx, done: map<Key, seq<byte>>, fs: seq<Frame>, k: Key, s: Str) {
    && ValidPayload(s.payload) && s.sent <= |s.payload|
    && Framed(fs, s.Over())
    && (k in done <==> s.Over() && fs == [])
    && (k in done ==> done[k] == s.payload && k !in rx.pend && (!k.res ==> k.no <= rx.numReq))
    && (k !in done ==> AddsUp(Part(rx, k), fs, s))
    && (k !in done && k.res ==> k in rx.pend)
    && (k !in done && !k.res ==> (k in rx.pend <==> k.no <= rx.numReq))
    && (!k.res && k in rx.pend ==> rx.pend[k].got != [])
  }

  ghost predicate Agree(tx: Tx, rx: Rx, done: map<Key, seq<byte>>, chan: seq<Frame>) {
    && Ordered(chan, rx.numReq) && NoAfter(chan, rx.numReq) == tx.lastNo
    && Summed(chan, rx.sum) && SumAfter(chan, rx.sum) == tx.sum
    && (forall k | k in tx.str :: StreamOk(rx, done, InFlight(chan, k), k, tx.str[k]))
    && (forall k :: k !in tx.str ==> InFlight(chan, k) == [])
    && (forall k | k in tx.str && !k.res :: 0 < k.no <= tx.lastNo)
    && (forall k | k in done :: k in tx.str)
    && (forall k | k in rx.pend && !k.res :: k in tx.str)
  }

  // The sender's steps.

  /** A data frame that is the next part of a message. */
  predicate IsNext(f: Frame, k: Key, s: Str, sum: nat) {
    && IsData(f) && KeyOf(f) == k
    && s.sent < s.sent + |f.body| <= |s.payload| && f.body == s.payload[s.sent..s.sent + |f.body|]
    && (s.sent == 0 ==> |f.body| >= Min(10, |s.payload|))
    && f.more == (s.sent + |f.body| < |s.payload|)
    && f.sum == Crc(sum, f.body)
  }

  function Advanced(s: Str, f: Frame): Str {
    Str(s.payload, s.sent + |f.body|, s.bytes + |f.body| + CHECKSUM_SIZE)
  }

  lemma FramedGrows(fs: seq<Frame>, f: Frame, s: Str)
    requires Framed(fs, false) && f.body != [] && f.more == !Advanced(s, f).Over()
    ensures Framed(fs + [f], Advanced(s, f).Over())
  {
  }

  lemma AddsUpMore(m: In, fs: seq<Frame>, k: Key, s: Str, f: Frame, sum: nat)
    requires s.sent <= |s.payload| && AddsUp(m, fs, s) && IsNext(f, k, s, sum) && (s.sent == 0 <==> m.got == [] && fs == [])
    ensures AddsUp(m, fs + [f], Advanced(s, f))
  {
    hide Bodies, Weight, Crc, KeyOf, IsData;
    BodiesAppend(fs, f);
    assert s.payload[..s.sent + |f.body|] == s.payload[..s.sent] + f.body;
    assert m.got + (Bodies(fs) + f.body) == (m.got + Bodies(fs)) + f.body;
    assert (fs + [f])[0] == if fs == [] then f else fs[0];
  }

  lemma {:induction false} BodiesEmpty(fs: seq<Frame>)
    requires forall i | 0 <= i < |fs| :: fs[i].body != []
    ensures Bodies(fs) == [] <==> fs == []
  {
  }

  /** One more frame of a message. */
  lemma StreamGrows(rx: Rx, done: map<Key, seq<byte>>, fs: seq<Frame>, k: Key, s: Str, f: Frame, sum: nat)
    requires StreamOk(rx, done, fs, k, s) && IsNext(f, k, s, sum)
    ensures StreamOk(rx, done, fs + [f], k, Advanced(s, f))
  {
    FramedGrows(fs, f, s);
    BodiesEmpty(fs);
    assert s.sent == 0 <==> Part(rx, k).got == [] && fs == [] by {
      assert |Part(rx, k).got + Bodies(fs)| == s.sent;
    }
    AddsUpMore(Part(rx, k), fs, k, s, f, sum);
    hide AddsUp, Framed, Crc, ValidPayload;
  }

  lemma {:induction false} NoGrows(chan: seq<Frame>, n: nat)
    ensures NoAfter(chan, n) >= n
    decreases |chan|
  {
    if chan != [] {
      NoGrows(chan[1..], NextNo(chan[0], n));
    }
  }

  /** A message may be begun: a response that is expected, or a request with the next number. */
  predicate CanBegin(tx: Tx, rx: Rx, k: Key) {
    k !in tx.str && if k.res then k in rx.pend && rx.pend[k].got == [] && rx.pend[k].raw == 0 else k.no == tx.lastNo + 1
  }

  lemma BeginningOk(tx: Tx, rx: Rx, done: map<Key, seq<byte>>, chan: seq<Frame>, k: Key, payload: seq<byte>)
    requires Agree(tx, rx, done, chan) && CanBegin(tx, rx, k) && ValidPayload(payload)
    ensures StreamOk(rx, done, InFlight(chan, k), k, Str(payload, 0, 0))
  {
    NoGrows(chan, rx.numReq);
    hide InFlight, Ordered, Summed, NoAfter, SumAfter, StreamOk;
    assert InFlight(chan, k) == [] && k !in done && (!k.res ==> k !in rx.pend && k.no > rx.numReq);
    assert payload != [] by { BeginBound(payload); }
    NothingYet(rx, done, k, payload);
  }

  lemma NothingYet(rx: Rx, done: map<Key, seq<byte>>, k: Key, payload: seq<byte>)
    requires ValidPayload(payload) && payload != [] && k !in done
    requires if k.res then k in rx.pend && rx.pend[k].got == [] && rx.pend[k].raw == 0
             else k !in rx.pend && k.no > rx.numReq
    ensures StreamOk(rx, done, [], k, Str(payload, 0, 0))
  {
    hide ValidPayload;
    assert payload[..0] == [];
  }

  /** A response is queued. */
  lemma BeginKeeps(tx: Tx, rx: Rx, done: map<Key, seq<byte>>, chan: seq<Frame>, k: Key, payload: seq<byte>)
    requires Agree(tx, rx, done, chan) && CanBegin(tx, rx, k) && ValidPayload(payload) && k.res
    ensures Agree(tx.(str := tx.str[k := Str(payload, 0, 0)]), rx, done, chan)
  {
    BeginningOk(tx, rx, done, chan, k, payload);
    hide InFlight, Ordered, Summed, NoAfter, SumAfter, StreamOk;
  }

  /** A data frame is sent. */
  lemma SendKeeps(tx: Tx, rx: Rx, done: map<Key, seq<byte>>, chan: seq<Frame>, k: Key, s: Str, f: Frame)
    requires Agree(tx, rx, done, chan) && IsNext(f, k, s, tx.sum)
    requires || (k in tx.str && s == tx.str[k])
             || (CanBegin(tx, rx, k) && !k.res && ValidPayload(s.payload) && s.sent == 0 && s.bytes == 0)
    ensures Agree(Tx(tx.str[k := Advanced(s, f)], NextNo(f, tx.lastNo), f.sum), rx, done, chan + [f])
  {
    hide InFlight, Ordered, Summed, NoAfter, SumAfter, StreamOk, Crc, ValidPayload;
    if k !in tx.str {
      BeginningOk(tx, rx, done, chan, k, s.payload);
      assert s == Str(s.payload, 0, 0);
    }
    OrderedAppend(chan, f, rx.numReq);
    SummedAppend(chan, f, rx.sum);
    assert KeyOf(f) == k && IsData(f);
    forall j ensures InFlight(chan + [f], j) == if j == k then InFlight(chan, j) + [f] else InFlight(chan, j) {
      InFlightAppend(chan, f, j);
    }
    StreamGrows(rx, done, InFlight(chan, k), k, s, f, tx.sum);
  }

  /** A frame without data changes nothing. */
  lemma AckSentKeeps(tx: Tx, rx: Rx, done: map<Key, seq<byte>>, chan: seq<Frame>, f: Frame)
    requires Agree(tx, rx, done, chan) && !IsData(f)
    ensures Agree(tx, rx, done, chan + [f])
  {
    OrderedAppend(chan, f, rx.numReq);
    SummedAppend(chan, f, rx.sum);
    hide InFlight, Ordered, Summed, NoAfter, SumAfter, StreamOk, Crc;
    forall j ensures InFlight(chan + [f], j) == InFlight(chan, j) {
      InFlightAppend(chan, f, j);
    }
  }

  lemma AckTakenKeeps(tx: Tx, rx: Rx, done: map<Key, seq<byte>>, chan: seq<Frame>)
    requires Agree(tx, rx, done, chan) && chan != [] && !IsData(chan[0])
    ensures Agree(tx, rx, done, chan[1..])
  {
    hide Crc, StreamOk;
    forall j ensures InFlight(chan[1..], j) == InFlight(chan, j) {
    }
    hide InFlight;
  }

  /** The receiver comes to expect a response. */
  lemma ExpectKeeps(tx: Tx, rx: Rx, done: map<Key, seq<byte>>, chan: seq<Frame>, k: Key, m: In)
    requires Agree(tx, rx, done, chan) && k.res && k !in tx.str
    ensures Agree(tx, rx.(pend := rx.pend[k := m]), done, chan)
  {
    hide InFlight, Ordered, Summed, NoAfter, SumAfter;
    var rx' := rx.(pend := rx.pend[k := m]);
    forall j | j in tx.str ensures StreamOk(rx', done, InFlight(chan, j), j, tx.str[j]) {
      assert StreamOk(rx, done, InFlight(chan, j), j, tx.str[j]);
      hide AddsUp, Framed, ValidPayload;
    }
    hide StreamOk;
  }

  // The receiver's step.

  /** The front frame of a message carries the next part of its payload. */
  lemma FrontPart(m: In, f: Frame, rest: seq<Frame>, s: Str)
    requires ValidPayload(s.payload) && s.sent <= |s.payload|
    requires Framed([f] + rest, s.Over()) && AddsUp(m, [f] + rest, s)
    ensures !Refused(m.got, f.body, f.more)
    ensures Framed(rest, s.Over()) && AddsUp(Extended(m, f), rest, s) && m.got + f.body != []
    ensures !f.more <==> s.Over() && rest == []
    ensures !f.more ==> m.got + f.body == s.payload
  {
    hide ValidPayload, Refused, Bodies, Weight, Extended, Min;
    FrontFrames(f, rest, s.Over());
    FrontBodies(m, f, rest, s);
    var p, k, n := s.payload, |m.got|, |m.got| + |f.body|;
    PartIsAccepted(p, k, n);
  }

  lemma FrontFrames(f: Frame, rest: seq<Frame>, over: bool)
    requires Framed([f] + rest, over)
    ensures Framed(rest, over) && f.body != [] && (f.more <==> !over || rest != []) && (rest != [] ==> Bodies(rest) != [])
  {
    var fs := [f] + rest;
    assert fs[0] == f && forall i | 0 <= i < |rest| :: rest[i] == fs[i + 1];
    BodiesEmpty(rest);
    hide Bodies;
  }

  /** What has come and the front frame are the start of the payload, and all of it if nothing is left. */
  lemma FrontBodies(m: In, f: Frame, rest: seq<Frame>, s: Str)
    requires s.sent <= |s.payload| && AddsUp(m, [f] + rest, s) && f.body != []
    requires (f.more <==> !s.Over() || rest != []) && (rest != [] ==> Bodies(rest) != [])
    ensures var p, k, n := s.payload, |m.got|, |m.got| + |f.body|;
            && n <= |p| && p[..k] == m.got && p[k..n] == f.body && (f.more <==> n < |p|)
            && (k == 0 ==> n >= Min(10, |p|)) && (k > 0 ==> k >= Min(10, |p|))
            && (!f.more ==> m.got + f.body == p)
    ensures AddsUp(Extended(m, f), rest, s)
  {
    hide Bodies, Weight, Min;
    var p := s.payload;
    BodiesFront(f, rest);
    InThree(p[..s.sent], m.got, f.body, Bodies(rest));
    PrefixParts(p, s.sent, |m.got|, |m.got| + |f.body|);
  }

  lemma BodiesFront(f: Frame, rest: seq<Frame>)
    ensures Bodies([f] + rest) == f.body + Bodies(rest) && Weight([f] + rest) == |f.body| + CHECKSUM_SIZE + Weight(rest)
    ensures rest == [] ==> Bodies(rest) == []
    ensures ([f] + rest)[0] == f
  {
    assert ([f] + rest)[1..] == rest;
  }

  lemma InThree(s: seq<byte>, a: seq<byte>, b: seq<byte>, c: seq<byte>)
    requires a + (b + c) == s
    ensures |a| + |b| + |c| == |s| && s[..|a|] == a && s[|a|..|a| + |b|] == b && (a + b) + c == s
    ensures c == [] ==> a + b == s
  {
  }

  lemma PrefixParts(p: seq<byte>, sent: nat, k: nat, n: nat)
    requires k <= n <= sent <= |p|
    ensures p[..sent][..k] == p[..k] && p[..sent][k..n] == p[k..n] && (sent == |p| ==> p[..sent] == p)
  {
  }

  /** The receiver after the front frame of a message. */
  function Updated(rx: Rx, f: Frame): Rx {
    var k := KeyOf(f);
    var m := Extended(Part(rx, k), f);
    Rx(if k in rx.pend then rx.numReq else f.no, if f.more then rx.pend[k := m] else rx.pend - {k}, f.sum)
  }

  function Finished(rx: Rx, done: map<Key, seq<byte>>, f: Frame): map<Key, seq<byte>> {
    if f.more then done else done[KeyOf(f) := Part(rx, KeyOf(f)).got + f.body]
  }

  lemma StreamTakes(rx: Rx, done: map<Key, seq<byte>>, f: Frame, rest: seq<Frame>, k: Key, s: Str)
    requires StreamOk(rx, done, [f] + rest, k, s) && KeyOf(f) == k
    ensures StreamOk(Updated(rx, f), Finished(rx, done, f), rest, k, s)
    ensures !Refused(Part(rx, k).got, f.body, f.more) && k !in done
    ensures !f.more ==> Part(rx, k).got + f.body == s.payload
  {
    FrontPart(Part(rx, k), f, rest, s);
    hide AddsUp, Framed, ValidPayload, Refused;
  }

  lemma OthersKept(rx: Rx, done: map<Key, seq<byte>>, f: Frame, fs: seq<Frame>, j: Key, s: Str)
    requires StreamOk(rx, done, fs, j, s) && KeyOf(f) != j
    requires KeyOf(f) !in rx.pend ==> !KeyOf(f).res && f.no == rx.numReq + 1
    ensures StreamOk(Updated(rx, f), Finished(rx, done, f), fs, j, s)
  {
    hide AddsUp, Framed, ValidPayload;
  }

  lemma FrontSlot(tx: Tx, rx: Rx, done: map<Key, seq<byte>>, chan: seq<Frame>)
    requires Agree(tx, rx, done, chan) && chan != [] && IsData(chan[0])
    ensures var f, k := chan[0], KeyOf(chan[0]);
            && k in tx.str && InFlight(chan, k) == [f] + InFlight(chan[1..], k)
            && Slot(rx, f) == Some(Part(rx, k))
            && (k !in rx.pend ==> !k.res && f.no == rx.numReq + 1)
            && f.sum == Crc(rx.sum, f.body)
  {
    var f, k := chan[0], KeyOf(chan[0]);
    assert InFlight(chan, k) == [f] + InFlight(chan[1..], k);
    assert k in tx.str;
    assert StreamOk(rx, done, InFlight(chan, k), k, tx.str[k]);
    assert k !in done;
    hide InFlight, AddsUp, Framed, Crc;
  }

  /**
   * The frame at the front of the channel is always accepted: its number is right, its data fits and its checksum
   * verifies. If it is the last of its message, the receiver has the message as it was sent.
   */
  lemma TakeKeeps(tx: Tx, rx: Rx, done: map<Key, seq<byte>>, chan: seq<Frame>)
    requires Agree(tx, rx, done, chan) && chan != [] && IsData(chan[0])
    ensures Take(rx, chan[0]).Took? && KeyOf(chan[0]) in tx.str
    ensures !chan[0].more ==> Take(rx, chan[0]).message.got == tx.str[KeyOf(chan[0])].payload
    ensures Take(rx, chan[0]).rx == Updated(rx, chan[0])
    ensures Agree(tx, Updated(rx, chan[0]), Finished(rx, done, chan[0]), chan[1..])
  {
    hide InFlight, StreamOk, Refused, Crc, Ordered, Summed, NoAfter, SumAfter;
    var f, k := chan[0], KeyOf(chan[0]);
    FrontSlot(tx, rx, done, chan);
    StreamTakes(rx, done, f, InFlight(chan[1..], k), k, tx.str[k]);
    OrderAndSumGoOn(tx, rx, done, chan);
    forall j | j != k ensures InFlight(chan[1..], j) == InFlight(chan, j) {
      InFlightOthers(chan, j);
    }
    forall j | j in tx.str ensures
        StreamOk(Updated(rx, f), Finished(rx, done, f), InFlight(chan[1..], j), j, tx.str[j]) {
      if j != k {
        OthersKept(rx, done, f, InFlight(chan, j), j, tx.str[j]);
      }
    }
  }

  lemma InFlightOthers(chan: seq<Frame>, j: Key)
    requires chan != [] && KeyOf(chan[0]) != j
    ensures InFlight(chan[1..], j) == InFlight(chan, j)
  {
  }

  lemma OrderAndSumGoOn(tx: Tx, rx: Rx, done: map<Key, seq<byte>>, chan: seq<Frame>)
    requires Agree(tx, rx, done, chan) && chan != [] && IsData(chan[0])
    ensures Ordered(chan[1..], Updated(rx, chan[0]).numReq) && NoAfter(chan[1..], Updated(rx, chan[0]).numReq) == tx.lastNo
    ensures Summed(chan[1..], chan[0].sum) && SumAfter(chan[1..], chan[0].sum) == tx.sum
  {
    FrontSlot(tx, rx, done, chan);
    var f, k := chan[0], KeyOf(chan[0]);
    assert StreamOk(rx, done, InFlight(chan, k), k, tx.str[k]);
    assert k in rx.pend && !k.res ==> f.no <= rx.numReq;
    hide InFlight, AddsUp, Framed, Crc;
  }
}
