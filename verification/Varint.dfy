/** Unsigned varints: seven bits a byte, least significant first, the high bit set on all bytes but the last. */
module Varint {
  import opened Bytes

  const MAX_SIZE := 10
  const UINT64: nat := 0x1_0000_0000_0000_0000

  datatype ReadResult = Complete(value: nat, size: nat) | Partial | Invalid

  function Pow128(k: nat): (p: nat)
    ensures p >= 1
  {
    if k == 0 then 1 else 128 * Pow128(k - 1)
  }

  /** The bytes of `n`. */
  function Encode(n: nat): (bs: seq<byte>)
    ensures |bs| > 0
    ensures bs[|bs| - 1] < 128
    ensures forall i :: 0 <= i < |bs| - 1 ==> bs[i] >= 128
  {
    if n < 128 then [n] else [n % 128 + 128] + Encode(n / 128)
  }

  /** Number of the leading bytes whose high bit is set. */
  function Run(bs: seq<byte>): (k: nat)
    ensures k <= |bs|
    ensures forall i :: 0 <= i < k ==> bs[i] >= 128
    ensures k < |bs| ==> bs[k] < 128
  {
    if bs == [] || bs[0] < 128 then 0 else 1 + Run(bs[1..])
  }

  /** The number written in seven-bit digits. */
  function Value(bs: seq<byte>): nat {
    if bs == [] then 0 else bs[0] % 128 + 128 * Value(bs[1..])
  }

  /** What a reader makes of `bs`: at most ten bytes are looked at, and the value is kept to 64 bits. */
  function Read(bs: seq<byte>): ReadResult {
    var k := Run(bs);
    if k < MAX_SIZE && k < |bs| then Complete(Value(bs[..k + 1]) % UINT64, k + 1)
    else if k >= MAX_SIZE then Invalid
    else Partial
  }

  function DigitAt(n: nat, k: nat): nat { n / Pow128(k) % 128 }

  /** The seven-bit digits of `n`, lowest first, no more than it takes; all but the last have the high bit. */
  ghost predicate InDigits(bs: seq<byte>, n: nat) {
    && bs != [] && n < Pow128(|bs|) && (|bs| > 1 ==> n >= Pow128(|bs| - 1))
    && forall k | 0 <= k < |bs| :: bs[k] == DigitAt(n, k) + if k < |bs| - 1 then 128 else 0
  }

  lemma {:induction false} EncodedInDigits(n: nat)
    ensures InDigits(Encode(n), n)
  {
    EncodeStep(n);
    hide Encode, DigitAt, Pow128;
    FirstDigit(n);
    if n >= 128 {
      var bs, ds := Encode(n), Encode(n / 128);
      EncodedInDigits(n / 128);
      SizeStep(n, |ds|);
      SizeStep(n, |ds| - 1);
      assert bs[1..] == ds && |bs| == |ds| + 1;
      forall k | 0 < k < |bs| ensures bs[k] == DigitAt(n, k) + if k < |bs| - 1 then 128 else 0 {
        assert bs[k] == ds[k - 1];
        NextDigit(n, k);
      }
    }
  }

  lemma FirstDigit(n: nat)
    ensures DigitAt(n, 0) == n % 128 && Pow128(0) == 1 && Pow128(1) == 128
  {
    assert Pow128(1) == 128 * Pow128(0);
  }

  lemma NextDigit(n: nat, k: nat)
    requires k > 0
    ensures DigitAt(n, k) == DigitAt(n / 128, k - 1)
  {
    DivideTwice(n, Pow128(k - 1));
  }

  lemma SizeStep(n: nat, k: nat)
    ensures n / 128 < Pow128(k) <==> n < Pow128(k + 1)
  {
    assert Pow128(k + 1) == 128 * Pow128(k);
    hide Pow128;
  }

  lemma DivideTwice(n: nat, p: nat)
    requires p > 0
    ensures n / 128 / p == n / (128 * p)
  {
    var q := n / 128;
    var a, rest := q / p, 128 * (q % p) + n % 128;
    assert q == p * a + q % p;
    Regrouped(p, a, q % p);
    QuotientIs(n, 128 * p, a, rest);
  }

  lemma Regrouped(p: nat, a: nat, b: nat)
    ensures 128 * (p * a + b) == 128 * p * a + 128 * b
  {
  }

  lemma QuotientIs(n: nat, d: nat, a: nat, rest: nat)
    requires n == d * a + rest && rest < d
    ensures n / d == a
  {
    var q, r := n / d, n % d;
    assert n == d * q + r;
    if q < a {
      Larger(d, q, a);
    } else if a < q {
      Larger(d, a, q);
    }
  }

  lemma Larger(d: nat, a: nat, b: nat)
    requires a < b
    ensures d * b >= d * a + d
  {
    assert d * b == d * (a + 1) + d * (b - a - 1);
  }

  /** Writes `n`. */
  method Put(n: nat) returns (bs: seq<byte>)
    requires n < UINT64
    ensures bs == Encode(n) && InDigits(bs, n)
  {
    EncodedInDigits(n);
    bs := [];
    var rest := n;
    ghost var all := Encode(n);
    hide *;
    while rest >= 0x80
      invariant |bs| <= |all| && all[|bs|..] == Encode(rest) && all[..|bs|] == bs
    {
      EncodeStep(rest);
      assert all[|bs|] == Encode(rest)[0] && all[|bs| + 1..] == Encode(rest)[1..];
      bs := bs + [rest % 128 + 128];
      rest := rest / 128;
    }
    EncodeStep(rest);
    assert all == all[..|bs|] + all[|bs|..];
    bs := bs + [rest];
  }

  lemma EncodeStep(n: nat)
    ensures n < 128 ==> Encode(n) == [n]
    ensures n >= 128 ==> Encode(n)[0] == n % 128 + 128 && Encode(n)[1..] == Encode(n / 128)
  {
  }

  /** A digit put in its place, in 64-bit arithmetic. */
  function WithDigit(n: nat, d: nat, i: nat): nat { (n + d * Pow128(i) % UINT64) % UINT64 }

  /** Reads from the front of `bs`, as a loop that adds one digit at a time. */
  method ReadPartial(bs: seq<byte>) returns (r: ReadResult)
    ensures r == Read(bs)
    ensures r.Invalid? <==> |bs| >= 10 && forall i | 0 <= i < 10 :: bs[i] >= 128
    ensures r.Partial? <==> |bs| < 10 && forall i | 0 <= i < |bs| :: bs[i] >= 128
    ensures r.Complete? ==> 0 < r.size <= |bs| && bs[r.size - 1] < 128 && forall i | 0 <= i < r.size - 1 :: bs[i] >= 128
  {
    if bs == [] {
      return Partial;
    }
    var n, i := 0, 0;
    var end := if |bs| < MAX_SIZE then |bs| else MAX_SIZE;
    assert 0 == Value(bs[..0]) % UINT64;
    hide Value, Run, WithDigit;
    while i != end
      invariant i <= end && i <= Run(bs)
      invariant n == Value(bs[..i]) % UINT64
    {
      RunOn(bs, i);
      DigitAdded(bs, i);
      n := WithDigit(n, bs[i] % 128, i);
      if bs[i] < 128 {
        return Complete(n, i + 1);
      }
      i := i + 1;
    }
    if i >= MAX_SIZE {
      return Invalid;
    }
    return Partial;
  }

  lemma DigitAdded(bs: seq<byte>, i: nat)
    requires i < |bs|
    ensures WithDigit(Value(bs[..i]) % UINT64, bs[i] % 128, i) == Value(bs[..i + 1]) % UINT64
  {
    Digit(bs, i);
    DigitKept(Value(bs[..i]), bs[i] % 128 * Pow128(i));
  }

  lemma RunOn(bs: seq<byte>, i: nat)
    requires i < |bs| && i <= Run(bs)
    ensures if bs[i] < 128 then Run(bs) == i else Run(bs) > i
  {
  }

  /** Keeping 64 bits at each addition keeps 64 bits of the sum. */
  lemma DigitKept(a: nat, b: nat)
    ensures (a % UINT64 + b % UINT64) % UINT64 == (a + b) % UINT64
  {
  }

  lemma {:induction false} Digit(bs: seq<byte>, i: nat)
    requires i < |bs|
    ensures Value(bs[..i + 1]) == Value(bs[..i]) + bs[i] % 128 * Pow128(i)
  {
    if i > 0 {
      Digit(bs[1..], i - 1);
      assert bs[..i + 1][1..] == bs[1..][..i] && bs[..i][1..] == bs[1..][..i - 1];
      DigitShift(bs[i] % 128, Pow128(i - 1));
    }
  }

  lemma DigitShift(d: nat, p: nat)
    ensures 128 * (d * p) == d * (128 * p)
  {
  }

  lemma {:induction false} RunOfEncoding(n: nat, rest: seq<byte>)
    ensures Run(Encode(n) + rest) == |Encode(n)| - 1
  {
    if n >= 128 {
      RunOfEncoding(n / 128, rest);
      assert (Encode(n) + rest)[1..] == Encode(n / 128) + rest;
    }
  }

  lemma {:induction false} ValueOfEncoding(n: nat)
    ensures Value(Encode(n)) == n
  {
    if n >= 128 {
      ValueOfEncoding(n / 128);
      assert Encode(n)[1..] == Encode(n / 128);
    } else {
      assert Encode(n)[1..] == [];
    }
  }

  lemma {:induction false} EncodingSize(n: nat, k: nat)
    requires n < Pow128(k) && k > 0
    ensures |Encode(n)| <= k
  {
    if n >= 128 {
      assert k > 1;
      EncodingSize(n / 128, k - 1);
    }
  }

  lemma TenBytesSuffice(n: nat)
    requires n < UINT64
    ensures |Encode(n)| <= MAX_SIZE
  {
    assert Pow128(5) == 0x8_0000_0000;
    assert Pow128(10) == 128 * 128 * 128 * 128 * 128 * Pow128(5);
    EncodingSize(n, 10);
  }

  /** Every 64-bit number is read back from its bytes, whatever follows them. */
  lemma RoundTrip(n: nat, rest: seq<byte>)
    requires n < UINT64
    ensures Read(Encode(n) + rest) == Complete(n, |Encode(n)|)
  {
    var bs := Encode(n) + rest;
    RunOfEncoding(n, rest);
    TenBytesSuffice(n);
    assert bs[..|Encode(n)|] == Encode(n);
    ValueOfEncoding(n);
  }

  /** A varint cut short is reported as unfinished, never misread. */
  lemma PrefixIsPartial(n: nat, k: nat)
    requires n < UINT64 && k < |Encode(n)|
    ensures Read(Encode(n)[..k]) == Partial
  {
    TenBytesSuffice(n);
    var bs := Encode(n)[..k];
    assert forall i :: 0 <= i < k ==> bs[i] == Encode(n)[i];
  }

  /** More bytes do not change a verdict already reached. */
  lemma {:induction false} RunExtends(bs: seq<byte>, more: seq<byte>)
    ensures Run(bs) < |bs| ==> Run(bs + more) == Run(bs)
    ensures Run(bs + more) >= Run(bs)
  {
    if bs != [] && bs[0] >= 128 {
      RunExtends(bs[1..], more);
      assert (bs + more)[1..] == bs[1..] + more;
    }
  }

  lemma ReadExtends(bs: seq<byte>, more: seq<byte>)
    ensures !Read(bs).Partial? ==> Read(bs + more) == Read(bs)
  {
    RunExtends(bs, more);
    var k := Run(bs);
    if k < |bs| {
      assert (bs + more)[..k + 1] == bs[..k + 1];
    }
  }
}
