/** Reading a stream up to a delimiter that may straddle any number of chunks. */
module ReadUntil {
  import opened Bytes
  import opened ByteStream

  predicate At(s: seq<byte>, end: seq<byte>, i: nat) {
    i + |end| <= |s| && s[i..i + |end|] == end
  }

  predicate Absent(s: seq<byte>, end: seq<byte>) {
    forall i: nat | i <= |s| :: !At(s, end, i)
  }

  /** The first occurrence of `end` in `s` is at `i`. */
  predicate First(s: seq<byte>, end: seq<byte>, i: nat) {
    At(s, end, i) && forall j: nat | j < i :: !At(s, end, j)
  }

  lemma AtPrefix(s: seq<byte>, n: nat, end: seq<byte>, i: nat)
    requires n <= |s|
    ensures At(s[..n], end, i) <==> At(s, end, i) && i + |end| <= n
  {
    if i + |end| <= n {
      assert s[..n][i..i + |end|] == s[i..i + |end|];
    }
  }

  lemma AtShifted(s: seq<byte>, n: nat, end: seq<byte>, i: nat)
    requires n <= |s|
    ensures At(s[n..], end, i) <==> At(s, end, n + i)
  {
    if n + i + |end| <= |s| {
      assert s[n..][i..i + |end|] == s[n + i..n + i + |end|];
    }
  }

  /** The first occurrence of `end` at or after `from`. */
  method Find(s: seq<byte>, end: seq<byte>, from: nat) returns (found: bool, i: nat)
    requires from <= |s|
    ensures found ==> from <= i && At(s, end, i)
    ensures !found ==> i == |s| + 1
    ensures forall j: nat | from <= j < i :: !At(s, end, j)
  {
    i := from;
    while i <= |s|
      invariant from <= i <= |s| + 1
      invariant forall j: nat | from <= j < i :: !At(s, end, j)
    {
      if At(s, end, i) {
        return true, i;
      }
      i := i + 1;
    }
    return false, i;
  }

  lemma NoneEarlier(s: seq<byte>, n: nat, m: nat, end: seq<byte>, from: nat, i: nat)
    requires n <= m <= |s| && Absent(s[..n], end) && from <= n && (from == 0 || from == n - |end|)
    requires i + |end| <= m && forall j: nat | from <= j < i :: !At(s[..m], end, j)
    ensures forall j: nat | j < i :: !At(s, end, j)
  {
    forall j: nat | j < i ensures !At(s, end, j) {
      AtPrefix(s, n, end, j);
      AtPrefix(s, m, end, j);
    }
  }

  lemma NoneAcross(s: seq<byte>, n: nat, m: nat, end: seq<byte>, from: nat)
    requires end != [] && n <= m <= |s| && Absent(s[..n], end) && from <= n && (from == 0 || from == n - |end|)
    requires m == |s| || m == n + |end| - 1
    requires forall j: nat | from <= j <= m :: !At(s[..m], end, j)
    ensures forall j: nat | j < n :: !At(s, end, j)
  {
    forall j: nat | j < n ensures !At(s, end, j) {
      AtPrefix(s, n, end, j);
      AtPrefix(s, m, end, j);
    }
  }

  lemma FirstInPrefix(s: seq<byte>, n: nat, end: seq<byte>)
    requires |end| <= n <= |s| && First(s, end, n - |end|)
    ensures First(s[..n], end, n - |end|)
  {
    forall j: nat | j <= n - |end| ensures At(s[..n], end, j) <==> At(s, end, j) {
      AtPrefix(s, n, end, j);
    }
  }

  lemma FirstInWhole(s: seq<byte>, n: nat, end: seq<byte>)
    requires |end| <= n <= |s| && First(s[..n], end, n - |end|)
    ensures First(s, end, n - |end|)
  {
    forall j: nat | j <= n - |end| ensures At(s[..n], end, j) <==> At(s, end, j) {
      AtPrefix(s, n, end, j);
    }
  }

  /** Looks for a match split between old and new bytes; `stop` is where it ends. */
  method FindSplit(data: seq<byte>, peek: seq<byte>, end: seq<byte>) returns (found: bool, stop: nat)
    requires end != [] && data != [] && Absent(data, end)
    ensures found ==> |data| < stop <= |data| + |peek| && |end| <= stop && First(data + peek, end, stop - |end|)
    ensures !found ==> forall j: nat | j < |data| :: !At(data + peek, end, j)
  {
    var more := if |end| - 1 < |peek| then |end| - 1 else |peek|;
    var startingAt := |data| - (if |end| < |data| then |end| else |data|);
    ghost var seen := data + peek;
    assert data + peek[..more] == seen[..|data| + more] && seen[..|data|] == data;
    var i;
    found, i := Find(data + peek[..more], end, startingAt);
    stop := i + |end|;
    if found {
      NoneEarlier(seen, |data|, |data| + more, end, startingAt, i);
      AtPrefix(seen, |data| + more, end, i);
      AtPrefix(seen, |data|, end, i);
    } else {
      NoneAcross(seen, |data|, |data| + more, end, startingAt);
    }
  }

  /** Looks for a match within the new bytes. */
  method FindNew(data: seq<byte>, peek: seq<byte>, end: seq<byte>) returns (found: bool, stop: nat)
    requires end != [] && forall j: nat | j < |data| :: !At(data + peek, end, j)
    ensures found ==> |data| < stop <= |data| + |peek| && |end| <= stop && First(data + peek, end, stop - |end|)
    ensures !found ==> Absent(data + peek, end)
  {
    ghost var seen := data + peek;
    assert seen[|data|..] == peek;
    var i;
    found, i := Find(peek, end, 0);
    stop := |data| + i + |end|;
    forall j: nat | |data| <= j < |data| + i ensures !At(seen, end, j) {
      AtShifted(seen, |data|, end, j - |data|);
    }
    AtShifted(seen, |data|, end, i);
  }

  /** Looks for `end` in the bytes consumed so far and the new ones, and says how many of them to keep. */
  method Search(data: seq<byte>, peek: seq<byte>, end: seq<byte>) returns (found: bool, stop: nat)
    requires end != [] && Absent(data, end)
    ensures |data| <= stop <= |data| + |peek|
    ensures found ==> |data| < stop && |end| <= stop && First(data + peek[..stop - |data|], end, stop - |end|)
    ensures !found ==> stop == |data| + |peek| && Absent(data + peek[..stop - |data|], end)
  {
    found := false;
    if data != [] {
      found, stop := FindSplit(data, peek, end);
    }
    if !found {
      found, stop := FindNew(data, peek, end);
    }
    hide *;
    if found {
      FirstInPrefix(data + peek, stop, end);
      assert (data + peek)[..stop] == data + peek[..stop - |data|];
    } else {
      stop := |data| + |peek|;
      assert peek[..|peek|] == peek;
    }
  }

  /**
   * One turn of the loop, which has consumed `data` and not met `end` in it. At the end of the stream a turn
   * changes nothing, so the loop would never stop.
   */
  method Turn(stream: Stream, end: seq<byte>, maxLen: nat, data: seq<byte>) returns (next: seq<byte>, done: bool)
    requires end != [] && |data| < maxLen && Absent(data, end)
    modifies stream
    ensures next + stream.rest == data + old(stream.rest) && |next| <= maxLen
    ensures done ==> |end| <= |next| && First(next, end, |next| - |end|)
    ensures !done ==> Absent(next, end)
    ensures old(stream.rest) != [] ==> |stream.rest| < |old(stream.rest)|
    ensures old(stream.rest) == [] ==> next == data && !done
  {
    hide *;
    var peek := stream.PeekNoCopy();
    if |peek| > maxLen - |data| {
      peek := peek[..maxLen - |data|];
    }
    var stop;
    done, stop := Search(data, peek, end);
    stream.ReadPeeked(stop - |data|);
    next := data + peek[..stop - |data|];
  }

  /** The delimiter, or `maxLen` bytes, are there to be read. */
  predicate Ends(s: seq<byte>, end: seq<byte>, maxLen: nat) { maxLen <= |s| || !Absent(s, end) }

  /**
   * The loop, given a number of turns. It ends if and only if the stream has what it looks for: within as many turns
   * as there are bytes, or never.
   */
  method ReadFor(stream: Stream, end: seq<byte>, maxLen: nat, turns: nat) returns (data: seq<byte>, done: bool)
    requires end != [] && maxLen >= |end|
    modifies stream
    ensures data + stream.rest == old(stream.rest) && |data| <= maxLen
    ensures done ==> || (|end| <= |data| && First(old(stream.rest), end, |data| - |end|))
                     || (|data| == maxLen && Absent(data, end))
    ensures !done ==> |data| < maxLen && Absent(data, end)
    ensures done ==> Ends(old(stream.rest), end, maxLen)
    ensures turns >= |old(stream.rest)| ==> (done <==> Ends(old(stream.rest), end, maxLen))
    ensures turns >= |old(stream.rest)| && !done ==> stream.rest == []
  {
    ghost var all := stream.rest;
    data, done := [], false;
    var i := 0;
    while i < turns && |data| < maxLen
      invariant i <= turns && data + stream.rest == all && |data| <= maxLen
      invariant Absent(data, end)
      invariant stream.rest == [] || |stream.rest| + i <= |all|
    {
      data, done := Turn(stream, end, maxLen, data);
      if done {
        assert all[..|data|] == data;
        FirstInWhole(all, |data|, end);
        return;
      }
      i := i + 1;
    }
    done := |data| >= maxLen;
    assert stream.rest == [] ==> data == all;
  }

  /** Reads through the first occurrence of `end`, or `maxLen` bytes if that comes sooner. */
  method Read(stream: Stream, end: seq<byte>, maxLen: nat) returns (data: seq<byte>)
    requires end != [] && maxLen >= |end|
    requires Ends(stream.rest, end, maxLen)
    modifies stream
    ensures data + stream.rest == old(stream.rest) && |data| <= maxLen
    ensures || (|end| <= |data| && First(old(stream.rest), end, |data| - |end|))
            || (|data| == maxLen && Absent(data, end))
  {
    ghost var all := stream.rest;
    data := [];
    while |data| < maxLen
      invariant data + stream.rest == all && |data| <= maxLen
      invariant Absent(data, end)
      decreases |stream.rest|
    {
      assert stream.rest != [] by { assert stream.rest == [] ==> data == all; }
      var done;
      data, done := Turn(stream, end, maxLen, data);
      if done {
        assert all[..|data|] == data;
        FirstInWhole(all, |data|, end);
        break;
      }
    }
  }
}
