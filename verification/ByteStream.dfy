/** A stream of bytes that arrives in pieces of unpredictable size: what the readers below know of an IStream. */
module ByteStream {
  import opened Bytes

  class Stream {
    /** The bytes not yet consumed. */
    var rest: seq<byte>

    constructor (bytes: seq<byte>)
      ensures rest == bytes
    {
      rest := bytes;
    }

    /** Some bytes from the front, at least one unless the stream is at its end. They stay in the stream. */
    method PeekNoCopy() returns (bytes: seq<byte>)
      ensures |bytes| <= |rest| && bytes == rest[..|bytes|]
      ensures bytes == [] <==> rest == []
    {
      if rest == [] {
        return [];
      }
      var n :| 1 <= n <= |rest|;
      bytes := rest[..n];
    }

    /** Consumes at most `maxLen` bytes, and at least one unless the stream is at its end. */
    method ReadNoCopy(maxLen: nat) returns (bytes: seq<byte>)
      modifies this
      ensures |bytes| <= maxLen && old(rest) == bytes + rest
      ensures bytes == [] <==> maxLen == 0 || old(rest) == []
    {
      if maxLen == 0 || rest == [] {
        return [];
      }
      var n :| 1 <= n <= maxLen && n <= |rest|;
      bytes := rest[..n];
      rest := rest[n..];
    }

    /** Consumes exactly `n` bytes that a peek has just shown. */
    method ReadPeeked(n: nat)
      requires n <= |rest|
      modifies this
      ensures rest == old(rest)[n..]
    {
      rest := rest[n..];
    }
  }
}
