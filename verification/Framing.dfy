/** Frames: a payload padded to words, followed by the CRC32 of the padded bytes. */
module Framing {
  import opened Bytes
  import opened StmHeader

  function PaddedLength(n: nat): nat { if n % 4 == 0 then n else n + 4 - n % 4 }

  function Zeros(n: nat): (z: seq<byte>)
    ensures |z| == n && forall k :: 0 <= k < n ==> z[k] == 0
  {
    seq(n, _ => 0)
  }

  function Padded(payload: seq<byte>): (p: seq<byte>)
    ensures |p| == PaddedLength(|payload|) && p[..|payload|] == payload
  {
    payload + Zeros(PaddedLength(|payload|) - |payload|)
  }

  function Frame(crc: Checksums, payload: seq<byte>): (f: seq<byte>)
    ensures |f| == PaddedLength(|payload|) + CRC32_SIZE && f[..|payload|] == payload
  {
    Padded(payload) + Le32(crc.crc32(Padded(payload)))
  }

  /** A frame is the payload, zeros up to a word, and the CRC32 of both. */
  lemma FrameShape(crc: Checksums, payload: seq<byte>)
    ensures var f := Frame(crc, payload); var n := |f| - CRC32_SIZE;
      && n % 4 == 0 && |payload| <= n < |payload| + 4
      && f[..|payload|] == payload
      && (forall k :: |payload| <= k < n ==> f[k] == 0)
      && f[n..] == Le32(crc.crc32(f[..n]))
  {
    var f, p := Frame(crc, payload), Padded(payload);
    assert f[..|f| - CRC32_SIZE] == p;
  }

  /** The receiver's checksum test over the first `size` bytes of its buffer. */
  predicate FrameValid(crc: Checksums, data: seq<byte>, size: nat)
    requires CRC32_SIZE <= size <= |data|
  {
    crc.crc32(data[..size - CRC32_SIZE]) == FromLe32(data[size - CRC32_SIZE..size])
  }

  /** The padded length is the least multiple of four not below the length. */
  lemma PaddedLengthLeast(n: nat, m: nat)
    ensures PaddedLength(n) % 4 == 0 && n <= PaddedLength(n) < n + 4
    ensures m % 4 == 0 && n <= m ==> PaddedLength(n) <= m
  {
  }

  /** A frame fits the transfer buffer exactly when the payload is at most 2040 bytes. */
  lemma FrameFits(n: nat)
    ensures PaddedLength(n) + CRC32_SIZE <= MAX_MESSAGE_LENGTH <==> n <= 2040
  {
  }

  lemma FramePasses(crc: Checksums, payload: seq<byte>, data: seq<byte>)
    requires |Frame(crc, payload)| <= |data|
    requires data[..|Frame(crc, payload)|] == Frame(crc, payload)
    ensures FrameValid(crc, data, |Frame(crc, payload)|)
    ensures data[..|payload|] == payload
  {
    var f := Frame(crc, payload);
    var n := |f| - CRC32_SIZE;
    assert data[..n] == data[..|f|][..n] == Padded(payload);
    assert data[n..|f|] == data[..|f|][n..] == Le32(crc.crc32(Padded(payload)));
    Le32RoundTrip(crc.crc32(Padded(payload)));
    assert data[..|payload|] == data[..|f|][..|payload|] == payload;
  }
}
