/** The 8-byte header exchanged with the STM (src/bsp/src/esp/include/SpiHeader.h). */
module StmHeader {
  import opened Bytes

  const HEADER_SIZE: nat := 8
  const CRC32_SIZE: nat := 4
  const MAX_MESSAGE_LENGTH: nat := 2044

  /** The two checksums. Their code is not in the repository, so they stay parameters. */
  datatype Checksums = Checksums(crc8: seq<byte> -> byte, crc32: seq<byte> -> u32)

  datatype Header = Header(systemState: byte, txSize: u16, rxSize: u16, payloadSize: u16, crc8: byte)

  /** The packed, little-endian layout of the struct. */
  function Encode(h: Header): (b: seq<byte>)
    ensures |b| == HEADER_SIZE
  {
    [h.systemState] + Le16(h.txSize) + Le16(h.rxSize) + Le16(h.payloadSize) + [h.crc8]
  }

  /** The view of the first eight bytes of a buffer as a header. */
  function Decode(b: seq<byte>): Header
    requires |b| >= HEADER_SIZE
  {
    Header(b[0], FromLe16(b[1..3]), FromLe16(b[3..5]), FromLe16(b[5..7]), b[7])
  }

  /** The STM view of the status byte keeps its failed-CRC flag in bit 1. */
  predicate FailedBit(b: byte) { b / 2 % 2 == 1 }

  predicate FailedCrc(h: Header) { FailedBit(h.systemState) }

  function WithFailedCrc(h: Header, failed: bool): (r: Header)
    ensures FailedCrc(r) == failed
    ensures r == h.(systemState := r.systemState)
    ensures r.systemState % 2 == h.systemState % 2 && r.systemState / 4 == h.systemState / 4
  {
    if failed == FailedCrc(h) then h
    else if failed then h.(systemState := h.systemState + 2)
    else h.(systemState := h.systemState - 2)
  }

  /** The checksum test of a received header, on the raw bytes. */
  predicate HeaderValid(crc: Checksums, b: seq<byte>)
    requires |b| >= HEADER_SIZE
  {
    b[HEADER_SIZE - 1] == crc.crc8(b[..HEADER_SIZE - 1])
  }

  /** What the driver trusts a checksummed header to satisfy. */
  predicate WellFormed(h: Header) {
    h.txSize == 0 || (CRC32_SIZE <= h.txSize <= MAX_MESSAGE_LENGTH && h.payloadSize <= h.txSize - CRC32_SIZE)
  }

  function Sealed(crc: Checksums, h: Header): (r: Header)
    ensures r == h.(crc8 := r.crc8)
    ensures HeaderValid(crc, Encode(r))
  {
    var r := h.(crc8 := crc.crc8(Encode(h)[..HEADER_SIZE - 1]));
    assert Encode(r)[..HEADER_SIZE - 1] == Encode(h)[..HEADER_SIZE - 1];
    r
  }

  /** Where the fields lie: a status byte, three little-endian sizes, the checksum. */
  lemma Layout(b: seq<byte>)
    requires |b| >= HEADER_SIZE
    ensures var h := Decode(b);
      && h.systemState == b[0]
      && h.txSize as int == b[1] as int + 0x100 * (b[2] as int)
      && h.rxSize as int == b[3] as int + 0x100 * (b[4] as int)
      && h.payloadSize as int == b[5] as int + 0x100 * (b[6] as int)
      && h.crc8 == b[7]
      && (FailedCrc(h) <==> b[0] as int / 2 % 2 == 1)
  {
  }

  lemma DecodeEncode(h: Header)
    ensures Decode(Encode(h)) == h
  {
    var b := Encode(h);
    assert b[1..3] == Le16(h.txSize) && b[3..5] == Le16(h.rxSize) && b[5..7] == Le16(h.payloadSize);
    Le16RoundTrip(h.txSize);
    Le16RoundTrip(h.rxSize);
    Le16RoundTrip(h.payloadSize);
  }

  lemma EncodeDecode(b: seq<byte>)
    requires |b| >= HEADER_SIZE
    ensures Encode(Decode(b)) == b[..HEADER_SIZE]
  {
  }
}
