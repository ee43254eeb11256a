/** Framing end to end: what one driver sends, a driver like it receives. */
module SpiRoundTrip {
  import opened Bytes
  import opened StmHeader
  import opened Framing
  import opened SpiModel
  import opened SpiRuns

  /** The header that announces a message just handed to `send`. */
  function Announcement(crc: Checksums, a: Driver, message: seq<byte>): Header
    requires |message| < MAX_MESSAGE_LENGTH
  {
    OutboundHeader(crc, BeginSend(crc, a, message))
  }

  /**
   The guard of `send` takes up to 2043 bytes, but the header it leads to is one the
   receiver can handle exactly when the message has at most 2040 bytes.
   */
  lemma AnnouncementUsable(crc: Checksums, a: Driver, message: seq<byte>)
    requires |message| < MAX_MESSAGE_LENGTH
    ensures var h := Announcement(crc, a, message);
      && HeaderValid(crc, Encode(h)) && Decode(Encode(h)) == h
      && (WellFormed(h) <==> |message| <= 2040)
      && (|Frame(crc, message)| <= MAX_MESSAGE_LENGTH <==> |message| <= 2040)
  {
    var h := Announcement(crc, a, message);
    DecodeEncode(h);
    FrameFits(|message|);
  }

  /** A message the guard of `send` accepts although its frame does not fit. */
  lemma GuardTooWide(crc: Checksums)
    ensures var message := Zeros(2041);
      && Enabled(crc, Init(), Submit(message))
      && !WellFormed(Announcement(crc, Init(), message))
      && Announcement(crc, Init(), message).txSize as nat > MAX_MESSAGE_LENGTH
  {
    AnnouncementUsable(crc, Init(), Zeros(2041));
  }

  /** The announced header, parsed by a driver that has echoed its size, opens the payload phase. */
  lemma AnnouncementParsed(crc: Checksums, a: Driver, b: Driver, message: seq<byte>)
    requires |message| <= 2040 && Buffers(b) && b.rx == ParsingHeader && !b.onBus
    requires var h := Announcement(crc, a, message);
      b.inData[..HEADER_SIZE] == Encode(h) && b.hdr.rxSize == h.txSize
    ensures var b1 := Execute(crc, b);
      && b1.rx == ReceivingPayload && b1.connected && b1.fifo == b.fifo && Buffers(b1)
      && b1.inSize as nat == |Frame(crc, message)| <= b1.length
      && b1.inPayload as nat == |message|
  {
    var h := Announcement(crc, a, message);
    AnnouncementUsable(crc, a, message);
    EncodeDecode(b.inData);
    assert Encode(Decode(b.inData)) == Encode(h);
    DecodeEncode(Decode(b.inData));
    assert b.inData[..HEADER_SIZE - 1] == Encode(h)[..HEADER_SIZE - 1];
  }

  /** A message's frame at the start of the buffer passes, and the message is appended if it fits. */
  lemma FrameJudged(crc: Checksums, d: Driver, message: seq<byte>)
    requires |message| <= 2040 && Buffers(d) && SizesUsable(d)
    requires d.inSize as nat == |Frame(crc, message)| && d.inPayload as nat == |message|
    requires d.inData[..d.inSize] == Frame(crc, message)
    ensures var v := ValidatePayload(crc, d);
      if |d.fifo| + |message| <= FIFO_CAPACITY then v.fifo == d.fifo + message && !FailedCrc(v.hdr)
      else v.fifo == d.fifo && v.hdr == d.hdr
  {
    FramePasses(crc, message, d.inData);
  }

  /** The frame, clocked in completely and validated, puts exactly the message in the FIFO. */
  lemma FrameReceived(crc: Checksums, a: Driver, b1: Driver, message: seq<byte>, wire: seq<byte>)
    requires |message| <= 2040 && Buffers(a) && Buffers(b1) && b1.rx == ReceivingPayload
    requires b1.inSize as nat == |Frame(crc, message)| <= b1.length == |wire| <= MAX_MESSAGE_LENGTH
    requires b1.inPayload as nat == |message|
    requires wire[..b1.inSize] == Image(BeginSend(crc, a, message))
    ensures var b2 := Exchange(b1, wire);
      && b2.rx == ValidateCrc && CanExecute(b2)
      && var b3 := ValidatePayload(crc, b2);
         if |b1.fifo| + |message| <= FIFO_CAPACITY
         then b3.fifo == b1.fifo + message && !FailedCrc(b3.hdr)
         else b3.fifo == b1.fifo && b3.hdr == b1.hdr
  {
    FrameFits(|message|);
    var f := Frame(crc, message);
    assert Image(BeginSend(crc, a, message)) == f;
    var b2 := Exchange(b1, wire);
    assert b2.inData[..|f|] == wire[..|f|] == f;
    FrameJudged(crc, b2, message);
  }

  lemma TxKeeps(crc: Checksums, d: Driver, n: nat)
    ensures var d' := TxStep(crc, d, n);
      d'.rx == d.rx && d'.fifo == d.fifo && d'.hdr.systemState == d.hdr.systemState
  {
  }

  lemma ValidatedOutcome(crc: Checksums, b2: Driver)
    requires Inv(crc, b2) && b2.rx == ValidateCrc
    ensures var b3 := Execute(crc, b2); var v := ValidatePayload(crc, b2);
      b3.rx == ReceivingHeader && b3.fifo == v.fifo && FailedCrc(b3.hdr) == FailedCrc(v.hdr)
  {
    TxKeeps(crc, ValidatePayload(crc, b2), HEADER_SIZE);
  }

  lemma ParsedVerdict(crc: Checksums, b: Driver)
    requires Buffers(b) && b.rx == ParsingHeader && !b.onBus
    ensures FailedCrc(Execute(crc, b).hdr) == FailedCrc(b.hdr)
  {
    var (d, n) := ParseHeader(crc, b);
    TxKeeps(crc, d, n);
  }

  /**
   Round trip. For every message of at most 2040 bytes, the header built by the sender and
   then its frame, taken by a driver that has echoed the size, pass both checksums and
   append exactly the message to the FIFO when it has room; without room the FIFO and the
   reported verdict stay as they were.
   */
  lemma RoundTrip(crc: Checksums, a: Driver, b: Driver, message: seq<byte>, wire: seq<byte>)
    requires |message| <= 2040 && Buffers(a) && Inv(crc, b) && b.rx == ParsingHeader
    requires var h := Announcement(crc, a, message);
      b.inData[..HEADER_SIZE] == Encode(h) && b.hdr.rxSize == h.txSize
    requires |wire| == Execute(crc, b).length <= |Execute(crc, b).inData|
    requires |Frame(crc, message)| <= |wire|
    requires wire[..|Frame(crc, message)|] == Image(BeginSend(crc, a, message))
    ensures var b2 := Exchange(Execute(crc, b), wire);
      && CanExecute(b2)
      && var b3 := Execute(crc, b2);
         && b3.rx == ReceivingHeader
         && if |b.fifo| + |message| <= FIFO_CAPACITY
            then b3.fifo == b.fifo + message && !FailedCrc(b3.hdr)
            else b3.fifo == b.fifo && FailedCrc(b3.hdr) == FailedCrc(b.hdr)
  {
    AnnouncementParsed(crc, a, b, message);
    ParsedVerdict(crc, b);
    var b1 := Execute(crc, b);
    LoopKeepsInv(crc, b);
    RoundTripTail(crc, a, b1, message, wire);
  }

  lemma RoundTripTail(crc: Checksums, a: Driver, b1: Driver, message: seq<byte>, wire: seq<byte>)
    requires |message| <= 2040 && Buffers(a) && Inv(crc, b1) && b1.rx == ReceivingPayload
    requires b1.inSize as nat == |Frame(crc, message)| <= b1.length == |wire| <= MAX_MESSAGE_LENGTH
    requires b1.inPayload as nat == |message|
    requires wire[..b1.inSize] == Image(BeginSend(crc, a, message))
    ensures var b2 := Exchange(b1, wire);
      && CanExecute(b2)
      && var b3 := Execute(crc, b2);
         && b3.rx == ReceivingHeader
         && if |b1.fifo| + |message| <= FIFO_CAPACITY
            then b3.fifo == b1.fifo + message && !FailedCrc(b3.hdr)
            else b3.fifo == b1.fifo && FailedCrc(b3.hdr) == FailedCrc(b1.hdr)
  {
    FrameReceived(crc, a, b1, message, wire);
    ArrivalKeepsInv(crc, b1, wire);
    ValidatedOutcome(crc, Exchange(b1, wire));
  }

  lemma ArrivalKeepsInv(crc: Checksums, d: Driver, bytes: seq<byte>)
    requires Inv(crc, d) && d.rx == ReceivingPayload && |bytes| <= MAX_MESSAGE_LENGTH
    ensures Inv(crc, Exchange(d, bytes))
  {
  }
}
