/** Two runs of the driver that its documentation, or a reader, would not expect. */
module SpiScenarios {
  import opened Bytes
  import opened StmHeader
  import opened Framing
  import opened SpiModel
  import opened SpiRuns
  import opened SpiLog
  import opened SpiOrigin
  import opened SpiTransfers

  lemma RunSnoc(crc: Checksums, s: Sys, acts: seq<Action>, a: Action)
    ensures Run(crc, s, acts + [a]) == Step(crc, Run(crc, s, acts), a)
  {
    assert (acts + [a])[..|acts|] == acts;
  }

  /** The driver waits for a header while it sends its own. */
  predicate Idle(d: Driver) {
    Buffers(d) && d.onBus && d.rx == ReceivingHeader && d.tx == SendingHeader && d.length == HEADER_SIZE
  }

  predicate Usable(crc: Checksums, h: Header) { HeaderValid(crc, Encode(h)) && WellFormed(h) }

  /** A complete header transfer: the header is in the buffer, ready to be parsed. */
  lemma HeaderIn(crc: Checksums, d: Driver, h: Header)
    requires Idle(d) && Usable(crc, h)
    ensures Enabled(crc, d, Clock(Encode(h)))
    ensures var d' := Next(crc, d, Clock(Encode(h)));
      && d' == d.(inData := d'.inData, onBus := false, rx := ParsingHeader)
      && Buffers(d') && Decode(d'.inData) == h && HeaderValid(crc, d'.inData) && CanExecute(d')
  {
    var data := Overwrite(d.inData, Encode(h));
    assert data[..HEADER_SIZE] == Encode(h);
    HeaderBytes(h, data);
    DecodeEncode(h);
  }

  /** Header in, parsed, and the next transfer started. */
  lemma HeaderRound(crc: Checksums, s: Sys, h: Header) returns (d': Driver)
    requires Idle(s.d) && Usable(crc, h)
    ensures d' == s.d.(inData := d'.inData, onBus := false, rx := ParsingHeader)
    ensures Buffers(d') && Decode(d'.inData) == h && CanExecute(d')
    ensures var (p, n) := Decide(d', h);
      Step(crc, Step(crc, s, Clock(Encode(h))), Loop).d == TxStep(crc, Acknowledge(p, h), n)
  {
    HeaderIn(crc, s.d, h);
    d' := Next(crc, s.d, Clock(Encode(h)));
  }

  // ---- a transfer that started, and yet `send` returns false -----------------------------

  /** The header that acknowledges a payload as corrupted: raw bit 1 of its status byte is set. */
  function Refusal(crc: Checksums): (h: Header)
    ensures Usable(crc, h) && FailedCrc(h) && h.txSize == 0
  {
    Sealed(crc, Header(2, 0, 0, 0, 0))
  }

  /** The message waits in the outbound buffer for its turn. */
  predicate Pending(crc: Checksums, d: Driver, message: seq<byte>) {
    && d.sending && d.notified == 0 && !d.hasSent
    && d.outSize as nat == |Frame(crc, message)| <= MAX_MESSAGE_LENGTH
    && Buffers(d) && Image(d) == Frame(crc, message)
  }

  lemma Submitted(crc: Checksums, message: seq<byte>)
    requires |message| <= 2040
    ensures var s := Step(crc, Step(crc, Start(), Submit(message)), Loop);
      Idle(s.d) && Pending(crc, s.d, message)
  {
    FrameFits(|message|);
    var d := BeginSend(crc, Init(), message);
    assert d.outData[..|Frame(crc, message)|] == Frame(crc, message);
  }

  lemma EchoStarts(crc: Checksums, s: Sys, message: seq<byte>)
    requires Idle(s.d) && Pending(crc, s.d, message)
    ensures var s' := Step(crc, Step(crc, s, Clock(Encode(Echo(crc, s.d.outSize)))), Loop);
      && s'.d.onBus && s'.d.rx == ReceivingHeader && s'.d.tx == SendingPayload && Pending(crc, s'.d, message)
      && s'.d.length == Max(HEADER_SIZE, s.d.outSize)
  {
    var d := HeaderRound(crc, s, Echo(crc, s.d.outSize));
    assert Image(d) == Image(s.d);
  }

  /** The payload goes out while the refusal comes in. */
  lemma RefusedPayload(crc: Checksums, s: Sys, message: seq<byte>, wire: seq<byte>)
    requires s.d.onBus && s.d.rx == ReceivingHeader && s.d.tx == SendingPayload && Pending(crc, s.d, message)
    requires HEADER_SIZE <= |wire| == s.d.length <= MAX_MESSAGE_LENGTH
    requires wire[..HEADER_SIZE] == Encode(Refusal(crc))
    ensures var s1 := Step(crc, s, Clock(wire)); var d := s1.d;
      && s1.log == s.log + [PayloadOut(Frame(crc, message), wire)]
      && !d.onBus && d.rx == ParsingHeader && d.tx == SendingHeader && Buffers(d)
      && d.sending && d.notified == 0 && d.hasSent
      && HeaderValid(crc, d.inData) && Decode(d.inData) == Refusal(crc)
  {
    HeaderBytes(Refusal(crc), wire);
    var data := Overwrite(s.d.inData, wire);
    assert data[..HEADER_SIZE] == Encode(Refusal(crc));
    HeaderBytes(Refusal(crc), data);
  }

  lemma RefusalParsed(crc: Checksums, s: Sys)
    requires var d := s.d;
      && !d.onBus && d.rx == ParsingHeader && d.tx == SendingHeader && Buffers(d)
      && d.sending && d.notified == 0 && d.hasSent
      && HeaderValid(crc, d.inData) && Decode(d.inData) == Refusal(crc)
    ensures var s1 := Step(crc, s, Loop);
      && s.log <= s1.log
      && s1.d.sending && s1.d.notified == 1 && !s1.d.crcOK && s1.d.tx != TxError
  {
    var (p, n) := Decide(s.d, Refusal(crc));
    var d := Acknowledge(p, Refusal(crc));
    assert d.notified == 1 && !d.crcOK && d.tx != TxError;
  }

  /** The payload is about to go out. */
  predicate Offering(crc: Checksums, d: Driver, message: seq<byte>) {
    && d.onBus && d.rx == ReceivingHeader && d.tx == SendingPayload && Pending(crc, d, message)
    && d.length == Max(HEADER_SIZE, |Frame(crc, message)|)
  }

  lemma Offered(crc: Checksums, message: seq<byte>) returns (acts: seq<Action>)
    requires |message| <= 2040
    ensures Offering(crc, Run(crc, Start(), acts).d, message)
  {
    var first := [Submit(message)];
    RunSnoc(crc, Start(), [], Submit(message));
    assert [] + first == first;
    RunSnoc(crc, Start(), first, Loop);
    Submitted(crc, message);
    var s := Run(crc, Start(), first + [Loop]);
    var echo := Clock(Encode(Echo(crc, s.d.outSize)));
    EchoStarts(crc, s, message);
    RunSnoc(crc, Start(), first + [Loop], echo);
    RunSnoc(crc, Start(), first + [Loop] + [echo], Loop);
    acts := first + [Loop] + [echo] + [Loop];
  }

  lemma Refused(crc: Checksums, s: Sys, message: seq<byte>, wire: seq<byte>)
    requires Offering(crc, s.d, message) && |wire| == s.d.length <= MAX_MESSAGE_LENGTH
    requires wire[..HEADER_SIZE] == Encode(Refusal(crc))
    ensures var log := Step(crc, Step(crc, Step(crc, s, Clock(wire)), Loop), Resume).log; var n := |log|;
      && |s.log| < n - 1 && log[|s.log|] == PayloadOut(Frame(crc, message), wire) && log[n - 1] == Returned(false)
  {
    RefusedPayload(crc, s, message, wire);
    var s1 := Step(crc, s, Clock(wire));
    assert s1.log[|s.log|] == PayloadOut(Frame(crc, message), wire);
    RefusalParsed(crc, s1);
    var s2 := Step(crc, s1, Loop);
    assert Step(crc, s2, Resume).log == s2.log + [Returned(false)];
  }

  /**
   For every message of at most 2040 bytes there is a run in which its frame goes out
   completely, the master answers with a valid header that carries the failed-CRC flag, and
   `send` returns false.
   */
  lemma StartedYetFalse(crc: Checksums, message: seq<byte>) returns (acts: seq<Action>)
    requires |message| <= 2040
    ensures var log := Run(crc, Start(), acts).log; var n := |log|;
      && n > 0 && log[n - 1] == Returned(false)
      && exists k, wire :: 0 <= k < n && log[k] == PayloadOut(Frame(crc, message), wire)
  {
    FrameFits(|message|);
    var wire := Encode(Refusal(crc)) + Zeros(Max(HEADER_SIZE, |Frame(crc, message)|) - HEADER_SIZE);
    var start := Offered(crc, message);
    Refused(crc, Run(crc, Start(), start), message, wire);
    RunSnoc(crc, Start(), start, Clock(wire));
    RunSnoc(crc, Start(), start + [Clock(wire)], Loop);
    RunSnoc(crc, Start(), start + [Clock(wire)] + [Loop], Resume);
    acts := start + [Clock(wire)] + [Loop] + [Resume];
  }

  // ---- a stored frame made of two transfers ------------------------------------------------

  /** Announces a payload of 8 bytes: a frame of 12. */
  function Invitation(crc: Checksums): (h: Header)
    ensures Usable(crc, h) && h.txSize == 12 && h.payloadSize == 8
  {
    Sealed(crc, Header(0, 12, 0, 8, 0))
  }

  /** The driver waits for the frame of 12 bytes. */
  predicate Expecting(d: Driver, length: nat) {
    && Buffers(d) && d.onBus && d.rx == ReceivingPayload && d.tx == SendingHeader && d.length == length
    && d.inSize == 12 && d.inPayload == 8 && d.fifo == []
  }

  lemma Invited(crc: Checksums, s: Sys)
    requires Idle(s.d) && s.d.fifo == []
    ensures var s' := Step(crc, Step(crc, s, Clock(Encode(Invitation(crc)))), Loop);
      if s.d.hdr.rxSize == 12 && s.d.outSize == 0 then Expecting(s'.d, 12)
      else s.d.hdr.rxSize == 0 && s.d.outSize == 0 ==>
        Idle(s'.d) && s'.d.fifo == [] && s'.d.hdr.rxSize == 12 && s'.d.outSize == 0
  {
    var d := HeaderRound(crc, s, Invitation(crc));
  }

  lemma ExpectingRun(crc: Checksums) returns (acts: seq<Action>)
    ensures Expecting(Run(crc, Start(), acts).d, 12)
  {
    var invite := Clock(Encode(Invitation(crc)));
    var first := [Loop];
    RunSnoc(crc, Start(), [], Loop);
    assert [] + first == first;
    Invited(crc, Run(crc, Start(), first));
    RunSnoc(crc, Start(), first, invite);
    RunSnoc(crc, Start(), first + [invite], Loop);
    var second := first + [invite] + [Loop];
    Invited(crc, Run(crc, Start(), second));
    RunSnoc(crc, Start(), second, invite);
    RunSnoc(crc, Start(), second + [invite], Loop);
    acts := second + [invite] + [Loop];
  }

  /** A payload transfer cut short: the driver asks again, for the size it now reads. */
  lemma CutShort(crc: Checksums, s: Sys, length: nat, bytes: seq<byte>, size: u16)
    requires Expecting(s.d, length) && 3 <= |bytes| < length <= MAX_MESSAGE_LENGTH && bytes[1..3] == Le16(size)
    ensures var s' := Step(crc, Step(crc, s, Clock(bytes)), Loop);
      Expecting(s'.d, Max(size, HEADER_SIZE)) && s'.d.inData == Overwrite(s.d.inData, bytes)
  {
    var data := Overwrite(s.d.inData, bytes);
    assert data[1..3] == bytes[1..3];
    Le16RoundTrip(size);
  }

  /** The second attempt is complete, but shorter than the frame: the first one supplies the rest. */
  lemma Mixed(crc: Checksums, s: Sys, bytes: seq<byte>)
    requires Expecting(s.d, HEADER_SIZE) && |bytes| == HEADER_SIZE
    requires s.d.inData[8..12] == Le32(crc.crc32(bytes))
    ensures var s1 := Step(crc, s, Clock(bytes)); var frame := bytes + Le32(crc.crc32(bytes));
      && s1.log == s.log + [HeaderOut(s.d.hdr, bytes)]
      && Step(crc, s1, Loop).log == s1.log + [Stored(frame, bytes)]
  {
    var data := Overwrite(s.d.inData, bytes);
    var frame := bytes + Le32(crc.crc32(bytes));
    assert data[..8] == bytes && data[8..12] == s.d.inData[8..12];
    assert data[..12] == frame;
    Le32RoundTrip(crc.crc32(bytes));
  }

  lemma TwoSteps(crc: Checksums, s: Sys, acts: seq<Action>, a: Action, b: Action)
    ensures Run(crc, s, acts + [a] + [b]) == Step(crc, Step(crc, Run(crc, s, acts), a), b)
  {
    RunSnoc(crc, s, acts, a);
    RunSnoc(crc, s, acts + [a], b);
  }

  lemma CutRun(crc: Checksums, start: seq<Action>, length: nat, bytes: seq<byte>, size: u16) returns (acts: seq<Action>)
    requires Expecting(Run(crc, Start(), start).d, length)
    requires 3 <= |bytes| < length <= MAX_MESSAGE_LENGTH && bytes[1..3] == Le16(size)
    ensures var d := Run(crc, Start(), acts).d;
      Expecting(d, Max(size, HEADER_SIZE)) && bytes <= d.inData
  {
    CutShort(crc, Run(crc, Start(), start), length, bytes, size);
    TwoSteps(crc, Start(), start, Clock(bytes), Loop);
    acts := start + [Clock(bytes)] + [Loop];
  }

  /** Two cut transfers leave a short size to be read again and `trailer` behind it. */
  lemma CutTwice(crc: Checksums, start: seq<Action>, trailer: seq<byte>) returns (acts: seq<Action>)
    requires Expecting(Run(crc, Start(), start).d, 12) && |trailer| == 4
    ensures var d := Run(crc, Start(), acts).d; Expecting(d, HEADER_SIZE) && d.inData[8..12] == trailer
  {
    var longer: seq<byte> := [0, 100, 0];
    var tail: seq<byte> := [0, 4, 0, 0, 0, 0, 0, 0] + trailer;
    assert longer[1..3] == Le16(100) && tail[1..3] == Le16(4);
    var once := CutRun(crc, start, 12, longer, 100);
    acts := CutRun(crc, once, 100, tail, 4);
    assert Run(crc, Start(), acts).d.inData[..12] == tail;
    assert tail[8..12] == trailer;
  }

  /**
   For every 8 bytes there is a run that stores a frame of 12 bytes with a correct CRC32,
   although the last complete transfer had only those 8: the rest is older.
   */
  lemma MixedFrame(crc: Checksums, bytes: seq<byte>) returns (acts: seq<Action>)
    requires |bytes| == HEADER_SIZE
    ensures var log := Run(crc, Start(), acts).log; var n := |log|;
      && n > 0 && log[n - 1].Stored? && |log[n - 1].frame| == 12
      && Scan(log[..n - 1]).bytes.arrived == bytes
      && !Begins(log, n - 1)
  {
    var start := ExpectingRun(crc);
    var cut := CutTwice(crc, start, Le32(crc.crc32(bytes)));
    var s := Run(crc, Start(), cut);
    Mixed(crc, s, bytes);
    TwoSteps(crc, Start(), cut, Clock(bytes), Loop);
    ScanOne(s.log, HeaderOut(s.d.hdr, bytes));
    acts := cut + [Clock(bytes)] + [Loop];
    assert Run(crc, Start(), acts).log[..|s.log| + 1] == s.log + [HeaderOut(s.d.hdr, bytes)];
  }
}
