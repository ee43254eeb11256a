/**
 What each routine of the driver does, spelled out: bytes, sizes and checksums are compared
 here as the wire format has them, and no function of the model is used to say what it computes.
 */
module SpiRoutines {
  import opened Bytes
  import opened StmHeader
  import opened Framing
  import opened SpiModel
  import opened SpiRuns

  // ---- a received header ------------------------------------------------------------------------

  /**
   A header is parsed as valid if and only if its last byte is the CRC8 of the other seven.
   Otherwise the link is given up and the receive side is in its error state, and nothing else
   has changed but the header to send.
   */
  lemma HeaderJudged(crc: Checksums, d: Driver)
    requires Inv(crc, d) && d.rx == ParsingHeader
    ensures var good := d.inData[7] == crc.crc8(d.inData[..7]); var d' := Execute(crc, d);
      && d'.connected == good && (d'.rx == RxError <==> !good)
      && (good ==> HeaderOk(Decode(d.inData)) in LoopEvents(crc, d))
      && (!good ==>
            && LoopEvents(crc, d) == [HeaderBad]
            && !d'.onBus && d'.tx == SendingHeader && d'.fifo == d.fifo && d'.inSize == d.inSize
            && d'.hasSent == d.hasSent && d'.crcOK == d.crcOK && d'.notified == d.notified)
  {
    if d.inData[7] == crc.crc8(d.inData[..7]) {
      assert LoopEvents(crc, d)[0] == HeaderOk(Decode(d.inData));
    }
  }

  /**
   After a valid header the pending payload goes out if and only if there is one and the header
   echoes its size.
   */
  lemma EchoDecides(crc: Checksums, d: Driver)
    requires Inv(crc, d) && d.rx == ParsingHeader && d.inData[7] == crc.crc8(d.inData[..7])
    ensures var echoed := d.inData[3] as int + 0x100 * (d.inData[4] as int); var d' := Execute(crc, d);
      && d'.onBus
      && (d'.tx == SendingPayload <==> d.outSize != 0 && echoed == d.outSize as int)
      && (d'.tx != SendingPayload ==> d'.tx == SendingHeader)
      && (d'.tx == SendingPayload ==> !d'.hasSent && !d'.crcOK)
  {
    Layout(d.inData);
  }

  /**
   After a valid header a payload is received if and only if the header announces a size that is
   not zero and that our own header has echoed; the next header echoes the size announced now.
   */
  lemma AnnouncementDecides(crc: Checksums, d: Driver)
    requires Inv(crc, d) && d.rx == ParsingHeader && d.inData[7] == crc.crc8(d.inData[..7])
    ensures var size := d.inData[1] as int + 0x100 * (d.inData[2] as int); var d' := Execute(crc, d);
      && d'.inSize as int == size
      && (d'.rx == ReceivingPayload <==> size != 0 && size == d.hdr.rxSize as int)
      && (d'.rx != ReceivingPayload ==> d'.rx == ReceivingHeader)
      && (d'.rx == ReceivingPayload ==>
            d'.inPayload as int == d.inData[5] as int + 0x100 * (d.inData[6] as int))
  {
    Layout(d.inData);
  }

  /** The first valid header after a payload is its acknowledgement: bit 1 of its status byte says if it failed. */
  lemma AcknowledgementTaken(crc: Checksums, d: Driver)
    requires Inv(crc, d) && d.rx == ParsingHeader && d.inData[7] == crc.crc8(d.inData[..7])
    ensures var d' := Execute(crc, d);
      && !d'.hasSent
      && (d.hasSent ==> d'.crcOK == (d.inData[0] as int / 2 % 2 == 0) && d'.notified == d.notified + 1)
      && (!d.hasSent ==> d'.notified == d.notified)
  {
    Layout(d.inData);
  }

  // ---- a received payload -----------------------------------------------------------------------

  /** The frame ends with the CRC32 of what precedes it. */
  predicate EndsWithCrc(crc: Checksums, data: seq<byte>, n: nat)
    requires 4 <= n <= |data|
  {
    data[n - 4..n] == Le32(crc.crc32(data[..n - 4]))
  }

  lemma ChecksumTest(crc: Checksums, data: seq<byte>, n: nat)
    requires 4 <= n <= |data|
    ensures FrameValid(crc, data, n) <==> EndsWithCrc(crc, data, n)
  {
    FromLe32RoundTrip(data[n - 4..n]);
    Le32RoundTrip(crc.crc32(data[..n - 4]));
  }

  lemma PayloadChecked(crc: Checksums, d: Driver)
    requires Buffers(d) && SizesUsable(d)
    ensures var v := ValidatePayload(crc, d); var good := EndsWithCrc(crc, d.inData, d.inSize);
      && v.rx == ReceivingHeader && v.inSize == 0 && v.inPayload == 0 && v.tx == d.tx
      && (!good ==> v.fifo == d.fifo && FailedCrc(v.hdr))
      && (good && |d.fifo| + d.inPayload as int <= 2044 ==>
            v.fifo == d.fifo + d.inData[..d.inPayload] && !FailedCrc(v.hdr))
      && (good && |d.fifo| + d.inPayload as int > 2044 ==> v.fifo == d.fifo && v.hdr == d.hdr)
  {
    ChecksumTest(crc, d.inData, d.inSize);
  }

  lemma HeaderPass(crc: Checksums, d: Driver, n: nat)
    requires d.tx == SendingHeader
    ensures var d' := TxStep(crc, d, n);
      && d'.rx == d.rx && d'.fifo == d.fifo && d'.hdr.systemState == d.hdr.systemState
      && d'.inSize == d.inSize && d'.inPayload == d.inPayload && d'.hdr.rxSize == d.inSize
  {
  }

  /**
   A payload is stored if and only if the last four bytes of its frame are the CRC32 of the
   others and the FIFO of 2044 bytes has room for it. A wrong CRC32 leaves the FIFO as it is and
   sets the failed-CRC flag; a full FIFO leaves both as they are.
   */
  lemma PayloadJudged(crc: Checksums, d: Driver)
    requires Inv(crc, d) && d.rx == ValidateCrc
    ensures 4 <= d.inSize as int <= |d.inData|
    ensures var d' := Execute(crc, d); var good := EndsWithCrc(crc, d.inData, d.inSize);
      && d'.rx == ReceivingHeader && d'.inSize == 0 && d'.inPayload == 0 && d'.hdr.rxSize == 0
      && (!good ==> d'.fifo == d.fifo && d'.hdr.systemState as int / 2 % 2 == 1)
      && (good && |d.fifo| + d.inPayload as int <= 2044 ==>
            d'.fifo == d.fifo + d.inData[..d.inPayload] && d'.hdr.systemState as int / 2 % 2 == 0)
      && (good && |d.fifo| + d.inPayload as int > 2044 ==>
            d'.fifo == d.fifo && d'.hdr.systemState == d.hdr.systemState)
  {
    PayloadChecked(crc, d);
    HeaderPass(crc, ValidatePayload(crc, d), HEADER_SIZE);
  }

  /** After a corrupted header the next pass empties the FIFO and waits for a header. */
  lemma ErrorClears(crc: Checksums, d: Driver)
    requires Inv(crc, d) && d.rx == RxError
    ensures var d' := Execute(crc, d);
      && d'.fifo == [] && d'.inSize == 0 && d'.rx == ReceivingHeader && d'.onBus && d'.length == 8
      && d'.tx == SendingHeader && d'.hdr.rxSize == 0
  {
  }

  // ---- the transfer -----------------------------------------------------------------------------

  /** What the receive side asks for: a header, the size that lies in the buffer, or nothing. */
  lemma ReceiveLength(crc: Checksums, d: Driver)
    requires Inv(crc, d) && CanExecute(d)
    ensures var (d', n) := RxStep(crc, d);
      && d'.outSize == d.outSize
      && n == if d'.rx == ReceivingPayload then Decode(d.inData).txSize as nat
              else if d.rx == RxError || d'.rx == RxError then 0 else 8
  {
    RxSending(crc, d);
  }

  lemma SendLength(crc: Checksums, d: Driver, n: nat)
    requires d.tx != TxError
    ensures var d' := TxStep(crc, d, n); var sends := if d.tx == SendingPayload then d.outSize as nat else 8;
      && d'.rx == d.rx && d'.tx == d.tx
      && n <= d'.length && sends <= d'.length && (d'.length == n || d'.length == sends)
      && (d'.onBus <==> d.rx != RxError)
  {
  }

  /**
   The transfer is exactly as long as the longer of what is to be received, a header or the size
   that lies in the buffer, and what is to be sent, a header or the pending frame.
   */
  lemma TransferLength(crc: Checksums, d: Driver)
    requires Inv(crc, d) && CanExecute(d) && Execute(crc, d).onBus
    ensures var d' := Execute(crc, d);
      var receives := if d'.rx == ReceivingPayload then d.inData[1] as int + 0x100 * (d.inData[2] as int) else 8;
      var sends := if d'.tx == SendingPayload then d.outSize as int else 8;
      && d'.length as int >= receives && d'.length as int >= sends
      && (d'.length as int == receives || d'.length as int == sends)
  {
    var (d1, n) := RxStep(crc, d);
    Layout(d.inData);
    RxKeepsInv(crc, d);
    ReceiveLength(crc, d);
    if d.rx == RxError {
      ErrorSendsHeader(crc, d);
    }
    SendLength(crc, d1, n);
  }

  lemma ErrorSendsHeader(crc: Checksums, d: Driver)
    requires Inv(crc, d) && CanExecute(d) && d.rx == RxError
    ensures RxStep(crc, d).0.tx == SendingHeader && RxStep(crc, d).0.rx == ReceivingHeader
  {
  }

  /** Before it, a pass of the loop leaves a header to send that announces our frame and echoes theirs. */
  lemma HeaderToSend(crc: Checksums, d: Driver)
    requires Inv(crc, d) && CanExecute(d) && Execute(crc, d).tx == SendingHeader
    ensures var h := Execute(crc, d).hdr; var b := Encode(h);
      && h.txSize == d.outSize && h.payloadSize == d.outPayload && h.rxSize == Execute(crc, d).inSize
      && b[7] == crc.crc8(b[..7])
  {
    var (d1, n) := RxStep(crc, d);
    RxKeepsInv(crc, d);
    RxSending(crc, d);
    SealedHeader(crc, d1, n);
  }

  lemma SealedHeader(crc: Checksums, d: Driver, n: nat)
    requires d.tx != TxError && TxStep(crc, d, n).tx == SendingHeader
    ensures var d' := TxStep(crc, d, n); var h := d'.hdr; var b := Encode(h);
      && h.txSize == d.outSize && h.payloadSize == d.outPayload && h.rxSize == d'.inSize
      && b[7] == crc.crc8(b[..7])
  {
  }

  lemma RxSending(crc: Checksums, d: Driver)
    requires CanExecute(d)
    ensures var d' := RxStep(crc, d).0; d'.outSize == d.outSize && d'.outPayload == d.outPayload
  {
    if d.rx == ParsingHeader && HeaderValid(crc, d.inData) {
      DecideSending(d, Decode(d.inData));
    }
  }

  lemma DecideSending(d: Driver, h: Header)
    ensures var d' := Acknowledge(Decide(d, h).0, h); d'.outSize == d.outSize && d'.outPayload == d.outPayload
  {
  }

  /**
   A complete transfer ends what was being received and what was being sent: a header is parsed
   next, a payload is judged next; a payload that was sent is no longer pending, with both its
   sizes zero, and its acknowledgement is. A shorter transfer only leaves its bytes behind.
   */
  lemma TransferEnds(crc: Checksums, d: Driver, bytes: seq<byte>)
    requires Inv(crc, d) && Enabled(crc, d, Clock(bytes))
    ensures var d' := Next(crc, d, Clock(bytes));
      && !d'.onBus && bytes <= d'.inData && d'.inData[|bytes|..] == d.inData[|bytes|..]
      && d'.hdr == d.hdr && d'.fifo == d.fifo && d'.inSize == d.inSize && d'.inPayload == d.inPayload
      && d'.outData == d.outData && d'.notified == d.notified && d'.crcOK == d.crcOK && d'.sending == d.sending
      && (|bytes| == d.length ==>
            && d'.rx == (if d.rx == ReceivingPayload then ValidateCrc else ParsingHeader)
            && d'.tx == SendingHeader
            && (d.tx == SendingPayload ==> d'.outSize == 0 && d'.outPayload == 0 && d'.hasSent)
            && (d.tx != SendingPayload ==>
                  d'.outSize == d.outSize && d'.outPayload == d.outPayload && d'.hasSent == d.hasSent))
      && (|bytes| < d.length ==>
            && d'.rx == d.rx && d'.tx == d.tx && d'.hasSent == d.hasSent
            && d'.outSize == d.outSize && d'.outPayload == d.outPayload)
  {
    var data := Overwrite(d.inData, bytes);
    assert data[..|bytes|] == bytes && data[|bytes|..] == d.inData[|bytes|..];
  }

  // ---- the tasks --------------------------------------------------------------------------------

  /** A message for `send` is pending as it is, padded with zeros to a word, and followed by their CRC32. */
  lemma MessagePending(crc: Checksums, d: Driver, message: seq<byte>)
    requires Inv(crc, d) && Enabled(crc, d, Submit(message)) && |message| <= 2040
    ensures var d' := Next(crc, d, Submit(message));
      && d'.sending && d'.outPayload as int == |message|
      && |message| + 4 <= d'.outSize as int < |message| + 8 && d'.outSize % 4 == 0 && d'.outSize <= 2044 == |d'.outData|
      && var n := d'.outSize as int - 4;
         && d'.outData[..|message|] == message
         && (forall k :: |message| <= k < n ==> d'.outData[k] == 0)
         && d'.outData[n..n + 4] == Le32(crc.crc32(d'.outData[..n]))
  {
    FrameFits(|message|);
    PendingFrame(crc, d, message);
    FrameInBuffer(crc, message, BeginSend(crc, d, message).outData);
  }

  lemma FrameInBuffer(crc: Checksums, message: seq<byte>, data: seq<byte>)
    requires |Frame(crc, message)| <= |data| && data[..|Frame(crc, message)|] == Frame(crc, message)
    ensures var n := |Frame(crc, message)| - 4;
      && n % 4 == 0 && |message| <= n < |message| + 4
      && data[..|message|] == message
      && (forall k :: |message| <= k < n ==> data[k] == 0)
      && data[n..n + 4] == Le32(crc.crc32(data[..n]))
  {
    var f := Frame(crc, message);
    var n := |f| - 4;
    FrameShape(crc, message);
    assert data[..n] == f[..n] && data[n..n + 4] == f[n..];
    assert data[..|message|] == f[..|message|];
    assert forall k :: 0 <= k < n ==> data[k] == f[k];
  }

  lemma PendingFrame(crc: Checksums, d: Driver, message: seq<byte>)
    requires Buffers(d) && |message| <= 2040
    ensures var d' := BeginSend(crc, d, message); var f := Frame(crc, message);
      && d'.sending && d'.outPayload as int == |message| && d'.outSize as int == |f| <= |d'.outData| == 2044
      && d'.outData[..|f|] == f
  {
    FrameFits(|message|);
  }

  /** A successful `receive` returns exactly as many bytes as asked for, the oldest, and removes them. */
  lemma FetchDelivers(crc: Checksums, s: Sys, count: nat)
    requires count <= |s.d.fifo| && count <= 2044
    ensures var s' := Step(crc, s, Fetch(count));
      exists data :: |data| == count && s'.log == s.log + [Delivered(data)] && data + s'.d.fifo == s.d.fifo
  {
    var data := s.d.fifo[..count];
    assert Step(crc, s, Fetch(count)).log == s.log + [Delivered(data)];
    assert data + s.d.fifo[count..] == s.d.fifo;
  }

  /** `send` returns the recorded verdict and lets the next message in. */
  lemma SendReturns(crc: Checksums, s: Sys)
    requires Inv(crc, s.d) && s.d.sending && s.d.notified > 0
    ensures var s' := Step(crc, s, Resume);
      && s'.log == s.log + [Returned(s.d.crcOK)]
      && s'.d == s.d.(sending := false, notified := 0)
  {
  }
}
