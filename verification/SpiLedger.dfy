/** What becomes of every message given to `send` and every byte taken from the link. */
module SpiLedger {
  import opened Bytes
  import opened StmHeader
  import opened Framing
  import opened SpiModel
  import opened SpiRuns
  import opened SpiLog

  /** The part of a message's frame that lies in the outbound buffer. */
  function FrameImage(crc: Checksums, message: seq<byte>): seq<byte> {
    var f := Frame(crc, message);
    if |f| <= MAX_MESSAGE_LENGTH then f else f[..MAX_MESSAGE_LENGTH]
  }

  function Images(crc: Checksums, messages: seq<seq<byte>>): (r: seq<seq<byte>>)
    ensures |r| == |messages|
  {
    if messages == [] then []
    else Images(crc, messages[..|messages| - 1]) + [FrameImage(crc, messages[|messages| - 1])]
  }

  ghost predicate SendBalanced(crc: Checksums, d: Driver, t: SendTally) {
    && t.images + (if d.outSize != 0 then [Image(d)] else []) == Images(crc, t.accepted)
    && t.awaiting == d.hasSent
    && t.results + (if d.notified > 0 then [d.crcOK] else []) == t.verdicts
    && t.notices == |t.verdicts|
    && |t.images| == |t.verdicts| + if d.hasSent then 1 else 0
  }

  ghost predicate BytesBalanced(d: Driver, t: ByteTally) {
    t.delivered + d.fifo == t.stored && FailedCrc(d.hdr) == t.lastFailed
  }

  lemma SubmittedImage(crc: Checksums, d: Driver, message: seq<byte>)
    requires Buffers(d) && |message| < MAX_MESSAGE_LENGTH
    ensures Image(BeginSend(crc, d, message)) == FrameImage(crc, message)
  {
  }

  /** Everything the balance of the sending side reads. */
  predicate SameSends(d: Driver, d': Driver) {
    && d'.outSize == d.outSize && d'.outData == d.outData
    && d'.hasSent == d.hasSent && d'.notified == d.notified && d'.crcOK == d.crcOK
  }

  lemma SameSendsBalanced(crc: Checksums, d: Driver, d': Driver, t: SendTally)
    requires SendBalanced(crc, d, t) && SameSends(d, d')
    ensures SendBalanced(crc, d', t)
  {
  }

  lemma DecideSends(d: Driver, h: Header)
    ensures SameSends(d, Decide(d, h).0) && Decide(d, h).0.sending == d.sending
  {
  }

  lemma AcknowledgeBalanced(crc: Checksums, d: Driver, t: SendTally, h: Header)
    requires SenderAccounted(d) && SendBalanced(crc, d, t)
    ensures var t' := SendTick(t, HeaderOk(h));
      SendBalanced(crc, Acknowledge(d, h), if d.hasSent && d.sending then SendTick(t', Notified) else t')
  {
  }

  lemma ParseSends(d: Driver, t: Tally, h: Header)
    ensures var t' := SendTick(t.sends, HeaderOk(h));
      ParseTally(d, t, h).sends == if d.hasSent && d.sending then SendTick(t', Notified) else t'
  {
  }

  lemma DecideBalanced(crc: Checksums, d: Driver, t: Tally, h: Header)
    requires SenderAccounted(d) && SendBalanced(crc, d, t.sends)
    ensures SendBalanced(crc, Acknowledge(Decide(d, h).0, h), ParseTally(d, t, h).sends)
  {
    DecideSends(d, h);
    SameSendsBalanced(crc, d, Decide(d, h).0, t.sends);
    AcknowledgeBalanced(crc, Decide(d, h).0, t.sends, h);
    ParseSends(d, t, h);
  }

  lemma TxBalanced(crc: Checksums, d: Driver, t: Tally, n: nat)
    requires SenderAccounted(d) && SendBalanced(crc, d, t.sends)
    requires d.tx != TxError && (d.tx == SendingPayload ==> d.outSize != 0)
    ensures SendBalanced(crc, TxStep(crc, d, n), t.sends)
  {
  }

  lemma ValidateSends(crc: Checksums, d: Driver)
    requires Buffers(d) && SizesUsable(d)
    ensures SameSends(d, ValidatePayload(crc, d))
  {
  }

  lemma ValidateBalanced(crc: Checksums, d: Driver, t: SendTally)
    requires Buffers(d) && SizesUsable(d) && SendBalanced(crc, d, t)
    ensures SendBalanced(crc, ValidatePayload(crc, d), t)
    ensures SendTick(t, ValidateEvents(crc, d)[0]) == t
  {
    ValidateSends(crc, d);
    SameSendsBalanced(crc, d, ValidatePayload(crc, d), t);
  }

  lemma RxBalanced(crc: Checksums, d: Driver, t: Tally)
    requires SenderAccounted(d) && SendBalanced(crc, d, t.sends) && CanExecute(d)
    ensures SendBalanced(crc, RxStep(crc, d).0, StepTally(crc, d, t, Loop).sends)
  {
    match d.rx
    case ParsingHeader =>
      if HeaderValid(crc, d.inData) {
        DecideBalanced(crc, d, t, Decode(d.inData));
      }
    case ValidateCrc => ValidateBalanced(crc, d, t.sends);
    case _ =>
  }

  lemma LoopBalanced(crc: Checksums, d: Driver, t: Tally)
    requires Inv(crc, d) && SendBalanced(crc, d, t.sends) && CanExecute(d)
    ensures SendBalanced(crc, Execute(crc, d), StepTally(crc, d, t, Loop).sends)
  {
    RxKeepsInv(crc, d);
    RxBalanced(crc, d, t);
    var (d', n) := RxStep(crc, d);
    TxBalanced(crc, d', StepTally(crc, d, t, Loop), n);
  }

  lemma CompletedSends(d: Driver)
    requires d.rx == ReceivingHeader || d.rx == ReceivingPayload
    ensures var d' := Completed(d);
      if d.tx == SendingPayload then
        d'.outSize == 0 && d'.hasSent && d'.notified == d.notified && d'.crcOK == d.crcOK
      else SameSends(d, d')
  {
  }

  lemma PayloadOutBalanced(crc: Checksums, d: Driver, d': Driver, t: SendTally, received: seq<byte>)
    requires SenderAccounted(d) && SendBalanced(crc, d, t) && d.outSize != 0
    requires d'.outSize == 0 && d'.hasSent && d'.notified == d.notified && d'.crcOK == d.crcOK
    ensures SendBalanced(crc, d', SendTick(t, PayloadOut(Image(d), received)))
  {
  }

  lemma ClockBalanced(crc: Checksums, d: Driver, t: Tally, bytes: seq<byte>)
    requires Inv(crc, d) && SendBalanced(crc, d, t.sends) && Enabled(crc, d, Clock(bytes))
    ensures SendBalanced(crc, Exchange(d, bytes), StepTally(crc, d, t, Clock(bytes)).sends)
  {
    var d1 := d.(inData := Overwrite(d.inData, bytes), onBus := false);
    SameSendsBalanced(crc, d, d1, t.sends);
    if |bytes| == d.length {
      CompletedSends(d1);
      if d.tx == SendingPayload {
        PayloadOutBalanced(crc, d, Completed(d1), t.sends, bytes);
      } else {
        SameSendsBalanced(crc, d1, Completed(d1), t.sends);
      }
    }
  }

  lemma SubmitBalanced(crc: Checksums, d: Driver, t: Tally, message: seq<byte>)
    requires Inv(crc, d) && SendBalanced(crc, d, t.sends) && Enabled(crc, d, Submit(message))
    ensures SendBalanced(crc, BeginSend(crc, d, message), Tick(t, Accepted(message)).sends)
  {
    SubmittedImage(crc, d, message);
    assert (t.sends.accepted + [message])[..|t.sends.accepted|] == t.sends.accepted;
  }

  lemma StepBalanced(crc: Checksums, s: Sys, a: Action)
    requires Inv(crc, s.d) && SendBalanced(crc, s.d, Scan(s.log).sends)
    ensures var s' := Step(crc, s, a); Inv(crc, s'.d) && SendBalanced(crc, s'.d, Scan(s'.log).sends)
  {
    StepKeepsInv(crc, s, a);
    if Enabled(crc, s.d, a) {
      ScanStep(crc, s, a);
      match a
      case Loop => LoopBalanced(crc, s.d, Scan(s.log));
      case Clock(bytes) => ClockBalanced(crc, s.d, Scan(s.log), bytes);
      case Submit(message) => SubmitBalanced(crc, s.d, Scan(s.log), message);
      case _ => ReadBalanced(crc, s.d, Scan(s.log), a);
    }
  }

  lemma ReadBalanced(crc: Checksums, d: Driver, t: Tally, a: Action)
    requires Inv(crc, d) && SendBalanced(crc, d, t.sends) && Enabled(crc, d, a) && (a.Resume? || a.Fetch?)
    ensures SendBalanced(crc, Next(crc, d, a), StepTally(crc, d, t, a).sends)
  {
  }

  lemma {:induction false} AlwaysBalanced(crc: Checksums, acts: seq<Action>)
    ensures var s := Run(crc, Start(), acts); Inv(crc, s.d) && SendBalanced(crc, s.d, Scan(s.log).sends)
  {
    if acts == [] {
    } else {
      AlwaysBalanced(crc, acts[..|acts| - 1]);
      StepBalanced(crc, Run(crc, Start(), acts[..|acts| - 1]), acts[|acts| - 1]);
    }
  }

  /**
   In every run: the payloads that went out are the frames of the accepted messages, in
   order, all but the one still to go; the sender is notified once per verdict; and the
   results `send` returned are, in order, the verdicts of those payloads, all but one at
   most. The sender is blocked exactly while one accepted message has no result yet.
   */
  lemma SendConservation(crc: Checksums, acts: seq<Action>)
    ensures var s := Run(crc, Start(), acts); var t := Scan(s.log).sends;
      && t.images <= Images(crc, t.accepted)
      && t.results <= t.verdicts
      && t.notices == |t.verdicts|
      && |t.results| <= |t.verdicts| <= |t.images| <= |t.accepted|
      && |t.accepted| == |t.results| + if s.d.sending then 1 else 0
  {
    AlwaysBalanced(crc, acts);
  }

  /**
   While the sender waits un-notified it is owed exactly one thing, its frame's transfer or the
   acknowledgement; nobody else is ever owed anything. And where a pass of the loop clears the
   flag of a pending acknowledgement to send a payload, the flag is not set.
   */
  lemma OneDebt(crc: Checksums, acts: seq<Action>)
    ensures var d := Run(crc, Start(), acts).d;
      && (d.sending && d.notified == 0 <==> d.outSize != 0 || d.hasSent)
      && !(d.outSize != 0 && d.hasSent)
      && (CanExecute(d) && RxStep(crc, d).0.tx == SendingPayload ==> !RxStep(crc, d).0.hasSent)
  {
    Reachable(crc, acts);
    var d := Run(crc, Start(), acts).d;
    if CanExecute(d) {
      RxKeepsInv(crc, d);
    }
  }

  // ---- the byte stream -----------------------------------------------------------

  lemma ParseBytes(d: Driver, t: Tally, h: Header)
    requires BytesBalanced(d, t.bytes)
    ensures BytesBalanced(Acknowledge(Decide(d, h).0, h), ParseTally(d, t, h).bytes)
  {
  }

  lemma ValidateBytes(crc: Checksums, d: Driver, t: Tally)
    requires Buffers(d) && SizesUsable(d) && BytesBalanced(d, t.bytes)
    ensures BytesBalanced(ValidatePayload(crc, d), Tick(t, ValidateEvents(crc, d)[0]).bytes)
  {
    var more := d.inData[..d.inPayload];
    assert t.bytes.delivered + (d.fifo + more) == t.bytes.delivered + d.fifo + more;
  }

  lemma LoopBytes(crc: Checksums, d: Driver, t: Tally)
    requires BytesBalanced(d, t.bytes) && CanExecute(d)
    ensures BytesBalanced(RxStep(crc, d).0, StepTally(crc, d, t, Loop).bytes)
  {
    match d.rx
    case ParsingHeader =>
      if HeaderValid(crc, d.inData) {
        ParseBytes(d, t, Decode(d.inData));
      }
    case ValidateCrc => ValidateBytes(crc, d, t);
    case _ =>
  }

  lemma TxBytes(crc: Checksums, d: Driver, t: Tally, n: nat)
    requires BytesBalanced(d, t.bytes)
    ensures BytesBalanced(TxStep(crc, d, n), t.bytes)
  {
  }

  lemma FetchBytes(d: Driver, t: ByteTally, count: nat)
    requires BytesBalanced(d, t) && count <= |d.fifo|
    ensures BytesBalanced(Read(d, count).0, ByteTick(t, Delivered(Read(d, count).1)))
  {
    assert d.fifo == d.fifo[..count] + d.fifo[count..];
    assert t.delivered + d.fifo[..count] + d.fifo[count..] == t.delivered + d.fifo;
  }

  lemma ClockBytes(d: Driver, t: Tally, bytes: seq<byte>)
    requires |bytes| <= |d.inData| && BytesBalanced(d, t.bytes)
    ensures BytesBalanced(Exchange(d, bytes),
                          if |bytes| == d.length then Tick(t, ClockEvents(d, bytes)[0]).bytes else t.bytes)
  {
    assert Exchange(d, bytes).fifo == d.fifo && Exchange(d, bytes).hdr == d.hdr;
  }

  lemma OtherBytes(crc: Checksums, d: Driver, t: Tally, a: Action)
    requires BytesBalanced(d, t.bytes) && Enabled(crc, d, a) && a != Loop
    ensures BytesBalanced(Next(crc, d, a), StepTally(crc, d, t, a).bytes)
  {
    match a
    case Fetch(count) => FetchBytes(d, t.bytes, count);
    case Clock(bytes) => ClockBytes(d, t, bytes);
    case Submit(_) =>
    case Resume =>
  }

  lemma StepBytes(crc: Checksums, s: Sys, a: Action)
    requires Inv(crc, s.d) && BytesBalanced(s.d, Scan(s.log).bytes)
    ensures var s' := Step(crc, s, a); BytesBalanced(s'.d, Scan(s'.log).bytes)
  {
    if Enabled(crc, s.d, a) {
      var t := Scan(s.log);
      ScanStep(crc, s, a);
      if a == Loop {
        LoopBytes(crc, s.d, t);
        TxBytes(crc, RxStep(crc, s.d).0, StepTally(crc, s.d, t, a), RxStep(crc, s.d).1);
      } else {
        OtherBytes(crc, s.d, t, a);
      }
    }
  }

  lemma {:induction false} AlwaysBytes(crc: Checksums, acts: seq<Action>)
    ensures var s := Run(crc, Start(), acts); Inv(crc, s.d) && BytesBalanced(s.d, Scan(s.log).bytes)
  {
    if acts == [] {
    } else {
      var s := Run(crc, Start(), acts[..|acts| - 1]);
      AlwaysBytes(crc, acts[..|acts| - 1]);
      StepKeepsInv(crc, s, acts[|acts| - 1]);
      StepBytes(crc, s, acts[|acts| - 1]);
    }
  }

  /** A stored payload is the announced prefix of a frame that ends with the CRC32 of all before it. */
  ghost predicate GoodStore(crc: Checksums, e: Event) {
    e.Stored? ==>
      && CRC32_SIZE <= |e.frame| <= MAX_MESSAGE_LENGTH
      && e.frame[|e.frame| - CRC32_SIZE..] == Le32(crc.crc32(e.frame[..|e.frame| - CRC32_SIZE]))
      && e.payload <= e.frame[..|e.frame| - CRC32_SIZE]
  }

  /** A header on the wire has a consistent CRC8 and carries the last payload verdict. */
  ghost predicate GoodHeaderOut(crc: Checksums, log: Log, k: nat)
    requires k < |log|
  {
    log[k].HeaderOut? ==>
      HeaderValid(crc, Encode(log[k].out)) && FailedCrc(log[k].out) == Scan(log[..k]).bytes.lastFailed
  }

  lemma ValidateEventGood(crc: Checksums, d: Driver)
    requires Buffers(d) && SizesUsable(d) && d.inPayload <= d.inSize - CRC32_SIZE
    ensures GoodStore(crc, ValidateEvents(crc, d)[0])
  {
    var n := d.inSize - CRC32_SIZE;
    var frame := d.inData[..d.inSize];
    assert frame[..n] == d.inData[..n] && frame[n..] == d.inData[n..d.inSize];
    FromLe32RoundTrip(d.inData[n..d.inSize]);
  }

  lemma LoopEventGood(crc: Checksums, d: Driver, k: nat)
    requires Inv(crc, d) && CanExecute(d) && k < |LoopEvents(crc, d)|
    ensures GoodStore(crc, LoopEvents(crc, d)[k]) && !LoopEvents(crc, d)[k].HeaderOut?
  {
    match d.rx
    case ParsingHeader => assert LoopEvents(crc, d) == ParseEvents(crc, d);
    case ValidateCrc =>
      assert LoopEvents(crc, d) == ValidateEvents(crc, d);
      ValidateEventGood(crc, d);
    case _ =>
  }

  lemma StepEvents(crc: Checksums, s: Sys, a: Action, k: nat)
    requires Inv(crc, s.d) && BytesBalanced(s.d, Scan(s.log).bytes) && |s.log| <= k < |Step(crc, s, a).log|
    ensures GoodStore(crc, Step(crc, s, a).log[k]) && GoodHeaderOut(crc, Step(crc, s, a).log, k)
  {
    var e := Step(crc, s, a).log[k];
    assert e == Events(crc, s.d, a)[k - |s.log|];
    if a == Loop {
      LoopEventGood(crc, s.d, k - |s.log|);
    } else if e.HeaderOut? {
      assert Step(crc, s, a).log[..k] == s.log;
    }
  }

  /**
   In every run: what `receive` returned since the FIFO was last emptied, followed by the
   FIFO, is the concatenation of the payloads stored since then; each stored payload comes
   from a frame with a correct CRC32; and every header that went out is consistent and
   reports whether the last judged payload failed.
   */
  lemma {:induction false} ByteStream(crc: Checksums, acts: seq<Action>)
    ensures var s := Run(crc, Start(), acts);
      && Scan(s.log).bytes.delivered + s.d.fifo == Scan(s.log).bytes.stored
      && forall k :: 0 <= k < |s.log| ==> GoodStore(crc, s.log[k]) && GoodHeaderOut(crc, s.log, k)
  {
    AlwaysBytes(crc, acts);
    if acts == [] {
    } else {
      var before := acts[..|acts| - 1];
      var s, a := Run(crc, Start(), before), acts[|acts| - 1];
      ByteStream(crc, before);
      AlwaysBytes(crc, before);
      var log' := Step(crc, s, a).log;
      forall k | 0 <= k < |log'| ensures GoodStore(crc, log'[k]) && GoodHeaderOut(crc, log', k) {
        if k < |s.log| {
          assert log'[..k] == s.log[..k];
          assert GoodStore(crc, s.log[k]) && GoodHeaderOut(crc, s.log, k);
        } else {
          StepEvents(crc, s, a, k);
        }
      }
    }
  }
}
