/**
 How long a transfer the driver asks for. The receive buffer has 2044 bytes; this module says
 exactly which actions can make the driver wait for more, and that nothing else can.
 */
module SpiTransfers {
  import opened Bytes
  import opened StmHeader
  import opened Framing
  import opened SpiModel
  import opened SpiRuns

  /** The driver waits for a transfer that its receive buffer cannot hold. */
  predicate Overruns(d: Driver) { d.onBus && d.length > MAX_MESSAGE_LENGTH }

  /**
   What a caller of `send` or the bus master has to avoid: a message of more than 2040 bytes,
   and a short transfer of a payload that leaves an impossible size where the announced one
   is read again for the next attempt.
   */
  predicate Careless(d: Driver, a: Action) {
    match a
    case Submit(message) => |message| > 2040
    case Clock(bytes) =>
      && d.rx == ReceivingPayload && HEADER_SIZE <= |d.inData|
      && |bytes| < d.length && Decode(Overwrite(d.inData, bytes)).txSize as nat > MAX_MESSAGE_LENGTH
    case _ => false
  }

  ghost predicate CarefulRun(crc: Checksums, s: Sys, acts: seq<Action>) {
    forall k :: 0 <= k < |acts| ==>
      Enabled(crc, Run(crc, s, acts[..k]).d, acts[k]) ==> !Careless(Run(crc, s, acts[..k]).d, acts[k])
  }

  /** The sizes the next transfer is computed from all fit the buffer. */
  ghost predicate Fitting(d: Driver) {
    && !Overruns(d)
    && d.outSize <= MAX_MESSAGE_LENGTH
    && (d.rx == ReceivingPayload && HEADER_SIZE <= |d.inData| ==> Decode(d.inData).txSize <= MAX_MESSAGE_LENGTH)
  }

  /** The pass of `execute` that starts in this state transmits the pending payload. */
  predicate StartsPayload(crc: Checksums, d: Driver)
    requires CanExecute(d)
  {
    RxStep(crc, d).0.tx == SendingPayload
  }

  /** The length the receive side asks for fits, unless it is a size read again. */
  lemma RxLengths(crc: Checksums, d: Driver)
    requires Inv(crc, d) && CanExecute(d)
    ensures var (d', n) := RxStep(crc, d);
      && d'.outSize == d.outSize && d'.inData == d.inData
      && (d.rx == ReceivingPayload ==> d' == d && n == Decode(d.inData).txSize)
      && (d.rx != ReceivingPayload ==> n <= MAX_MESSAGE_LENGTH)
      && (d'.rx == ReceivingPayload && d.rx != d'.rx ==> Decode(d.inData).txSize <= MAX_MESSAGE_LENGTH)
  {
    if d.rx == ParsingHeader && HeaderValid(crc, d.inData) {
      ParsedLengths(d, Decode(d.inData));
    }
  }

  lemma ParsedLengths(d: Driver, h: Header)
    requires WellFormed(h)
    ensures var (d', n) := Decide(d, h); var d2 := Acknowledge(d', h);
      n <= MAX_MESSAGE_LENGTH && d2.outSize == d.outSize && d2.inData == d.inData
  {
  }

  lemma TxLengths(crc: Checksums, d: Driver, n: nat)
    ensures var d' := TxStep(crc, d, n);
      && (Overruns(d') <==>
            d'.onBus && (n > MAX_MESSAGE_LENGTH || (d.tx == SendingPayload && d.outSize as nat > MAX_MESSAGE_LENGTH)))
      && d'.outSize == d.outSize && d'.inData == d.inData && d'.rx == d.rx
      && (d'.onBus <==> d.tx != TxError && d.rx != RxError)
  {
  }

  /** One pass: the transfer it asks for is too long exactly when one of its two sizes is. */
  lemma TransferFits(crc: Checksums, d: Driver)
    requires Inv(crc, d) && CanExecute(d)
    ensures Overruns(Execute(crc, d)) <==>
      Execute(crc, d).onBus &&
      ((StartsPayload(crc, d) && d.outSize as nat > MAX_MESSAGE_LENGTH)
       || (d.rx == ReceivingPayload && Decode(d.inData).txSize as nat > MAX_MESSAGE_LENGTH))
  {
    RxLengths(crc, d);
    TxLengths(crc, RxStep(crc, d).0, RxStep(crc, d).1);
  }

  // ---- careful runs fit -----------------------------------------------------------

  lemma LoopFits(crc: Checksums, d: Driver)
    requires Inv(crc, d) && CanExecute(d) && Fitting(d)
    ensures Fitting(Execute(crc, d))
  {
    RxLengths(crc, d);
    TxLengths(crc, RxStep(crc, d).0, RxStep(crc, d).1);
  }

  lemma StepFits(crc: Checksums, s: Sys, a: Action)
    requires Inv(crc, s.d) && Fitting(s.d) && (Enabled(crc, s.d, a) ==> !Careless(s.d, a))
    ensures Fitting(Step(crc, s, a).d)
  {
    if Enabled(crc, s.d, a) {
      match a
      case Loop => LoopFits(crc, s.d);
      case Submit(message) => FrameFits(|message|);
      case _ =>
    }
  }

  lemma {:induction false} CarefulFits(crc: Checksums, s: Sys, acts: seq<Action>)
    requires Inv(crc, s.d) && Fitting(s.d) && CarefulRun(crc, s, acts)
    ensures Inv(crc, Run(crc, s, acts).d) && Fitting(Run(crc, s, acts).d)
  {
    if acts == [] {
    } else {
      var before := acts[..|acts| - 1];
      assert forall k :: 0 <= k < |before| ==> before[..k] == acts[..k];
      CarefulFits(crc, s, before);
      StepFits(crc, Run(crc, s, before), acts[|acts| - 1]);
      StepKeepsInv(crc, Run(crc, s, before), acts[|acts| - 1]);
    }
  }

  /**
   The default branch of the interrupt and the transmit error state are unreachable: the loop
   can always run or waits on the bus, and on the bus the receive side is in one of the two
   states the interrupt expects. In a careful run the transfer it waits for fits the buffer,
   so that every transfer the master can make is a contained one.
   */
  lemma NeverStuck(crc: Checksums, acts: seq<Action>)
    ensures var d := Run(crc, Start(), acts).d;
      && CanExecute(d) != d.onBus
      && d.tx != TxError
      && (d.onBus ==> d.rx == ReceivingHeader || d.rx == ReceivingPayload)
      && (CarefulRun(crc, Start(), acts) ==> !Overruns(d))
  {
    Reachable(crc, acts);
    if CarefulRun(crc, Start(), acts) {
      CarefulFits(crc, Start(), acts);
    }
  }

  // ---- careless actions overrun ------------------------------------------------------

  lemma {:induction false} RunCons(crc: Checksums, s: Sys, a: Action, acts: seq<Action>)
    ensures Run(crc, s, [a] + acts) == Run(crc, Step(crc, s, a), acts)
  {
    RunAppend(crc, s, [a], acts);
    assert [a][..0] == [];
  }

  lemma CarefulCons(crc: Checksums, s: Sys, a: Action, acts: seq<Action>)
    requires CarefulRun(crc, Step(crc, s, a), acts) && !Careless(s.d, a)
    ensures CarefulRun(crc, s, [a] + acts)
  {
    var all := [a] + acts;
    forall k | 0 <= k < |all| && Enabled(crc, Run(crc, s, all[..k]).d, all[k])
      ensures !Careless(Run(crc, s, all[..k]).d, all[k])
    {
      if k > 0 {
        assert all[..k] == [a] + acts[..k - 1];
        RunCons(crc, s, a, acts[..k - 1]);
      }
    }
  }

  /** The header that lets a pending frame of `size` bytes go out. */
  function Echo(crc: Checksums, size: u16): (h: Header)
    ensures HeaderValid(crc, Encode(h)) && h.txSize == 0 && h.rxSize == size
  {
    Sealed(crc, Header(0, 0, size, 0, 0))
  }

  /** The echo, and whatever is clocked in behind it. */
  function EchoBytes(crc: Checksums, size: u16, length: nat): (b: seq<byte>)
    requires length >= HEADER_SIZE
    ensures |b| == length
  {
    Encode(Echo(crc, size)) + Zeros(length - HEADER_SIZE)
  }

  /** A frame too long for the buffer waits to go out. */
  ghost predicate Oversized(d: Driver) {
    d.outSize as nat > MAX_MESSAGE_LENGTH && d.tx == SendingHeader
  }

  /** A buffer that starts with an encoded header reads as that header. */
  lemma HeaderBytes(h: Header, data: seq<byte>)
    requires |data| >= HEADER_SIZE && data[..HEADER_SIZE] == Encode(h)
    ensures Decode(data) == h
    ensures forall crc :: HeaderValid(crc, data) <==> HeaderValid(crc, Encode(h))
  {
    EncodeDecode(data);
    DecodeEncode(Decode(data));
    DecodeEncode(h);
    assert data[..HEADER_SIZE - 1] == Encode(h)[..HEADER_SIZE - 1];
  }

  /** The received header echoes the pending size. */
  predicate Echoed(crc: Checksums, d: Driver) {
    d.rx == ParsingHeader && HEADER_SIZE <= |d.inData|
    && HeaderValid(crc, d.inData) && EchoesOurs(d, Decode(d.inData))
  }

  /** Steps to take before the pending frame starts to go out. */
  function Distance(crc: Checksums, d: Driver): nat {
    if Echoed(crc, d) then 0
    else if d.rx == ParsingHeader then 5
    else if d.rx == ReceivingPayload then if d.onBus then 3 else 4
    else if d.onBus then 1 else 2
  }

  /** What brings the frame nearer: the echo, a complete payload, or a pass of the loop. */
  function Nearer(crc: Checksums, d: Driver): Action {
    if !d.onBus then Loop
    else if d.rx == ReceivingHeader && d.length >= HEADER_SIZE then Clock(EchoBytes(crc, d.outSize, d.length))
    else Clock(Zeros(d.length))
  }

  lemma EchoReceived(crc: Checksums, d: Driver)
    requires Inv(crc, d) && d.onBus && d.rx == ReceivingHeader && d.length <= MAX_MESSAGE_LENGTH && Oversized(d)
    ensures var a := Nearer(crc, d);
      Enabled(crc, d, a) && Oversized(Next(crc, d, a)) && Echoed(crc, Next(crc, d, a))
  {
    var h := Echo(crc, d.outSize);
    var bytes := EchoBytes(crc, d.outSize, d.length);
    HeaderBytes(h, bytes);
    var data := Overwrite(d.inData, bytes);
    assert data[..HEADER_SIZE] == Encode(h);
    HeaderBytes(h, data);
  }

  lemma LoopNearer(crc: Checksums, d: Driver)
    requires Inv(crc, d) && CanExecute(d) && Oversized(d)
    ensures var d' := Execute(crc, d);
      Overruns(d') || (Oversized(d') && Distance(crc, d') < Distance(crc, d))
  {
    RxLengths(crc, d);
    TxLengths(crc, RxStep(crc, d).0, RxStep(crc, d).1);
    RxKeepsInv(crc, d);
  }

  lemma PayloadNearer(crc: Checksums, d: Driver)
    requires Inv(crc, d) && d.onBus && d.rx == ReceivingPayload && d.length <= MAX_MESSAGE_LENGTH && Oversized(d)
    ensures var a := Nearer(crc, d);
      Enabled(crc, d, a) && Oversized(Next(crc, d, a)) && Next(crc, d, a).rx == ValidateCrc && !Next(crc, d, a).onBus
  {
  }

  lemma StepNearer(crc: Checksums, d: Driver)
    requires Inv(crc, d) && Oversized(d) && !Overruns(d)
    ensures var a := Nearer(crc, d);
      && Enabled(crc, d, a) && !Careless(d, a)
      && var d' := Next(crc, d, a);
         Overruns(d') || (Oversized(d') && Distance(crc, d') < Distance(crc, d))
  {
    if !d.onBus {
      LoopNearer(crc, d);
    } else if d.rx == ReceivingHeader {
      EchoReceived(crc, d);
    } else {
      PayloadNearer(crc, d);
    }
  }

  /** A frame too long for the buffer can always be drawn out by a careful master. */
  lemma {:induction false} OversizedOverruns(crc: Checksums, s: Sys) returns (acts: seq<Action>)
    requires Inv(crc, s.d) && (Oversized(s.d) || Overruns(s.d))
    ensures CarefulRun(crc, s, acts) && Overruns(Run(crc, s, acts).d)
    decreases !Overruns(s.d), Distance(crc, s.d)
  {
    if Overruns(s.d) {
      acts := [];
    } else {
      var a := Nearer(crc, s.d);
      StepNearer(crc, s.d);
      StepKeepsInv(crc, s, a);
      var rest := OversizedOverruns(crc, Step(crc, s, a));
      CarefulCons(crc, s, a, rest);
      RunCons(crc, s, a, rest);
      acts := [a] + rest;
    }
  }

  lemma CarelessOverruns(crc: Checksums, s: Sys, a: Action) returns (acts: seq<Action>)
    requires Inv(crc, s.d) && Enabled(crc, s.d, a) && Careless(s.d, a)
    ensures CarefulRun(crc, Step(crc, s, a), acts) && Overruns(Run(crc, Step(crc, s, a), acts).d)
  {
    StepKeepsInv(crc, s, a);
    var s' := Step(crc, s, a);
    match a
    case Submit(message) =>
      FrameFits(|message|);
      acts := OversizedOverruns(crc, s');
    case Clock(bytes) =>
      RxLengths(crc, s'.d);
      TxLengths(crc, RxStep(crc, s'.d).0, RxStep(crc, s'.d).1);
      acts := [Loop];
      assert acts[..0] == [];
    case _ => acts := [];
  }

  /**
   The exact condition. After any careful run, an action can be followed by a careful run in
   which the driver waits for more bytes than its buffer holds if and only if it is careless:
   a message of more than 2040 bytes, or a short payload transfer that leaves an impossible
   size to be read again.
   */
  lemma OverrunsIffCareless(crc: Checksums, past: seq<Action>, a: Action)
    requires CarefulRun(crc, Start(), past) && Enabled(crc, Run(crc, Start(), past).d, a)
    ensures var s := Run(crc, Start(), past);
      Careless(s.d, a) <==>
        exists acts :: CarefulRun(crc, Step(crc, s, a), acts) && Overruns(Run(crc, Step(crc, s, a), acts).d)
  {
    var s := Run(crc, Start(), past);
    CarefulFits(crc, Start(), past);
    if Careless(s.d, a) {
      var acts := CarelessOverruns(crc, s, a);
    } else {
      StepFits(crc, s, a);
      StepKeepsInv(crc, s, a);
      forall acts | CarefulRun(crc, Step(crc, s, a), acts) ensures !Overruns(Run(crc, Step(crc, s, a), acts).d) {
        CarefulFits(crc, Step(crc, s, a), acts);
      }
    }
  }

  /** Both inputs: a message of 2041 bytes, and three bytes of a payload transfer cut short. */
  lemma CarelessInputs(crc: Checksums, d: Driver)
    requires Inv(crc, d)
    ensures Enabled(crc, Init(), Submit(Zeros(2041))) && Careless(Init(), Submit(Zeros(2041)))
    ensures d.onBus && d.rx == ReceivingPayload && d.length > 3 ==>
      && Enabled(crc, d, Clock([0, 255, 255])) && Careless(d, Clock([0, 255, 255]))
      && Execute(crc, Next(crc, d, Clock([0, 255, 255]))).length == 65535
  {
    if d.onBus && d.rx == ReceivingPayload && d.length > 3 {
      var data := Overwrite(d.inData, [0, 255, 255]);
      assert data[1..3] == [255, 255];
      assert Decode(data).txSize == 65535;
    }
  }
}
