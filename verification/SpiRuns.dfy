/**
 Whole runs of the driver: the driver loop, the bus master, one sender task and one
 reader task interleave freely. Every run leaves a log, and the run theorems relate
 the log to the state. An action that is not enabled leaves everything as it is, so
 every sequence of actions is a run. Runs are contained: no transfer writes behind the
 receive buffer. `SpiTransfers` proves which runs need no such limit.
 */
module SpiRuns {
  import opened Bytes
  import opened StmHeader
  import opened Framing
  import opened SpiModel

  datatype Action =
    | Loop                           // `execute`, up to the transfer
    | Clock(bytes: seq<byte>)        // the master transfers `bytes`, short or complete
    | Submit(payload: seq<byte>)     // a task calls `send`
    | Resume                         // the notified task returns from `send`
    | Fetch(count: nat)              // `receive` finds enough bytes

  datatype Event =
    | HeaderOk(h: Header)            // a valid header was parsed
    | HeaderBad                      // a corrupted one was
    | EnterPayload(size: nat)        // the receive side starts a payload
    | Stored(frame: seq<byte>, payload: seq<byte>)
    | Dropped(payload: seq<byte>)    // valid, but the FIFO had no room
    | BadPayload                     // failed the CRC32
    | Cleared                        // the FIFO was emptied after a corrupted header
    | HeaderOut(out: Header, received: seq<byte>)        // our header went out completely
    | PayloadOut(image: seq<byte>, received: seq<byte>)  // our payload went out completely
    | Accepted(message: seq<byte>)   // `send` took this message
    | Notified                       // the sender task was notified
    | Returned(ok: bool)             // `send` returned
    | Delivered(data: seq<byte>)     // `receive` returned

  type Log = seq<Event>

  datatype Sys = Sys(d: Driver, log: Log)

  /** The part of the outbound frame that lies in its buffer. */
  function Image(d: Driver): seq<byte> {
    if d.outSize <= |d.outData| then d.outData[..d.outSize] else d.outData
  }

  predicate Enabled(crc: Checksums, d: Driver, a: Action) {
    match a
    case Loop => CanExecute(d)
    case Clock(bytes) =>
      // A contained transfer: nothing is written behind the receive buffer.
      d.onBus && Buffers(d) && |bytes| <= d.length && |bytes| <= MAX_MESSAGE_LENGTH &&
      // The link assumption: a complete header that passes its CRC8 is well formed.
      (d.rx == ReceivingHeader && |bytes| == d.length && |bytes| >= HEADER_SIZE && HeaderValid(crc, bytes)
       ==> WellFormed(Decode(bytes)))
    case Submit(payload) => !d.sending && |payload| < MAX_MESSAGE_LENGTH
    case Resume => d.sending && d.notified > 0
    case Fetch(count) => count <= MAX_MESSAGE_LENGTH && count <= |d.fifo|
  }

  function Next(crc: Checksums, d: Driver, a: Action): Driver
    requires Enabled(crc, d, a)
  {
    match a
    case Loop => Execute(crc, d)
    case Clock(bytes) => Exchange(d, bytes)
    case Submit(payload) => BeginSend(crc, d, payload)
    case Resume => EndSend(d).0
    case Fetch(count) => Read(d, count).0
  }

  function ParseEvents(crc: Checksums, d: Driver): Log
    requires Buffers(d)
  {
    if !HeaderValid(crc, d.inData) then [HeaderBad]
    else
      var h := Decode(d.inData);
      [HeaderOk(h)]
      + (if Agreed(d, h) then [EnterPayload(h.txSize)] else [])
      + (if d.hasSent && d.sending then [Notified] else [])
  }

  function ValidateEvents(crc: Checksums, d: Driver): Log
    requires Buffers(d) && SizesUsable(d)
  {
    if !FrameValid(crc, d.inData, d.inSize) then [BadPayload]
    else if FitsFifo(d) then [Stored(d.inData[..d.inSize], d.inData[..d.inPayload])]
    else [Dropped(d.inData[..d.inPayload])]
  }

  function LoopEvents(crc: Checksums, d: Driver): Log
    requires CanExecute(d)
  {
    (match d.rx
     case ParsingHeader => ParseEvents(crc, d)
     case ValidateCrc => ValidateEvents(crc, d)
     case RxError => [Cleared]
     case _ => [])
    + (if d.tx == TxError && d.sending then [Notified] else [])
  }

  function ClockEvents(d: Driver, bytes: seq<byte>): Log {
    if |bytes| != d.length then []
    else if d.tx == SendingPayload then [PayloadOut(Image(d), bytes)]
    else [HeaderOut(d.hdr, bytes)]
  }

  function Events(crc: Checksums, d: Driver, a: Action): Log
    requires Enabled(crc, d, a)
  {
    match a
    case Loop => LoopEvents(crc, d)
    case Clock(bytes) => ClockEvents(d, bytes)
    case Submit(payload) => [Accepted(payload)]
    case Resume => [Returned(EndSend(d).1)]
    case Fetch(count) => [Delivered(Read(d, count).1)]
  }

  function Step(crc: Checksums, s: Sys, a: Action): Sys {
    if Enabled(crc, s.d, a) then Sys(Next(crc, s.d, a), s.log + Events(crc, s.d, a)) else s
  }

  function Start(): Sys { Sys(Init(), []) }

  function Run(crc: Checksums, s: Sys, acts: seq<Action>): (r: Sys)
    ensures s.log <= r.log
  {
    if acts == [] then s else Step(crc, Run(crc, s, acts[..|acts| - 1]), acts[|acts| - 1])
  }

  lemma {:induction false} RunAppend(crc: Checksums, s: Sys, a: seq<Action>, b: seq<Action>)
    ensures Run(crc, s, a + b) == Run(crc, Run(crc, s, a), b)
  {
    if b == [] {
      assert a + b == a;
    } else {
      assert (a + b)[..|a + b| - 1] == a + b[..|b| - 1];
      RunAppend(crc, s, a, b[..|b| - 1]);
    }
  }

  // ---- the invariant of the two coupled machines and the sender ---------------

  ghost predicate MachinesAgree(crc: Checksums, d: Driver) {
    && Buffers(d)
    && d.tx != TxError
    && (d.rx.ParsingHeader? || d.rx.ValidateCrc? || d.rx.RxError? ==> d.tx == SendingHeader && !d.onBus)
    && (d.onBus && d.rx == ReceivingHeader ==> d.length >= HEADER_SIZE)
    && (d.rx.ReceivingPayload? || d.rx.ValidateCrc? ==>
          d.inSize == d.hdr.rxSize && SizesUsable(d) && d.inPayload <= d.inSize - CRC32_SIZE)
    && (d.rx == ParsingHeader && HeaderValid(crc, d.inData) ==> WellFormed(Decode(d.inData)))
    && (d.tx == SendingPayload ==> d.outSize != 0)
    && (d.onBus && d.tx == SendingHeader ==> HeaderValid(crc, Encode(d.hdr)) && d.hdr.rxSize == d.inSize)
    && |d.fifo| <= FIFO_CAPACITY
  }

  /** Exactly one debt while the sender waits: the frame to send, or its acknowledgement. */
  ghost predicate SenderAccounted(d: Driver) {
    && (d.sending && d.notified == 0 <==> d.outSize != 0 || d.hasSent)
    && !(d.outSize != 0 && d.hasSent)
    && d.notified <= 1
    && (d.notified > 0 ==> d.sending)
  }

  ghost predicate Inv(crc: Checksums, d: Driver) { MachinesAgree(crc, d) && SenderAccounted(d) }

  /** The states the first switch of `execute` can leave behind. */
  predicate Settled(d: Driver) { d.rx.ReceivingHeader? || d.rx.ReceivingPayload? || d.rx.RxError? }

  lemma DecideKeepsInv(crc: Checksums, d: Driver, h: Header)
    requires Inv(crc, d) && d.rx == ParsingHeader && WellFormed(h)
    ensures Inv(crc, Acknowledge(Decide(d, h).0, h))
  {
  }

  lemma ValidateKeepsInv(crc: Checksums, d: Driver)
    requires Inv(crc, d) && d.rx == ValidateCrc
    ensures Inv(crc, ValidatePayload(crc, d))
  {
  }

  lemma ParseKeepsInv(crc: Checksums, d: Driver)
    requires Inv(crc, d) && d.rx == ParsingHeader
    ensures var d' := ParseHeader(crc, d).0; Inv(crc, d') && !d'.onBus && Settled(d')
  {
    if HeaderValid(crc, d.inData) {
      DecideKeepsInv(crc, d, Decode(d.inData));
    }
  }

  lemma ErrorKeepsInv(crc: Checksums, d: Driver)
    requires Inv(crc, d) && d.rx == RxError
    ensures Inv(crc, d.(inSize := 0, fifo := [], rx := ReceivingHeader))
  {
  }

  lemma RxKeepsInv(crc: Checksums, d: Driver)
    requires Inv(crc, d) && CanExecute(d)
    ensures Inv(crc, RxStep(crc, d).0) && !RxStep(crc, d).0.onBus
    ensures Settled(RxStep(crc, d).0)
  {
    match d.rx
    case ParsingHeader => ParseKeepsInv(crc, d);
    case ValidateCrc => ValidateKeepsInv(crc, d);
    case RxError => ErrorKeepsInv(crc, d);
    case _ =>
  }

  lemma TxKeepsInv(crc: Checksums, d: Driver, rxLength: nat)
    requires Inv(crc, d) && !d.onBus && Settled(d)
    requires d.rx == ReceivingHeader && d.tx == SendingPayload ==> rxLength >= HEADER_SIZE
    ensures Inv(crc, TxStep(crc, d, rxLength))
  {
  }

  lemma LoopKeepsInv(crc: Checksums, d: Driver)
    requires Inv(crc, d) && CanExecute(d)
    ensures Inv(crc, Execute(crc, d))
  {
    RxKeepsInv(crc, d);
    TxKeepsInv(crc, RxStep(crc, d).0, RxStep(crc, d).1);
  }

  lemma ClockKeepsInv(crc: Checksums, d: Driver, bytes: seq<byte>)
    requires Inv(crc, d) && Enabled(crc, d, Clock(bytes))
    ensures Inv(crc, Exchange(d, bytes))
  {
    if |bytes| == d.length && d.rx == ReceivingHeader {
      var data := Overwrite(d.inData, bytes);
      assert data[..HEADER_SIZE - 1] == bytes[..HEADER_SIZE - 1];
      assert data[1..3] == bytes[1..3] && data[3..5] == bytes[3..5] && data[5..7] == bytes[5..7];
    }
  }

  lemma StepKeepsInv(crc: Checksums, s: Sys, a: Action)
    requires Inv(crc, s.d)
    ensures Inv(crc, Step(crc, s, a).d)
  {
    if Enabled(crc, s.d, a) {
      match a
      case Loop => LoopKeepsInv(crc, s.d);
      case Clock(bytes) => ClockKeepsInv(crc, s.d, bytes);
      case Submit(_) =>
      case Resume =>
      case Fetch(_) =>
    }
  }

  /** Every state of every contained run satisfies the joint invariant, so `TxError` is never entered. */
  lemma {:induction false} Reachable(crc: Checksums, acts: seq<Action>)
    ensures Inv(crc, Run(crc, Start(), acts).d)
  {
    if acts == [] {
    } else {
      Reachable(crc, acts[..|acts| - 1]);
      StepKeepsInv(crc, Run(crc, Start(), acts[..|acts| - 1]), acts[|acts| - 1]);
    }
  }

}
