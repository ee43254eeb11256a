/**
 The state of the SPI slave driver and what each of its routines does to it
 (src/bsp/src/esp/src/SpiStm.cpp). Class `SpiDriver.SpiStm` implements these
 functions; the run theorems are about them.
 */
module SpiModel {
  import opened Bytes
  import opened StmHeader
  import opened Framing

  /** Capacity of the byte FIFO: the size of the array it is built on. */
  const FIFO_CAPACITY: nat := 2044

  datatype RxState = ReceivingHeader | ParsingHeader | ReceivingPayload | ValidateCrc | RxError
  datatype TxState = SendingHeader | SendingPayload | TxError

  datatype Driver = Driver(
    rx: RxState,
    tx: TxState,
    inData: seq<byte>,
    inSize: u16,
    inPayload: u16,
    outData: seq<byte>,
    outSize: u16,
    outPayload: u16,
    hdr: Header,          // the outbound header
    connected: bool,
    hasSent: bool,        // a payload went out and its acknowledgement is pending
    crcOK: bool,
    fifo: seq<byte>,
    sending: bool,        // a task is registered as blocked in `send`
    notified: nat,        // its notification count
    onBus: bool,          // `execute` is blocked in the bus transfer
    length: nat           // length of that transfer, in bytes
  )

  function Init(): Driver {
    var zeros := Zeros(MAX_MESSAGE_LENGTH);
    Driver(ReceivingHeader, SendingHeader, zeros, 0, 0, zeros, 0, 0, Header(0, 0, 0, 0, 0),
           false, false, false, [], false, 0, false, 0)
  }

  /** The buffers keep their length for ever. */
  predicate Buffers(d: Driver) { |d.inData| == |d.outData| == MAX_MESSAGE_LENGTH }

  /** The sizes the CRC check reads stay inside the receive buffer. */
  predicate SizesUsable(d: Driver) {
    CRC32_SIZE <= d.inSize <= MAX_MESSAGE_LENGTH && d.inPayload <= MAX_MESSAGE_LENGTH
  }

  predicate CanExecute(d: Driver) {
    !d.onBus && Buffers(d) && (d.rx == ValidateCrc ==> SizesUsable(d))
  }

  // ---- execute -----------------------------------------------------------

  /** The received header allows the pending frame to go out. */
  predicate EchoesOurs(d: Driver, h: Header) { h.rxSize == d.outSize && d.outSize != 0 }

  /** The received header announces the size our own header has echoed. */
  predicate Agreed(d: Driver, h: Header) { h.txSize == d.hdr.rxSize && h.txSize != 0 }

  /** What a valid header decides about the two payload phases; also the length to receive. */
  function Decide(d: Driver, h: Header): (Driver, nat) {
    var d' := d.(connected := true,
                 tx := if EchoesOurs(d, h) then SendingPayload else SendingHeader,
                 inSize := h.txSize);
    if Agreed(d, h) then (d'.(inPayload := h.payloadSize, rx := ReceivingPayload), h.txSize)
    else (d'.(rx := ReceivingHeader), HEADER_SIZE)
  }

  /** A valid header also acknowledges the payload sent before it, if any. */
  function Acknowledge(d: Driver, h: Header): Driver {
    if !d.hasSent then d
    else d.(hasSent := false, crcOK := !FailedCrc(h),
            notified := if d.sending then d.notified + 1 else d.notified)
  }

  function ParseHeader(crc: Checksums, d: Driver): (Driver, nat)
    requires Buffers(d)
  {
    if !HeaderValid(crc, d.inData) then (d.(rx := RxError, connected := false), 0)
    else
      var h := Decode(d.inData);
      var (d', rxLength) := Decide(d, h);
      (Acknowledge(d', h), rxLength)
  }

  predicate FitsFifo(d: Driver) { |d.fifo| + d.inPayload as int <= FIFO_CAPACITY }

  function ValidatePayload(crc: Checksums, d: Driver): Driver
    requires Buffers(d) && SizesUsable(d)
  {
    var checked :=
      if !FrameValid(crc, d.inData, d.inSize) then d.(hdr := WithFailedCrc(d.hdr, true))
      else if FitsFifo(d) then
        d.(fifo := d.fifo + d.inData[..d.inPayload], hdr := WithFailedCrc(d.hdr, false))
      else d;
    checked.(inSize := 0, inPayload := 0, rx := ReceivingHeader)
  }

  /** First switch of `execute`: the new state and the length to receive. */
  function RxStep(crc: Checksums, d: Driver): (Driver, nat)
    requires CanExecute(d)
  {
    match d.rx
    case ReceivingHeader => (d, HEADER_SIZE)
    case ParsingHeader => ParseHeader(crc, d)
    case ReceivingPayload => (d, Decode(d.inData).txSize)  // re-read through the buffer
    case ValidateCrc => (ValidatePayload(crc, d), HEADER_SIZE)
    case RxError => (d.(inSize := 0, fifo := [], rx := ReceivingHeader), 0)
  }

  function OutboundHeader(crc: Checksums, d: Driver): Header {
    Sealed(crc, d.hdr.(txSize := d.outSize, rxSize := d.inSize, payloadSize := d.outPayload))
  }

  function Max(a: nat, b: nat): nat { if a < b then b else a }

  /** Second switch of `execute` and the start of the bus transfer. */
  function TxStep(crc: Checksums, d: Driver, rxLength: nat): Driver {
    match d.tx
    case SendingHeader =>
      d.(hdr := OutboundHeader(crc, d), length := Max(rxLength, HEADER_SIZE), onBus := d.rx != RxError)
    case SendingPayload =>
      d.(hasSent := false, crcOK := false, length := Max(rxLength, d.outSize), onBus := d.rx != RxError)
    case TxError =>
      d.(notified := if d.sending then d.notified + 1 else d.notified, length := rxLength, onBus := false)
  }

  function Execute(crc: Checksums, d: Driver): Driver
    requires CanExecute(d)
  {
    var (d', rxLength) := RxStep(crc, d);
    TxStep(crc, d', rxLength)
  }

  // ---- the bus and its interrupt ------------------------------------------

  /** `transactionCallback` after a transfer of full length. */
  function Completed(d: Driver): Driver {
    var d' :=
      match d.rx
      case ReceivingHeader => d.(rx := ParsingHeader)
      case ReceivingPayload => d.(rx := ValidateCrc)
      case _ => d.(tx := TxError);
    if d'.tx == SendingPayload then d'.(tx := SendingHeader, outSize := 0, outPayload := 0, hasSent := true)
    else d'
  }

  /**
   The master clocks `bytes` in; anything shorter than the agreed length is a timeout. Bytes
   past the end of the receive buffer would land on the fields behind it, starting with the
   size the CRC check reads: such transfers are outside this function. `SpiTransfers` says
   when the driver asks for one.
   */
  function Exchange(d: Driver, bytes: seq<byte>): Driver
    requires |bytes| <= |d.inData|
  {
    var d' := d.(inData := Overwrite(d.inData, bytes), onBus := false);
    if |bytes| == d.length then Completed(d') else d'
  }

  // ---- send and receive -----------------------------------------------------

  /** `send` up to the point where the task blocks, for a length the guard accepts. */
  function BeginSend(crc: Checksums, d: Driver, payload: seq<byte>): Driver
    requires |payload| < MAX_MESSAGE_LENGTH
  {
    d.(outData := Overwrite(d.outData, Frame(crc, payload)),
       outPayload := |payload|,
       outSize := |Frame(crc, payload)|,
       sending := true)
  }

  /** `send` after its notification arrived: the new state and the result. */
  function EndSend(d: Driver): (Driver, bool)
  {
    if d.tx == TxError then (d.(notified := 0), false)
    else (d.(notified := 0, sending := false), d.crcOK)
  }

  /** `receive` once enough bytes are queued. */
  function Read(d: Driver, length: nat): (Driver, seq<byte>)
    requires length <= |d.fifo|
  {
    (d.(fifo := d.fifo[length..]), d.fifo[..length])
  }
}
