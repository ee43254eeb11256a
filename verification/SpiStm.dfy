/** The driver object: every routine is proved to compute its function in `SpiModel`. */
module SpiDriver {
  import opened Bytes
  import opened StmHeader
  import opened Framing
  import opened SpiModel

  datatype ReceiveResult = Rejected | Blocked | Received(data: seq<byte>)

  class SpiStm {
    const crc: Checksums
    const inboundData: array<byte>
    const outboundData: array<byte>
    var rxState: RxState
    var txState: TxState
    var inboundSize: u16
    var inboundPayload: u16
    var outboundSize: u16
    var outboundPayload: u16
    var outboundHeader: Header
    var isConnected: bool
    var hasSentPayload: bool
    var crcOK: bool
    var circularBuf: seq<byte>
    var sendingTask: bool
    var notifications: nat
    var onBus: bool
    var transactionLength: nat

    ghost predicate Valid()
      reads this
    {
      inboundData.Length == outboundData.Length == MAX_MESSAGE_LENGTH && inboundData != outboundData
    }

    ghost function State(): Driver
      reads this, inboundData, outboundData
    {
      Driver(rxState, txState, inboundData[..], inboundSize, inboundPayload,
             outboundData[..], outboundSize, outboundPayload, outboundHeader,
             isConnected, hasSentPayload, crcOK, circularBuf, sendingTask, notifications,
             onBus, transactionLength)
    }

    constructor (crc: Checksums)
      ensures Valid() && fresh(inboundData) && fresh(outboundData)
      ensures this.crc == crc && State() == Init()
    {
      this.crc := crc;
      inboundData := new byte[MAX_MESSAGE_LENGTH](_ => 0);
      outboundData := new byte[MAX_MESSAGE_LENGTH](_ => 0);
      rxState, txState := ReceivingHeader, SendingHeader;
      inboundSize, inboundPayload, outboundSize, outboundPayload := 0, 0, 0, 0;
      outboundHeader := Header(0, 0, 0, 0, 0);
      isConnected, hasSentPayload, crcOK := false, false, false;
      circularBuf, sendingTask, notifications := [], false, 0;
      onBus, transactionLength := false, 0;
      new;
      assert inboundData[..] == Zeros(MAX_MESSAGE_LENGTH);
      assert outboundData[..] == Zeros(MAX_MESSAGE_LENGTH);
    }

    method UpdateOutboundHeader()
      requires Valid()
      modifies this`outboundHeader
      ensures State() == old(State()).(hdr := OutboundHeader(crc, old(State())))
    {
      outboundHeader := outboundHeader.(txSize := outboundSize);
      outboundHeader := outboundHeader.(rxSize := inboundSize);
      outboundHeader := outboundHeader.(payloadSize := outboundPayload);
      outboundHeader := Sealed(crc, outboundHeader);
    }

    method DecidePhases(inbound: Header) returns (rxLength: nat)
      requires Valid()
      modifies this
      ensures Valid()
      ensures (State(), rxLength) == Decide(old(State()), inbound)
    {
      isConnected := true;
      if inbound.rxSize == outboundSize && outboundSize != 0 {
        txState := SendingPayload;
      } else {
        txState := SendingHeader;
      }
      inboundSize := inbound.txSize;
      if inboundSize == outboundHeader.rxSize && inboundSize != 0 {
        inboundPayload := inbound.payloadSize;
        rxLength := inbound.txSize;
        rxState := ReceivingPayload;
      } else {
        rxLength := HEADER_SIZE;
        rxState := ReceivingHeader;
      }
    }

    method NotifySender(inbound: Header)
      requires Valid()
      modifies this
      ensures Valid()
      ensures State() == Acknowledge(old(State()), inbound)
    {
      if hasSentPayload {
        hasSentPayload := false;
        crcOK := !FailedCrc(inbound);
        if sendingTask {
          notifications := notifications + 1;
        }
      }
    }

    method ParseInboundHeader() returns (rxLength: nat)
      requires Valid()
      modifies this
      ensures Valid()
      ensures (State(), rxLength) == ParseHeader(crc, old(State()))
    {
      if !HeaderValid(crc, inboundData[..]) {
        rxState, isConnected := RxError, false;
        return 0;
      }
      var inbound := Decode(inboundData[..]);
      rxLength := DecidePhases(inbound);
      NotifySender(inbound);
    }

    method CheckPayload()
      requires Valid() && SizesUsable(State())
      modifies this
      ensures Valid()
      ensures State() == ValidatePayload(crc, old(State()))
    {
      if !FrameValid(crc, inboundData[..], inboundSize) {
        outboundHeader := WithFailedCrc(outboundHeader, true);
      } else if |circularBuf| + inboundPayload as int <= FIFO_CAPACITY {
        circularBuf := circularBuf + inboundData[..][..inboundPayload];
        outboundHeader := WithFailedCrc(outboundHeader, false);
      }
      inboundSize, inboundPayload := 0, 0;
      rxState := ReceivingHeader;
    }

    method ReceiveSide() returns (rxLength: nat)
      requires Valid() && CanExecute(State())
      modifies this
      ensures Valid()
      ensures (State(), rxLength) == RxStep(crc, old(State()))
    {
      match rxState {
        case ReceivingHeader => rxLength := HEADER_SIZE;
        case ParsingHeader => rxLength := ParseInboundHeader();
        case ReceivingPayload => rxLength := Decode(inboundData[..]).txSize;
        case ValidateCrc =>
          CheckPayload();
          rxLength := HEADER_SIZE;
        case RxError =>
          inboundSize, circularBuf := 0, [];
          rxState := ReceivingHeader;
          rxLength := 0;
      }
    }

    method TransmitSide(rxLength: nat)
      requires Valid()
      modifies this
      ensures Valid()
      ensures State() == TxStep(crc, old(State()), rxLength)
    {
      var txLength := 0;
      match txState {
        case SendingHeader =>
          UpdateOutboundHeader();
          txLength := HEADER_SIZE;
        case SendingPayload =>
          txLength := outboundSize;
          hasSentPayload, crcOK := false, false;
        case TxError =>
          if sendingTask {
            notifications := notifications + 1;
          }
      }
      transactionLength := if rxLength < txLength then txLength else rxLength;
      onBus := txState != TxError && rxState != RxError;
    }

    /** One pass of the driver loop, up to the blocking bus transfer. */
    method Execute()
      requires Valid() && CanExecute(State())
      modifies this
      ensures Valid()
      ensures State() == SpiModel.Execute(crc, old(State()))
    {
      var rxLength := ReceiveSide();
      TransmitSide(rxLength);
    }

    method TransactionCallback(transLength: nat)
      requires Valid()
      modifies this
      ensures Valid()
      ensures State() == if transLength == old(transactionLength) then Completed(old(State())) else old(State())
    {
      if transactionLength != transLength {
        return;
      }
      match rxState {
        case ReceivingHeader => rxState := ParsingHeader;
        case ReceivingPayload => rxState := ValidateCrc;
        case _ => txState := TxError;
      }
      if txState == SendingPayload {
        txState := SendingHeader;
        outboundSize, outboundPayload := 0, 0;
        hasSentPayload := true;
      }
    }

    /** The bus: the bytes land in the receive buffer, then the interrupt fires. */
    method Exchange(bytes: seq<byte>)
      requires Valid() && |bytes| <= inboundData.Length
      modifies this, inboundData
      ensures Valid()
      ensures State() == SpiModel.Exchange(old(State()), bytes)
    {
      Store(inboundData, bytes, 0);
      assert inboundData[..] == Overwrite(old(inboundData[..]), bytes);
      onBus := false;
      TransactionCallback(|bytes|);
    }

    /** Copies `bytes` into `a` from index `at`. */
    static method Store(a: array<byte>, bytes: seq<byte>, at: nat)
      requires at + |bytes| <= a.Length
      modifies a
      ensures forall k :: 0 <= k < a.Length ==>
        a[k] == if at <= k < at + |bytes| then bytes[k - at] else old(a[k])
    {
      for i := 0 to |bytes|
        invariant forall k :: 0 <= k < a.Length ==>
          a[k] == if at <= k < at + i then bytes[k - at] else old(a[k])
      {
        a[at + i] := bytes[i];
      }
    }

    /** Copies the payload, pads it with zeros in place and appends the CRC32. */
    method BuildFrame(buffer: seq<byte>) returns (length: nat)
      requires Valid() && |buffer| < MAX_MESSAGE_LENGTH
      modifies outboundData
      ensures length == PaddedLength(|buffer|)
      ensures outboundData[..] == Overwrite(old(outboundData[..]), Frame(crc, buffer))
    {
      Store(outboundData, buffer, 0);
      length := |buffer|;
      while length % 4 != 0
        invariant |buffer| <= length <= PaddedLength(|buffer|)
        invariant forall k :: 0 <= k < outboundData.Length ==>
          outboundData[k] == (if k < |buffer| then buffer[k] else if k < length then 0 else old(outboundData[k]))
        decreases PaddedLength(|buffer|) - length
      {
        outboundData[length] := 0;
        length := length + 1;
      }
      assert outboundData[..length] == Padded(buffer);
      var trailer := Le32(crc.crc32(outboundData[..length]));
      // From 2041 bytes on the trailer lies behind the array, on the size field that is set next.
      if length + CRC32_SIZE <= outboundData.Length {
        Store(outboundData, trailer, length);
      }
      assert outboundData[..] == Overwrite(old(outboundData[..]), Frame(crc, buffer));
    }

    /** `send` up to its wait; false when the length guard refuses the message. */
    method BeginSend(buffer: seq<byte>) returns (accepted: bool)
      requires Valid()
      modifies this, outboundData
      ensures Valid()
      ensures accepted == (|buffer| < MAX_MESSAGE_LENGTH)
      ensures accepted ==> State() == SpiModel.BeginSend(crc, old(State()), buffer)
      ensures !accepted ==> State() == old(State())
    {
      if |buffer| >= MAX_MESSAGE_LENGTH {
        return false;
      }
      var length := BuildFrame(buffer);
      assert inboundData[..] == old(inboundData[..]);
      outboundPayload := |buffer|;
      outboundSize := length + CRC32_SIZE;
      sendingTask := true;
      return true;
    }

    /** The rest of `send`, after the task was notified. */
    method EndSend() returns (result: bool)
      requires Valid()
      modifies this
      ensures Valid()
      ensures (State(), result) == SpiModel.EndSend(old(State()))
    {
      notifications := 0;
      if txState == TxError {
        return false;
      }
      sendingTask := false;
      return crcOK;
    }

    /** One look of `receive` at the FIFO; `Blocked` means the task keeps waiting. */
    method Receive(length: u16) returns (r: ReceiveResult)
      requires Valid()
      modifies this
      ensures Valid()
      ensures r.Rejected? <==> length > MAX_MESSAGE_LENGTH
      ensures r.Blocked? <==> length <= MAX_MESSAGE_LENGTH && |old(circularBuf)| < length as int
      ensures r.Received? ==> |r.data| == length as nat && r.data + circularBuf == old(circularBuf)
      ensures r.Received? ==> (State(), r.data) == Read(old(State()), length)
      ensures !r.Received? ==> State() == old(State())
    {
      if length > MAX_MESSAGE_LENGTH {
        return Rejected;
      }
      if |circularBuf| < length {
        return Blocked;
      }
      r := Received(circularBuf[..length]);
      circularBuf := circularBuf[length..];
    }
  }
}
