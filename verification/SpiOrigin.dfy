/** Where the bytes of a stored frame come from: the transfer that completed it, or also an earlier one. */
module SpiOrigin {
  import opened Bytes
  import opened StmHeader
  import opened SpiModel
  import opened SpiRuns
  import opened SpiLog

  /** The receive buffer starts with the last complete transfer, until it is parsed or judged. */
  ghost predicate Fresh(d: Driver, t: ByteTally) {
    d.rx == ParsingHeader || d.rx == ValidateCrc ==> t.arrived <= d.inData
  }

  /** A payload transfer cut short that leaves less than the announced size to be read again. */
  predicate Shrinks(d: Driver, a: Action) {
    a.Clock? && d.rx == ReceivingPayload && HEADER_SIZE <= |d.inData|
    && |a.bytes| < d.length && Decode(Overwrite(d.inData, a.bytes)).txSize < d.inSize
  }

  ghost predicate Steady(crc: Checksums, acts: seq<Action>) {
    forall k :: 0 <= k < |acts| ==>
      Enabled(crc, Run(crc, Start(), acts[..k]).d, acts[k]) ==> !Shrinks(Run(crc, Start(), acts[..k]).d, acts[k])
  }

  /** Every transfer of a payload asks for at least the announced size. */
  ghost predicate Whole(d: Driver, t: ByteTally) {
    && (d.rx == ReceivingPayload && HEADER_SIZE <= |d.inData| ==>
          d.inSize <= Decode(d.inData).txSize && (d.onBus ==> d.inSize <= d.length))
    && (d.rx == ValidateCrc ==> d.inSize <= |t.arrived|)
  }

  lemma ParseLeaves(d: Driver, h: Header)
    ensures var (d', n) := Decide(d, h); var d2 := Acknowledge(d', h);
      && d2.rx != ParsingHeader && d2.rx != ValidateCrc && d2.inData == d.inData
      && (d2.rx == ReceivingPayload ==> d2.inSize == h.txSize && n == h.txSize as nat)
  {
  }

  lemma RxLeaves(crc: Checksums, d: Driver)
    requires CanExecute(d)
    ensures var (d', n) := RxStep(crc, d);
      && d'.rx != ParsingHeader && d'.rx != ValidateCrc && d'.inData == d.inData
      && (d'.rx == ReceivingPayload ==>
            n == Decode(d.inData).txSize as nat
            && d'.inSize == if d.rx == ReceivingPayload then d.inSize else Decode(d.inData).txSize)
  {
    if d.rx == ParsingHeader && HeaderValid(crc, d.inData) {
      ParseLeaves(d, Decode(d.inData));
    }
  }

  lemma TxLeaves(crc: Checksums, d: Driver, n: nat)
    ensures var d' := TxStep(crc, d, n);
      d'.rx == d.rx && d'.inData == d.inData && d'.inSize == d.inSize && n <= d'.length
  {
  }

  /** After a pass nothing waits to be parsed or judged, and a payload phase starts with its announced size. */
  lemma LoopLeaves(crc: Checksums, d: Driver)
    requires CanExecute(d)
    ensures var d' := Execute(crc, d);
      && d'.rx != ParsingHeader && d'.rx != ValidateCrc && d'.inData == d.inData
      && (d'.rx == ReceivingPayload ==>
            Decode(d.inData).txSize as nat <= d'.length
            && d'.inSize == if d.rx == ReceivingPayload then d.inSize else Decode(d.inData).txSize)
  {
    RxLeaves(crc, d);
    TxLeaves(crc, RxStep(crc, d).0, RxStep(crc, d).1);
  }

  lemma OtherFresh(crc: Checksums, d: Driver, t: Tally, a: Action)
    requires Enabled(crc, d, a) && a != Loop && Fresh(d, t.bytes)
    requires d.onBus ==> d.rx != ParsingHeader && d.rx != ValidateCrc
    ensures Fresh(Next(crc, d, a), StepTally(crc, d, t, a).bytes)
  {
    match a
    case Clock(bytes) => ClockFresh(d, t, bytes);
    case _ =>
  }

  lemma ClockFresh(d: Driver, t: Tally, bytes: seq<byte>)
    requires |bytes| <= |d.inData| && d.rx != ParsingHeader && d.rx != ValidateCrc
    ensures Fresh(Exchange(d, bytes), if |bytes| == d.length then Tick(t, ClockEvents(d, bytes)[0]).bytes else t.bytes)
  {
    assert Overwrite(d.inData, bytes)[..|bytes|] == bytes;
  }

  /** A transfer cut short. */
  lemma CutWhole(d: Driver, t: ByteTally, bytes: seq<byte>)
    requires |bytes| < d.length && |bytes| <= |d.inData| && HEADER_SIZE <= |d.inData|
    requires Whole(d, t) && !Shrinks(d, Clock(bytes)) && d.rx != ValidateCrc
    ensures Whole(Exchange(d, bytes), t)
  {
  }

  /** A complete transfer. */
  lemma CompleteWhole(d: Driver, t: ByteTally, bytes: seq<byte>)
    requires |bytes| == d.length && |bytes| <= |d.inData| && HEADER_SIZE <= |d.inData|
    requires Whole(d, t) && d.onBus && d.rx != ValidateCrc
    ensures Whole(Exchange(d, bytes), t.(arrived := bytes))
  {
    var d' := Exchange(d, bytes);
    assert d'.rx != ReceivingPayload && d'.inSize == d.inSize;
  }

  lemma ClockWhole(d: Driver, t: Tally, bytes: seq<byte>)
    requires |bytes| <= |d.inData| && HEADER_SIZE <= |d.inData| && |bytes| <= d.length
    requires d.onBus && Whole(d, t.bytes) && !Shrinks(d, Clock(bytes))
    requires d.rx != ParsingHeader && d.rx != ValidateCrc
    ensures Whole(Exchange(d, bytes), if |bytes| == d.length then Tick(t, ClockEvents(d, bytes)[0]).bytes else t.bytes)
  {
    if |bytes| == d.length {
      CompleteWhole(d, t.bytes, bytes);
    } else {
      CutWhole(d, t.bytes, bytes);
    }
  }

  lemma OtherWhole(crc: Checksums, d: Driver, t: Tally, a: Action)
    requires Enabled(crc, d, a) && a != Loop && Whole(d, t.bytes) && !Shrinks(d, a)
    requires d.onBus ==> d.rx != ParsingHeader && d.rx != ValidateCrc
    ensures Whole(Next(crc, d, a), StepTally(crc, d, t, a).bytes)
  {
    match a
    case Clock(bytes) => ClockWhole(d, t, bytes);
    case _ =>
  }

  lemma StepFresh(crc: Checksums, s: Sys, a: Action)
    requires s.d.tx != TxError && Fresh(s.d, Scan(s.log).bytes)
    requires s.d.onBus ==> s.d.rx != ParsingHeader && s.d.rx != ValidateCrc
    ensures Fresh(Step(crc, s, a).d, Scan(Step(crc, s, a).log).bytes)
  {
    if Enabled(crc, s.d, a) {
      ScanStep(crc, s, a);
      if a == Loop {
        LoopLeaves(crc, s.d);
      } else {
        OtherFresh(crc, s.d, Scan(s.log), a);
      }
    }
  }

  lemma StepWhole(crc: Checksums, s: Sys, a: Action)
    requires s.d.tx != TxError && Whole(s.d, Scan(s.log).bytes)
    requires s.d.onBus ==> s.d.rx != ParsingHeader && s.d.rx != ValidateCrc
    requires Enabled(crc, s.d, a) ==> !Shrinks(s.d, a)
    ensures Whole(Step(crc, s, a).d, Scan(Step(crc, s, a).log).bytes)
  {
    if Enabled(crc, s.d, a) {
      ScanStep(crc, s, a);
      if a == Loop {
        LoopLeaves(crc, s.d);
      } else {
        OtherWhole(crc, s.d, Scan(s.log), a);
      }
    }
  }

  lemma {:induction false} AlwaysFresh(crc: Checksums, acts: seq<Action>)
    ensures var s := Run(crc, Start(), acts); Fresh(s.d, Scan(s.log).bytes)
  {
    if acts == [] {
    } else {
      var before := acts[..|acts| - 1];
      AlwaysFresh(crc, before);
      Reachable(crc, before);
      StepFresh(crc, Run(crc, Start(), before), acts[|acts| - 1]);
    }
  }

  lemma SteadyInit(crc: Checksums, acts: seq<Action>)
    requires Steady(crc, acts) && acts != []
    ensures Steady(crc, acts[..|acts| - 1])
    ensures var s, a := Run(crc, Start(), acts[..|acts| - 1]), acts[|acts| - 1];
      Enabled(crc, s.d, a) ==> !Shrinks(s.d, a)
  {
    var before := acts[..|acts| - 1];
    assert forall k :: 0 <= k < |before| ==> before[..k] == acts[..k];
  }

  lemma {:induction false} AlwaysWhole(crc: Checksums, acts: seq<Action>)
    requires Steady(crc, acts)
    ensures var s := Run(crc, Start(), acts); Whole(s.d, Scan(s.log).bytes)
  {
    if acts == [] {
    } else {
      var before := acts[..|acts| - 1];
      SteadyInit(crc, acts);
      AlwaysWhole(crc, before);
      Reachable(crc, before);
      StepWhole(crc, Run(crc, Start(), before), acts[|acts| - 1]);
    }
  }

  /**
   A stored frame agrees with the last complete transfer as far as both go; it is the beginning
   of that transfer exactly when it is not longer.
   */
  ghost predicate FromTransfer(log: Log, k: nat)
    requires k < |log|
  {
    log[k].Stored? ==>
      var frame, arrived := log[k].frame, Scan(log[..k]).bytes.arrived;
      (frame <= arrived || arrived <= frame) && (frame <= arrived <==> |frame| <= |arrived|)
  }

  ghost predicate Begins(log: Log, k: nat)
    requires k < |log|
  {
    log[k].Stored? ==> log[k].frame <= Scan(log[..k]).bytes.arrived
  }

  lemma StoreFresh(crc: Checksums, d: Driver, t: ByteTally)
    requires d.rx == ValidateCrc && Buffers(d) && SizesUsable(d) && Fresh(d, t)
    ensures var e := ValidateEvents(crc, d)[0];
      e.Stored? ==>
        && (e.frame <= t.arrived || t.arrived <= e.frame)
        && (e.frame <= t.arrived <==> |e.frame| <= |t.arrived|)
        && (Whole(d, t) ==> e.frame <= t.arrived)
  {
    var e := ValidateEvents(crc, d)[0];
    if e.Stored? && |e.frame| == |t.arrived| {
      assert e.frame == t.arrived;
    }
  }

  lemma StepStores(crc: Checksums, s: Sys, a: Action, k: nat)
    requires s.d.tx != TxError && Fresh(s.d, Scan(s.log).bytes) && |s.log| <= k < |Step(crc, s, a).log|
    ensures FromTransfer(Step(crc, s, a).log, k)
    ensures Whole(s.d, Scan(s.log).bytes) ==> Begins(Step(crc, s, a).log, k)
  {
    var e := Step(crc, s, a).log[k];
    assert e == Events(crc, s.d, a)[k - |s.log|];
    if e.Stored? {
      assert a == Loop && s.d.rx == ValidateCrc;
      StoreFresh(crc, s.d, Scan(s.log).bytes);
      assert k == |s.log| && Step(crc, s, a).log[..k] == s.log;
    }
  }

  /** What was said of an event stays said when the log grows. */
  lemma Kept(log: Log, log': Log, k: nat)
    requires k < |log| && log <= log'
    ensures FromTransfer(log, k) ==> FromTransfer(log', k)
    ensures Begins(log, k) ==> Begins(log', k)
  {
    assert log'[..k] == log[..k];
  }

  /**
   In every run, a stored frame and the transfer that completed last agree as far as both go:
   the frame is the beginning of that transfer if and only if it is not longer; otherwise that
   transfer is continued by what earlier ones left in the buffer.
   */
  lemma {:induction false} StoredFromTransfer(crc: Checksums, acts: seq<Action>)
    ensures var log := Run(crc, Start(), acts).log; forall k :: 0 <= k < |log| ==> FromTransfer(log, k)
  {
    if acts == [] {
    } else {
      var s, a := Run(crc, Start(), acts[..|acts| - 1]), acts[|acts| - 1];
      StoredFromTransfer(crc, acts[..|acts| - 1]);
      AlwaysFresh(crc, acts[..|acts| - 1]);
      Reachable(crc, acts[..|acts| - 1]);
      var log' := Step(crc, s, a).log;
      forall k | 0 <= k < |log'| ensures FromTransfer(log', k) {
        if k < |s.log| {
          Kept(s.log, log', k);
        } else {
          StepStores(crc, s, a, k);
        }
      }
    }
  }

  /** Where no payload transfer is cut short over the size to be read again, the first case holds. */
  lemma {:induction false} SteadyBegins(crc: Checksums, acts: seq<Action>)
    requires Steady(crc, acts)
    ensures var log := Run(crc, Start(), acts).log; forall k :: 0 <= k < |log| ==> Begins(log, k)
  {
    if acts == [] {
    } else {
      var before, a := acts[..|acts| - 1], acts[|acts| - 1];
      var s := Run(crc, Start(), before);
      SteadyInit(crc, acts);
      SteadyBegins(crc, before);
      AlwaysFresh(crc, before);
      AlwaysWhole(crc, before);
      Reachable(crc, before);
      var log' := Step(crc, s, a).log;
      forall k | 0 <= k < |log'| ensures Begins(log', k) {
        if k < |s.log| {
          Kept(s.log, log', k);
        } else {
          StepStores(crc, s, a, k);
        }
      }
    }
  }
}
