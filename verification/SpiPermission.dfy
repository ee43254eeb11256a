/** A payload leaves the driver only with the master's leave: an echo of exactly its size. */
module SpiPermission {
  import opened Bytes
  import opened StmHeader
  import opened Framing
  import opened SpiModel
  import opened SpiRuns
  import opened SpiLog
  import opened SpiLedger

  /** The size echoed by the last valid header. */
  function Heard(log: Log): nat {
    if log == [] then 0
    else if log[|log| - 1].HeaderOk? then log[|log| - 1].h.rxSize
    else Heard(log[..|log| - 1])
  }

  lemma {:induction false} HeardSame(log: Log, more: Log)
    requires forall k :: 0 <= k < |more| ==> !more[k].HeaderOk?
    ensures Heard(log + more) == Heard(log)
  {
    if more == [] {
      assert log + more == log;
    } else {
      assert (log + more)[..|log + more| - 1] == log + more[..|more| - 1];
      HeardSame(log, more[..|more| - 1]);
    }
  }

  lemma HeardHeader(log: Log, h: Header, more: Log)
    requires forall k :: 0 <= k < |more| ==> !more[k].HeaderOk?
    ensures Heard(log + ([HeaderOk(h)] + more)) == h.rxSize as nat
  {
    assert log + ([HeaderOk(h)] + more) == log + [HeaderOk(h)] + more;
    HeardSame(log + [HeaderOk(h)], more);
    assert (log + [HeaderOk(h)])[|log|] == HeaderOk(h);
  }

  /** Reading back: the last valid header of a log. */
  lemma {:induction false} HeardAt(log: Log) returns (i: nat)
    requires Heard(log) != 0
    ensures i < |log| && log[i].HeaderOk? && log[i].h.rxSize as nat == Heard(log)
    ensures forall k :: i < k < |log| ==> !log[k].HeaderOk?
  {
    if log[|log| - 1].HeaderOk? {
      i := |log| - 1;
    } else {
      i := HeardAt(log[..|log| - 1]);
    }
  }

  // ---- the invariant ------------------------------------------------------------------------------

  /** A payload on its way out has the size last heard; a pending frame is that of the last message. */
  ghost predicate Permitted(crc: Checksums, d: Driver, heard: nat, t: SendTally) {
    && (d.tx == SendingPayload ==> heard == d.outSize as nat)
    && (d.outSize != 0 ==> t.accepted != [] && d.outSize as nat == |Frame(crc, t.accepted[|t.accepted| - 1])|)
  }

  lemma TxKeepsSending(crc: Checksums, d: Driver, n: nat)
    ensures TxStep(crc, d, n).outSize == d.outSize && TxStep(crc, d, n).tx == d.tx
  {
  }

  lemma ParsedSending(d: Driver, h: Header)
    ensures var d' := Acknowledge(Decide(d, h).0, h);
      d'.outSize == d.outSize && (d'.tx == SendingPayload ==> h.rxSize == d.outSize)
  {
  }

  lemma RxOtherSending(crc: Checksums, d: Driver)
    requires CanExecute(d) && !(d.rx == ParsingHeader && HeaderValid(crc, d.inData))
    ensures RxStep(crc, d).0.outSize == d.outSize && RxStep(crc, d).0.tx == d.tx
  {
  }

  /** A valid header is heard, and decides. */
  lemma ParsePermitted(crc: Checksums, d: Driver, log: Log, t: SendTally)
    requires Inv(crc, d) && d.rx == ParsingHeader && HeaderValid(crc, d.inData) && Permitted(crc, d, Heard(log), t)
    ensures Permitted(crc, Execute(crc, d), Heard(log + LoopEvents(crc, d)), t)
  {
    var h := Decode(d.inData);
    var enter := if Agreed(d, h) then [EnterPayload(h.txSize)] else [];
    var more := enter + if d.hasSent && d.sending then [Notified] else [];
    assert LoopEvents(crc, d) == [HeaderOk(h)] + more;
    HeardHeader(log, h, more);
    ParsedSending(d, h);
    TxKeepsSending(crc, RxStep(crc, d).0, RxStep(crc, d).1);
  }

  /** In any other pass nothing is heard, and no payload starts. */
  lemma LoopPermitted(crc: Checksums, d: Driver, log: Log, t: SendTally)
    requires CanExecute(d) && !(d.rx == ParsingHeader && HeaderValid(crc, d.inData)) && Permitted(crc, d, Heard(log), t)
    ensures Permitted(crc, Execute(crc, d), Heard(log + LoopEvents(crc, d)), t)
  {
    HeardSame(log, LoopEvents(crc, d));
    RxOtherSending(crc, d);
    TxKeepsSending(crc, RxStep(crc, d).0, RxStep(crc, d).1);
  }

  lemma SubmitPermitted(crc: Checksums, d: Driver, log: Log, t: SendTally, message: seq<byte>)
    requires Inv(crc, d) && Enabled(crc, d, Submit(message)) && Permitted(crc, d, Heard(log), t)
    ensures Permitted(crc, BeginSend(crc, d, message), Heard(log + [Accepted(message)]), SendTick(t, Accepted(message)))
  {
    HeardSame(log, [Accepted(message)]);
  }

  lemma ClockPermitted(crc: Checksums, d: Driver, log: Log, t: SendTally, bytes: seq<byte>)
    requires Inv(crc, d) && Enabled(crc, d, Clock(bytes)) && Permitted(crc, d, Heard(log), t)
    ensures var t' := if |bytes| == d.length then SendTick(t, ClockEvents(d, bytes)[0]) else t;
      Permitted(crc, Exchange(d, bytes), Heard(log + ClockEvents(d, bytes)), t')
  {
    HeardSame(log, ClockEvents(d, bytes));
  }

  lemma StepPermitted(crc: Checksums, s: Sys, a: Action)
    requires Inv(crc, s.d) && Permitted(crc, s.d, Heard(s.log), Scan(s.log).sends)
    ensures var s' := Step(crc, s, a); Permitted(crc, s'.d, Heard(s'.log), Scan(s'.log).sends)
  {
    if Enabled(crc, s.d, a) {
      var t := Scan(s.log);
      ScanStep(crc, s, a);
      match a
      case Loop =>
        LoopAccepts(crc, s.d, t);
        PassPermitted(crc, s.d, s.log, t.sends);
        SameAccepted(crc, Execute(crc, s.d), Heard(s.log + LoopEvents(crc, s.d)),
                     t.sends, StepTally(crc, s.d, t, a).sends);
      case Submit(message) => SubmitPermitted(crc, s.d, s.log, t.sends, message);
      case Clock(bytes) => ClockPermitted(crc, s.d, s.log, t.sends, bytes);
      case _ => ReadPermitted(crc, s, a);
    }
  }

  lemma PassPermitted(crc: Checksums, d: Driver, log: Log, t: SendTally)
    requires Inv(crc, d) && CanExecute(d) && Permitted(crc, d, Heard(log), t)
    ensures Permitted(crc, Execute(crc, d), Heard(log + LoopEvents(crc, d)), t)
  {
    if d.rx == ParsingHeader && HeaderValid(crc, d.inData) {
      ParsePermitted(crc, d, log, t);
    } else {
      LoopPermitted(crc, d, log, t);
    }
  }

  lemma SameAccepted(crc: Checksums, d: Driver, heard: nat, t: SendTally, t': SendTally)
    requires Permitted(crc, d, heard, t) && t'.accepted == t.accepted
    ensures Permitted(crc, d, heard, t')
  {
  }

  lemma ReadPermitted(crc: Checksums, s: Sys, a: Action)
    requires Enabled(crc, s.d, a) && (a.Resume? || a.Fetch?) && s.d.tx != TxError
    requires Permitted(crc, s.d, Heard(s.log), Scan(s.log).sends)
    ensures var s' := Step(crc, s, a); Permitted(crc, s'.d, Heard(s'.log), Scan(s'.log).sends)
  {
    ScanStep(crc, s, a);
    HeardSame(s.log, Events(crc, s.d, a));
  }

  /** A pass of the loop accepts no message. */
  lemma LoopAccepts(crc: Checksums, d: Driver, t: Tally)
    requires CanExecute(d)
    ensures StepTally(crc, d, t, Loop).sends.accepted == t.sends.accepted
  {
  }

  lemma {:induction false} AlwaysPermitted(crc: Checksums, acts: seq<Action>)
    ensures var s := Run(crc, Start(), acts); Permitted(crc, s.d, Heard(s.log), Scan(s.log).sends)
  {
    if acts == [] {
    } else {
      AlwaysPermitted(crc, acts[..|acts| - 1]);
      Reachable(crc, acts[..|acts| - 1]);
      StepPermitted(crc, Run(crc, Start(), acts[..|acts| - 1]), acts[|acts| - 1]);
    }
  }

  // ---- every payload that went out ------------------------------------------------------------------

  /** Event i is the last valid header before event k, and it echoes this size. */
  ghost predicate EchoedBefore(log: Log, i: nat, k: nat, size: nat)
    requires i < k <= |log|
  {
    log[i].HeaderOk? && log[i].h.rxSize as nat == size && forall x :: i < x < k ==> !log[x].HeaderOk?
  }

  ghost predicate Echoed(log: Log, k: nat, size: nat)
    requires k <= |log|
  {
    exists i: nat :: i < k && EchoedBefore(log, i, k, size)
  }

  /** A payload that goes out is the last message accepted, and its size was echoed by the last valid header. */
  ghost predicate WithLeave(crc: Checksums, log: Log, k: nat)
    requires k < |log|
  {
    log[k].PayloadOut? ==>
      var accepted := Scan(log[..k]).sends.accepted;
      && accepted != []
      && log[k].image == FrameImage(crc, accepted[|accepted| - 1])
      && Echoed(log, k, |Frame(crc, accepted[|accepted| - 1])|)
  }

  lemma EchoedStays(log: Log, log': Log, k: nat, size: nat)
    requires k <= |log| && log <= log' && Echoed(log, k, size)
    ensures Echoed(log', k, size)
  {
    var i: nat :| i < k && EchoedBefore(log, i, k, size);
    assert EchoedBefore(log', i, k, size);
  }

  lemma WithLeaveStays(crc: Checksums, log: Log, log': Log, k: nat)
    requires k < |log| && log <= log' && WithLeave(crc, log, k)
    ensures WithLeave(crc, log', k)
  {
    assert log'[..k] == log[..k];
    if log[k].PayloadOut? {
      var accepted := Scan(log[..k]).sends.accepted;
      EchoedStays(log, log', k, |Frame(crc, accepted[|accepted| - 1])|);
    }
  }

  lemma LastImage(crc: Checksums, d: Driver, t: SendTally)
    requires SendBalanced(crc, d, t) && d.outSize != 0
    ensures t.accepted != [] && Image(d) == FrameImage(crc, t.accepted[|t.accepted| - 1])
  {
    assert (t.images + [Image(d)])[|t.images|] == Image(d);
  }

  lemma HeardEchoed(log: Log)
    requires Heard(log) != 0
    ensures Echoed(log, |log|, Heard(log))
  {
    var i := HeardAt(log);
    assert EchoedBefore(log, i, |log|, Heard(log));
  }

  lemma PayloadLeaves(crc: Checksums, d: Driver, log: Log, received: seq<byte>)
    requires SendBalanced(crc, d, Scan(log).sends) && Permitted(crc, d, Heard(log), Scan(log).sends)
    requires d.tx == SendingPayload && d.outSize != 0
    ensures WithLeave(crc, log + [PayloadOut(Image(d), received)], |log|)
  {
    var log' := log + [PayloadOut(Image(d), received)];
    assert log'[..|log|] == log;
    LastImage(crc, d, Scan(log).sends);
    HeardEchoed(log);
    EchoedStays(log, log', |log|, Heard(log));
  }

  lemma StepWithLeave(crc: Checksums, s: Sys, a: Action, k: nat)
    requires Inv(crc, s.d) && SendBalanced(crc, s.d, Scan(s.log).sends)
    requires Permitted(crc, s.d, Heard(s.log), Scan(s.log).sends)
    requires |s.log| <= k < |Step(crc, s, a).log|
    ensures WithLeave(crc, Step(crc, s, a).log, k)
  {
    var log' := Step(crc, s, a).log;
    assert log'[k] == Events(crc, s.d, a)[k - |s.log|];
    if a.Clock? {
      if log'[k].PayloadOut? {
        PayloadLeaves(crc, s.d, s.log, a.bytes);
      }
    } else {
      OnlyClockSends(crc, s.d, a, k - |s.log|);
    }
  }

  lemma OnlyClockSends(crc: Checksums, d: Driver, a: Action, k: nat)
    requires Enabled(crc, d, a) && !a.Clock? && k < |Events(crc, d, a)|
    ensures !Events(crc, d, a)[k].PayloadOut?
  {
  }

  /**
   In every run, each payload that went out is the frame of the message accepted last, and the
   last valid header before it echoed exactly the size of that frame.
   */
  lemma {:induction false} PayloadsWithLeave(crc: Checksums, acts: seq<Action>)
    ensures var log := Run(crc, Start(), acts).log; forall k :: 0 <= k < |log| ==> WithLeave(crc, log, k)
  {
    if acts == [] {
    } else {
      var before, a := acts[..|acts| - 1], acts[|acts| - 1];
      var s := Run(crc, Start(), before);
      PayloadsWithLeave(crc, before);
      AlwaysBalanced(crc, before);
      AlwaysPermitted(crc, before);
      var log' := Step(crc, s, a).log;
      forall k | 0 <= k < |log'| ensures WithLeave(crc, log', k) {
        if k < |s.log| {
          WithLeaveStays(crc, s.log, log', k);
        } else {
          StepWithLeave(crc, s, a, k);
        }
      }
    }
  }
}
