/** The size handshake: what precedes a payload phase, and how soon one must start. */
module SpiHandshake {
  import opened Bytes
  import opened StmHeader
  import opened SpiModel
  import opened SpiRuns
  import opened SpiLog

  // ---- a payload phase needs an announcement and its echo ------------------------

  ghost predicate Tracked(d: Driver, t: HandTally) {
    && (d.rx != RxError ==>
          (d.inSize != 0 ==> d.inSize as nat in t.announced) &&
          (d.hdr.rxSize != 0 ==> d.hdr.rxSize as nat in t.announced))
    && (d.rx == ParsingHeader || d.tx == SendingPayload ==>
          d.hdr.rxSize != 0 ==> d.hdr.rxSize as nat in t.echoed)
    && 2 * t.entries + Started(d) <= t.headers
    && d.connected == t.linked
  }

  /** A header of the current handshake has been seen that no payload phase has used yet. */
  function Started(d: Driver): nat {
    if (d.rx == ReceivingHeader || d.rx == ParsingHeader) && (d.inSize != 0 || d.hdr.rxSize != 0) then 1 else 0
  }

  lemma LoopTracked(crc: Checksums, d: Driver, t: Tally)
    requires Inv(crc, d) && Tracked(d, t.hand) && CanExecute(d)
    ensures Tracked(Execute(crc, d), StepTally(crc, d, t, Loop).hand)
  {
    match d.rx
    case ParsingHeader =>
      if HeaderValid(crc, d.inData) {
        ParseTracked(crc, d, t, Decode(d.inData));
      }
    case ValidateCrc => ValidateTracked(crc, d, t);
    case RxError => ErrorTracked(crc, d, t);
    case _ =>
  }

  lemma ErrorTracked(crc: Checksums, d: Driver, t: Tally)
    requires Inv(crc, d) && Tracked(d, t.hand) && d.rx == RxError
    ensures Tracked(TxStep(crc, d.(inSize := 0, fifo := [], rx := ReceivingHeader), 0), Tick(t, Cleared).hand)
  {
  }

  lemma ValidateTracked(crc: Checksums, d: Driver, t: Tally)
    requires Inv(crc, d) && Tracked(d, t.hand) && d.rx == ValidateCrc
    ensures Tracked(TxStep(crc, ValidatePayload(crc, d), HEADER_SIZE), Tick(t, ValidateEvents(crc, d)[0]).hand)
  {
  }

  lemma ParseTracked(crc: Checksums, d: Driver, t: Tally, h: Header)
    requires Inv(crc, d) && Tracked(d, t.hand) && d.rx == ParsingHeader
    ensures var (d', n) := Decide(d, h);
      Tracked(TxStep(crc, Acknowledge(d', h), n), ParseTally(d, t, h).hand)
  {
  }

  lemma OtherTracked(crc: Checksums, d: Driver, t: Tally, a: Action)
    requires Inv(crc, d) && Tracked(d, t.hand) && Enabled(crc, d, a) && a != Loop
    ensures Tracked(Next(crc, d, a), StepTally(crc, d, t, a).hand)
  {
    match a
    case Clock(bytes) => ClockTracked(crc, d, t, bytes);
    case _ =>
  }

  lemma ClockTracked(crc: Checksums, d: Driver, t: Tally, bytes: seq<byte>)
    requires Inv(crc, d) && Tracked(d, t.hand) && Enabled(crc, d, Clock(bytes))
    ensures Tracked(Exchange(d, bytes), if |bytes| == d.length then Tick(t, ClockEvents(d, bytes)[0]).hand else t.hand)
  {
  }

  lemma StepTracked(crc: Checksums, s: Sys, a: Action)
    requires Inv(crc, s.d) && Tracked(s.d, Scan(s.log).hand)
    ensures var s' := Step(crc, s, a); Tracked(s'.d, Scan(s'.log).hand)
  {
    if Enabled(crc, s.d, a) {
      ScanStep(crc, s, a);
      if a == Loop {
        LoopTracked(crc, s.d, Scan(s.log));
      } else {
        OtherTracked(crc, s.d, Scan(s.log), a);
      }
    }
  }

  /** Event `k` starts a payload phase for a size announced by the header just parsed. */
  ghost predicate Justified(log: Log, k: nat)
    requires k < |log|
  {
    log[k].EnterPayload? ==>
      && 0 < k
      && log[k - 1].HeaderOk? && log[k - 1].h.txSize == log[k].size != 0
      && log[k].size in Scan(log[..k - 1]).hand.echoed
  }

  lemma StepJustified(crc: Checksums, s: Sys, a: Action, k: nat)
    requires Inv(crc, s.d) && Tracked(s.d, Scan(s.log).hand) && |s.log| <= k < |Step(crc, s, a).log|
    ensures Justified(Step(crc, s, a).log, k)
  {
    var log' := Step(crc, s, a).log;
    if log'[k].EnterPayload? {
      assert a == Loop && s.d.rx == ParsingHeader;
      assert k == |s.log| + 1 && log'[..k - 1] == s.log;
    }
  }

  lemma {:induction false} EntriesJustified(crc: Checksums, acts: seq<Action>)
    ensures var s := Run(crc, Start(), acts);
      Tracked(s.d, Scan(s.log).hand) && forall k :: 0 <= k < |s.log| ==> Justified(s.log, k)
  {
    if acts == [] {
    } else {
      var before := acts[..|acts| - 1];
      var s, a := Run(crc, Start(), before), acts[|acts| - 1];
      EntriesJustified(crc, before);
      Reachable(crc, before);
      StepTracked(crc, s, a);
      var log' := Step(crc, s, a).log;
      forall k | 0 <= k < |log'| ensures Justified(log', k) {
        if k < |s.log| {
          assert 0 < k ==> log'[..k - 1] == s.log[..k - 1];
          assert Justified(s.log, k);
        } else {
          StepJustified(crc, s, a, k);
        }
      }
    }
  }

  /** Reading back: an announced size has a valid header for it, with no cut since. */
  lemma {:induction false} AnnouncedAt(log: Log, n: nat) returns (i: nat)
    requires n in Scan(log).hand.announced
    ensures i < |log| && log[i].HeaderOk? && log[i].h.txSize == n
    ensures forall k :: i <= k < |log| ==> !Cut(log[k])
  {
    var last := |log| - 1;
    if log[last].HeaderOk? && log[last].h.txSize == n {
      i := last;
    } else {
      i := AnnouncedAt(log[..last], n);
    }
  }

  lemma {:induction false} EchoedAt(log: Log, n: nat) returns (i: nat, j: nat)
    requires n in Scan(log).hand.echoed
    ensures i < j < |log| && log[i].HeaderOk? && log[i].h.txSize == n
    ensures log[j].HeaderOut? && log[j].out.rxSize == n
    ensures forall k :: i <= k < |log| ==> !Cut(log[k])
  {
    var last := |log| - 1;
    if log[last].HeaderOut? && log[last].out.rxSize == n && n in Scan(log[..last]).hand.announced {
      i := AnnouncedAt(log[..last], n);
      j := last;
    } else {
      i, j := EchoedAt(log[..last], n);
    }
  }

  /** Announcement at i, our echo of it on the wire at j, announcement again at k - 1, no cut between. */
  ghost predicate Handshake(log: Log, i: nat, j: nat, k: nat, n: nat)
    requires i < j < k - 1 && k < |log|
  {
    && log[i].HeaderOk? && log[i].h.txSize == n
    && log[j].HeaderOut? && log[j].out.rxSize == n
    && log[k - 1].HeaderOk? && log[k - 1].h.txSize == n
    && forall c :: i <= c < k ==> !Cut(log[c])
  }

  /**
   In every run, a payload phase for size n starts right after a valid header announcing
   n, which came after a complete transfer of our header echoing n, which came after an
   earlier valid header announcing n; no payload was validated and no header was corrupted
   in between.
   */
  lemma TwoHeaderHandshake(crc: Checksums, acts: seq<Action>, k: nat)
    requires k < |Run(crc, Start(), acts).log| && Run(crc, Start(), acts).log[k].EnterPayload?
    ensures var log := Run(crc, Start(), acts).log; var n := log[k].size;
      && n != 0
      && exists i, j :: 0 <= i < j < k - 1 && Handshake(log, i, j, k, n)
  {
    EntriesJustified(crc, acts);
    var log := Run(crc, Start(), acts).log;
    assert Justified(log, k);
    var i, j := EchoedAt(log[..k - 1], log[k].size);
    assert forall c :: i <= c < k - 1 ==> log[c] == log[..k - 1][c];
    assert Handshake(log, i, j, k, log[k].size);
  }

  /**
   Every payload phase uses up at least two valid headers; and the driver calls itself
   connected exactly when the last header it parsed was valid.
   */
  lemma HeaderBudget(crc: Checksums, acts: seq<Action>)
    ensures var s := Run(crc, Start(), acts); var t := Scan(s.log).hand;
      2 * t.entries <= t.headers && s.d.connected == t.linked
  {
    EntriesJustified(crc, acts);
  }

  // ---- bounded progress -----------------------------------------------------------

  /** Headers announcing `n` still needed before the payload phase for `n` starts. */
  function Need(d: Driver, n: nat): nat {
    match d.rx
    case ReceivingHeader =>
      if d.tx == SendingPayload then if d.hdr.rxSize == n then 1 else 2
      else if d.inSize == n then 1
      else 3
    case ParsingHeader => if d.hdr.rxSize == n then 1 else if d.hasSent then 2 else 3
    case _ => 3
  }

  ghost predicate Waiting(d: Driver) { d.rx == ReceivingHeader || d.rx == ParsingHeader }

  /** All headers parsed in this stretch are valid and announce `n`. */
  ghost predicate Announces(log: Log, n: nat) {
    forall k :: 0 <= k < |log| ==>
      !log[k].HeaderBad? && (log[k].HeaderOk? ==> log[k].h.txSize == n)
  }

  function HeadersIn(log: Log): nat {
    if log == [] then 0
    else HeadersIn(log[..|log| - 1]) + if log[|log| - 1].HeaderOk? then 1 else 0
  }

  lemma {:induction false} HeadersInAppend(a: Log, b: Log)
    ensures HeadersIn(a + b) == HeadersIn(a) + HeadersIn(b)
  {
    if b == [] {
      assert a + b == a;
    } else {
      assert (a + b)[..|a + b| - 1] == a + b[..|b| - 1];
      HeadersInAppend(a, b[..|b| - 1]);
    }
  }

  /** One step towards the payload: each header parsed pays for one of those needed. */
  lemma NeedShrinks(crc: Checksums, d: Driver, a: Action, n: nat)
    requires Inv(crc, d) && Enabled(crc, d, a) && Waiting(d) && n != 0
    requires Announces(Events(crc, d, a), n)
    ensures var d' := Next(crc, d, a); var more := Events(crc, d, a);
      || EnterPayload(n) in more
      || (Waiting(d') && 1 <= Need(d', n) && HeadersIn(more) + Need(d', n) <= Need(d, n))
  {
    if a == Loop && d.rx == ParsingHeader {
      assert Events(crc, d, a) == ParseEvents(crc, d);
      assert ParseEvents(crc, d)[0] == if HeaderValid(crc, d.inData) then HeaderOk(Decode(d.inData)) else HeaderBad;
      var h := Decode(d.inData);
      assert HeaderOk(h) in ParseEvents(crc, d) && h.txSize == n;
      if Agreed(d, h) {
        assert ParseEvents(crc, d)[1] == EnterPayload(n);
      } else {
        ParsedHeaders(crc, d);
        DecideNeed(crc, d, h);
      }
    } else {
      NoHeaders(crc, d, a);
    }
  }

  lemma ParsedHeaders(crc: Checksums, d: Driver)
    requires Buffers(d) && HeaderValid(crc, d.inData) && !Agreed(d, Decode(d.inData))
    ensures HeadersIn(ParseEvents(crc, d)) == 1
  {
    var h := Decode(d.inData);
    var note := if d.hasSent && d.sending then [Notified] else [];
    assert ParseEvents(crc, d) == [HeaderOk(h)] + note;
    assert [HeaderOk(h)][..0] == [];
    assert HeadersIn([HeaderOk(h)]) == 1;
    HeadersInAppend([HeaderOk(h)], note);
  }

  lemma DecideNeed(crc: Checksums, d: Driver, h: Header)
    requires Inv(crc, d) && d.rx == ParsingHeader && !Agreed(d, h) && h.txSize != 0
    ensures var (d', m) := Decide(d, h); var d2 := TxStep(crc, Acknowledge(d', h), m);
      Waiting(d2) && 1 <= Need(d2, h.txSize) < Need(d, h.txSize)
  {
  }

  lemma NoHeaders(crc: Checksums, d: Driver, a: Action)
    requires Enabled(crc, d, a) && Inv(crc, d) && Waiting(d) && !(a == Loop && d.rx == ParsingHeader)
    ensures HeadersIn(Events(crc, d, a)) == 0
  {
    var more := Events(crc, d, a);
    if more != [] {
      assert more == [more[0]] && more[..0] == [];
      assert !more[0].HeaderOk?;
    }
  }

  ghost predicate Progressed(crc: Checksums, s: Sys, t: Sys, n: nat)
    requires s.log <= t.log
  {
    var more := t.log[|s.log|..];
    && Inv(crc, t.d)
    && (EnterPayload(n) in more ||
        (Waiting(t.d) && 1 <= Need(t.d, n) && HeadersIn(more) + Need(t.d, n) <= Need(s.d, n)))
  }

  lemma ExtendProgress(crc: Checksums, s: Sys, t: Sys, t': Sys, more: Log, n: nat)
    requires s.log <= t.log && Progressed(crc, s, t, n)
    requires t'.log == t.log + more && Inv(crc, t'.d)
    requires Waiting(t.d) ==>
      EnterPayload(n) in more ||
      (Waiting(t'.d) && 1 <= Need(t'.d, n) && HeadersIn(more) + Need(t'.d, n) <= Need(t.d, n))
    ensures Progressed(crc, s, t', n)
  {
    assert t'.log[|s.log|..] == t.log[|s.log|..] + more;
    HeadersInAppend(t.log[|s.log|..], more);
  }

  lemma AnnouncesTail(a: Log, b: Log, n: nat)
    requires Announces(a + b, n)
    ensures Announces(b, n)
  {
    assert forall k :: 0 <= k < |b| ==> (a + b)[|a| + k] == b[k];
  }

  lemma StepProgressed(crc: Checksums, s: Sys, t: Sys, a: Action, n: nat)
    requires n != 0 && s.log <= t.log && Progressed(crc, s, t, n)
    requires Announces(Step(crc, t, a).log[|s.log|..], n)
    ensures Progressed(crc, s, Step(crc, t, a), n)
  {
    StepKeepsInv(crc, t, a);
    if Enabled(crc, t.d, a) {
      var more := Events(crc, t.d, a);
      assert Step(crc, t, a).log[|s.log|..] == t.log[|s.log|..] + more;
      AnnouncesTail(t.log[|s.log|..], more, n);
      if Waiting(t.d) {
        NeedShrinks(crc, t.d, a, n);
      }
      ExtendProgress(crc, s, t, Step(crc, t, a), more, n);
    }
  }

  lemma {:induction false} ProgressFrom(crc: Checksums, s: Sys, acts: seq<Action>, n: nat)
    requires Inv(crc, s.d) && Waiting(s.d) && n != 0
    requires Announces(Run(crc, s, acts).log[|s.log|..], n)
    ensures Progressed(crc, s, Run(crc, s, acts), n)
  {
    if acts == [] {
      assert s.log[|s.log|..] == [];
    } else {
      var before := acts[..|acts| - 1];
      var t := Run(crc, s, before);
      assert t.log[|s.log|..] <= Step(crc, t, acts[|acts| - 1]).log[|s.log|..];
      ProgressFrom(crc, s, before, n);
      StepProgressed(crc, s, t, acts[|acts| - 1], n);
    }
  }

  /**
   From any reachable state that waits for a header, three valid headers announcing the
   same size n start the payload phase for n, whatever the sender, the transmit side and
   short transfers do in between.
   */
  lemma BoundedProgress(crc: Checksums, past: seq<Action>, acts: seq<Action>, n: nat)
    requires n != 0 && Waiting(Run(crc, Start(), past).d)
    requires var s := Run(crc, Start(), past);
      Announces(Run(crc, s, acts).log[|s.log|..], n)
    ensures var s := Run(crc, Start(), past);
      var more := Run(crc, s, acts).log[|s.log|..];
      HeadersIn(more) >= 3 ==> EnterPayload(n) in more
  {
    Reachable(crc, past);
    ProgressFrom(crc, Run(crc, Start(), past), acts, n);
  }
}
