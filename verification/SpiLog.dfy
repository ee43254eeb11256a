/** A reader of driver logs: everything the run theorems say about the past. */
module SpiLog {
  import opened Bytes
  import opened StmHeader
  import opened SpiModel
  import opened SpiRuns

  /** The handshake side: valid headers, payload phases, and the sizes in play. */
  datatype HandTally = HandTally(
    linked: bool,                  // the last header parsed was valid
    headers: nat,                  // valid headers parsed
    entries: nat,                  // payload phases entered
    announced: set<nat>,           // sizes announced since the last cut
    echoed: set<nat>               // of those, the ones our headers then echoed on the wire
  )

  /** The sending side. */
  datatype SendTally = SendTally(
    accepted: seq<seq<byte>>,      // messages `send` accepted
    images: seq<seq<byte>>,        // payloads that went out
    awaiting: bool,                // a payload went out after the last valid header
    verdicts: seq<bool>,           // per payload out, the flag of the first valid header after it
    notices: nat,                  // notifications of the sender
    results: seq<bool>             // what `send` returned
  )

  /** The receiving side. */
  datatype ByteTally = ByteTally(
    lastFailed: bool,              // the last payload verdict was a CRC failure
    stored: seq<byte>,             // bytes put in the FIFO since it was last emptied
    delivered: seq<byte>,          // bytes read from it since then
    arrived: seq<byte>             // the last complete transfer
  )

  datatype Tally = Tally(hand: HandTally, sends: SendTally, bytes: ByteTally)

  const BLANK := Tally(HandTally(false, 0, 0, {}, {}),
                       SendTally([], [], false, [], 0, []),
                       ByteTally(false, [], [], []))

  /** A payload validation or a corrupted header ends a handshake. */
  predicate Cut(e: Event) { e.HeaderBad? || e.Stored? || e.Dropped? || e.BadPayload? }

  function HandTick(t: HandTally, e: Event): HandTally {
    if Cut(e) then t.(linked := t.linked && !e.HeaderBad?, announced := {}, echoed := {})
    else match e
      case HeaderOk(h) => t.(linked := true, headers := t.headers + 1, announced := t.announced + {h.txSize as nat})
      case EnterPayload(_) => t.(entries := t.entries + 1)
      case HeaderOut(out, _) =>
        if out.rxSize as nat in t.announced then t.(echoed := t.echoed + {out.rxSize as nat}) else t
      case _ => t
  }

  function SendTick(t: SendTally, e: Event): SendTally {
    match e
    case HeaderOk(h) =>
      if t.awaiting then t.(awaiting := false, verdicts := t.verdicts + [!FailedCrc(h)]) else t
    case PayloadOut(image, _) => t.(images := t.images + [image], awaiting := true)
    case Accepted(message) => t.(accepted := t.accepted + [message])
    case Notified => t.(notices := t.notices + 1)
    case Returned(ok) => t.(results := t.results + [ok])
    case _ => t
  }

  function ByteTick(t: ByteTally, e: Event): ByteTally {
    match e
    case Stored(_, payload) => t.(lastFailed := false, stored := t.stored + payload)
    case BadPayload => t.(lastFailed := true)
    case Cleared => t.(stored := [], delivered := [])
    case Delivered(data) => t.(delivered := t.delivered + data)
    case HeaderOut(_, received) => t.(arrived := received)
    case PayloadOut(_, received) => t.(arrived := received)
    case _ => t
  }

  function Tick(t: Tally, e: Event): Tally {
    Tally(HandTick(t.hand, e), SendTick(t.sends, e), ByteTick(t.bytes, e))
  }

  function Scan(log: Log): Tally {
    if log == [] then BLANK else Tick(Scan(log[..|log| - 1]), log[|log| - 1])
  }

  function TickIf(t: Tally, c: bool, e: Event): Tally { if c then Tick(t, e) else t }

  lemma ScanOne(log: Log, e: Event)
    ensures Scan(log + [e]) == Tick(Scan(log), e)
  {
    assert (log + [e])[..|log|] == log;
  }

  lemma ScanIf(log: Log, c: bool, e: Event)
    ensures Scan(log + if c then [e] else []) == TickIf(Scan(log), c, e)
  {
    if c {
      ScanOne(log, e);
    } else {
      assert log + [] == log;
    }
  }

  lemma ScanThree(log: Log, e: Event, c1: bool, e1: Event, c2: bool, e2: Event)
    ensures Scan(log + ([e] + (if c1 then [e1] else []) + (if c2 then [e2] else [])))
      == TickIf(TickIf(Tick(Scan(log), e), c1, e1), c2, e2)
  {
    var second, third := if c1 then [e1] else [], if c2 then [e2] else [];
    assert log + ([e] + second + third) == log + [e] + second + third;
    ScanOne(log, e);
    ScanIf(log + [e], c1, e1);
    ScanIf(log + [e] + second, c2, e2);
  }

  /** What one step of a reachable driver adds to the reading of its log. */
  function StepTally(crc: Checksums, d: Driver, t: Tally, a: Action): Tally
    requires Enabled(crc, d, a)
  {
    match a
    case Loop =>
      (match d.rx
       case ParsingHeader =>
         if !HeaderValid(crc, d.inData) then Tick(t, HeaderBad)
         else ParseTally(d, t, Decode(d.inData))
       case ValidateCrc => Tick(t, ValidateEvents(crc, d)[0])
       case RxError => Tick(t, Cleared)
       case _ => t)
    case Clock(bytes) => if |bytes| == d.length then Tick(t, ClockEvents(d, bytes)[0]) else t
    case Submit(payload) => Tick(t, Accepted(payload))
    case Resume => Tick(t, Returned(EndSend(d).1))
    case Fetch(count) => Tick(t, Delivered(Read(d, count).1))
  }

  function ParseTally(d: Driver, t: Tally, h: Header): Tally {
    TickIf(TickIf(Tick(t, HeaderOk(h)), Agreed(d, h), EnterPayload(h.txSize)), d.hasSent && d.sending, Notified)
  }

  lemma ScanParse(crc: Checksums, d: Driver, log: Log)
    requires Buffers(d) && HeaderValid(crc, d.inData)
    ensures Scan(log + ParseEvents(crc, d)) == ParseTally(d, Scan(log), Decode(d.inData))
  {
    var h := Decode(d.inData);
    ScanThree(log, HeaderOk(h), Agreed(d, h), EnterPayload(h.txSize), d.hasSent && d.sending, Notified);
  }

  lemma ScanStep(crc: Checksums, s: Sys, a: Action)
    requires Enabled(crc, s.d, a) && s.d.tx != TxError
    ensures Scan(Step(crc, s, a).log) == StepTally(crc, s.d, Scan(s.log), a)
  {
    var more := Events(crc, s.d, a);
    if a == Loop && s.d.rx == ParsingHeader && HeaderValid(crc, s.d.inData) {
      assert more == ParseEvents(crc, s.d);
      ScanParse(crc, s.d, s.log);
    } else if more == [] {
      assert s.log + more == s.log;
    } else {
      assert more == [more[0]];
      ScanOne(s.log, more[0]);
    }
  }
}
