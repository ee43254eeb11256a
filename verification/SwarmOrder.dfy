/**
 Every kind of message that a host can receive: what it got from another station is, in order
 and each once, what that station queued as its own, be it written by its host or an answer.
 */
module SwarmOrder {
  import opened Bytes
  import opened Messages
  import opened Sequences
  import opened Routing
  import opened Swarm
  import opened SwarmInvariant
  import opened SwarmDelivery

  /** A module that takes such a message for its own passes it to its host. */
  predicate Passes(b: Body) { b.Plain? || IsResponse(b) }

  /** From station i, and of a kind that the module of station j passes to its host. */
  predicate HostBound(w: World, i: nat, j: nat, m: Message) {
    && i < |w.ids| && j < |w.ids| && m.src == w.ids[i]
    && (m.body.Plain? || m.body.Hive?)
    && (m.dst == 0 || (m.dst == w.ids[j] && Passes(m.body)))
  }

  function Bound(w: World, i: nat, j: nat): Message -> bool {
    m => HostBound(w, i, j, m)
  }

  function Part(w: World, i: nat, j: nat, q: seq<Message>): seq<Message> {
    Filter(Bound(w, i, j), q)
  }

  /** Everything under way from station i to host j, the furthest first. */
  function Lane(w: World, s: Swarm, i: nat, j: nat): seq<Message>
    requires i < |s.stations| && j < |s.stations|
  {
    Part(w, i, j, s.stations[j].host + s.stations[j].node.hivemind)
    + if i == j then [] else Part(w, i, j, s.stations[j].inbox) + Part(w, i, j, s.stations[i].node.broadcast)
  }

  lemma PartAppend(w: World, i: nat, j: nat, a: seq<Message>, b: seq<Message>)
    ensures Part(w, i, j, a + b) == Part(w, i, j, a) + Part(w, i, j, b)
  {
    FilterAppend(Bound(w, i, j), a, b);
  }

  lemma PartSnoc(w: World, i: nat, j: nat, q: seq<Message>, m: Message)
    ensures Part(w, i, j, q + [m]) == Part(w, i, j, q) + if HostBound(w, i, j, m) then [m] else []
  {
    FilterSnoc(Bound(w, i, j), q, m);
  }

  lemma PartHead(w: World, i: nat, j: nat, q: seq<Message>)
    requires q != []
    ensures Part(w, i, j, q) == (if HostBound(w, i, j, q[0]) then [q[0]] else []) + Part(w, i, j, q[1..])
  {
    FilterHead(Bound(w, i, j), q);
  }

  // ---- one step of one lane ---------------------------------------------------------------

  /** The message an action handles. */
  function Handled(w: World, s: Swarm, a: Action): Option<Message> {
    if !Enabled(w, s, a) then None
    else
      match a
      case Inject(i, dst, body) => Some(Injected(w, s, i, dst, body))
      case Drain(i, _, _) => Some(s.stations[i].node.broadcast[0])
      case Receive(i) => Some(s.stations[i].inbox[0])
      case Deliver(i, _) => Some(s.stations[i].node.hivemind[0])
      case _ => None
  }

  /** Without an id, a module queues this message for everyone, for its own host. */
  predicate EarlyForAll(n: Node, m: Message) {
    n.uuid == 0 && m.dst == 0 && Passes(m.body) && !Full(n.hivemind)
  }

  /**
   The action keeps a message from host j that station i has queued as its own: before the
   greeting a message for everyone is queued for the own host; a send fails, or there is no room
   at the receiver; there, the queue is full, or the module has no id, does not recognise its own
   and takes what is for everyone for itself; or the write to the host fails.
   */
  predicate Drops(w: World, s: Swarm, a: Action, i: nat, j: nat) {
    var h := Handled(w, s, a);
    && h.Some? && HostBound(w, i, j, h.value)
    && var m, n := h.value, s.stations[a.i].node;
       match a
       case Inject(k, _, _) => k == i && j != i && EarlyForAll(n, m)
       case Drain(k, ok, reach) => k == i && j != i && !Arrives(i, ok, reach, j)
       case Receive(k) => k == j && (Full(n.hivemind) || (n.uuid == 0 && (m.dst != 0 || !Passes(m.body))))
       case Deliver(k, ok) => k == j && !ok
       case _ => false
  }

  /** The lane gains what station i queued as its own; from a station to its own host, perhaps nothing. */
  ghost predicate Flows(w: World, i: nat, j: nat, lane: seq<Message>, lane': seq<Message>, more: seq<Message>) {
    lane' == lane + Part(w, i, j, more) || (i == j && lane' == lane)
  }

  ghost predicate Loses(lane: seq<Message>, lane': seq<Message>, m: Message) {
    exists x, y :: lane == x + [m] + y && lane' == x + y
  }

  /**
   What one step does to the lane: it flows, or it loses the message the step handles, or that
   message is queued without entering the lane.
   */
  ghost predicate LaneStep(w: World, s: Swarm, s': Swarm, i: nat, j: nat, lost: Option<Message>)
    requires i < |s.stations| == |s'.stations| && j < |s.stations|
  {
    var lane, lane' := Lane(w, s, i, j), Lane(w, s', i, j);
    var before, after := s.stations[i].issued, s'.stations[i].issued;
    && before <= after
    && match lost
       case None => Flows(w, i, j, lane, lane', after[|before|..])
       case Some(m) =>
         HostBound(w, i, j, m) &&
         ((after == before && Loses(lane, lane', m)) || (after == before + [m] && lane' == lane))
  }

  // ---- dispatches -------------------------------------------------------------------------

  function If(c: bool, m: Message): seq<Message> { if c then [m] else [] }

  predicate GoesUp(n: Node, r: Message) { ToHost(n, r) && !Full(n.hivemind) }

  predicate GoesOff(n: Node, r: Message, forwarding: bool) { ToNetwork(n, r, forwarding) && !Full(n.broadcast) }

  lemma PushedUp(w: World, i: nat, j: nat, host: seq<Message>, q: seq<Message>, r: Message)
    requires !Full(q)
    ensures Part(w, i, j, host + Push(q, r)) == Part(w, i, j, host + q) + If(HostBound(w, i, j, r), r)
  {
    assert host + (q + [r]) == host + q + [r];
    PartSnoc(w, i, j, host + q, r);
  }

  lemma DispatchUp(w: World, i: nat, j: nat, st: Station, m: Message, fwd: bool)
    requires PassedOn(st.node, m, w.listMax).Some?
    ensures var st' := AfterDispatch(st, m, fwd, w.listMax); var r := PassedOn(st.node, m, w.listMax).value;
      Part(w, i, j, st'.host + st'.node.hivemind)
      == Part(w, i, j, st.host + st.node.hivemind) + If(GoesUp(st.node, r) && HostBound(w, i, j, r), r)
  {
    DispatchPlaces(st.node, m, fwd, w.listMax);
    var r := PassedOn(st.node, m, w.listMax).value;
    if GoesUp(st.node, r) {
      PushedUp(w, i, j, st.host, st.node.hivemind, r);
    } else {
      assert AfterDispatch(st, m, fwd, w.listMax).node.hivemind == st.node.hivemind;
    }
  }

  lemma DispatchOff(w: World, i: nat, j: nat, st: Station, m: Message, fwd: bool)
    requires PassedOn(st.node, m, w.listMax).Some?
    ensures var st' := AfterDispatch(st, m, fwd, w.listMax); var r := PassedOn(st.node, m, w.listMax).value;
      Part(w, i, j, st'.node.broadcast)
      == Part(w, i, j, st.node.broadcast)
         + If(GoesOff(st.node, r, fwd || Handles(st.node, m)) && HostBound(w, i, j, r), r)
  {
    DispatchPlaces(st.node, m, fwd, w.listMax);
    var r := PassedOn(st.node, m, w.listMax).value;
    if GoesOff(st.node, r, fwd || Handles(st.node, m)) {
      PartSnoc(w, i, j, st.node.broadcast, r);
    } else {
      assert AfterDispatch(st, m, fwd, w.listMax).node.broadcast == st.node.broadcast;
    }
  }

  lemma DispatchIssues(st: Station, m: Message, fwd: bool, listMax: u8)
    requires PassedOn(st.node, m, listMax).Some?
    ensures var st' := AfterDispatch(st, m, fwd, listMax); var r := PassedOn(st.node, m, listMax).value;
      var own := fwd || Handles(st.node, m);
      && st'.issued == st.issued + If((GoesUp(st.node, r) || GoesOff(st.node, r, own)) && own, r)
      && !(GoesUp(st.node, r) && GoesOff(st.node, r, own))
  {
    DispatchPlaces(st.node, m, fwd, listMax);
    var r := PassedOn(st.node, m, listMax).value;
    assert !Full(st.node.hivemind) ==> |Push(st.node.hivemind, r)| != |st.node.hivemind|;
    assert !Full(st.node.broadcast) ==> |Push(st.node.broadcast, r)| != |st.node.broadcast|;
  }

  lemma DispatchNothing(st: Station, m: Message, fwd: bool, listMax: u8)
    requires PassedOn(st.node, m, listMax).None?
    ensures var st' := AfterDispatch(st, m, fwd, listMax);
      st'.node.hivemind == st.node.hivemind && st'.node.broadcast == st.node.broadcast && st'.issued == st.issued
  {
    DispatchPlaces(st.node, m, fwd, listMax);
  }

  /** The message a dispatch queues, and where. */
  lemma DispatchParts(w: World, i: nat, j: nat, st: Station, m: Message, fwd: bool)
    ensures var st' := AfterDispatch(st, m, fwd, w.listMax); var out := PassedOn(st.node, m, w.listMax);
      && st'.host == st.host && st'.inbox == st.inbox
      && (out.None? ==> st'.node.hivemind == st.node.hivemind && st'.node.broadcast == st.node.broadcast
                        && st'.issued == st.issued)
      && (out.Some? ==>
            var r := out.value;
            var up, off := GoesUp(st.node, r), GoesOff(st.node, r, fwd || Handles(st.node, m));
            && Part(w, i, j, st'.host + st'.node.hivemind)
               == Part(w, i, j, st.host + st.node.hivemind) + If(up && HostBound(w, i, j, r), r)
            && Part(w, i, j, st'.node.broadcast)
               == Part(w, i, j, st.node.broadcast) + If(off && HostBound(w, i, j, r), r)
            && st'.issued == st.issued + If((up || off) && (fwd || Handles(st.node, m)), r)
            && !(up && off))
  {
    if PassedOn(st.node, m, w.listMax).Some? {
      DispatchUp(w, i, j, st, m, fwd);
      DispatchOff(w, i, j, st, m, fwd);
      DispatchIssues(st, m, fwd, w.listMax);
    } else {
      DispatchNothing(st, m, fwd, w.listMax);
    }
  }

  /** Who a message passed on comes from. */
  lemma PassedSource(n: Node, m: Message, listMax: u8)
    ensures var out := PassedOn(n, m, listMax);
      out.Some? ==> if Handles(n, m) then Answers(m, out.value) && out.value.src == n.uuid else out.value == m
  {
    if m.body.Hive? && m.dst == n.uuid {
      HandledQueues(n, m, listMax);
    }
  }

  /** The lane in parts, before and after. */
  lemma LaneParts(w: World, s: Swarm, s': Swarm, i: nat, j: nat, more: seq<Message>)
    requires i < |s.stations| == |s'.stations| && j < |s.stations|
    requires var e, e' := s.stations[j], s'.stations[j];
      var b, b' := s.stations[i].node.broadcast, s'.stations[i].node.broadcast;
      if i == j then
        Part(w, i, j, e'.host + e'.node.hivemind) == Part(w, i, j, e.host + e.node.hivemind)
        || Part(w, i, j, e'.host + e'.node.hivemind) == Part(w, i, j, e.host + e.node.hivemind) + Part(w, i, j, more)
      else
        && Part(w, i, j, e'.host + e'.node.hivemind) == Part(w, i, j, e.host + e.node.hivemind)
        && Part(w, i, j, e'.inbox) == Part(w, i, j, e.inbox)
        && Part(w, i, j, b') == Part(w, i, j, b) + Part(w, i, j, more)
    requires s'.stations[i].issued == s.stations[i].issued + more
    ensures LaneStep(w, s, s', i, j, None)
  {
    assert s'.stations[i].issued[|s.stations[i].issued|..] == more;
    var e, e' := s.stations[j], s'.stations[j];
    var h, q := Part(w, i, j, e.host + e.node.hivemind), Part(w, i, j, e.inbox);
    var b := Part(w, i, j, s.stations[i].node.broadcast);
    assert h + (q + (b + Part(w, i, j, more))) == h + (q + b) + Part(w, i, j, more);
  }

  lemma IfPart(w: World, i: nat, j: nat, c: bool, m: Message)
    ensures Part(w, i, j, If(c, m)) == If(c && HostBound(w, i, j, m), m)
  {
    PartSnoc(w, i, j, [], m);
    assert [] + [m] == [m];
  }

  /** What a module passes on for its host comes from no other station. */
  lemma InjectForeign(w: World, s: Swarm, a: nat, m: Message, i: nat, j: nat)
    requires ValidWorld(w) && Inv(w, s) && a < |s.stations| && m.src == w.ids[a] && i < |s.stations| && i != a
    ensures var out := PassedOn(s.stations[a].node, m, w.listMax); out.Some? ==> !HostBound(w, i, j, out.value)
  {
    PassedSource(s.stations[a].node, m, w.listMax);
    assert StationOk(w, s, a, s.stations[a]);
  }

  lemma InjectElsewhere(w: World, s: Swarm, a: nat, m: Message, i: nat, j: nat)
    requires ValidWorld(w) && Inv(w, s) && a < |s.stations| && m.src == w.ids[a]
    requires i < |s.stations| && j < |s.stations| && i != a
    ensures LaneStep(w, s, DoInject(w, s, a, m), i, j, None)
  {
    var st, s' := s.stations[a], DoInject(w, s, a, m);
    InjectStationIs(w, s, a, m);
    DispatchParts(w, i, j, st, m, true);
    InjectForeign(w, s, a, m, i, j);
    var b := Part(w, i, j, s.stations[i].node.broadcast);
    assert Part(w, i, j, []) == [] && b + [] == b;
    LaneParts(w, s, s', i, j, []);
  }

  /** What host a wrote for itself, or all, and what its module answers it. */
  lemma InjectBack(w: World, s: Swarm, a: nat, m: Message)
    requires a < |s.stations| == |w.ids|
    ensures LaneStep(w, s, DoInject(w, s, a, m), a, a, None)
  {
    var st, s' := s.stations[a], DoInject(w, s, a, m);
    var out := PassedOn(st.node, m, w.listMax);
    InjectStationIs(w, s, a, m);
    DispatchParts(w, a, a, st, m, true);
    if out.None? {
      LaneParts(w, s, s', a, a, []);
    } else {
      var r := out.value;
      var up := GoesUp(st.node, r);
      var off := GoesOff(st.node, r, true);
      IfPart(w, a, a, up || off, r);
      LaneParts(w, s, s', a, a, If(up || off, r));
    }
  }

  /** What goes to the own host is not for another one, unless it is an early message for everyone. */
  lemma InjectedUp(w: World, s: Swarm, a: nat, m: Message, j: nat)
    requires ValidWorld(w) && Inv(w, s) && a < |s.stations| && m.src == w.ids[a] && j < |w.ids| && j != a
    requires PassedOn(s.stations[a].node, m, w.listMax).Some?
    ensures var n := s.stations[a].node; var r := PassedOn(n, m, w.listMax).value;
      ToHost(n, r) && HostBound(w, a, j, r) ==> m.dst == 0 && n.uuid == 0
    {
    assert StationOk(w, s, a, s.stations[a]);
    PassedSource(s.stations[a].node, m, w.listMax);
  }

  lemma InjectOut(w: World, s: Swarm, a: nat, m: Message, j: nat)
    requires ValidWorld(w) && Inv(w, s) && a < |s.stations| && m.src == w.ids[a] && j < |s.stations| && j != a
    requires !(m.dst == 0 && s.stations[a].node.uuid == 0)
    ensures LaneStep(w, s, DoInject(w, s, a, m), a, j, None)
  {
    var st, s' := s.stations[a], DoInject(w, s, a, m);
    var out := PassedOn(st.node, m, w.listMax);
    InjectStationIs(w, s, a, m);
    DispatchParts(w, a, j, st, m, true);
    if out.None? {
      LaneParts(w, s, s', a, j, []);
    } else {
      var r := out.value;
      var up := GoesUp(st.node, r);
      var off := GoesOff(st.node, r, true);
      InjectedUp(w, s, a, m, j);
      IfPart(w, a, j, up || off, r);
      LaneParts(w, s, s', a, j, If(up || off, r));
    }
  }

  /** What a module without an id does with a message of its host for everyone. */
  lemma EarlyPlaces(w: World, s: Swarm, a: nat, m: Message)
    requires ValidWorld(w) && Inv(w, s) && a < |s.stations| && m.src == w.ids[a]
    requires m.dst == 0 && s.stations[a].node.uuid == 0
    ensures var n := s.stations[a].node; var out := PassedOn(n, m, w.listMax);
      if Passes(m.body) then out == Some(m) && ToHost(n, m) && !ToNetwork(n, m, true)
      else out.Some? ==> !ToHost(n, out.value) && !ToNetwork(n, out.value, true)
  {
    PassedSource(s.stations[a].node, m, w.listMax);
    NotListed(w, s, a, s.stations[a]);
  }

  lemma InjectKept(w: World, s: Swarm, a: nat, m: Message, j: nat)
    requires ValidWorld(w) && Inv(w, s) && a < |s.stations| && m.src == w.ids[a] && j < |s.stations| && j != a
    requires m.dst == 0 && s.stations[a].node.uuid == 0 && !m.body.Network?
    ensures LaneStep(w, s, DoInject(w, s, a, m), a, j, if EarlyForAll(s.stations[a].node, m) then Some(m) else None)
  {
    var st, s' := s.stations[a], DoInject(w, s, a, m);
    InjectStationIs(w, s, a, m);
    EarlyPlaces(w, s, a, m);
    DispatchParts(w, a, j, st, m, true);
    if EarlyForAll(st.node, m) {
      assert Lane(w, s', a, j) == Lane(w, s, a, j);
    } else {
      LaneParts(w, s, s', a, j, []);
    }
  }

  // ---- receive ------------------------------------------------------------------------------

  /** An arrived message is from another station, and a request is from another host. */
  lemma ArrivedSource(w: World, s: Swarm, a: nat, m: Message)
    requires ValidWorld(w) && Inv(w, s) && a < |s.stations| && m in s.stations[a].inbox
    ensures m.src != w.ids[a] && (IsRequest(m.body) ==> m.src != 0)
  {
    assert FromOther(w, s, a, m);
    var k: nat :| k != a && Issued(w, s, k, m);
    SourceOf(w, s, k, m);
  }

  /** What a dispatch of an arrived message can queue: the message for the host, or an answer for the network. */
  lemma ReceivedPlaces(w: World, s: Swarm, a: nat)
    requires ValidWorld(w) && Inv(w, s) && a < |s.stations| && s.stations[a].inbox != []
    ensures var n, m := s.stations[a].node, s.stations[a].inbox[0];
      var out := PassedOn(n, m, w.listMax);
      && (n.uuid == 0 || n.uuid == w.ids[a]) && m.src != w.ids[a]
      && (out.Some? ==> if Handles(n, m) then out.value.src == n.uuid && !ToHost(n, out.value)
                        else out.value == m && !ToNetwork(n, out.value, false))
  {
    var n, m := s.stations[a].node, s.stations[a].inbox[0];
    assert m in s.stations[a].inbox && StationOk(w, s, a, s.stations[a]);
    ArrivedSource(w, s, a, m);
    PassedSource(n, m, w.listMax);
  }

  /** A message for host a, received: it moves on unless it is dropped. */
  lemma ReceivedMoves(w: World, s: Swarm, a: nat, i: nat)
    requires ValidWorld(w) && Inv(w, s) && a < |s.stations| && s.stations[a].inbox != []
    requires HostBound(w, i, a, s.stations[a].inbox[0])
    ensures var n, m := s.stations[a].node, s.stations[a].inbox[0];
      var out := PassedOn(n, m, w.listMax);
      Drops(w, s, Receive(a), i, a) <==> !(out == Some(m) && ToHost(n, m) && !Full(n.hivemind))
  {
    ReceivedPlaces(w, s, a);
  }

  /** The head of the middle part moves up, or is gone. */
  lemma MoveUp(h: seq<Message>, m: Message, q: seq<Message>, b: seq<Message>, stays: bool)
    ensures var lane, lane' := h + ([m] + q + b), h + If(stays, m) + (q + b);
      if stays then lane' == lane else Loses(lane, lane', m)
  {
    assert h + ([m] + q + b) == h + [m] + (q + b);
    assert stays || h + If(stays, m) + (q + b) == h + (q + b);
  }

  /** A lane that stayed the same, or lost one message, while station i issued nothing. */
  lemma LaneMoved(w: World, s: Swarm, s': Swarm, i: nat, j: nat, m: Message, stays: bool)
    requires i < |s.stations| == |s'.stations| && j < |s.stations|
    requires s'.stations[i].issued == s.stations[i].issued && HostBound(w, i, j, m)
    requires var lane, lane' := Lane(w, s, i, j), Lane(w, s', i, j);
      if stays then lane' == lane else Loses(lane, lane', m)
    ensures LaneStep(w, s, s', i, j, if stays then None else Some(m))
  {
    assert s'.stations[i].issued[|s.stations[i].issued|..] == [];
    assert Lane(w, s, i, j) + [] == Lane(w, s, i, j);
  }

  /** The head of the inbox moves up or is lost. */
  lemma InboxMoves(w: World, s: Swarm, s': Swarm, i: nat, j: nat, m: Message, stays: bool)
    requires i < |s.stations| == |s'.stations| && j < |s.stations| && i != j && HostBound(w, i, j, m)
    requires s'.stations[i].issued == s.stations[i].issued
    requires s'.stations[i].node.broadcast == s.stations[i].node.broadcast
    requires var e, e' := s.stations[j], s'.stations[j];
      && Part(w, i, j, e'.host + e'.node.hivemind) == Part(w, i, j, e.host + e.node.hivemind) + If(stays, m)
      && Part(w, i, j, e.inbox) == [m] + Part(w, i, j, e'.inbox)
    ensures LaneStep(w, s, s', i, j, if stays then None else Some(m))
  {
    MoveUp(Part(w, i, j, s.stations[j].host + s.stations[j].node.hivemind), m, Part(w, i, j, s'.stations[j].inbox),
           Part(w, i, j, s.stations[i].node.broadcast), stays);
    LaneMoved(w, s, s', i, j, m, stays);
  }

  lemma MoveLast(h: seq<Message>, q: seq<Message>, m: Message, b: seq<Message>, stays: bool)
    ensures var lane, lane' := h + (q + ([m] + b)), h + (q + If(stays, m) + b);
      if stays then lane' == lane else Loses(lane, lane', m)
  {
    assert h + (q + ([m] + b)) == (h + q) + [m] + b;
    assert stays || h + (q + If(stays, m) + b) == (h + q) + b;
    assert stays ==> h + (q + If(stays, m) + b) == (h + q) + [m] + b;
  }

  /** The head of the broadcast queue arrives or is lost. */
  lemma BusMoves(w: World, s: Swarm, s': Swarm, i: nat, j: nat, m: Message, stays: bool)
    requires i < |s.stations| == |s'.stations| && j < |s.stations| && i != j && HostBound(w, i, j, m)
    requires s'.stations[i].issued == s.stations[i].issued
    requires var e, e' := s.stations[j], s'.stations[j];
      && e'.host == e.host && e'.node.hivemind == e.node.hivemind
      && Part(w, i, j, e'.inbox) == Part(w, i, j, e.inbox) + If(stays, m)
      && Part(w, i, j, s.stations[i].node.broadcast) == [m] + Part(w, i, j, s'.stations[i].node.broadcast)
    ensures LaneStep(w, s, s', i, j, if stays then None else Some(m))
  {
    MoveLast(Part(w, i, j, s.stations[j].host + s.stations[j].node.hivemind), Part(w, i, j, s.stations[j].inbox), m,
             Part(w, i, j, s'.stations[i].node.broadcast), stays);
    LaneMoved(w, s, s', i, j, m, stays);
  }

  lemma ReceiveFrom(w: World, s: Swarm, a: nat, i: nat)
    requires ValidWorld(w) && Inv(w, s) && a < |s.stations| && s.stations[a].inbox != []
    requires i < |s.stations| && i != a
    ensures LaneStep(w, s, DoReceive(w, s, a), i, a,
                     if Drops(w, s, Receive(a), i, a) then Some(s.stations[a].inbox[0]) else None)
  {
    var st, s' := s.stations[a], DoReceive(w, s, a);
    var m := st.inbox[0];
    ReceiveStation(w, s, a);
    ReceivedPlaces(w, s, a);
    DispatchParts(w, i, a, st, m, false);
    PartHead(w, i, a, st.inbox);
    if HostBound(w, i, a, m) {
      ReceivedMoves(w, s, a, i);
      InboxMoves(w, s, s', i, a, m, !Drops(w, s, Receive(a), i, a));
    } else {
      LaneParts(w, s, s', i, a, []);
    }
  }

  lemma ReceiveAway(w: World, s: Swarm, a: nat, i: nat, j: nat)
    requires ValidWorld(w) && Inv(w, s) && a < |s.stations| && s.stations[a].inbox != []
    requires i < |s.stations| && j < |s.stations| && i != a && j != a
    ensures LaneStep(w, s, DoReceive(w, s, a), i, j, None)
  {
    ReceiveStation(w, s, a);
    LaneParts(w, s, DoReceive(w, s, a), i, j, []);
  }

  lemma ReceiveOwn(w: World, s: Swarm, a: nat, j: nat)
    requires ValidWorld(w) && Inv(w, s) && a < |s.stations| && s.stations[a].inbox != [] && j < |s.stations|
    ensures LaneStep(w, s, DoReceive(w, s, a), a, j, None)
  {
    var st, s' := s.stations[a], DoReceive(w, s, a);
    var m := st.inbox[0];
    var out := PassedOn(st.node, m, w.listMax);
    ReceiveStation(w, s, a);
    ReceivedPlaces(w, s, a);
    DispatchParts(w, a, j, st, m, false);
    if out.Some? && Handles(st.node, m) {
      var off := GoesOff(st.node, out.value, true);
      IfPart(w, a, j, off, out.value);
      LaneParts(w, s, s', a, j, If(off, out.value));
    } else {
      LaneParts(w, s, s', a, j, []);
    }
  }

  // ---- drain and deliver --------------------------------------------------------------------

  lemma DrainOut(w: World, s: Swarm, a: nat, ok: bool, reach: set<nat>, j: nat)
    requires ValidWorld(w) && Inv(w, s) && Enabled(w, s, Drain(a, ok, reach)) && j < |s.stations| && j != a
    requires HostBound(w, a, j, s.stations[a].node.broadcast[0])
    ensures LaneStep(w, s, DoDrain(w, s, a, ok, reach), a, j,
                     if Arrives(a, ok, reach, j) then None else Some(s.stations[a].node.broadcast[0]))
  {
    var s', m := DoDrain(w, s, a, ok, reach), s.stations[a].node.broadcast[0];
    DrainStation(w, s, a, ok, reach, j);
    DrainStation(w, s, a, ok, reach, a);
    PartSnoc(w, a, j, s.stations[j].inbox, m);
    PartHead(w, a, j, s.stations[a].node.broadcast);
    BusMoves(w, s, s', a, j, m, Arrives(a, ok, reach, j));
  }

  /** What a station has queued for the network comes from it. */
  lemma QueuedSource(w: World, s: Swarm, a: nat, i: nat, j: nat, m: Message)
    requires ValidWorld(w) && Inv(w, s) && a < |s.stations| && m in s.stations[a].node.broadcast
    ensures HostBound(w, i, j, m) ==> i == a
  {
    assert Issued(w, s, a, m);
    SourceOf(w, s, a, m);
  }

  lemma DrainSelf(w: World, s: Swarm, a: nat, ok: bool, reach: set<nat>, j: nat)
    requires a < |s.stations| == |w.ids| && s.stations[a].node.broadcast != [] && j < |s.stations|
    ensures LaneStep(w, s, DoDrain(w, s, a, ok, reach), j, j, None)
  {
    DrainStation(w, s, a, ok, reach, j);
    LaneParts(w, s, DoDrain(w, s, a, ok, reach), j, j, []);
  }

  /** Appending, or taking off the head, a message that is not bound for host j changes no part. */
  lemma PassesBy(w: World, i: nat, j: nat, q: seq<Message>, m: Message)
    requires !HostBound(w, i, j, m)
    ensures Part(w, i, j, q + [m]) == Part(w, i, j, q)
    ensures q != [] && q[0] == m ==> Part(w, i, j, q[1..]) == Part(w, i, j, q)
  {
    PartSnoc(w, i, j, q, m);
    if q != [] && q[0] == m {
      PartHead(w, i, j, q);
      assert [] + Part(w, i, j, q[1..]) == Part(w, i, j, q[1..]);
    }
  }

  lemma DrainInbox(w: World, s: Swarm, a: nat, ok: bool, reach: set<nat>, i: nat, j: nat)
    requires a < |s.stations| == |w.ids| && s.stations[a].node.broadcast != [] && j < |s.stations|
    requires !HostBound(w, i, j, s.stations[a].node.broadcast[0])
    ensures var st, st' := s.stations[j], DoDrain(w, s, a, ok, reach).stations[j];
      && Part(w, i, j, st'.inbox) == Part(w, i, j, st.inbox)
      && st'.host == st.host && st'.node.hivemind == st.node.hivemind
  {
    DrainStation(w, s, a, ok, reach, j);
    PassesBy(w, i, j, s.stations[j].inbox, s.stations[a].node.broadcast[0]);
  }

  lemma DrainBus(w: World, s: Swarm, a: nat, ok: bool, reach: set<nat>, i: nat, j: nat)
    requires a < |s.stations| == |w.ids| && s.stations[a].node.broadcast != [] && i < |s.stations|
    requires !HostBound(w, i, j, s.stations[a].node.broadcast[0])
    ensures var st, st' := s.stations[i], DoDrain(w, s, a, ok, reach).stations[i];
      Part(w, i, j, st'.node.broadcast) == Part(w, i, j, st.node.broadcast) && st'.issued == st.issued
  {
    DrainStation(w, s, a, ok, reach, i);
    PassesBy(w, i, j, s.stations[i].node.broadcast, s.stations[a].node.broadcast[0]);
  }

  lemma DrainAside(w: World, s: Swarm, a: nat, ok: bool, reach: set<nat>, i: nat, j: nat)
    requires a < |s.stations| == |w.ids| && s.stations[a].node.broadcast != []
    requires i < |s.stations| && j < |s.stations| && i != j
    requires !HostBound(w, i, j, s.stations[a].node.broadcast[0])
    ensures LaneStep(w, s, DoDrain(w, s, a, ok, reach), i, j, None)
  {
    DrainInbox(w, s, a, ok, reach, i, j);
    DrainBus(w, s, a, ok, reach, i, j);
    var b := Part(w, i, j, s.stations[i].node.broadcast);
    assert Part(w, i, j, []) == [] && b + [] == b;
    LaneParts(w, s, DoDrain(w, s, a, ok, reach), i, j, []);
  }

  lemma DrainLane(w: World, s: Swarm, a: nat, ok: bool, reach: set<nat>, i: nat, j: nat)
    requires ValidWorld(w) && Inv(w, s) && Enabled(w, s, Drain(a, ok, reach))
    requires i < |s.stations| && j < |s.stations|
    ensures LaneStep(w, s, DoDrain(w, s, a, ok, reach), i, j,
                     if Drops(w, s, Drain(a, ok, reach), i, j) then Some(s.stations[a].node.broadcast[0]) else None)
  {
    var m := s.stations[a].node.broadcast[0];
    QueuedSource(w, s, a, i, j, m);
    if i == j {
      DrainSelf(w, s, a, ok, reach, j);
    } else if HostBound(w, i, j, m) {
      DrainOut(w, s, a, ok, reach, j);
    } else {
      DrainAside(w, s, a, ok, reach, i, j);
    }
  }

  /** A message that fails to be written is lost to the lane. */
  lemma WriteFails(w: World, s: Swarm, a: nat, i: nat)
    requires Enabled(w, s, Deliver(a, false)) && i < |s.stations| && HostBound(w, i, a, s.stations[a].node.hivemind[0])
    ensures LaneStep(w, s, DoDeliver(w, s, a, false), i, a, Some(s.stations[a].node.hivemind[0]))
  {
    var st, s' := s.stations[a], DoDeliver(w, s, a, false);
    var m, tail := st.node.hivemind[0], st.node.hivemind[1..];
    PartAppend(w, i, a, st.host, st.node.hivemind);
    PartHead(w, i, a, st.node.hivemind);
    PartAppend(w, i, a, st.host, tail);
    var e, t := Part(w, i, a, st.host), Part(w, i, a, tail);
    var rest := if i == a then [] else Part(w, i, a, st.inbox) + Part(w, i, a, s.stations[i].node.broadcast);
    assert e + ([m] + t) + rest == e + [m] + (t + rest) && (e + t) + rest == e + (t + rest);
    LaneMoved(w, s, s', i, a, m, false);
  }

  lemma DeliverLane(w: World, s: Swarm, a: nat, ok: bool, i: nat, j: nat)
    requires Enabled(w, s, Deliver(a, ok)) && i < |s.stations| && j < |s.stations|
    ensures LaneStep(w, s, DoDeliver(w, s, a, ok), i, j,
                     if Drops(w, s, Deliver(a, ok), i, j) then Some(s.stations[a].node.hivemind[0]) else None)
  {
    var st := s.stations[a];
    var m, tail := st.node.hivemind[0], st.node.hivemind[1..];
    if j == a && !ok && HostBound(w, i, j, m) {
      WriteFails(w, s, a, i);
    } else {
      if j == a {
        assert st.host + [m] + tail == st.host + st.node.hivemind;
        PartAppend(w, i, j, st.host, st.node.hivemind);
        PartHead(w, i, j, st.node.hivemind);
        PartAppend(w, i, j, st.host, tail);
      }
      LaneParts(w, s, DoDeliver(w, s, a, ok), i, j, []);
    }
  }

  // ---- every action ---------------------------------------------------------------------------

  /** Neither the stations' queues nor what they wrote and issued matter to a greeting or a table. */
  lemma QuietLane(w: World, s: Swarm, a: Action, i: nat, j: nat)
    requires Enabled(w, s, a) && (a.Greet? || a.Forget?) && i < |s.stations| && j < |s.stations|
    ensures LaneStep(w, s, Step(w, s, a), i, j, None)
  {
    if a.Greet? {
      GreetStation(w, s, a.i);
    }
    LaneParts(w, s, Step(w, s, a), i, j, []);
  }

  lemma AnnounceLane(w: World, s: Swarm, a: nat, i: nat, j: nat)
    requires Enabled(w, s, Announce(a)) && i < |s.stations| && j < |s.stations|
    ensures LaneStep(w, s, DoAnnounce(w, s, a), i, j, None)
  {
    PartSnoc(w, i, j, s.stations[a].node.broadcast, Announcement(w, a));
    LaneParts(w, s, DoAnnounce(w, s, a), i, j, []);
  }

  lemma InjectLane(w: World, s: Swarm, a: Action, i: nat, j: nat)
    requires ValidWorld(w) && Inv(w, s) && Enabled(w, s, a) && a.Inject? && i < |s.stations| && j < |s.stations|
    ensures LaneStep(w, s, Step(w, s, a), i, j, if Drops(w, s, a, i, j) then Handled(w, s, a) else None)
  {
    var m := Injected(w, s, a.i, a.dst, a.body);
    if i != a.i {
      InjectElsewhere(w, s, a.i, m, i, j);
    } else if j == i {
      InjectBack(w, s, i, m);
    } else if m.body.Network? {
      LaneParts(w, s, Step(w, s, a), i, j, []);
    } else if m.dst == 0 && s.stations[i].node.uuid == 0 {
      InjectKept(w, s, i, m, j);
    } else {
      InjectOut(w, s, i, m, j);
    }
  }

  lemma ReceiveLane(w: World, s: Swarm, a: nat, i: nat, j: nat)
    requires ValidWorld(w) && Inv(w, s) && Enabled(w, s, Receive(a)) && i < |s.stations| && j < |s.stations|
    ensures LaneStep(w, s, DoReceive(w, s, a), i, j,
                     if Drops(w, s, Receive(a), i, j) then Some(s.stations[a].inbox[0]) else None)
  {
    if i == a {
      ReceivedPlaces(w, s, a);
      ReceiveOwn(w, s, a, j);
    } else if j == a {
      ReceiveFrom(w, s, a, i);
    } else {
      ReceiveAway(w, s, a, i, j);
    }
  }

  /** One step of a lane: it flows, unless the step drops the message it handles. */
  lemma StepLane(w: World, s: Swarm, a: Action, i: nat, j: nat)
    requires ValidWorld(w) && Inv(w, s) && i < |s.stations| && j < |s.stations|
    ensures |Step(w, s, a).stations| == |s.stations|
    ensures LaneStep(w, s, Step(w, s, a), i, j, if Drops(w, s, a, i, j) then Handled(w, s, a) else None)
  {
    if !Enabled(w, s, a) {
      LaneParts(w, s, s, i, j, []);
    } else {
      match a
      case Inject(_, _, _) => InjectLane(w, s, a, i, j);
      case Receive(k) => ReceiveLane(w, s, k, i, j);
      case Drain(k, ok, reach) => DrainLane(w, s, k, ok, reach, i, j);
      case Deliver(k, ok) => DeliverLane(w, s, k, ok, i, j);
      case Announce(k) => AnnounceLane(w, s, k, i, j);
      case _ => QuietLane(w, s, a, i, j);
    }
  }

  // ---- every run ------------------------------------------------------------------------------

  lemma GrowBoth(a: seq<Message>, b: seq<Message>, c: seq<Message>)
    requires Subsequence(a, b) && |c| <= 1
    ensures Subsequence(a, b + c) && Subsequence(a + c, b + c)
  {
    if c == [] {
      assert a + c == a && b + c == b;
    } else {
      assert c == [c[0]];
      SubsequenceSnoc(a, b, c[0]);
    }
  }

  lemma LosesLess(lane: seq<Message>, lane': seq<Message>, m: Message, b: seq<Message>)
    requires Loses(lane, lane', m) && Subsequence(lane, b)
    ensures Subsequence(lane', b)
  {
    var x, y :| lane == x + [m] + y && lane' == x + y;
    SubsequenceDrop(x, m, y, b);
  }

  lemma PartOfOne(w: World, i: nat, j: nat, c: seq<Message>)
    requires |c| <= 1
    ensures Part(w, i, j, c) == [] || Part(w, i, j, c) == c
  {
    if c != [] {
      assert c == [] + [c[0]];
      PartSnoc(w, i, j, [], c[0]);
    }
  }

  lemma LosesSubsequence(w: World, s: Swarm, s': Swarm, i: nat, j: nat, m: Message)
    requires i < |s.stations| == |s'.stations| && j < |s.stations| && LaneStep(w, s, s', i, j, Some(m))
    requires Subsequence(Lane(w, s, i, j), s.stations[i].issued)
    ensures Subsequence(Lane(w, s', i, j), s'.stations[i].issued)
  {
    if Loses(Lane(w, s, i, j), Lane(w, s', i, j), m) && s'.stations[i].issued == s.stations[i].issued {
      LosesLess(Lane(w, s, i, j), Lane(w, s', i, j), m, s.stations[i].issued);
    } else {
      GrowBoth(Lane(w, s, i, j), s.stations[i].issued, [m]);
    }
  }

  lemma FlowsSubsequence(w: World, i: nat, j: nat, lane: seq<Message>, lane': seq<Message>,
                         b: seq<Message>, more: seq<Message>)
    requires Flows(w, i, j, lane, lane', more) && |more| <= 1 && Subsequence(lane, b)
    ensures Subsequence(lane', b + more)
  {
    PartOfOne(w, i, j, more);
    GrowBoth(lane, b, more);
    assert lane + [] == lane;
  }

  lemma StepSubsequence(w: World, s: Swarm, s': Swarm, i: nat, j: nat, lost: Option<Message>)
    requires i < |s.stations| == |s'.stations| && j < |s.stations| && LaneStep(w, s, s', i, j, lost)
    requires |s'.stations[i].issued| <= |s.stations[i].issued| + 1
    requires Subsequence(Lane(w, s, i, j), s.stations[i].issued)
    ensures Subsequence(Lane(w, s', i, j), s'.stations[i].issued)
  {
    match lost
    case Some(m) => LosesSubsequence(w, s, s', i, j, m);
    case None =>
      var before, after := s.stations[i].issued, s'.stations[i].issued;
      assert after == before + after[|before|..];
      FlowsSubsequence(w, i, j, Lane(w, s, i, j), Lane(w, s', i, j), before, after[|before|..]);
  }

  lemma StepIssues(w: World, s: Swarm, a: Action, i: nat)
    requires i < |s.stations| && |Step(w, s, a).stations| == |s.stations|
    ensures |Step(w, s, a).stations[i].issued| <= |s.stations[i].issued| + 1
  {
  }

  lemma {:induction false} LanesOrdered(w: World, storage: Storage, acts: seq<Action>, i: nat, j: nat)
    requires ValidWorld(w) && i < |w.ids| && j < |w.ids|
    ensures var s := Run(w, Start(w, storage), acts);
      |s.stations| == |w.ids| && Subsequence(Lane(w, s, i, j), s.stations[i].issued)
  {
    if acts == [] {
      assert Lane(w, Start(w, storage), i, j) == [];
    } else {
      var s, a := Run(w, Start(w, storage), acts[..|acts| - 1]), acts[|acts| - 1];
      LanesOrdered(w, storage, acts[..|acts| - 1], i, j);
      Reachable(w, storage, acts[..|acts| - 1]);
      StepLane(w, s, a, i, j);
      StepIssues(w, s, a, i);
      StepSubsequence(w, s, Step(w, s, a), i, j, if Drops(w, s, a, i, j) then Handled(w, s, a) else None);
    }
  }

  // ---- nothing dropped, everything there -------------------------------------------------------

  predicate DroppedAt(w: World, storage: Storage, acts: seq<Action>, i: nat, j: nat, k: nat) {
    k < |acts| && Drops(w, Run(w, Start(w, storage), acts[..k]), acts[k], i, j)
  }

  /** Some action of the run keeps a message that station i queued as its own from host j. */
  ghost predicate Dropped(w: World, storage: Storage, acts: seq<Action>, i: nat, j: nat) {
    exists k: nat :: DroppedAt(w, storage, acts, i, j, k)
  }

  lemma DroppedInit(w: World, storage: Storage, acts: seq<Action>, i: nat, j: nat, k: nat)
    requires k < |acts| - 1
    ensures DroppedAt(w, storage, acts, i, j, k) <==> DroppedAt(w, storage, acts[..|acts| - 1], i, j, k)
  {
    assert acts[..|acts| - 1][..k] == acts[..k];
  }

  lemma DroppedSnoc(w: World, storage: Storage, acts: seq<Action>, i: nat, j: nat)
    requires acts != []
    ensures Dropped(w, storage, acts, i, j) <==>
      Dropped(w, storage, acts[..|acts| - 1], i, j) || DroppedAt(w, storage, acts, i, j, |acts| - 1)
  {
    var before := acts[..|acts| - 1];
    if Dropped(w, storage, acts, i, j) {
      var k: nat :| DroppedAt(w, storage, acts, i, j, k);
      if k < |acts| - 1 {
        DroppedInit(w, storage, acts, i, j, k);
      }
    }
    if Dropped(w, storage, before, i, j) {
      var k: nat :| DroppedAt(w, storage, before, i, j, k);
      DroppedInit(w, storage, acts, i, j, k);
    }
  }

  /** The lane is what was queued for host j, or shorter than it. */
  ghost predicate Accounted(lane: seq<Message>, queued: seq<Message>, dropped: bool) {
    if dropped then |lane| < |queued| else lane == queued
  }

  lemma FlowsAccounted(w: World, i: nat, j: nat, lane: seq<Message>, lane': seq<Message>,
                       b: seq<Message>, more: seq<Message>, dropped: bool)
    requires i != j && Flows(w, i, j, lane, lane', more) && Accounted(lane, Part(w, i, j, b), dropped)
    ensures Accounted(lane', Part(w, i, j, b + more), dropped)
  {
    PartAppend(w, i, j, b, more);
  }

  lemma LosesAccounted(w: World, i: nat, j: nat, lane: seq<Message>, lane': seq<Message>,
                       b: seq<Message>, b': seq<Message>, m: Message, dropped: bool)
    requires HostBound(w, i, j, m) && Accounted(lane, Part(w, i, j, b), dropped)
    requires (b' == b && Loses(lane, lane', m)) || (b' == b + [m] && lane' == lane)
    ensures Accounted(lane', Part(w, i, j, b'), true)
  {
    PartSnoc(w, i, j, b, m);
  }

  lemma StepAccounted(w: World, s: Swarm, s': Swarm, i: nat, j: nat, lost: Option<Message>, dropped: bool)
    requires i < |s.stations| == |s'.stations| && j < |s.stations| && i != j && LaneStep(w, s, s', i, j, lost)
    requires Accounted(Lane(w, s, i, j), Part(w, i, j, s.stations[i].issued), dropped)
    ensures Accounted(Lane(w, s', i, j), Part(w, i, j, s'.stations[i].issued), dropped || lost.Some?)
  {
    var before, after := s.stations[i].issued, s'.stations[i].issued;
    match lost
    case Some(m) => LosesAccounted(w, i, j, Lane(w, s, i, j), Lane(w, s', i, j), before, after, m, dropped);
    case None =>
      assert after == before + after[|before|..];
      FlowsAccounted(w, i, j, Lane(w, s, i, j), Lane(w, s', i, j), before, after[|before|..], dropped);
  }

  lemma {:induction false} LanesAccounted(w: World, storage: Storage, acts: seq<Action>, i: nat, j: nat)
    requires ValidWorld(w) && i < |w.ids| && j < |w.ids| && i != j
    ensures var s := Run(w, Start(w, storage), acts);
      |s.stations| == |w.ids|
      && Accounted(Lane(w, s, i, j), Part(w, i, j, s.stations[i].issued), Dropped(w, storage, acts, i, j))
  {
    if acts == [] {
      assert Lane(w, Start(w, storage), i, j) == [];
    } else {
      var before := acts[..|acts| - 1];
      var s, a := Run(w, Start(w, storage), before), acts[|acts| - 1];
      LanesAccounted(w, storage, before, i, j);
      Reachable(w, storage, before);
      StepLane(w, s, a, i, j);
      DroppedSnoc(w, storage, acts, i, j);
      StepAccounted(w, s, Step(w, s, a), i, j, if Drops(w, s, a, i, j) then Handled(w, s, a) else None,
                    Dropped(w, storage, before, i, j));
    }
  }
}
