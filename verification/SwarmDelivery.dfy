/** The pipeline equation holds in every run, and what follows from it for delivery. */
module SwarmDelivery {
  import opened Bytes
  import opened Messages
  import opened Routing
  import opened Swarm
  import opened SwarmInvariant
  import opened SwarmPipeline

  ghost predicate Balanced(w: World, s: Swarm, kind: Kind, i: nat, j: nat)
    requires i < |s.stations| && j < |s.stations|
  {
    Pipe(w, s, kind, i, j) == Owed(w, s.injected, s.lost, kind, i, j)
  }

  /** Only tags already given out are lost. */
  ghost predicate LossesKnown(s: Swarm) {
    forall l :: l in s.lost ==> l.tag < |s.injected|
  }

  /** The dispatch kept the message at this station: handled it, or queued it for the host. */
  predicate Kept(n: Node, m: Message, n': Node) {
    Handles(n, m) || (m.body.Plain? && n'.hivemind != n.hivemind)
  }

  lemma FollowedWrote(w: World, s: Swarm, i: nat, m: Message)
    requires Issued(w, s, i, m) && Followed(m)
    ensures HostWrote(s, i, m)
  {
  }

  /** Unchanged flows and unchanged debts keep the books balanced. */
  lemma SameFlows(w: World, s: Swarm, s': Swarm, kind: Kind, i: nat, j: nat)
    requires i < |s.stations| == |s'.stations| && j < |s.stations| && Balanced(w, s, kind, i, j)
    requires Owed(w, s'.injected, s'.lost, kind, i, j) == Owed(w, s.injected, s.lost, kind, i, j) + []
    requires Flow(w, kind, i, j, End(kind, s'.stations[j])) == Flow(w, kind, i, j, End(kind, s.stations[j]))
    requires Flow(w, kind, i, j, s'.stations[j].inbox) == Flow(w, kind, i, j, s.stations[j].inbox)
    requires Flow(w, kind, i, j, s'.stations[i].node.broadcast) == Flow(w, kind, i, j, s.stations[i].node.broadcast)
    ensures Balanced(w, s', kind, i, j)
  {
  }

  // ---- one dispatch and the pipeline's two ends ---------------------------------------

  lemma EndGrows(w: World, kind: Kind, i: nat, j: nat, st: Station, m: Message, fwd: bool)
    ensures var st' := AfterDispatch(st, m, fwd, w.listMax);
      Flow(w, kind, i, j, End(kind, st')) == Flow(w, kind, i, j, End(kind, st))
        + if Rel(w, kind, i, j, m) && Kept(st.node, m, st'.node) then [m] else []
  {
    var n, n' := st.node, Dispatch(st.node, m, fwd, w.listMax).0;
    DispatchQueues(n, m, fwd, w.listMax);
    if m.body.Hive? && m.dst == n.uuid {
      HandledQueues(n, m, w.listMax);
    }
    match kind
    case PlainKind =>
      if n'.hivemind != n.hivemind {
        var r := PassedOn(n, m, w.listMax).value;
        assert st.host + (n.hivemind + [r]) == st.host + n.hivemind + [r];
        FlowSnoc(w, kind, i, j, st.host + n.hivemind, r);
      }
    case RequestKind =>
      if Handles(n, m) {
        FlowSnoc(w, kind, i, j, st.answered, m);
      }
  }

  lemma BroadcastGrows(w: World, kind: Kind, i: nat, j: nat, n: Node, m: Message, fwd: bool)
    ensures var n' := Dispatch(n, m, fwd, w.listMax).0;
      Flow(w, kind, i, j, n'.broadcast) == Flow(w, kind, i, j, n.broadcast)
        + if Rel(w, kind, i, j, m) && !Handles(n, m) && n'.broadcast != n.broadcast then [m] else []
  {
    var n' := Dispatch(n, m, fwd, w.listMax).0;
    DispatchQueues(n, m, fwd, w.listMax);
    if m.body.Hive? && m.dst == n.uuid {
      HandledQueues(n, m, w.listMax);
    }
    if n'.broadcast != n.broadcast {
      FlowSnoc(w, kind, i, j, n.broadcast, PassedOn(n, m, w.listMax).value);
    }
  }

  // ---- receive ------------------------------------------------------------------------

  lemma LossesAtStep(w: World, lost: set<Loss>, at: set<nat>, j: nat, m: Message, stays: bool)
    requires j < |w.ids| && (stays ==> j !in at) && (!stays ==> j in at)
    ensures LossStep(w, lost, lost + LossesAt(w, m, at), j, m, stays)
  {
  }

  lemma NoLossStep(w: World, lost: set<Loss>, j: nat, m: Message)
    ensures LossStep(w, lost, lost, j, m, true)
  {
  }

  function ReceiveKept(w: World, st: Station, m: Message): bool {
    Kept(st.node, m, Dispatch(st.node, m, false, w.listMax).0)
  }

  lemma ReceiveLoss(w: World, s: Swarm, a: nat, j: nat)
    requires a < |s.stations| == |w.ids| && s.stations[a].inbox != [] && j < |s.stations|
    ensures var st := s.stations[a];
      LossStep(w, s.lost, DoReceive(w, s, a).lost, j, st.inbox[0], j != a || ReceiveKept(w, st, st.inbox[0]))
  {
    var st := s.stations[a];
    if ReceiveKept(w, st, st.inbox[0]) {
      NoLossStep(w, s.lost, j, st.inbox[0]);
    } else {
      LossesAtStep(w, s.lost, {a}, j, st.inbox[0], j != a);
    }
  }

  lemma ReceiveStation(w: World, s: Swarm, a: nat)
    requires a < |s.stations| == |w.ids| && s.stations[a].inbox != []
    ensures var st, s' := s.stations[a], DoReceive(w, s, a);
      && s'.stations == s.stations[a := AfterDispatch(st, st.inbox[0], false, w.listMax).(inbox := st.inbox[1..])]
      && s'.injected == s.injected
  {
  }

  /** The broadcast queue of the dispatching station gains nothing that is in the pipeline. */
  lemma ReceiveBroadcast(w: World, s: Swarm, a: nat, kind: Kind, i: nat, j: nat)
    requires a < |s.stations| == |w.ids| && s.stations[a].inbox != [] && i < |s.stations|
    requires i == a ==> !Rel(w, kind, i, j, s.stations[a].inbox[0])
    ensures Flow(w, kind, i, j, DoReceive(w, s, a).stations[i].node.broadcast)
         == Flow(w, kind, i, j, s.stations[i].node.broadcast)
  {
    BroadcastGrows(w, kind, i, j, s.stations[a].node, s.stations[a].inbox[0], false);
  }

  lemma ReceiveHere(w: World, s: Swarm, a: nat, kind: Kind, i: nat)
    requires a < |s.stations| == |w.ids| && s.stations[a].inbox != []
    requires i < |s.stations| && Balanced(w, s, kind, i, a)
    requires Tagged(w, s.injected) && Genuine(s.injected, s.stations[a].inbox[0])
    requires i == a ==> !Rel(w, kind, i, a, s.stations[a].inbox[0])
    ensures Balanced(w, DoReceive(w, s, a), kind, i, a)
  {
    var st, s' := s.stations[a], DoReceive(w, s, a);
    var m := st.inbox[0];
    var kept := ReceiveKept(w, st, m);
    EndGrows(w, kind, i, a, st, m, false);
    FlowHead(w, kind, i, a, st.inbox);
    ReceiveLoss(w, s, a, a);
    ReceiveStation(w, s, a);
    ReceiveBroadcast(w, s, a, kind, i, a);
    var st' := s'.stations[a];
    assert End(kind, st') == End(kind, AfterDispatch(st, m, false, w.listMax));
    Shift(w, s.injected, s.lost, s'.lost, kind, i, a,
          Flow(w, kind, i, a, End(kind, st)), Flow(w, kind, i, a, st.inbox),
          Flow(w, kind, i, a, s.stations[i].node.broadcast), m, kept,
          Flow(w, kind, i, a, End(kind, st')), Flow(w, kind, i, a, st'.inbox));
  }

  lemma ReceiveElsewhere(w: World, s: Swarm, a: nat, kind: Kind, i: nat, j: nat)
    requires a < |s.stations| == |w.ids| && s.stations[a].inbox != [] && j != a
    requires i < |s.stations| && j < |s.stations| && Balanced(w, s, kind, i, j)
    requires i == a ==> !Rel(w, kind, i, j, s.stations[a].inbox[0])
    ensures Balanced(w, DoReceive(w, s, a), kind, i, j)
  {
    ReceiveStation(w, s, a);
    ReceiveBroadcast(w, s, a, kind, i, j);
    ReceiveLoss(w, s, a, j);
    OwedSame(w, s.injected, s.lost, DoReceive(w, s, a).lost, kind, i, j);
  }

  /** A message that came from the network is genuine, and not from the station it came to. */
  lemma ArrivedGenuine(w: World, s: Swarm, a: nat, m: Message)
    requires ValidWorld(w) && Inv(w, s) && a < |s.stations| && m in s.stations[a].inbox
    ensures Genuine(s.injected, m)
    ensures forall kind, j :: !Rel(w, kind, a, j, m)
  {
    assert FromOther(w, s, a, m);
    var k: nat :| k != a && Issued(w, s, k, m);
    SourceOf(w, s, k, m);
    if Followed(m) {
      FollowedWrote(w, s, k, m);
    }
  }

  lemma ReceiveBalanced(w: World, s: Swarm, a: nat, kind: Kind, i: nat, j: nat)
    requires ValidWorld(w) && Inv(w, s) && a < |s.stations| && s.stations[a].inbox != []
    requires i < |s.stations| && j < |s.stations| && Balanced(w, s, kind, i, j)
    ensures Balanced(w, DoReceive(w, s, a), kind, i, j)
  {
    ArrivedGenuine(w, s, a, s.stations[a].inbox[0]);
    if j == a {
      ReceiveHere(w, s, a, kind, i);
    } else {
      ReceiveElsewhere(w, s, a, kind, i, j);
    }
  }

  // ---- drain --------------------------------------------------------------------------

  lemma DrainLoss(w: World, s: Swarm, a: nat, ok: bool, reach: set<nat>, j: nat)
    requires a < |s.stations| == |w.ids| && s.stations[a].node.broadcast != [] && j < |s.stations|
    ensures LossStep(w, s.lost, DoDrain(w, s, a, ok, reach).lost, j, s.stations[a].node.broadcast[0],
                     j == a || Arrives(a, ok, reach, j))
  {
    var at := set k | k in Everyone(w) && !Arrives(a, ok, reach, k) && k != a;
    LossesAtStep(w, s.lost, at, j, s.stations[a].node.broadcast[0], j == a || Arrives(a, ok, reach, j));
  }

  lemma DrainStation(w: World, s: Swarm, a: nat, ok: bool, reach: set<nat>, j: nat)
    requires a < |s.stations| == |w.ids| && s.stations[a].node.broadcast != [] && j < |s.stations|
    ensures var st := s.stations[j]; var s' := DoDrain(w, s, a, ok, reach); var st' := s'.stations[j];
      && st'.host == st.host && st'.node.hivemind == st.node.hivemind && st'.answered == st.answered
      && st'.inbox == (if Arrives(a, ok, reach, j) then st.inbox + [s.stations[a].node.broadcast[0]] else st.inbox)
      && st'.node.broadcast == (if j == a then st.node.broadcast[1..] else st.node.broadcast)
      && |s'.stations| == |s.stations| && s'.injected == s.injected
  {
  }

  lemma DrainOwn(w: World, s: Swarm, a: nat, ok: bool, reach: set<nat>, kind: Kind, j: nat)
    requires a < |s.stations| == |w.ids| && s.stations[a].node.broadcast != []
    requires j < |s.stations| && Balanced(w, s, kind, a, j)
    requires Tagged(w, s.injected) && Genuine(s.injected, s.stations[a].node.broadcast[0])
    requires j == a ==> !Rel(w, kind, a, j, s.stations[a].node.broadcast[0])
    ensures Balanced(w, DoDrain(w, s, a, ok, reach), kind, a, j)
  {
    var s' := DoDrain(w, s, a, ok, reach);
    var m := s.stations[a].node.broadcast[0];
    DrainLoss(w, s, a, ok, reach, j);
    DrainStation(w, s, a, ok, reach, j);
    DrainStation(w, s, a, ok, reach, a);
    FlowHead(w, kind, a, j, s.stations[a].node.broadcast);
    FlowSnoc(w, kind, a, j, s.stations[j].inbox, m);
    assert End(kind, s'.stations[j]) == End(kind, s.stations[j]);
    ShiftLast(w, s.injected, s.lost, s'.lost, kind, a, j,
              Flow(w, kind, a, j, End(kind, s.stations[j])), Flow(w, kind, a, j, s.stations[j].inbox),
              Flow(w, kind, a, j, s.stations[a].node.broadcast), m, j == a || Arrives(a, ok, reach, j),
              Flow(w, kind, a, j, s'.stations[j].inbox), Flow(w, kind, a, j, s'.stations[a].node.broadcast));
  }

  lemma DrainOwed(w: World, s: Swarm, a: nat, ok: bool, reach: set<nat>, kind: Kind, i: nat, j: nat)
    requires a < |s.stations| == |w.ids| && s.stations[a].node.broadcast != [] && j < |s.stations|
    requires Tagged(w, s.injected) && Genuine(s.injected, s.stations[a].node.broadcast[0])
    requires !Rel(w, kind, i, j, s.stations[a].node.broadcast[0])
    ensures Owed(w, s.injected, DoDrain(w, s, a, ok, reach).lost, kind, i, j) == Owed(w, s.injected, s.lost, kind, i, j)
  {
    var m := s.stations[a].node.broadcast[0];
    var o := Owed(w, s.injected, s.lost, kind, i, j);
    DrainLoss(w, s, a, ok, reach, j);
    assert o + [] + [] == o;
    PassOne(w, s.injected, s.lost, DoDrain(w, s, a, ok, reach).lost, kind, i, j, o, m, [],
            j == a || Arrives(a, ok, reach, j));
  }

  lemma DrainElsewhere(w: World, s: Swarm, a: nat, ok: bool, reach: set<nat>, kind: Kind, i: nat, j: nat)
    requires a < |s.stations| == |w.ids| && s.stations[a].node.broadcast != [] && i != a
    requires i < |s.stations| && j < |s.stations| && Balanced(w, s, kind, i, j)
    requires Tagged(w, s.injected) && Genuine(s.injected, s.stations[a].node.broadcast[0])
    requires !Rel(w, kind, i, j, s.stations[a].node.broadcast[0])
    ensures Balanced(w, DoDrain(w, s, a, ok, reach), kind, i, j)
  {
    DrainOwed(w, s, a, ok, reach, kind, i, j);
    DrainStation(w, s, a, ok, reach, j);
    DrainStation(w, s, a, ok, reach, i);
    FlowSnoc(w, kind, i, j, s.stations[j].inbox, s.stations[a].node.broadcast[0]);
    SameFlows(w, s, DoDrain(w, s, a, ok, reach), kind, i, j);
  }

  /** A queued broadcast is genuine, from its own station, and never addressed to it. */
  lemma QueuedGenuine(w: World, s: Swarm, a: nat, m: Message)
    requires ValidWorld(w) && Inv(w, s) && a < |s.stations| && m in s.stations[a].node.broadcast
    ensures Genuine(s.injected, m)
    ensures forall kind, i, j :: Rel(w, kind, i, j, m) ==> i == a && j != a
  {
    SourceOf(w, s, a, m);
    if Followed(m) {
      FollowedWrote(w, s, a, m);
    }
  }

  lemma DrainBalanced(w: World, s: Swarm, a: nat, ok: bool, reach: set<nat>, kind: Kind, i: nat, j: nat)
    requires ValidWorld(w) && Inv(w, s) && a < |s.stations| && s.stations[a].node.broadcast != []
    requires i < |s.stations| && j < |s.stations| && Balanced(w, s, kind, i, j)
    ensures Balanced(w, DoDrain(w, s, a, ok, reach), kind, i, j)
  {
    QueuedGenuine(w, s, a, s.stations[a].node.broadcast[0]);
    if i == a {
      DrainOwn(w, s, a, ok, reach, kind, j);
    } else {
      DrainElsewhere(w, s, a, ok, reach, kind, i, j);
    }
  }

  // ---- deliver ------------------------------------------------------------------------

  lemma DeliverLoss(w: World, s: Swarm, a: nat, ok: bool, j: nat)
    requires a < |s.stations| == |w.ids| && s.stations[a].node.hivemind != [] && j < |s.stations|
    ensures var m := s.stations[a].node.hivemind[0];
      LossStep(w, s.lost, DoDeliver(w, s, a, ok).lost, j, m, j != a || ok || !m.body.Plain?)
  {
    var m := s.stations[a].node.hivemind[0];
    if ok || !m.body.Plain? {
      NoLossStep(w, s.lost, j, m);
    } else {
      LossesAtStep(w, s.lost, {a}, j, m, j != a);
    }
  }

  lemma DeliverPlain(w: World, s: Swarm, a: nat, ok: bool, i: nat)
    requires a < |s.stations| == |w.ids| && s.stations[a].node.hivemind != []
    requires i < |s.stations| && Balanced(w, s, PlainKind, i, a)
    requires Tagged(w, s.injected) && Genuine(s.injected, s.stations[a].node.hivemind[0])
    ensures Balanced(w, DoDeliver(w, s, a, ok), PlainKind, i, a)
  {
    var kind := PlainKind;
    var st, s' := s.stations[a], DoDeliver(w, s, a, ok);
    var m := st.node.hivemind[0];
    var stays := ok || !m.body.Plain?;
    DeliverLoss(w, s, a, ok, a);
    FlowAppend(w, kind, i, a, st.host, st.node.hivemind);
    FlowHead(w, kind, i, a, st.node.hivemind);
    FlowSnoc(w, kind, i, a, st.host, m);
    FlowAppend(w, kind, i, a, s'.stations[a].host, st.node.hivemind[1..]);
    ShiftFirst(w, s.injected, s.lost, s'.lost, kind, i, a,
               Flow(w, kind, i, a, st.host), Flow(w, kind, i, a, st.node.hivemind),
               Flow(w, kind, i, a, st.inbox), Flow(w, kind, i, a, s.stations[i].node.broadcast), m, stays,
               Flow(w, kind, i, a, s'.stations[a].host), Flow(w, kind, i, a, st.node.hivemind[1..]));
  }

  lemma DeliverRequest(w: World, s: Swarm, a: nat, ok: bool, i: nat, j: nat)
    requires a < |s.stations| == |w.ids| && s.stations[a].node.hivemind != [] && j < |s.stations|
    requires i < |s.stations| && Balanced(w, s, RequestKind, i, j)
    requires Tagged(w, s.injected) && Genuine(s.injected, s.stations[a].node.hivemind[0])
    ensures Balanced(w, DoDeliver(w, s, a, ok), RequestKind, i, j)
  {
    var s', m := DoDeliver(w, s, a, ok), s.stations[a].node.hivemind[0];
    DeliverLoss(w, s, a, ok, j);
    var p := Pipe(w, s, RequestKind, i, j);
    if m.body.Plain? {
      Shift(w, s.injected, s.lost, s'.lost, RequestKind, i, j, p, [], [], m, j != a || ok, p, []);
      assert p + [] + [] == p;
    }
    assert Pipe(w, s', RequestKind, i, j) == p;
  }

  lemma DeliverBalanced(w: World, s: Swarm, a: nat, ok: bool, kind: Kind, i: nat, j: nat)
    requires ValidWorld(w) && Inv(w, s) && a < |s.stations| && s.stations[a].node.hivemind != []
    requires i < |s.stations| && j < |s.stations| && Balanced(w, s, kind, i, j)
    ensures Balanced(w, DoDeliver(w, s, a, ok), kind, i, j)
  {
    HostGenuine(w, s, a, s.stations[a].node.hivemind[0]);
    if kind == RequestKind {
      DeliverRequest(w, s, a, ok, i, j);
    } else if j == a {
      DeliverPlain(w, s, a, ok, i);
    } else {
      DeliverLoss(w, s, a, ok, j);
      OwedSame(w, s.injected, s.lost, DoDeliver(w, s, a, ok).lost, kind, i, j);
    }
  }

  lemma HostGenuine(w: World, s: Swarm, a: nat, m: Message)
    requires Inv(w, s) && a < |s.stations| && (m in s.stations[a].node.hivemind || m in s.stations[a].host)
    ensures Genuine(s.injected, m)
  {
    assert ForHost(w, s, a, m);
    var k: nat :| Issued(w, s, k, m);
    if Followed(m) {
      FollowedWrote(w, s, k, m);
    }
  }

  // ---- inject -------------------------------------------------------------------------

  /** What goes on the network was not for this station, and was not handled here. */
  lemma InjectQueued(w: World, s: Swarm, a: nat, m: Message)
    requires ValidWorld(w) && Inv(w, s) && a < |s.stations| && m.src == w.ids[a]
    ensures var n := s.stations[a].node;
      Dispatch(n, m, true, w.listMax).0.broadcast != n.broadcast ==>
        !Handles(n, m) && m.dst != w.ids[a] && Dispatch(n, m, true, w.listMax).0.hivemind == n.hivemind
  {
    var n := s.stations[a].node;
    DispatchQueues(n, m, true, w.listMax);
    NotListed(w, s, a, s.stations[a]);
    if m.body.Hive? && m.dst == n.uuid {
      HandledQueues(n, m, w.listMax);
    }
  }

  lemma InjectStationIs(w: World, s: Swarm, a: nat, m: Message)
    requires a < |s.stations|
    ensures var s' := DoInject(w, s, a, m); var st := s.stations[a];
      && s'.stations == s.stations[a := AfterDispatch(st, m, true, w.listMax)]
      && s'.injected == s.injected + [Injection(a, m, Waiting(s))]
      && s'.lost == s.lost + InjectLosses(w, st, a, m)
  {
  }

  lemma InjectLossesAre(w: World, st: Station, a: nat, m: Message, j: nat, x: nat)
    requires j < |w.ids|
    ensures var n' := Dispatch(st.node, m, true, w.listMax).0;
      Loss(x, j) in InjectLosses(w, st, a, m) <==>
        && n'.broadcast == st.node.broadcast && x == m.tag && Followed(m) && Addressed(w, j, m)
        && !(Kept(st.node, m, n') && j == a)
  {
  }

  /** Between other stations, and for messages that are not followed, an injection changes nothing. */
  lemma InjectUnrelated(w: World, s: Swarm, a: nat, m: Message, kind: Kind, i: nat, j: nat)
    requires a < |s.stations| == |w.ids| && i < |s.stations| && j < |s.stations|
    requires Tagged(w, s.injected) && m.tag == |s.injected| && Balanced(w, s, kind, i, j)
    requires !Rel(w, kind, i, j, m)
    ensures Balanced(w, DoInject(w, s, a, m), kind, i, j)
  {
    var st, s' := s.stations[a], DoInject(w, s, a, m);
    InjectStationIs(w, s, a, m);
    forall x ensures Loss(x, j) in s'.lost ==> Loss(x, j) in s.lost || x == |s.injected| {
      InjectLossesAre(w, st, a, m, j, x);
    }
    OwedSnoc(w, s.injected, s'.injected[|s.injected|], s.lost, s'.lost, kind, i, j);
    EndGrows(w, kind, i, j, st, m, true);
    BroadcastGrows(w, kind, i, j, st.node, m, true);
    SameFlows(w, s, s', kind, i, j);
  }

  lemma InjectOwed(w: World, s: Swarm, a: nat, m: Message, kind: Kind, j: nat)
    requires a < |s.stations| == |w.ids| && j < |s.stations|
    requires Tagged(w, s.injected) && m.tag == |s.injected| && Rel(w, kind, a, j, m)
    ensures var s' := DoInject(w, s, a, m);
      Owed(w, s'.injected, s'.lost, kind, a, j)
      == Owed(w, s.injected, s.lost, kind, a, j) + if Loss(m.tag, j) in s'.lost then [] else [m]
  {
    var st, s' := s.stations[a], DoInject(w, s, a, m);
    InjectStationIs(w, s, a, m);
    forall x ensures Loss(x, j) in s'.lost ==> Loss(x, j) in s.lost || x == |s.injected| {
      InjectLossesAre(w, st, a, m, j, x);
    }
    OwedSnoc(w, s.injected, s'.injected[|s.injected|], s.lost, s'.lost, kind, a, j);
  }

  lemma InjectRelated(w: World, s: Swarm, a: nat, m: Message, kind: Kind, j: nat)
    requires a < |s.stations| == |w.ids| && j < |s.stations|
    requires Tagged(w, s.injected) && m.tag == |s.injected| && Balanced(w, s, kind, a, j)
    requires Loss(m.tag, j) !in s.lost && Rel(w, kind, a, j, m)
    requires j == a ==>
      Flow(w, kind, a, a, s.stations[a].inbox) == Flow(w, kind, a, a, s.stations[a].node.broadcast) == []
    requires var n := s.stations[a].node;
      Dispatch(n, m, true, w.listMax).0.broadcast != n.broadcast ==>
        !Handles(n, m) && m.dst != w.ids[a] && Dispatch(n, m, true, w.listMax).0.hivemind == n.hivemind
    ensures Balanced(w, DoInject(w, s, a, m), kind, a, j)
  {
    var st, s' := s.stations[a], DoInject(w, s, a, m);
    var n' := Dispatch(st.node, m, true, w.listMax).0;
    InjectStationIs(w, s, a, m);
    InjectOwed(w, s, a, m, kind, j);
    InjectLossesAre(w, st, a, m, j, m.tag);
    EndGrows(w, kind, a, j, st, m, true);
    BroadcastGrows(w, kind, a, j, st.node, m, true);
    var e, q := Flow(w, kind, a, j, End(kind, s.stations[j])), Flow(w, kind, a, j, s.stations[j].inbox);
    var b := Flow(w, kind, a, j, st.node.broadcast);
    if n'.broadcast != st.node.broadcast {
      assert e + q + (b + [m]) == e + q + b + [m];
    } else if j == a && Kept(st.node, m, n') {
      assert e + [m] + q + b == e + q + b + [m];
    }
  }

  lemma InjectBalanced(w: World, s: Swarm, a: nat, m: Message, kind: Kind, i: nat, j: nat)
    requires ValidWorld(w) && Inv(w, s) && LossesKnown(s) && a < |s.stations| && i < |s.stations| && j < |s.stations|
    requires m.src == w.ids[a] && m.tag == |s.injected| && Balanced(w, s, kind, i, j)
    ensures Balanced(w, DoInject(w, s, a, m), kind, i, j)
  {
    if Rel(w, kind, i, j, m) {
      assert i == a;
      InjectQueued(w, s, a, m);
      if j == a {
        forall x | x in s.stations[a].inbox ensures !Rel(w, kind, a, a, x) {
          ArrivedGenuine(w, s, a, x);
        }
        forall x | x in s.stations[a].node.broadcast ensures !Rel(w, kind, a, a, x) {
          QueuedGenuine(w, s, a, x);
        }
        FlowEmpty(w, kind, a, a, s.stations[a].inbox);
        FlowEmpty(w, kind, a, a, s.stations[a].node.broadcast);
      }
      InjectRelated(w, s, a, m, kind, j);
    } else {
      InjectUnrelated(w, s, a, m, kind, i, j);
    }
  }

  // ---- every action, every run ----------------------------------------------------------

  lemma AnnounceStation(w: World, s: Swarm, a: nat, k: nat)
    requires a < |s.stations| == |w.ids| == |w.ips| && k < |s.stations|
    ensures var st, s' := s.stations[k], DoAnnounce(w, s, a); var st' := s'.stations[k];
      && st'.host == st.host && st'.node.hivemind == st.node.hivemind && st'.answered == st.answered
      && st'.inbox == st.inbox
      && (st'.node.broadcast == st.node.broadcast || st'.node.broadcast == st.node.broadcast + [Announcement(w, a)])
      && |s'.stations| == |s.stations| && s'.injected == s.injected && s'.lost == s.lost
  {
  }

  lemma AnnounceBalanced(w: World, s: Swarm, a: nat, kind: Kind, i: nat, j: nat)
    requires a < |s.stations| == |w.ids| == |w.ips|
    requires i < |s.stations| && j < |s.stations| && Balanced(w, s, kind, i, j)
    ensures Balanced(w, DoAnnounce(w, s, a), kind, i, j)
  {
    AnnounceStation(w, s, a, i);
    AnnounceStation(w, s, a, j);
    FlowSnoc(w, kind, i, j, s.stations[i].node.broadcast, Announcement(w, a));
    SameFlows(w, s, DoAnnounce(w, s, a), kind, i, j);
  }

  lemma GreetStation(w: World, s: Swarm, a: nat)
    requires a < |s.stations| == |w.ids|
    ensures var st := s.stations[a];
      DoGreet(w, s, a) == Set(s, a, st.(node := st.node.(uuid := w.ids[a])))
  {
  }

  lemma GreetBalanced(w: World, s: Swarm, a: nat, kind: Kind, i: nat, j: nat)
    requires a < |s.stations| == |w.ids|
    requires i < |s.stations| && j < |s.stations| && Balanced(w, s, kind, i, j)
    ensures Balanced(w, DoGreet(w, s, a), kind, i, j)
  {
    GreetStation(w, s, a);
    assert End(kind, DoGreet(w, s, a).stations[j]) == End(kind, s.stations[j]);
    SameFlows(w, s, DoGreet(w, s, a), kind, i, j);
  }

  lemma ForgetBalanced(w: World, s: Swarm, a: nat, id: u16, kind: Kind, i: nat, j: nat)
    requires a < |s.stations|
    requires i < |s.stations| && j < |s.stations| && Balanced(w, s, kind, i, j)
    ensures Balanced(w, DoForget(s, a, id), kind, i, j)
  {
    assert End(kind, DoForget(s, a, id).stations[j]) == End(kind, s.stations[j]);
    SameFlows(w, s, DoForget(s, a, id), kind, i, j);
  }

  lemma StepBalanced(w: World, s: Swarm, a: Action, kind: Kind, i: nat, j: nat)
    requires ValidWorld(w) && Inv(w, s) && LossesKnown(s)
    requires i < |s.stations| && j < |s.stations| && Balanced(w, s, kind, i, j)
    ensures |Step(w, s, a).stations| == |s.stations| && Balanced(w, Step(w, s, a), kind, i, j)
  {
    if Enabled(w, s, a) {
      match a
      case Inject(k, dst, body) => InjectBalanced(w, s, k, Injected(w, s, k, dst, body), kind, i, j);
      case Drain(k, ok, reach) => DrainBalanced(w, s, k, ok, reach, kind, i, j);
      case Receive(k) => ReceiveBalanced(w, s, k, kind, i, j);
      case Deliver(k, ok) => DeliverBalanced(w, s, k, ok, kind, i, j);
      case Announce(k) => AnnounceBalanced(w, s, k, kind, i, j);
      case Greet(k) => GreetBalanced(w, s, k, kind, i, j);
      case Forget(k, id) => ForgetBalanced(w, s, k, id, kind, i, j);
    }
  }

  lemma StepLossesKnown(w: World, s: Swarm, a: Action)
    requires ValidWorld(w) && Inv(w, s) && LossesKnown(s)
    ensures LossesKnown(Step(w, s, a))
  {
    if Enabled(w, s, a) {
      var st := s.stations[a.i];
      match a
      case Inject(_, _, _) =>
      case Drain(k, _, _) => QueuedGenuine(w, s, k, st.node.broadcast[0]);
      case Receive(k) => ArrivedGenuine(w, s, k, st.inbox[0]);
      case Deliver(k, _) => HostGenuine(w, s, k, st.node.hivemind[0]);
      case _ =>
    }
  }

  /** The pipeline equation, with everything it rests on, in every run. */
  lemma {:induction false} AlwaysBalanced(w: World, storage: Storage, acts: seq<Action>)
    requires ValidWorld(w)
    ensures var s := Run(w, Start(w, storage), acts);
      && |s.stations| == |w.ids| && Inv(w, s) && LossesKnown(s)
      && forall kind, i, j :: 0 <= i < |w.ids| && 0 <= j < |w.ids| ==> Balanced(w, s, kind, i, j)
  {
    if acts == [] {
    } else {
      var s, a := Run(w, Start(w, storage), acts[..|acts| - 1]), acts[|acts| - 1];
      AlwaysBalanced(w, storage, acts[..|acts| - 1]);
      StepKeeps(w, s, a);
      StepLossesKnown(w, s, a);
      forall kind, i, j | 0 <= i < |w.ids| && 0 <= j < |w.ids|
        ensures Balanced(w, Step(w, s, a), kind, i, j)
      {
        StepBalanced(w, s, a, kind, i, j);
      }
    }
  }
}
