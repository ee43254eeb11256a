/** Exactly which actions lose which messages, and when everything is delivered. */
module SwarmLosses {
  import opened Messages
  import opened AgentTable
  import opened Routing
  import opened Swarm
  import opened SwarmInvariant
  import opened SwarmPipeline
  import opened SwarmDelivery
  import opened SwarmOrder

  /**
   The action loses the message it handles for station `at`. At injection: a message for
   everyone before the greeting (only its own host keeps it), an unknown destination, or a full
   queue. A failed send, or no room at the receiver. There: a full queue, a module without an
   id, which does not recognise its own, or a request to everyone, which a module with an id
   passes to its host. A failed write to the host.
   */
  predicate Wastes(w: World, s: Swarm, a: Action, at: nat) {
    var h := Handled(w, s, a);
    && h.Some? && Followed(h.value) && at < |w.ids| && Addressed(w, at, h.value)
    && var m, n := h.value, s.stations[a.i].node;
       match a
       case Inject(i, _, _) =>
         if m.dst == n.uuid then at != i || (m.body.Plain? && Full(n.hivemind))
         else Full(n.broadcast) || (m.dst != 0 && !Known(n.agents, m.dst))
       case Drain(i, ok, reach) => at != i && !Arrives(i, ok, reach, at)
       case Receive(i) =>
         at == i && if IsRequest(m.body) then m.dst != n.uuid else Full(n.hivemind) || (n.uuid == 0 && m.dst != 0)
       case Deliver(i, ok) => at == i && !ok && m.body.Plain?
       case _ => false
  }

  lemma InjectWastes(w: World, s: Swarm, a: Action, l: Loss)
    requires ValidWorld(w) && Inv(w, s) && Enabled(w, s, a) && a.Inject?
    ensures var m := Injected(w, s, a.i, a.dst, a.body);
      l in InjectLosses(w, s.stations[a.i], a.i, m) <==> Wastes(w, s, a, l.at) && l.tag == m.tag
  {
    var st, m := s.stations[a.i], Injected(w, s, a.i, a.dst, a.body);
    assert StationOk(w, s, a.i, st);
    DispatchPlaces(st.node, m, true, w.listMax);
    PassedSource(st.node, m, w.listMax);
    NotListed(w, s, a.i, st);
    if l.at < |w.ids| {
      InjectLossesAre(w, st, a.i, m, l.at, l.tag);
      HandledAside(w, s, a.i, m);
    }
  }

  /** A request the module handles itself puts nothing on the network when its own host wrote it. */
  lemma HandledAside(w: World, s: Swarm, i: nat, m: Message)
    requires ValidWorld(w) && Inv(w, s) && i < |s.stations| && m.src == w.ids[i]
    ensures var n := s.stations[i].node; Handles(n, m) ==> Dispatch(n, m, true, w.listMax).0.broadcast == n.broadcast
  {
    InjectQueued(w, s, i, m);
  }

  lemma ReceiveWastes(w: World, s: Swarm, i: nat, l: Loss)
    requires ValidWorld(w) && Inv(w, s) && Enabled(w, s, Receive(i))
    ensures var m := s.stations[i].inbox[0];
      l in DoReceive(w, s, i).lost <==> l in s.lost || (Wastes(w, s, Receive(i), l.at) && l.tag == m.tag)
  {
    var st := s.stations[i];
    assert StationOk(w, s, i, st);
    ReceivedPlaces(w, s, i);
    DispatchPlaces(st.node, st.inbox[0], false, w.listMax);
    PassedSource(st.node, st.inbox[0], w.listMax);
  }

  /** Every loss is caused by one of these actions, and each of them causes it. */
  lemma LossIff(w: World, s: Swarm, a: Action, l: Loss)
    requires ValidWorld(w) && Inv(w, s)
    ensures l in Step(w, s, a).lost <==>
      l in s.lost || (Wastes(w, s, a, l.at) && l.tag == Handled(w, s, a).value.tag)
  {
    if Enabled(w, s, a) {
      match a
      case Inject(_, _, _) => InjectWastes(w, s, a, l);
      case Receive(i) => ReceiveWastes(w, s, i, l);
      case _ =>
    }
  }

  // ---- between two stations -------------------------------------------------------------------

  /** The action loses, for station j, a message that host i wrote for it. */
  predicate WastesFor(w: World, s: Swarm, a: Action, kind: Kind, i: nat, j: nat) {
    Wastes(w, s, a, j) && Rel(w, kind, i, j, Handled(w, s, a).value)
  }

  ghost predicate PairLoss(w: World, s: Swarm, kind: Kind, i: nat, j: nat) {
    exists t: nat :: Loss(t, j) in s.lost && t < |s.injected| && Rel(w, kind, i, j, s.injected[t].msg)
  }

  lemma HandledGenuine(w: World, s: Swarm, a: Action)
    requires ValidWorld(w) && Inv(w, s) && Handled(w, s, a).Some? && Followed(Handled(w, s, a).value)
    ensures var s', m := Step(w, s, a), Handled(w, s, a).value;
      s.injected <= s'.injected && m.tag < |s'.injected| && s'.injected[m.tag].msg == m
  {
    var st := s.stations[a.i];
    match a
    case Inject(_, _, _) =>
    case Drain(k, _, _) => QueuedGenuine(w, s, k, st.node.broadcast[0]);
    case Receive(k) => ArrivedGenuine(w, s, k, st.inbox[0]);
    case Deliver(k, _) => HostGenuine(w, s, k, st.node.hivemind[0]);
  }

  lemma StepGrows(w: World, s: Swarm, a: Action)
    ensures s.injected <= Step(w, s, a).injected && s.lost <= Step(w, s, a).lost
  {
  }

  lemma StepPairLoss(w: World, s: Swarm, a: Action, kind: Kind, i: nat, j: nat)
    requires ValidWorld(w) && Inv(w, s) && LossesKnown(s)
    ensures PairLoss(w, Step(w, s, a), kind, i, j) <==> PairLoss(w, s, kind, i, j) || WastesFor(w, s, a, kind, i, j)
  {
    var s' := Step(w, s, a);
    StepGrows(w, s, a);
    if Handled(w, s, a).Some? && Followed(Handled(w, s, a).value) {
      HandledGenuine(w, s, a);
      LossIff(w, s, a, Loss(Handled(w, s, a).value.tag, j));
    }
    if PairLoss(w, s', kind, i, j) {
      var t: nat :| Loss(t, j) in s'.lost && t < |s'.injected| && Rel(w, kind, i, j, s'.injected[t].msg);
      LossIff(w, s, a, Loss(t, j));
    }
  }

  predicate WastedAt(w: World, storage: Storage, acts: seq<Action>, kind: Kind, i: nat, j: nat, k: nat) {
    k < |acts| && WastesFor(w, Run(w, Start(w, storage), acts[..k]), acts[k], kind, i, j)
  }

  /** Some action of the run loses a message of the pair. */
  ghost predicate Wasted(w: World, storage: Storage, acts: seq<Action>, kind: Kind, i: nat, j: nat) {
    exists k: nat :: WastedAt(w, storage, acts, kind, i, j, k)
  }

  lemma WastedInit(w: World, storage: Storage, acts: seq<Action>, kind: Kind, i: nat, j: nat, k: nat)
    requires k < |acts| - 1
    ensures WastedAt(w, storage, acts, kind, i, j, k) <==> WastedAt(w, storage, acts[..|acts| - 1], kind, i, j, k)
  {
    assert acts[..|acts| - 1][..k] == acts[..k];
  }

  lemma WastedSnoc(w: World, storage: Storage, acts: seq<Action>, kind: Kind, i: nat, j: nat)
    requires acts != []
    ensures Wasted(w, storage, acts, kind, i, j) <==>
      Wasted(w, storage, acts[..|acts| - 1], kind, i, j) || WastedAt(w, storage, acts, kind, i, j, |acts| - 1)
  {
    var before := acts[..|acts| - 1];
    if Wasted(w, storage, acts, kind, i, j) {
      var k: nat :| WastedAt(w, storage, acts, kind, i, j, k);
      if k < |acts| - 1 {
        WastedInit(w, storage, acts, kind, i, j, k);
      }
    }
    if Wasted(w, storage, before, kind, i, j) {
      var k: nat :| WastedAt(w, storage, before, kind, i, j, k);
      WastedInit(w, storage, acts, kind, i, j, k);
    }
  }

  lemma {:induction false} RunPairLoss(w: World, storage: Storage, acts: seq<Action>, kind: Kind, i: nat, j: nat)
    requires ValidWorld(w)
    ensures PairLoss(w, Run(w, Start(w, storage), acts), kind, i, j) <==> Wasted(w, storage, acts, kind, i, j)
  {
    if acts == [] {
    } else {
      var n := |acts| - 1;
      RunPairLoss(w, storage, acts[..n], kind, i, j);
      AlwaysBalanced(w, storage, acts[..n]);
      StepPairLoss(w, Run(w, Start(w, storage), acts[..n]), acts[n], kind, i, j);
      WastedSnoc(w, storage, acts, kind, i, j);
    }
  }

  lemma {:induction false} OwedMembers(w: World, injected: seq<Injection>, lost: set<Loss>,
                                      kind: Kind, i: nat, j: nat, m: Message)
    ensures m in Owed(w, injected, lost, kind, i, j) <==>
      Loss(m.tag, j) !in lost && Rel(w, kind, i, j, m)
      && exists k :: 0 <= k < |injected| && injected[k].msg == m && injected[k].at == i
  {
    if injected == [] {
    } else {
      OwedMembers(w, injected[..|injected| - 1], lost, kind, i, j, m);
    }
  }

  /** All that was injected is owed exactly when nothing of it is lost. */
  lemma OwedAll(w: World, s: Swarm, kind: Kind, i: nat, j: nat)
    requires ValidWorld(w) && Tagged(w, s.injected)
    ensures Owed(w, s.injected, s.lost, kind, i, j) == Owed(w, s.injected, {}, kind, i, j)
      <==> !PairLoss(w, s, kind, i, j)
  {
    if PairLoss(w, s, kind, i, j) {
      var t: nat :| Loss(t, j) in s.lost && t < |s.injected| && Rel(w, kind, i, j, s.injected[t].msg);
      assert InjectionOk(w, s.injected, t);
      OwedMembers(w, s.injected, s.lost, kind, i, j, s.injected[t].msg);
      OwedMembers(w, s.injected, {}, kind, i, j, s.injected[t].msg);
    } else {
      OwedSpared(w, s.injected, s.lost, kind, i, j);
    }
  }

  lemma {:induction false} OwedSpared(w: World, injected: seq<Injection>, lost: set<Loss>, kind: Kind, i: nat, j: nat)
    requires Tagged(w, injected)
    requires forall k :: 0 <= k < |injected| && Rel(w, kind, i, j, injected[k].msg) ==> Loss(k, j) !in lost
    ensures Owed(w, injected, lost, kind, i, j) == Owed(w, injected, {}, kind, i, j)
  {
    if injected == [] {
    } else {
      var n := |injected| - 1;
      assert forall k :: 0 <= k < n ==> InjectionOk(w, injected, k) ==> InjectionOk(w, injected[..n], k);
      OwedSpared(w, injected[..n], lost, kind, i, j);
      assert InjectionOk(w, injected, n);
    }
  }

  /**
   Complete delivery, exactly. In every run, what is delivered to station j of what host i
   wrote for it, or still under way, is all of it, in the order of injection, if and only if
   no action of the run loses a message of this pair. Once the queues between them are empty,
   host j has then received exactly those plain messages.
   */
  lemma CompleteDelivery(w: World, storage: Storage, acts: seq<Action>, kind: Kind, i: nat, j: nat)
    requires ValidWorld(w) && i < |w.ids| && j < |w.ids|
    ensures var s := Run(w, Start(w, storage), acts);
      && |s.stations| == |w.ids|
      && var all := Owed(w, s.injected, {}, kind, i, j);
         && (Pipe(w, s, kind, i, j) == all <==> !Wasted(w, storage, acts, kind, i, j))
         && (s.stations[j].node.hivemind == [] && s.stations[j].inbox == [] && s.stations[i].node.broadcast == [] ==>
               (Flow(w, kind, i, j, if kind == PlainKind then s.stations[j].host else s.stations[j].answered) == all
                <==> !Wasted(w, storage, acts, kind, i, j)))
  {
    AlwaysBalanced(w, storage, acts);
    var s := Run(w, Start(w, storage), acts);
    assert Balanced(w, s, kind, i, j);
    RunPairLoss(w, storage, acts, kind, i, j);
    OwedAll(w, s, kind, i, j);
    assert s.stations[j].host + [] == s.stations[j].host;
  }
}
