/**
 Answers given before the greeting carry 0 as their source, so that no lane between two
 stations follows them. They are counted instead: for one request, no host ever gets more of
 them than other stations have answered it.
 */
module SwarmEarly {
  import opened Bytes
  import opened Messages
  import opened Sequences
  import opened Routing
  import opened Swarm
  import opened SwarmInvariant
  import opened SwarmPipeline
  import opened SwarmDelivery
  import opened SwarmOrder
  import opened SwarmOnce

  /** An answer given before the greeting, to the request with this tag. */
  function Nameless(t: nat): Message -> bool {
    (m: Message) => m.src == 0 && m.tag == t
  }

  function Count(t: nat, q: seq<Message>): nat { |Filter(Nameless(t), q)| }

  function One(c: bool): nat { if c then 1 else 0 }

  lemma CountAppend(t: nat, a: seq<Message>, b: seq<Message>)
    ensures Count(t, a + b) == Count(t, a) + Count(t, b)
  {
    FilterAppend(Nameless(t), a, b);
  }

  lemma CountSnoc(t: nat, q: seq<Message>, m: Message)
    ensures Count(t, q + [m]) == Count(t, q) + One(m.src == 0 && m.tag == t)
  {
    FilterSnoc(Nameless(t), q, m);
  }

  lemma CountHead(t: nat, q: seq<Message>)
    requires q != []
    ensures Count(t, q) == One(q[0].src == 0 && q[0].tag == t) + Count(t, q[1..])
  {
    FilterHead(Nameless(t), q);
  }

  /** What station k holds of them on their way to host j. */
  function Held(s: Swarm, j: nat, t: nat, k: nat): nat
    requires k < |s.stations|
  {
    var st := s.stations[k];
    if k == j then Count(t, st.host) + Count(t, st.node.hivemind) + Count(t, st.inbox)
    else Count(t, st.node.broadcast)
  }

  function Helds(s: Swarm, j: nat, t: nat): (r: seq<nat>)
    ensures |r| == |s.stations|
  {
    seq(|s.stations|, k requires 0 <= k < |s.stations| => Held(s, j, t, k))
  }

  ghost function Gives(s: Swarm, j: nat, t: nat, k: nat): nat
    requires k < |s.stations|
  {
    One(k != j && AnsweredTag(s.stations[k], t))
  }

  /** One for each station other than j that answered the request. */
  ghost function Givers(s: Swarm, j: nat, t: nat): (r: seq<nat>)
    ensures |r| == |s.stations|
  {
    seq(|s.stations|, k requires 0 <= k < |s.stations| => Gives(s, j, t, k))
  }

  ghost predicate Covered(s: Swarm, j: nat, t: nat) { Sum(Helds(s, j, t)) <= Sum(Givers(s, j, t)) }

  // ---- steps that change one station ------------------------------------------------------------

  lemma CoveredAt(s: Swarm, s': Swarm, j: nat, t: nat, a: nat)
    requires a < |s.stations| == |s'.stations| && Covered(s, j, t)
    requires forall k :: 0 <= k < |s.stations| && k != a ==> s'.stations[k] == s.stations[k]
    requires Held(s', j, t, a) + One(a != j && AnsweredTag(s.stations[a], t))
          <= Held(s, j, t, a) + One(a != j && AnsweredTag(s'.stations[a], t))
    ensures Covered(s', j, t)
  {
    SumPoint(Helds(s, j, t), Helds(s', j, t), a);
    SumPoint(Givers(s, j, t), Givers(s', j, t), a);
  }

  /** Pushing a message counts it if it is nameless and finds room. */
  lemma CountPush(t: nat, q: seq<Message>, m: Message)
    ensures Count(t, Push(q, m)) == Count(t, q) + One(!Full(q) && m.src == 0 && m.tag == t)
  {
    CountSnoc(t, q, m);
  }

  /** A host's message has a source, and its own module's answer to it too if it is queued. */
  lemma InjectedNamed(w: World, s: Swarm, a: nat, m: Message)
    requires ValidWorld(w) && Inv(w, s) && a < |s.stations| && m.src == w.ids[a]
    ensures var n := s.stations[a].node; var out := PassedOn(n, m, w.listMax);
      out.Some? && (ToHost(n, out.value) || ToNetwork(n, out.value, true)) ==> out.value.src != 0
  {
    PassedSource(s.stations[a].node, m, w.listMax);
    if m.dst == 0 && s.stations[a].node.uuid == 0 {
      EarlyPlaces(w, s, a, m);
    }
  }

  lemma AnsweredGrows(st: Station, m: Message, fwd: bool, listMax: u8, t: nat)
    ensures var st' := AfterDispatch(st, m, fwd, listMax);
      AnsweredTag(st', t) <==> AnsweredTag(st, t) || (Handles(st.node, m) && m.tag == t)
  {
    var st' := AfterDispatch(st, m, fwd, listMax);
    DispatchRecords(st, m, fwd, listMax);
    if AnsweredTag(st, t) {
      var x :| 0 <= x < |st.answered| && st.answered[x].tag == t;
      assert st'.answered[x].tag == t;
    }
    if Handles(st.node, m) && m.tag == t {
      assert st'.answered[|st.answered|].tag == t;
    }
  }

  lemma InjectCovered(w: World, s: Swarm, a: nat, m: Message, j: nat, t: nat)
    requires ValidWorld(w) && Inv(w, s) && a < |s.stations| && m.src == w.ids[a] && Covered(s, j, t)
    ensures Covered(DoInject(w, s, a, m), j, t)
  {
    var st := s.stations[a];
    InjectStationIs(w, s, a, m);
    InjectedNamed(w, s, a, m);
    DispatchPlaces(st.node, m, true, w.listMax);
    AnsweredGrows(st, m, true, w.listMax, t);
    var out := PassedOn(st.node, m, w.listMax);
    if out.Some? {
      CountPush(t, st.node.hivemind, out.value);
      CountPush(t, st.node.broadcast, out.value);
    }
    CoveredAt(s, DoInject(w, s, a, m), j, t, a);
  }

  /** At the receiver a nameless message moves up or is gone. */
  lemma ReceiveAtReceiver(w: World, s: Swarm, j: nat, t: nat)
    requires ValidWorld(w) && Inv(w, s) && j < |s.stations| && s.stations[j].inbox != []
    ensures Held(DoReceive(w, s, j), j, t, j) <= Held(s, j, t, j)
  {
    var st := s.stations[j];
    var m := st.inbox[0];
    ReceiveStation(w, s, j);
    ReceivedPlaces(w, s, j);
    DispatchPlaces(st.node, m, false, w.listMax);
    CountHead(t, st.inbox);
    CountPush(t, st.node.hivemind, m);
  }

  /** Elsewhere a nameless message is queued only as the first answer to its request. */
  lemma ReceiveElsewhere(w: World, s: Swarm, a: nat, j: nat, t: nat)
    requires ValidWorld(w) && Inv(w, s) && a < |s.stations| && s.stations[a].inbox != [] && a != j
    requires forall i :: 0 <= i < |w.ids| ==> Balanced(w, s, RequestKind, i, a)
    ensures var st, st' := s.stations[a], DoReceive(w, s, a).stations[a];
      Held(DoReceive(w, s, a), j, t, a) + One(AnsweredTag(st, t)) <= Held(s, j, t, a) + One(AnsweredTag(st', t))
  {
    var st := s.stations[a];
    var m := st.inbox[0];
    ReceiveStation(w, s, a);
    ReceivedPlaces(w, s, a);
    DispatchPlaces(st.node, m, false, w.listMax);
    PassedSource(st.node, m, w.listMax);
    AnsweredGrows(st, m, false, w.listMax, t);
    if Handles(st.node, m) {
      FreshRequest(w, s, a);
      CountPush(t, st.node.broadcast, PassedOn(st.node, m, w.listMax).value);
    }
  }

  lemma ReceiveCovered(w: World, s: Swarm, a: nat, j: nat, t: nat)
    requires ValidWorld(w) && Inv(w, s) && a < |s.stations| && s.stations[a].inbox != [] && Covered(s, j, t)
    requires forall i :: 0 <= i < |w.ids| ==> Balanced(w, s, RequestKind, i, a)
    ensures Covered(DoReceive(w, s, a), j, t)
  {
    ReceiveStation(w, s, a);
    if a == j {
      ReceiveAtReceiver(w, s, j, t);
    } else {
      ReceiveElsewhere(w, s, a, j, t);
    }
    CoveredAt(s, DoReceive(w, s, a), j, t, a);
  }

  lemma DeliverCovered(w: World, s: Swarm, a: nat, ok: bool, j: nat, t: nat)
    requires Enabled(w, s, Deliver(a, ok)) && Covered(s, j, t)
    ensures Covered(DoDeliver(w, s, a, ok), j, t)
  {
    CountHead(t, s.stations[a].node.hivemind);
    CountSnoc(t, s.stations[a].host, s.stations[a].node.hivemind[0]);
    CoveredAt(s, DoDeliver(w, s, a, ok), j, t, a);
  }

  lemma QuietCovered(w: World, s: Swarm, a: Action, j: nat, t: nat)
    requires ValidWorld(w) && Enabled(w, s, a) && (a.Greet? || a.Forget? || a.Announce?) && Covered(s, j, t)
    ensures Covered(Step(w, s, a), j, t)
  {
    if a.Greet? {
      GreetStation(w, s, a.i);
    } else if a.Announce? {
      CountPush(t, s.stations[a.i].node.broadcast, Announcement(w, a.i));
    }
    CoveredAt(s, Step(w, s, a), j, t, a.i);
  }

  // ---- drain ------------------------------------------------------------------------------------

  /** The sender holds one less, the receiver at most one more. */
  lemma DrainHelds(w: World, s: Swarm, a: nat, ok: bool, reach: set<nat>, j: nat, t: nat, k: nat)
    requires Enabled(w, s, Drain(a, ok, reach)) && k < |s.stations|
    ensures var m, s' := s.stations[a].node.broadcast[0], DoDrain(w, s, a, ok, reach);
      var c := One(m.src == 0 && m.tag == t);
      && |s'.stations| == |s.stations|
      && (k == j ==> Held(s', j, t, k) <= Held(s, j, t, k) + if a == j then 0 else c)
      && (k == a != j ==> Held(s', j, t, k) + c == Held(s, j, t, k))
      && (k != j && k != a ==> Held(s', j, t, k) == Held(s, j, t, k))
      && s'.stations[k].answered == s.stations[k].answered
  {
    DrainStation(w, s, a, ok, reach, k);
    CountHead(t, s.stations[a].node.broadcast);
    CountSnoc(t, s.stations[k].inbox, s.stations[a].node.broadcast[0]);
  }

  /** Two entries trade, the others stay. */
  lemma SumTrade(p: seq<nat>, q: seq<nat>, a: nat, j: nat, c: nat)
    requires |p| == |q| && a < |p| && (j < |p| ==> j != a && q[j] <= p[j] + c)
    requires q[a] + c == p[a] && forall k :: 0 <= k < |p| && k != a && k != j ==> q[k] == p[k]
    ensures Sum(q) <= Sum(p)
  {
    var mid := p[a := q[a]];
    SumPoint(p, mid, a);
    if j < |p| {
      SumPoint(mid, q, j);
    } else {
      assert mid == q;
    }
  }

  lemma DrainCovered(w: World, s: Swarm, a: nat, ok: bool, reach: set<nat>, j: nat, t: nat)
    requires Enabled(w, s, Drain(a, ok, reach)) && Covered(s, j, t)
    ensures Covered(DoDrain(w, s, a, ok, reach), j, t)
  {
    var s', m := DoDrain(w, s, a, ok, reach), s.stations[a].node.broadcast[0];
    forall k | 0 <= k < |s.stations|
      ensures Givers(s', j, t)[k] == Givers(s, j, t)[k]
    {
      DrainHelds(w, s, a, ok, reach, j, t, k);
    }
    assert Givers(s', j, t) == Givers(s, j, t);
    DrainSums(w, s, a, ok, reach, j, t);
  }

  lemma DrainSums(w: World, s: Swarm, a: nat, ok: bool, reach: set<nat>, j: nat, t: nat)
    requires Enabled(w, s, Drain(a, ok, reach))
    ensures Sum(Helds(DoDrain(w, s, a, ok, reach), j, t)) <= Sum(Helds(s, j, t))
  {
    var s', m := DoDrain(w, s, a, ok, reach), s.stations[a].node.broadcast[0];
    var p, q := Helds(s, j, t), Helds(s', j, t);
    forall k | 0 <= k < |s.stations|
      ensures k != a && k != j ==> q[k] == p[k]
    {
      DrainHelds(w, s, a, ok, reach, j, t, k);
    }
    DrainHelds(w, s, a, ok, reach, j, t, a);
    if j < |s.stations| {
      DrainHelds(w, s, a, ok, reach, j, t, j);
    }
    if a == j {
      SumPoint(p, q, a);
    } else {
      SumTrade(p, q, a, j, One(m.src == 0 && m.tag == t));
    }
  }

  // ---- every run ----------------------------------------------------------------------------------

  lemma StepCovered(w: World, s: Swarm, a: Action, j: nat, t: nat)
    requires ValidWorld(w) && Inv(w, s) && Covered(s, j, t)
    requires forall k, i :: 0 <= i < |w.ids| && 0 <= k < |w.ids| ==> Balanced(w, s, RequestKind, i, k)
    ensures Covered(Step(w, s, a), j, t)
  {
    if Enabled(w, s, a) {
      match a
      case Inject(k, dst, body) => InjectCovered(w, s, k, Injected(w, s, k, dst, body), j, t);
      case Receive(k) => ReceiveCovered(w, s, k, j, t);
      case Drain(k, ok, reach) => DrainCovered(w, s, k, ok, reach, j, t);
      case Deliver(k, ok) => DeliverCovered(w, s, k, ok, j, t);
      case _ => QuietCovered(w, s, a, j, t);
    }
  }

  lemma {:induction false} AlwaysCovered(w: World, storage: Storage, acts: seq<Action>, j: nat, t: nat)
    requires ValidWorld(w)
    ensures Covered(Run(w, Start(w, storage), acts), j, t)
  {
    if acts == [] {
      SumZero(Helds(Start(w, storage), j, t));
    } else {
      AlwaysCovered(w, storage, acts[..|acts| - 1], j, t);
      AlwaysBalanced(w, storage, acts[..|acts| - 1]);
      StepCovered(w, Run(w, Start(w, storage), acts[..|acts| - 1]), acts[|acts| - 1], j, t);
    }
  }
}
