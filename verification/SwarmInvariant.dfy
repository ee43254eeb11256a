/** Where every message in the swarm comes from, and what every table entry is worth. */
module SwarmInvariant {
  import opened Bytes
  import opened Messages
  import opened AgentTable
  import opened Routing
  import opened Swarm

  /** Host i wrote exactly this message. */
  ghost predicate HostWrote(s: Swarm, i: nat, m: Message) {
    m.tag < |s.injected| && s.injected[m.tag].at == i && s.injected[m.tag].msg == m
  }

  /** Station k announced itself under this id. */
  ghost predicate Announced(w: World, s: Swarm, k: nat, id: u16) {
    k < |w.ids| && w.ids[k] == id && k in s.announced
  }

  /** Every id listed in this body belongs to a station other than i that announced itself. */
  ghost predicate ListSound(w: World, s: Swarm, i: nat, b: Body) {
    b.Hive? && b.api.AgentsResponse? ==>
      forall a :: a in b.api.agents ==> exists k: nat :: k != i && Announced(w, s, k, a)
  }

  /** Station i answered the request its host or another host injected under this tag. */
  ghost predicate Replied(w: World, s: Swarm, i: nat, m: Message)
    requires i < |w.ids|
  {
    && m.tag < |s.injected| && Answers(s.injected[m.tag].msg, m)
    && (m.src == w.ids[i] || m.src == 0)
    && (m.src == 0 ==> i in s.injected[m.tag].waiting)
    && ListSound(w, s, i, m.body)
  }

  /** Station i is entitled to issue this message. */
  ghost predicate Issued(w: World, s: Swarm, i: nat, m: Message) {
    i < |w.ids| == |w.ips| &&
    match m.body
    case Greeting(_) => false
    case Network(call) =>
      call.IpDiscovery? && m.src == w.ids[i] && m.dst == 0 && call.ip == w.ips[i] && i in s.announced
    case Plain(_) => HostWrote(s, i, m)
    case Hive(_, _) => HostWrote(s, i, m) || Replied(w, s, i, m)
  }

  ghost predicate InjectionOk(w: World, injected: seq<Injection>, k: nat)
    requires k < |injected|
  {
    var inj := injected[k];
    && inj.at < |w.ids| && inj.msg.tag == k && inj.msg.src == w.ids[inj.at] && HostBody(inj.msg.body)
    && forall x :: x in inj.waiting ==> x < |w.ids|
  }

  /** A table entry was announced, with that address, by the other station it names. */
  ghost predicate EntryOk(w: World, s: Swarm, j: nat, e: Entry) {
    exists k: nat :: k != j && Announced(w, s, k, e.id) && k < |w.ips| && w.ips[k] == e.ip
  }

  /** A message queued for, or written to, host j. */
  ghost predicate ForHost(w: World, s: Swarm, j: nat, m: Message)
    requires j < |w.ids|
  {
    && !m.body.Network? && Addressed(w, j, m)
    && (exists i: nat :: Issued(w, s, i, m))
    && (m.body.Hive? && m.dst != 0 ==> IsResponse(m.body))
    && (m.dst == 0 ==>
          && m.tag < |s.injected|
          && (s.injected[m.tag].Greeted() <==> s.injected[m.tag].at != j)
          && (IsRequest(m.body) ==> s.injected[m.tag].at != j))
  }

  /** A host's message for everyone is on the network only if its module had been greeted. */
  ghost predicate Left(s: Swarm, m: Message) {
    m.dst == 0 && !m.body.Network? ==> m.tag < |s.injected| && s.injected[m.tag].Greeted()
  }

  ghost predicate FromOther(w: World, s: Swarm, j: nat, m: Message) {
    exists i: nat :: i != j && Issued(w, s, i, m)
  }

  ghost predicate AnsweredOk(w: World, s: Swarm, j: nat, m: Message)
    requires j < |w.ids|
  {
    && IsRequest(m.body) && Addressed(w, j, m)
    && (exists i: nat :: HostWrote(s, i, m))
    && (m.dst == 0 ==>
          j in s.injected[m.tag].waiting && (s.injected[m.tag].Greeted() <==> s.injected[m.tag].at != j))
  }

  ghost predicate StationOk(w: World, s: Swarm, j: nat, st: Station)
    requires j < |w.ids|
  {
    && (st.node.uuid == 0 || st.node.uuid == w.ids[j])
    && Unique(st.node.agents)
    && (forall e :: e in st.node.agents ==> EntryOk(w, s, j, e))
    && (forall m :: m in st.node.broadcast ==> Issued(w, s, j, m) && m.dst != w.ids[j] && Left(s, m))
    && (forall m :: m in st.inbox ==> FromOther(w, s, j, m) && Left(s, m))
    && (forall m :: m in st.node.hivemind ==> ForHost(w, s, j, m))
    && (forall m :: m in st.host ==> ForHost(w, s, j, m))
    && (forall m :: m in st.answered ==> AnsweredOk(w, s, j, m))
  }

  ghost predicate Inv(w: World, s: Swarm) {
    && |s.stations| == |w.ids|
    && (forall k :: 0 <= k < |s.injected| ==> InjectionOk(w, s.injected, k))
    && (forall j :: 0 <= j < |s.stations| ==> StationOk(w, s, j, s.stations[j]))
    && (forall k :: 0 <= k < |s.injected| ==> Waiting(s) <= s.injected[k].waiting)
  }

  ghost predicate Grows(s: Swarm, s': Swarm) {
    s.injected <= s'.injected && s.announced <= s'.announced
  }

  // ---- growth keeps everything said so far ------------------------------------------

  lemma IssuedGrows(w: World, s: Swarm, s': Swarm, i: nat, m: Message)
    requires Grows(s, s') && Issued(w, s, i, m)
    ensures Issued(w, s', i, m)
  {
    if m.body.Hive? && Replied(w, s, i, m) {
      if m.body.api.AgentsResponse? {
        forall a | a in m.body.api.agents ensures exists k: nat :: k != i && Announced(w, s', k, a) {
          var k: nat :| k != i && Announced(w, s, k, a);
          assert Announced(w, s', k, a);
        }
      }
      assert Replied(w, s', i, m);
    }
  }

  lemma ForHostGrows(w: World, s: Swarm, s': Swarm, j: nat, m: Message)
    requires j < |w.ids| && Grows(s, s') && ForHost(w, s, j, m)
    ensures ForHost(w, s', j, m)
  {
    var i: nat :| Issued(w, s, i, m);
    IssuedGrows(w, s, s', i, m);
  }

  lemma StationGrows(w: World, s: Swarm, s': Swarm, j: nat, st: Station)
    requires j < |w.ids| && Grows(s, s') && StationOk(w, s, j, st)
    ensures StationOk(w, s', j, st)
  {
    forall e | e in st.node.agents ensures EntryOk(w, s', j, e) {
      var k: nat :| k != j && Announced(w, s, k, e.id) && k < |w.ips| && w.ips[k] == e.ip;
      assert Announced(w, s', k, e.id);
    }
    forall m | m in st.node.broadcast ensures Issued(w, s', j, m) {
      IssuedGrows(w, s, s', j, m);
    }
    forall m | m in st.inbox ensures FromOther(w, s', j, m) {
      var i: nat :| i != j && Issued(w, s, i, m);
      IssuedGrows(w, s, s', i, m);
    }
    forall m | m in st.node.hivemind || m in st.host ensures ForHost(w, s', j, m) {
      ForHostGrows(w, s, s', j, m);
    }
    forall m | m in st.answered ensures AnsweredOk(w, s', j, m) {
      var i: nat :| HostWrote(s, i, m);
      assert HostWrote(s', i, m);
    }
  }

  /** The sender field of an issued message: its station, or 0 in an answer given before the greeting. */
  lemma SourceOf(w: World, s: Swarm, i: nat, m: Message)
    requires ValidWorld(w) && Issued(w, s, i, m)
    requires forall k :: 0 <= k < |s.injected| ==> InjectionOk(w, s.injected, k)
    ensures m.src == w.ids[i] || (m.src == 0 && m.dst != 0 && IsResponse(m.body))
    ensures HostWrote(s, i, m) ==> HostBody(m.body) && m.src == w.ids[i]
    ensures !HostWrote(s, i, m) && !m.body.Network? ==> m.dst != 0 && IsResponse(m.body)
  {
    if HostWrote(s, i, m) || !m.body.Network? {
      assert InjectionOk(w, s.injected, m.tag);
    }
  }

  // ---- one dispatch -----------------------------------------------------------------

  /** The agent list a station answers with names only other, announced stations. */
  lemma ListingIsSound(w: World, s: Swarm, j: nat, st: Station, id: u32)
    requires j < |w.ids| && StationOk(w, s, j, st)
    ensures ListSound(w, s, j, Hive(id, AgentsResponse(Listing(st.node.agents, w.listMax))))
  {
    var l := Listing(st.node.agents, w.listMax);
    forall a | a in l ensures exists k: nat :: k != j && Announced(w, s, k, a) {
      var x :| 0 <= x < |l| && l[x] == a;
      assert st.node.agents[x] in st.node.agents;
      assert EntryOk(w, s, j, st.node.agents[x]);
    }
  }

  /** What station j passes on is a message it may issue, if it handled a request; else the message itself. */
  lemma PassedOnIssued(w: World, s: Swarm, j: nat, st: Station, m: Message, i: nat)
    requires ValidWorld(w) && j < |w.ids| && StationOk(w, s, j, st) && Issued(w, s, i, m)
    requires PassedOn(st.node, m, w.listMax).Some?
    requires Handles(st.node, m) && m.dst == 0 ==> j in s.injected[m.tag].waiting
    ensures var r := PassedOn(st.node, m, w.listMax).value;
      && (Handles(st.node, m) ==> Answers(m, r) && Replied(w, s, j, r))
      && (!Handles(st.node, m) ==> r == m)
      && (exists k: nat :: Issued(w, s, k, r))
      && !r.body.Network?
  {
    if m.body.Hive? && m.dst == st.node.uuid {
      HandledQueues(st.node, m, w.listMax);
      if Handles(st.node, m) {
        assert HostWrote(s, i, m);
        ListingIsSound(w, s, j, st, m.body.msgId);
        var r := PassedOn(st.node, m, w.listMax).value;
        assert Replied(w, s, j, r);
        assert Issued(w, s, j, r);
      }
    }
  }

  /** Dispatching a message keeps a station in order, whoever issued the message. */
  lemma DispatchOk(w: World, s: Swarm, j: nat, st: Station, m: Message, i: nat, fwd: bool)
    requires ValidWorld(w) && j < |w.ids| && StationOk(w, s, j, st) && Issued(w, s, i, m)
    requires i == j ==> HostWrote(s, j, m) && (st.node.uuid != 0 ==> s.injected[m.tag].Greeted())
    requires i == j && st.node.uuid == 0 ==> !s.injected[m.tag].Greeted()
    requires i != j ==> !fwd && Left(s, m)
    requires Handles(st.node, m) && m.dst == 0 ==> j in s.injected[m.tag].waiting
    requires forall k :: 0 <= k < |s.injected| ==> InjectionOk(w, s.injected, k)
    ensures StationOk(w, s, j, st.(node := Dispatch(st.node, m, fwd, w.listMax).0))
  {
    var n, n' := st.node, Dispatch(st.node, m, fwd, w.listMax).0;
    DispatchQueues(n, m, fwd, w.listMax);
    DispatchAgents(w, s, j, st, m, i, fwd);
    SourceOf(w, s, i, m);
    assert i != j ==> w.ids[i] != w.ids[j];
    if n'.hivemind != n.hivemind || n'.broadcast != n.broadcast {
      PassedOnIssued(w, s, j, st, m, i);
      var r := PassedOn(n, m, w.listMax).value;
      if n'.hivemind != n.hivemind {
        assert ForHost(w, s, j, r);
      } else {
        assert Issued(w, s, j, r);
        NotListed(w, s, j, st);
      }
    }
  }

  /** No station has itself in its table. */
  lemma NotListed(w: World, s: Swarm, j: nat, st: Station)
    requires ValidWorld(w) && j < |w.ids| && StationOk(w, s, j, st)
    ensures !Known(st.node.agents, w.ids[j])
  {
    forall e | e in st.node.agents ensures e.id != w.ids[j] {
      var k: nat :| k != j && Announced(w, s, k, e.id);
    }
  }

  lemma DispatchAgents(w: World, s: Swarm, j: nat, st: Station, m: Message, i: nat, fwd: bool)
    requires ValidWorld(w) && j < |w.ids| && StationOk(w, s, j, st) && Issued(w, s, i, m)
    requires i == j ==> HostWrote(s, j, m)
    requires forall k :: 0 <= k < |s.injected| ==> InjectionOk(w, s.injected, k)
    ensures var n' := Dispatch(st.node, m, fwd, w.listMax).0;
      && n'.uuid == st.node.uuid && Unique(n'.agents)
      && forall e :: e in n'.agents ==> EntryOk(w, s, j, e)
  {
    SourceOf(w, s, i, m);
    if m.body.Network? {
      var ip := m.body.call.ip;
      if CanRegister(st.node.agents, m.src) {
        UpsertUnique(st.node.agents, m.src, ip);
        forall e | e in Upsert(st.node.agents, m.src, ip) ensures EntryOk(w, s, j, e) {
          UpsertMembers(st.node.agents, m.src, ip, e);
          if e == Entry(m.src, ip) {
            assert i != j && Announced(w, s, i, e.id) && w.ips[i] == e.ip;
          }
        }
      }
    } else if m.body.Hive? && m.dst == st.node.uuid {
      HandledQueues(st.node, m, w.listMax);
    }
  }

  // ---- every action keeps the invariant -----------------------------------------------

  /** One station changed, the rest only saw the history grow. */
  lemma SetKeeps(w: World, s: Swarm, s': Swarm, i: nat, st: Station)
    requires Inv(w, s) && i < |s.stations| && Grows(s, s') && s'.stations == s.stations[i := st]
    requires StationOk(w, s', i, st)
    requires forall k :: 0 <= k < |s'.injected| ==> InjectionOk(w, s'.injected, k)
    requires forall k :: 0 <= k < |s'.injected| ==> Waiting(s') <= s'.injected[k].waiting
    ensures Inv(w, s')
  {
    forall j | 0 <= j < |s'.stations| ensures StationOk(w, s', j, s'.stations[j]) {
      if j != i {
        StationGrows(w, s, s', j, s.stations[j]);
      }
    }
  }

  lemma InjectKeeps(w: World, s: Swarm, i: nat, m: Message)
    requires ValidWorld(w) && Inv(w, s) && i < |s.stations| && HostBody(m.body)
    requires m.src == w.ids[i] && m.tag == |s.injected|
    ensures Inv(w, DoInject(w, s, i, m))
  {
    var st, s' := s.stations[i], DoInject(w, s, i, m);
    InjectStation(w, s, i, m);
    assert forall k :: 0 <= k < |s.injected| ==> s'.injected[k] == s.injected[k] && InjectionOk(w, s.injected, k);
    assert s'.stations[i].node.uuid == st.node.uuid;
    SetKeeps(w, s, s', i, s'.stations[i]);
  }

  lemma InjectStation(w: World, s: Swarm, i: nat, m: Message)
    requires ValidWorld(w) && Inv(w, s) && i < |s.stations| && HostBody(m.body)
    requires m.src == w.ids[i] && m.tag == |s.injected|
    ensures var s' := DoInject(w, s, i, m);
      StationOk(w, s', i, s'.stations[i]) && s'.stations[i].node.uuid == s.stations[i].node.uuid
  {
    var st, s' := s.stations[i], DoInject(w, s, i, m);
    StationGrows(w, s, s', i, st);
    assert forall k :: 0 <= k < |s.injected| ==> s'.injected[k] == s.injected[k] && InjectionOk(w, s.injected, k);
    assert HostWrote(s', i, m);
    if m.body.Network? {
      assert Dispatch(st.node, m, true, w.listMax).0 == st.node;
    } else {
      DispatchOk(w, s', i, st, m, i, true);
      DispatchAgents(w, s', i, st, m, i, true);
    }
    if Handles(st.node, m) {
      assert AnsweredOk(w, s', i, m);
    }
  }

  lemma ReceiveKeeps(w: World, s: Swarm, i: nat)
    requires ValidWorld(w) && Inv(w, s) && i < |s.stations| && s.stations[i].inbox != []
    ensures Inv(w, DoReceive(w, s, i))
  {
    var st, s' := s.stations[i], DoReceive(w, s, i);
    var m := st.inbox[0];
    assert m in st.inbox && FromOther(w, s, i, m);
    var k: nat :| k != i && Issued(w, s, k, m);
    DispatchOk(w, s, i, st, m, k, false);
    DispatchAgents(w, s, i, st, m, k, false);
    StationGrows(w, s, s', i, st.(node := Dispatch(st.node, m, false, w.listMax).0));
    if Handles(st.node, m) {
      assert HostWrote(s, k, m) && AnsweredOk(w, s', i, m);
    }
    assert forall x :: x in st.inbox[1..] ==> x in st.inbox;
    assert StationOk(w, s', i, s'.stations[i]);
    SetKeeps(w, s, s', i, s'.stations[i]);
  }

  lemma DrainKeeps(w: World, s: Swarm, i: nat, ok: bool, reach: set<nat>)
    requires ValidWorld(w) && Inv(w, s) && i < |s.stations| && s.stations[i].node.broadcast != []
    ensures Inv(w, DoDrain(w, s, i, ok, reach))
  {
    var s' := DoDrain(w, s, i, ok, reach);
    var m := s.stations[i].node.broadcast[0];
    assert m in s.stations[i].node.broadcast && Issued(w, s, i, m);
    IssuedGrows(w, s, s', i, m);
    forall j | 0 <= j < |s'.stations| ensures StationOk(w, s', j, s'.stations[j]) {
      StationGrows(w, s, s', j, s.stations[j]);
      if Arrives(i, ok, reach, j) {
        assert FromOther(w, s', j, m);
      }
      assert forall x :: x in s'.stations[j].node.broadcast ==> x in s.stations[j].node.broadcast;
    }
  }

  lemma AnnounceKeeps(w: World, s: Swarm, i: nat)
    requires ValidWorld(w) && Inv(w, s) && i < |s.stations|
    ensures Inv(w, DoAnnounce(w, s, i))
  {
    var s' := DoAnnounce(w, s, i);
    StationGrows(w, s, s', i, s.stations[i]);
    assert Issued(w, s', i, Announcement(w, i));
    assert StationOk(w, s', i, s'.stations[i]);
    SetKeeps(w, s, s', i, s'.stations[i]);
  }

  lemma DeliverKeeps(w: World, s: Swarm, i: nat, ok: bool)
    requires ValidWorld(w) && Inv(w, s) && i < |s.stations| && s.stations[i].node.hivemind != []
    ensures Inv(w, DoDeliver(w, s, i, ok))
  {
    var s' := DoDeliver(w, s, i, ok);
    var st := s.stations[i];
    StationGrows(w, s, s', i, st);
    assert st.node.hivemind[0] in st.node.hivemind;
    assert forall x :: x in st.node.hivemind[1..] ==> x in st.node.hivemind;
    assert StationOk(w, s', i, s'.stations[i]);
    SetKeeps(w, s, s', i, s'.stations[i]);
  }

  lemma ForgetKeeps(w: World, s: Swarm, i: nat, id: u16)
    requires ValidWorld(w) && Inv(w, s) && i < |s.stations| && Enabled(w, s, Forget(i, id))
    ensures Inv(w, Step(w, s, Forget(i, id)))
  {
    var s' := Step(w, s, Forget(i, id));
    var st := s.stations[i];
    StationGrows(w, s, s', i, st);
    RemoveUnique(st.node.agents, id);
    forall e | e in Remove(st.node.agents, id) ensures EntryOk(w, s', i, e) {
      RemoveMembers(st.node.agents, id, e);
    }
    assert StationOk(w, s', i, s'.stations[i]);
    SetKeeps(w, s, s', i, s'.stations[i]);
  }

  lemma GreetKeeps(w: World, s: Swarm, i: nat)
    requires ValidWorld(w) && Inv(w, s) && i < |s.stations| && Enabled(w, s, Greet(i))
    ensures Inv(w, Step(w, s, Greet(i)))
  {
    var s' := Step(w, s, Greet(i));
    StationGrows(w, s, s', i, s.stations[i]);
    assert StationOk(w, s', i, s'.stations[i]);
    assert Waiting(s') <= Waiting(s);
    SetKeeps(w, s, s', i, s'.stations[i]);
  }

  lemma StepKeeps(w: World, s: Swarm, a: Action)
    requires ValidWorld(w) && Inv(w, s)
    ensures Inv(w, Step(w, s, a))
  {
    if Enabled(w, s, a) {
      match a
      case Greet(i) => GreetKeeps(w, s, i);
      case Inject(i, dst, body) => InjectKeeps(w, s, i, Injected(w, s, i, dst, body));
      case Announce(i) => AnnounceKeeps(w, s, i);
      case Drain(i, ok, reach) => DrainKeeps(w, s, i, ok, reach);
      case Receive(i) => ReceiveKeeps(w, s, i);
      case Deliver(i, ok) => DeliverKeeps(w, s, i, ok);
      case Forget(i, id) => ForgetKeeps(w, s, i, id);
    }
  }

  lemma {:induction false} Reachable(w: World, storage: Storage, acts: seq<Action>)
    requires ValidWorld(w)
    ensures Inv(w, Run(w, Start(w, storage), acts))
  {
    if acts == [] {
    } else {
      Reachable(w, storage, acts[..|acts| - 1]);
      StepKeeps(w, Run(w, Start(w, storage), acts[..|acts| - 1]), acts[|acts| - 1]);
    }
  }
}
