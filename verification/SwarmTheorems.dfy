/** What hosts can rely on: delivery, broadcasts, requests and tables, over all runs. */
module SwarmTheorems {
  import opened Bytes
  import opened Messages
  import opened AgentTable
  import opened Routing
  import opened ModuleRoutines
  import opened Swarm
  import opened SwarmInvariant
  import opened SwarmPipeline
  import opened Sequences
  import opened SwarmDelivery
  import opened SwarmOrder
  import opened SwarmOnce

  /**
   Conservation and order. In every run and for all stations i and j (also i = j), what host
   i injected for station j, minus what is recorded as lost, is at every moment what host j
   received, then what is queued for it, then what waits in its inbox, then what waits in
   the broadcast queue of station i, all in the order of injection. The same holds for
   requests, which end where they are handled.
   */
  lemma PipelineEquation(w: World, storage: Storage, acts: seq<Action>, kind: Kind, i: nat, j: nat)
    requires ValidWorld(w) && i < |w.ids| && j < |w.ids|
    ensures var s := Run(w, Start(w, storage), acts);
      && |s.stations| == |w.ids|
      && Flow(w, kind, i, j, End(kind, s.stations[j]))
         + Flow(w, kind, i, j, s.stations[j].inbox)
         + Flow(w, kind, i, j, s.stations[i].node.broadcast)
         == Owed(w, s.injected, s.lost, kind, i, j)
  {
    AlwaysBalanced(w, storage, acts);
    assert Balanced(w, Run(w, Start(w, storage), acts), kind, i, j);
  }

  /**
   What host j has received from host i is a prefix of what it is owed; it is all of it once
   the queues between them are empty; and nothing injected is missing from it unless a loss
   for station j is recorded.
   */
  lemma OrderedDelivery(w: World, storage: Storage, acts: seq<Action>, i: nat, j: nat)
    requires ValidWorld(w) && i < |w.ids| && j < |w.ids|
    ensures var s := Run(w, Start(w, storage), acts);
      && |s.stations| == |w.ids|
      && var got := Flow(w, PlainKind, i, j, s.stations[j].host);
         var owed := Owed(w, s.injected, s.lost, PlainKind, i, j);
         && got <= owed && Increasing(got)
         && (s.stations[j].node.hivemind == [] && s.stations[j].inbox == [] && s.stations[i].node.broadcast == []
             ==> got == owed)
         && ((forall l :: l in s.lost ==> l.at != j) ==> owed == Owed(w, s.injected, {}, PlainKind, i, j))
  {
    AlwaysBalanced(w, storage, acts);
    var s := Run(w, Start(w, storage), acts);
    assert Balanced(w, s, PlainKind, i, j);
    FlowAppend(w, PlainKind, i, j, s.stations[j].host, s.stations[j].node.hivemind);
    OwedIncreasing(w, s.injected, s.lost, PlainKind, i, j);
    if forall l :: l in s.lost ==> l.at != j {
      OwedSame(w, s.injected, {}, s.lost, PlainKind, i, j);
    }
  }

  // ---- every kind of message at a host ----------------------------------------------------

  /**
   Once and in order, for every kind of message that carries its station's id. What host j got
   from station i is, in order, a subsequence of what station i queued as its own; no two of
   these have the same tag; each was written by host i or answers a request that station i
   handled; and those written by host i come in the order of injection. (Answers given before
   the greeting carry no id; `SwarmEarly` counts them.)
   */
  lemma OnceInOrder(w: World, storage: Storage, acts: seq<Action>, i: nat, j: nat)
    requires ValidWorld(w) && i < |w.ids| && j < |w.ids|
    ensures var s := Run(w, Start(w, storage), acts);
      && |s.stations| == |w.ids|
      && var got := Part(w, i, j, s.stations[j].host);
         && Subsequence(got, s.stations[i].issued)
         && TagsDistinct(got) && WrittenInOrder(s, i, got)
         && forall m :: m in got ==> Rightful(s, i, m)
  {
    var s := Run(w, Start(w, storage), acts);
    LanesOrdered(w, storage, acts, i, j);
    AlwaysOnce(w, storage, acts, i);
    var st, issued := s.stations[j], s.stations[i].issued;
    var got, lane := Part(w, i, j, st.host), Lane(w, s, i, j);
    PartAppend(w, i, j, st.host, st.node.hivemind);
    assert got <= lane;
    SubsequencePrefix(got, lane, issued);
    SubsequenceMembers(got, issued);
    SubsequencePairwise((a: Message, b: Message) => a.tag != b.tag, got, issued);
    SubsequencePairwise((a: Message, b: Message) => HostWrote(s, i, a) && HostWrote(s, i, b) ==> a.tag < b.tag,
                        got, issued);
  }

  /**
   Complete delivery for every kind of message a host can receive, exactly. Once the queues
   between them are empty, host j has received just what station i queued for it as its own, in
   order, if and only if no action of the run kept such a message from host j.
   */
  lemma AllArrive(w: World, storage: Storage, acts: seq<Action>, i: nat, j: nat)
    requires ValidWorld(w) && i < |w.ids| && j < |w.ids| && i != j
    ensures var s := Run(w, Start(w, storage), acts);
      && |s.stations| == |w.ids|
      && (s.stations[j].node.hivemind == [] && s.stations[j].inbox == [] && s.stations[i].node.broadcast == [] ==>
            (Part(w, i, j, s.stations[j].host) == Part(w, i, j, s.stations[i].issued)
             <==> !Dropped(w, storage, acts, i, j)))
  {
    LanesAccounted(w, storage, acts, i, j);
    var s := Run(w, Start(w, storage), acts);
    assert s.stations[j].host + [] == s.stations[j].host;
    assert Part(w, i, j, s.stations[j].host) + ([] + []) == Part(w, i, j, s.stations[j].host);
  }

  /** A host holds nothing but messages a module passes to its host. */
  lemma HeldBound(w: World, s: Swarm, i: nat, j: nat, m: Message)
    requires Inv(w, s) && j < |s.stations| && m in s.stations[j].host && i < |w.ids| && m.src == w.ids[i]
    ensures HostBound(w, i, j, m)
  {
    assert ForHost(w, s, j, m);
  }

  /** Two messages at one host, from the same station, have different tags. */
  lemma NoTwins(w: World, storage: Storage, acts: seq<Action>, i: nat, j: nat, x: nat, y: nat)
    requires ValidWorld(w) && i < |w.ids| && j < |w.ids|
    requires var s := Run(w, Start(w, storage), acts);
      && j < |s.stations| && x < y < |s.stations[j].host|
      && s.stations[j].host[x].src == s.stations[j].host[y].src == w.ids[i]
    ensures var s := Run(w, Start(w, storage), acts);
      s.stations[j].host[x].tag != s.stations[j].host[y].tag
  {
    Reachable(w, storage, acts);
    OnceInOrder(w, storage, acts, i, j);
    var s := Run(w, Start(w, storage), acts);
    var q := s.stations[j].host;
    HeldBound(w, s, i, j, q[x]);
    HeldBound(w, s, i, j, q[y]);
    PartTwice(w, i, j, q, x, y);
  }

  lemma PartTwice(w: World, i: nat, j: nat, q: seq<Message>, x: nat, y: nat)
    requires x < y < |q| && HostBound(w, i, j, q[x]) && HostBound(w, i, j, q[y]) && TagsDistinct(Part(w, i, j, q))
    ensures q[x].tag != q[y].tag
  {
    assert q == q[..y] + q[y..] && q[y..][0] == q[y] && q[..y][x] == q[x];
    PartAppend(w, i, j, q[..y], q[y..]);
    PartHead(w, i, j, q[y..]);
    FilterMembers(Bound(w, i, j), q[..y], q[x]);
    var a, all := Part(w, i, j, q[..y]), Part(w, i, j, q);
    var k :| 0 <= k < |a| && a[k] == q[x];
    assert all[k] == q[x] && all[|a|] == q[y];
  }

  /** A message at host j is the one injected under its tag, or the answer to it. */
  lemma HeldOrigin(w: World, s: Swarm, j: nat, m: Message)
    requires ValidWorld(w) && Inv(w, s) && j < |s.stations| && m in s.stations[j].host
    ensures m.tag < |s.injected| && s.injected[m.tag].at < |w.ids|
    ensures var inj := s.injected[m.tag];
      if inj.msg == m then m.src == w.ids[inj.at]
      else Answers(inj.msg, m) && inj.at == j && IsResponse(m.body) && m.dst == w.ids[j]
           && exists k :: 0 <= k < |w.ids| && (m.src == w.ids[k] || (m.src == 0 && k in inj.waiting))
                && ListSound(w, s, k, m.body)
  {
    assert ForHost(w, s, j, m);
    var k: nat :| Issued(w, s, k, m);
    assert InjectionOk(w, s.injected, m.tag);
    if s.injected[m.tag].msg != m {
      assert Replied(w, s, k, m);
    }
  }

  /**
   Point to point. Every plain message at host j was injected by some host, for host j or for
   all, and no other message at host j stems from the same injection. A message for host k is
   therefore at host k at most once and at no other host.
   */
  lemma PointToPoint(w: World, storage: Storage, acts: seq<Action>, j: nat, x: nat)
    requires ValidWorld(w) && j < |w.ids|
    requires var s := Run(w, Start(w, storage), acts);
      j < |s.stations| && x < |s.stations[j].host| && s.stations[j].host[x].body.Plain?
    ensures var s := Run(w, Start(w, storage), acts); var m := s.stations[j].host[x];
      && (m.dst == w.ids[j] || m.dst == 0)
      && m.tag < |s.injected| && s.injected[m.tag].msg == m
      && forall y :: 0 <= y < |s.stations[j].host| && y != x ==> s.stations[j].host[y].tag != m.tag
  {
    Reachable(w, storage, acts);
    var s := Run(w, Start(w, storage), acts);
    var q := s.stations[j].host;
    assert q[x] in q && ForHost(w, s, j, q[x]);
    HeldOrigin(w, s, j, q[x]);
    forall y | 0 <= y < |q| && y != x ensures q[y].tag != q[x].tag {
      assert q[y] in q;
      HeldOrigin(w, s, j, q[y]);
      if q[y].tag == q[x].tag {
        NoTwins(w, storage, acts, s.injected[q[x].tag].at, j, if x < y then x else y, if x < y then y else x);
      }
    }
  }

  // ---- broadcasts -------------------------------------------------------------------------

  /**
   Broadcasts. In every run: a message for everyone, of whatever kind, that reaches another
   host was injected after the greeting; one that comes back to its own host was injected
   before it; a broadcast queue holds only messages its own station issued, none for itself;
   and no queue ever holds a greeting.
   */
  lemma BroadcastScope(w: World, storage: Storage, acts: seq<Action>, j: nat)
    requires ValidWorld(w) && j < |w.ids|
    ensures var s := Run(w, Start(w, storage), acts);
      && |s.stations| == |w.ids|
      && var st := s.stations[j];
         && (forall m :: m in st.host && m.dst == 0 ==>
               m.tag < |s.injected| && s.injected[m.tag].msg == m
               && (s.injected[m.tag].Greeted() <==> s.injected[m.tag].at != j))
         && (forall m :: m in st.node.broadcast ==> Issued(w, s, j, m) && m.dst != w.ids[j])
         && (forall m :: m in st.node.broadcast + st.inbox + st.node.hivemind + st.host ==> !m.body.Greeting?)
  {
    Reachable(w, storage, acts);
    var s := Run(w, Start(w, storage), acts);
    var st := s.stations[j];
    forall m | m in st.host && m.dst == 0 ensures m.tag < |s.injected| && s.injected[m.tag].msg == m {
      HeldOrigin(w, s, j, m);
    }
    forall m | m in st.host && m.dst == 0 ensures s.injected[m.tag].Greeted() <==> s.injected[m.tag].at != j {
      assert ForHost(w, s, j, m);
    }
    forall m | m in st.node.broadcast + st.inbox + st.node.hivemind + st.host ensures !m.body.Greeting? {
      if m in st.inbox {
        assert FromOther(w, s, j, m);
      } else if m !in st.node.broadcast {
        assert ForHost(w, s, j, m);
      }
    }
  }

  // ---- requests and responses ----------------------------------------------------------

  /**
   Correlation. A response at host j was written as it is by a host, or it answers a request
   that host j itself injected earlier: same message id, matching kind, source and destination
   swapped. An agents list in such an answer names only announced stations.
   */
  lemma ResponsesAreAnswers(w: World, storage: Storage, acts: seq<Action>, j: nat, m: Message)
    requires ValidWorld(w) && j < |w.ids|
    requires var s := Run(w, Start(w, storage), acts);
      j < |s.stations| && m in s.stations[j].host && IsResponse(m.body)
    ensures var s := Run(w, Start(w, storage), acts);
      && m.tag < |s.injected|
      && (s.injected[m.tag].msg == m ||
          (Answers(s.injected[m.tag].msg, m) && s.injected[m.tag].at == j
           && (exists k :: 0 <= k < |w.ids| && (m.src == w.ids[k] || m.src == 0) && ListSound(w, s, k, m.body))))
  {
    Reachable(w, storage, acts);
    HeldOrigin(w, Run(w, Start(w, storage), acts), j, m);
  }

  /** A request at a host is for everyone, and from another host. */
  lemma HeldRequest(w: World, s: Swarm, j: nat, m: Message)
    requires ValidWorld(w) && Inv(w, s) && j < |s.stations| && m in s.stations[j].host && IsRequest(m.body)
    ensures m.dst == 0 && m.tag < |s.injected| && s.injected[m.tag].at != j
  {
    assert ForHost(w, s, j, m);
  }

  /**
   One request, one response. If two messages at host j stem from the same injection, both are
   answers to a request that host j sent to everyone before all stations were greeted. Every
   other request is matched by one response at most, and a response that a host wrote itself
   arrives at most once.
   */
  lemma ResponsesDistinct(w: World, storage: Storage, acts: seq<Action>, j: nat, x: nat, y: nat)
    requires ValidWorld(w) && j < |w.ids|
    requires var s := Run(w, Start(w, storage), acts);
      && j < |s.stations| && x < y < |s.stations[j].host|
      && s.stations[j].host[x].tag == s.stations[j].host[y].tag
    ensures var s := Run(w, Start(w, storage), acts);
      var a, b := s.stations[j].host[x], s.stations[j].host[y];
      && a.tag < |s.injected|
      && var inj := s.injected[a.tag];
         && inj.at == j && inj.msg.dst == 0 && inj.waiting != {}
         && Answers(inj.msg, a) && Answers(inj.msg, b)
  {
    Reachable(w, storage, acts);
    var s := Run(w, Start(w, storage), acts);
    var q := s.stations[j].host;
    assert q[x] in q && q[y] in q;
    HeldOrigin(w, s, j, q[x]);
    HeldOrigin(w, s, j, q[y]);
    if IsRequest(q[x].body) {
      HeldRequest(w, s, j, q[x]);
    }
    if IsRequest(q[y].body) {
      HeldRequest(w, s, j, q[y]);
    }
    if q[x].src == q[y].src && q[x].src in w.ids {
      var i :| 0 <= i < |w.ids| && w.ids[i] == q[x].src;
      NoTwins(w, storage, acts, i, j, x, y);
    }
  }

  /**
   No request is answered twice by one module, and one to a single module by no other. A
   request to everyone is answered only by modules that had no id when it was injected: by its
   own module, if that was one of them, and otherwise by others only.
   */
  lemma AnsweredOnce(w: World, storage: Storage, acts: seq<Action>, j: nat, x: nat, k: nat, y: nat)
    requires ValidWorld(w) && j < |w.ids| && k < |w.ids|
    requires var s := Run(w, Start(w, storage), acts);
      && |s.stations| == |w.ids| && x < |s.stations[j].answered| && y < |s.stations[k].answered|
      && s.stations[j].answered[x].tag == s.stations[k].answered[y].tag
    ensures var s := Run(w, Start(w, storage), acts); var q := s.stations[j].answered[x];
      && IsRequest(q.body) && q == s.stations[k].answered[y]
      && q.tag < |s.injected| && s.injected[q.tag].msg == q
      && (j == k ==> x == y)
      && (q.dst != 0 ==> j == k && q.dst == w.ids[j])
      && (q.dst == 0 ==> j in s.injected[q.tag].waiting && (s.injected[q.tag].Greeted() <==> s.injected[q.tag].at != j))
  {
    Reachable(w, storage, acts);
    AlwaysOnce(w, storage, acts, j);
    var s := Run(w, Start(w, storage), acts);
    var q, r := s.stations[j].answered[x], s.stations[k].answered[y];
    assert StationOk(w, s, j, s.stations[j]) && StationOk(w, s, k, s.stations[k]);
    assert AnsweredOk(w, s, j, q) && AnsweredOk(w, s, k, r);
  }

  // ---- tables ------------------------------------------------------------------------------

  /**
   Table soundness. In every run, every entry of every table was announced, with that
   address, by the station it names; no station lists itself, and ids are listed once.
   */
  lemma TablesSound(w: World, storage: Storage, acts: seq<Action>, j: nat)
    requires ValidWorld(w) && j < |w.ids|
    ensures var s := Run(w, Start(w, storage), acts);
      && |s.stations| == |w.ids|
      && var t := s.stations[j].node.agents;
         && Unique(t) && !Known(t, w.ids[j])
         && forall id :: Known(t, id) ==>
              exists k :: 0 <= k < |w.ids| && k != j && k in s.announced
                && w.ids[k] == id && Lookup(t, id) == Some(w.ips[k])
  {
    Reachable(w, storage, acts);
    var s := Run(w, Start(w, storage), acts);
    var t := s.stations[j].node.agents;
    NotListed(w, s, j, s.stations[j]);
    forall id | Known(t, id)
      ensures exists k :: 0 <= k < |w.ids| && k != j && k in s.announced
                && w.ids[k] == id && Lookup(t, id) == Some(w.ips[k])
    {
      var e := Entry(id, Lookup(t, id).value);
      assert e in t && EntryOk(w, s, j, e);
    }
  }

  /**
   A dispatched announcement is remembered: a station with fewer than 32 agents, or that knows
   the announcer already, then knows it at its address.
   */
  lemma AnnouncementKnown(w: World, s: Swarm, a: nat)
    requires ValidWorld(w) && Inv(w, s) && a < |s.stations| && s.stations[a].inbox != []
    requires s.stations[a].inbox[0].body.Network?
    requires var n := s.stations[a].node; |n.agents| < 32 || Registered(n.agents, s.stations[a].inbox[0].src)
    ensures exists k :: 0 <= k < |w.ids| == |w.ips| && k != a && w.ids[k] == s.stations[a].inbox[0].src
              && Lookup(DoReceive(w, s, a).stations[a].node.agents, w.ids[k]) == Some(w.ips[k])
  {
    var m := s.stations[a].inbox[0];
    assert m in s.stations[a].inbox && FromOther(w, s, a, m);
    var k: nat :| k != a && Issued(w, s, k, m);
    AnnouncementRegisters(s.stations[a].node, m, false, w.listMax);
  }

  /** An agent once known stays known, at the same address, until it is unregistered. */
  lemma KnownStays(w: World, s: Swarm, a: Action, j: nat, id: u16)
    requires ValidWorld(w) && Inv(w, s) && j < |s.stations| && a != Forget(j, id)
    requires Lookup(s.stations[j].node.agents, id).Some?
    ensures |Step(w, s, a).stations| == |s.stations|
    ensures Lookup(Step(w, s, a).stations[j].node.agents, id) == Lookup(s.stations[j].node.agents, id)
  {
    if Enabled(w, s, a) {
      match a
      case Inject(i, dst, body) =>
        if i == j {
          DispatchKnown(w, s, j, Injected(w, s, i, dst, body), true, id);
        }
      case Receive(i) =>
        if i == j {
          assert s.stations[j].inbox[0] in s.stations[j].inbox;
          DispatchKnown(w, s, j, s.stations[j].inbox[0], false, id);
        }
      case Forget(i, other) =>
        assert StationOk(w, s, i, s.stations[i]);
        RemoveLooksUp(s.stations[i].node.agents, other, id);
      case _ =>
    }
  }

  /** A dispatch changes the table for an announcement only, and never the address of a known agent. */
  lemma DispatchKnown(w: World, s: Swarm, j: nat, m: Message, fwd: bool, id: u16)
    requires ValidWorld(w) && Inv(w, s) && j < |s.stations| && Lookup(s.stations[j].node.agents, id).Some?
    requires m in s.stations[j].inbox || HostBody(m.body)
    ensures var n := s.stations[j].node;
      Lookup(Dispatch(n, m, fwd, w.listMax).0.agents, id) == Lookup(n.agents, id)
  {
    var n := s.stations[j].node;
    if m.body.Network? && m.body.call.IpDiscovery? {
      AnnouncementRegisters(n, m, fwd, w.listMax);
      assert FromOther(w, s, j, m);
      var e := Entry(id, Lookup(n.agents, id).value);
      assert e in n.agents && EntryOk(w, s, j, e);
    } else if m.body.Hive? && m.dst == n.uuid {
      HandledQueues(n, m, w.listMax);
    }
  }

  /**
   A request for the agents that a station handles is answered with its agents: each once, at
   most as many as a list holds, and all of them when they fit.
   */
  lemma AgentsListed(w: World, s: Swarm, a: nat)
    requires ValidWorld(w) && Inv(w, s) && a < |s.stations| && s.stations[a].inbox != []
    requires var n, m := s.stations[a].node, s.stations[a].inbox[0];
      && m.body.Hive? && m.body.api.AgentsRequest? && m.dst == n.uuid
      && Lookup(n.agents, m.src).Some? && |n.broadcast| < QUEUE_MAX
    ensures var st, st' := s.stations[a], DoReceive(w, s, a).stations[a]; var m := st.inbox[0];
      exists l :: ListsAgents(l, st.node.agents, w.listMax)
        && st'.node.broadcast == st.node.broadcast
             + [Message(m.dst, m.src, Hive(m.body.msgId, AgentsResponse(l)), m.tag)]
  {
    var st := s.stations[a];
    assert st.inbox[0] in st.inbox && StationOk(w, s, a, st);
    ArrivedSource(w, s, a, st.inbox[0]);
    AgentsAnswerQueued(st.node, st.inbox[0], false, w.listMax);
  }

  /**
   Whatever a step puts in a broadcast queue is one message at its end, for everyone or for an
   agent then known there; otherwise the queue stays, or loses its head.
   */
  lemma QueuedForKnown(w: World, s: Swarm, a: Action, j: nat)
    requires ValidWorld(w) && Inv(w, s) && j < |s.stations|
    ensures |Step(w, s, a).stations| == |s.stations|
    ensures var n, n' := s.stations[j].node, Step(w, s, a).stations[j].node;
      || n'.broadcast == n.broadcast
      || (n.broadcast != [] && n'.broadcast == n.broadcast[1..])
      || exists m :: n'.broadcast == n.broadcast + [m] && (m.dst == 0 || Known(n.agents, m.dst))
  {
    if Enabled(w, s, a) {
      match a
      case Inject(i, dst, body) => QueuedBy(s.stations[i].node, Injected(w, s, i, dst, body), true, w.listMax);
      case Receive(i) => QueuedBy(s.stations[i].node, s.stations[i].inbox[0], false, w.listMax);
      case Drain(i, ok, reach) => DrainStation(w, s, i, ok, reach, j);
      case Greet(i) => GreetStation(w, s, i);
      case Announce(i) => assert Announcement(w, i).dst == 0;
      case _ =>
    }
  }

  lemma QueuedBy(n: Node, m: Message, fwd: bool, listMax: u8)
    ensures var n' := Dispatch(n, m, fwd, listMax).0;
      n'.broadcast == n.broadcast
      || exists r :: n'.broadcast == n.broadcast + [r] && (r.dst == 0 || Known(n.agents, r.dst))
  {
    DispatchPlaces(n, m, fwd, listMax);
  }
}
