/**
 What the message handler of one module does, spelled out without the functions that compute it:
 what an answer contains, who is registered, what is stored, and what the result of a dispatch means.
 */
module ModuleRoutines {
  import opened Bytes
  import opened Messages
  import opened AgentTable
  import opened Routing

  // ---- the agents list --------------------------------------------------------------------------

  ghost predicate Registered(agents: Table, id: u16) { exists ip :: Entry(id, ip) in agents }

  /** A list of at most `limit` of the known agents: each once, and all of them when they fit. */
  ghost predicate ListsAgents(l: seq<u16>, agents: Table, limit: nat) {
    && |l| == (if |agents| <= limit then |agents| else limit)
    && (forall x, y :: 0 <= x < y < |l| ==> l[x] != l[y])
    && (forall x :: 0 <= x < |l| ==> Registered(agents, l[x]))
    && (|agents| <= limit ==> forall e :: e in agents ==> e.id in l)
  }

  lemma ListingLists(agents: Table, limit: nat)
    requires Unique(agents)
    ensures ListsAgents(Listing(agents, limit), agents, limit)
  {
    var l := Listing(agents, limit);
    ListingSound(agents, limit);
    forall x | 0 <= x < |l| ensures Registered(agents, l[x]) {
      assert Entry(l[x], agents[x].ip) == agents[x] && agents[x] in agents;
    }
    forall e | |agents| <= limit && e in agents ensures e.id in l {
      var x :| 0 <= x < |agents| && agents[x] == e;
      assert l[x] == e.id;
    }
  }

  /** A request for the agents is answered with the module's agents, under the same id, to the asker. */
  lemma AgentsAnswer(n: Node, m: Message, listMax: u8)
    requires Unique(n.agents) && m.dst == n.uuid && m.body.Hive? && m.body.api.AgentsRequest?
    ensures var out := PassedOn(n, m, listMax);
      && out.Some? && out.value.src == m.dst && out.value.dst == m.src
      && out.value.body.Hive? && out.value.body.msgId == m.body.msgId && out.value.body.api.AgentsResponse?
      && ListsAgents(out.value.body.api.agents, n.agents, listMax)
    ensures Dispatch(n, m, true, listMax).0.agents == n.agents
  {
    ListingLists(n.agents, listMax);
  }

  /** The answer is queued: for the own host if it asked, for the network if the asker is known. */
  lemma AgentsAnswerQueued(n: Node, m: Message, fwd: bool, listMax: u8)
    requires Unique(n.agents) && m.dst == n.uuid && m.body.Hive? && m.body.api.AgentsRequest?
    ensures var n' := Dispatch(n, m, fwd, listMax).0;
      && (m.src == n.uuid && |n.hivemind| < QUEUE_MAX ==>
            exists l :: ListsAgents(l, n.agents, listMax)
              && n'.hivemind == n.hivemind + [Message(m.dst, m.src, Hive(m.body.msgId, AgentsResponse(l)), m.tag)])
      && (m.src != n.uuid && m.src != 0 && Lookup(n.agents, m.src).Some? && |n.broadcast| < QUEUE_MAX ==>
            exists l :: ListsAgents(l, n.agents, listMax)
              && n'.broadcast == n.broadcast + [Message(m.dst, m.src, Hive(m.body.msgId, AgentsResponse(l)), m.tag)])
  {
    AgentsAnswer(n, m, listMax);
    DispatchPlaces(n, m, fwd, listMax);
    var r := PassedOn(n, m, listMax).value;
    assert r == Message(m.dst, m.src, Hive(m.body.msgId, AgentsResponse(r.body.api.agents)), m.tag);
  }

  // ---- the configuration ------------------------------------------------------------------------

  /**
   A configuration request succeeds if and only if the flash accepts every wanted entry, and then
   the configuration has exactly the wanted entries changed.
   */
  lemma ConfigureSucceeds(s: Storage, wanted: Wanted)
    ensures var (s', ok) := Configure(s, wanted);
      && s'.flash == s.flash
      && (ok <==>
            && (wanted.access.Some? ==> s.flash.ssid && s.flash.password)
            && (wanted.router.Some? ==> s.flash.router)
            && (wanted.mesh.Some? ==> s.flash.mesh))
      && (ok ==> s'.config == Config(
            if wanted.access.Some? then wanted.access.value else s.config.access,
            if wanted.router.Some? then wanted.router.value else s.config.router,
            if wanted.mesh.Some? then wanted.mesh.value else s.config.mesh))
  {
  }

  /**
   When it fails, the entries before the failure are written and later ones are not; of name and
   password each is tried.
   */
  lemma ConfigureFails(s: Storage, wanted: Wanted)
    requires !Configure(s, wanted).1
    ensures var c, c' := s.config, Configure(s, wanted).0.config;
      && c'.mesh == c.mesh
      && (c'.access.ssid == if wanted.access.Some? && s.flash.ssid then wanted.access.value.ssid else c.access.ssid)
      && (c'.access.password
          == if wanted.access.Some? && s.flash.password then wanted.access.value.password else c.access.password)
      && (c'.router
          == if wanted.router.Some? && s.flash.router && (wanted.access.Some? ==> s.flash.ssid && s.flash.password)
             then wanted.router.value else c.router)
  {
  }

  /** What the asker is told: the stored configuration, or whether the wanted one was stored. */
  lemma ConfigAnswer(n: Node, m: Message, listMax: u8)
    requires m.dst == n.uuid && m.body.Hive? && (m.body.api.ConfigGetRequest? || m.body.api.ConfigSetRequest?)
    ensures var out, n' := PassedOn(n, m, listMax), Dispatch(n, m, true, listMax).0;
      && out.Some? && out.value.src == m.dst && out.value.dst == m.src
      && out.value.body.Hive? && out.value.body.msgId == m.body.msgId
      && (m.body.api.ConfigGetRequest? ==>
            out.value.body.api == ConfigGetResponse(n.storage.config) && n'.storage == n.storage)
      && (m.body.api.ConfigSetRequest? ==>
            var (storage, ok) := Configure(n.storage, m.body.api.wanted);
            out.value.body.api == ConfigSetResponse(ok) && n'.storage == storage)
  {
  }

  // ---- registration -----------------------------------------------------------------------------

  /**
   An address announcement is accepted if and only if its sender is known or fewer than 32 agents
   are; then the sender is known at that address and every other agent as before. Nothing is
   queued.
   */
  lemma AnnouncementRegisters(n: Node, m: Message, fwd: bool, listMax: u8)
    requires m.body.Network? && m.body.call.IpDiscovery?
    ensures var (n', ok) := Dispatch(n, m, fwd, listMax);
      && (ok <==> Registered(n.agents, m.src) || |n.agents| < 32)
      && (ok ==> Lookup(n'.agents, m.src) == Some(m.body.call.ip))
      && (ok ==> forall other :: other != m.src ==> Lookup(n'.agents, other) == Lookup(n.agents, other))
      && (!ok ==> n'.agents == n.agents)
      && n' == n.(agents := n'.agents)
  {
    forall other ensures Lookup(Upsert(n.agents, m.src, m.body.call.ip), other)
                         == if other == m.src then Some(m.body.call.ip) else Lookup(n.agents, other) {
      UpsertLooksUp(n.agents, m.src, m.body.call.ip, other);
    }
  }

  /** Any other network call fails and changes nothing. */
  lemma OtherCallFails(n: Node, m: Message, fwd: bool, listMax: u8)
    requires m.body.Network? && !m.body.call.IpDiscovery?
    ensures Dispatch(n, m, fwd, listMax) == (n, false)
  {
  }

  // ---- the result of a dispatch -----------------------------------------------------------------

  /**
   The result of dispatching a message that is not for the network API is false exactly when
   there was a message to pass on and it is in no queue afterwards: a full queue, an unknown
   destination, or one that must not be relayed.
   */
  lemma DispatchResult(n: Node, m: Message, fwd: bool, listMax: u8)
    requires m.body.Plain? || m.body.Hive?
    ensures var (n', ok) := Dispatch(n, m, fwd, listMax); var out := PassedOn(n, m, listMax);
      && (ok <==> (out.Some? ==> |n'.hivemind| + |n'.broadcast| == |n.hivemind| + |n.broadcast| + 1))
      && (ok && out.Some? ==> n'.hivemind == n.hivemind + [out.value] || n'.broadcast == n.broadcast + [out.value])
      && (!ok ==> n'.hivemind == n.hivemind && n'.broadcast == n.broadcast)
  {
    DispatchPlaces(n, m, fwd, listMax);
  }

  /** A greeting gives the module its id and changes nothing else. */
  lemma GreetingGivesId(n: Node, m: Message, fwd: bool, listMax: u8)
    requires m.body.Greeting?
    ensures Dispatch(n, m, fwd, listMax) == (n.(uuid := m.body.id), true)
  {
  }
}
