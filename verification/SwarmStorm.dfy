/**
 A run in which a request to everyone, sent before the others are greeted, is answered by all
 of them, and in which all the answers arrive.
 */
module SwarmStorm {
  import opened Messages
  import opened AgentTable
  import opened Routing
  import opened Swarm

  lemma RunSnoc(w: World, s: Swarm, acts: seq<Action>, a: Action)
    ensures Run(w, s, acts + [a]) == Step(w, Run(w, s, acts), a)
  {
    assert (acts + [a])[..|acts|] == acts;
  }

  lemma TwoSteps(w: World, s: Swarm, acts: seq<Action>, a: Action, b: Action)
    ensures Run(w, s, acts + [a] + [b]) == Step(w, Step(w, Run(w, s, acts), a), b)
  {
    RunSnoc(w, s, acts, a);
    RunSnoc(w, s, acts + [a], b);
  }

  function Question(w: World): Message
    requires w.ids != []
  {
    Message(w.ids[0], 0, Hive(0, ConfigGetRequest), 0)
  }

  function Answer(w: World, config: Config): Message
    requires w.ids != []
  {
    Message(0, w.ids[0], Hive(0, ConfigGetResponse(config)), 0)
  }

  function Knowing(w: World): Table
    requires 0 < |w.ids| == |w.ips|
  {
    [Entry(w.ids[0], w.ips[0])]
  }

  /** A station without an id, with this table, inbox and broadcast queue. */
  predicate Waits(st: Station, config: Config, agents: Table, inbox: seq<Message>, bus: seq<Message>) {
    && st.node.uuid == 0 && st.node.agents == agents && st.node.storage.config == config
    && st.inbox == inbox && st.node.broadcast == bus
  }

  /** Station 0 has its id and nothing queued; so many sends, one announcement, so many injections. */
  ghost predicate Asker(w: World, s: Swarm, sends: nat, injected: nat) {
    && ValidWorld(w) && 2 <= |s.stations| == |w.ids|
    && s.stations[0].node.uuid == w.ids[0] && s.stations[0].node.broadcast == [] && s.stations[0].node.hivemind == []
    && s.stations[0].inbox == [] && s.stations[0].host == []
    && s.sends == sends && s.announcements == 1 && |s.injected| == injected
    && (injected == 1 ==>
          s.injected[0] == Injection(0, Question(w), s.injected[0].waiting)
          && forall k :: k in s.injected[0].waiting <==> 0 < k < |w.ids|)
  }

  /** Before the dispatch of the arrived message, the stations from k on; after it, those below. */
  ghost predicate Registering(w: World, s: Swarm, config: Config, k: nat) {
    Asker(w, s, 1, 0) && forall x :: 1 <= x < |w.ids| ==>
      if x < k then Waits(s.stations[x], config, Knowing(w), [], [])
      else Waits(s.stations[x], config, [], [Announcement(w, 0)], [])
  }

  ghost predicate Answering(w: World, s: Swarm, config: Config, k: nat) {
    Asker(w, s, 2, 1) && forall x :: 1 <= x < |w.ids| ==>
      if x < k then Waits(s.stations[x], config, Knowing(w), [], [Answer(w, config)])
      else Waits(s.stations[x], config, Knowing(w), [Question(w)], [])
  }

  /** Station 0 is greeted and announces itself. */
  lemma Announces(w: World, storage: Storage) returns (acts: seq<Action>)
    requires ValidWorld(w) && |w.ids| >= 2
    ensures Registering(w, Run(w, Start(w, storage), acts), storage.config, 1)
  {
    var start := Start(w, storage);
    TwoSteps(w, start, [], Greet(0), Announce(0));
    acts := [] + [Greet(0)] + [Announce(0)];
    RunSnoc(w, start, acts, Drain(0, true, Everyone(w)));
    acts := acts + [Drain(0, true, Everyone(w))];
  }

  /** Station k registers it, although it has no id yet. */
  lemma Registers(w: World, s: Swarm, config: Config, k: nat)
    requires Registering(w, s, config, k) && 1 <= k < |w.ids|
    ensures Registering(w, Step(w, s, Receive(k)), config, k + 1)
  {
  }

  /** Host 0 asks everyone. */
  lemma Asks(w: World, s: Swarm, config: Config)
    requires Registering(w, s, config, |w.ids|)
    ensures var s' := Step(w, Step(w, s, Inject(0, 0, Hive(0, ConfigGetRequest))), Drain(0, true, Everyone(w)));
      Answering(w, s', config, 1)
  {
  }

  /** Station k takes the question for its own and answers it. */
  lemma Replies(w: World, s: Swarm, config: Config, k: nat)
    requires Answering(w, s, config, k) && 1 <= k < |w.ids|
    ensures Answering(w, Step(w, s, Receive(k)), config, k + 1)
  {
  }

  lemma {:induction false} AllRegister(w: World, storage: Storage, start: seq<Action>, k: nat)
    returns (acts: seq<Action>)
    requires 1 <= k <= |w.ids| && Registering(w, Run(w, Start(w, storage), start), storage.config, k)
    ensures Registering(w, Run(w, Start(w, storage), acts), storage.config, |w.ids|)
    decreases |w.ids| - k
  {
    if k == |w.ids| {
      acts := start;
    } else {
      Registers(w, Run(w, Start(w, storage), start), storage.config, k);
      RunSnoc(w, Start(w, storage), start, Receive(k));
      acts := AllRegister(w, storage, start + [Receive(k)], k + 1);
    }
  }

  lemma {:induction false} AllReply(w: World, storage: Storage, start: seq<Action>, k: nat) returns (acts: seq<Action>)
    requires 1 <= k <= |w.ids| && Answering(w, Run(w, Start(w, storage), start), storage.config, k)
    ensures Answering(w, Run(w, Start(w, storage), acts), storage.config, |w.ids|)
    decreases |w.ids| - k
  {
    if k == |w.ids| {
      acts := start;
    } else {
      Replies(w, Run(w, Start(w, storage), start), storage.config, k);
      RunSnoc(w, Start(w, storage), start, Receive(k));
      acts := AllReply(w, storage, start + [Receive(k)], k + 1);
    }
  }

  /** Two messages sent and an answer waiting at every other station, on one announcement and one injection. */
  lemma Storm(w: World, storage: Storage) returns (acts: seq<Action>)
    requires ValidWorld(w) && |w.ids| >= 2
    ensures Answering(w, Run(w, Start(w, storage), acts), storage.config, |w.ids|)
  {
    var first := Announces(w, storage);
    var second := AllRegister(w, storage, first, 1);
    var ask := Inject(0, 0, Hive(0, ConfigGetRequest));
    Asks(w, Run(w, Start(w, storage), second), storage.config);
    TwoSteps(w, Start(w, storage), second, ask, Drain(0, true, Everyone(w)));
    acts := AllReply(w, storage, second + [ask] + [Drain(0, true, Everyone(w))], 1);
  }

  // ---- and all the answers arrive -----------------------------------------------------------

  /** The answers of the stations below k are at host 0, the others still wait. */
  ghost predicate Returning(w: World, s: Swarm, config: Config, k: nat)
    requires 1 <= k
  {
    && ValidWorld(w) && 2 <= |s.stations| == |w.ids|
    && s.stations[0].node.uuid == w.ids[0] && s.stations[0].node.hivemind == [] && s.stations[0].inbox == []
    && s.stations[0].host == seq(k - 1, _ => Answer(w, config))
    && forall x :: k <= x < |w.ids| ==> s.stations[x].node.broadcast == [Answer(w, config)]
  }

  /** Station k is greeted and sends its answer. */
  lemma Sends(w: World, s: Swarm, config: Config, k: nat)
    requires 1 <= k < |w.ids| && Returning(w, s, config, k)
    ensures var s' := Step(w, Step(w, s, Greet(k)), Drain(k, true, {0}));
      && |s'.stations| == |w.ids|
      && s'.stations[0] == s.stations[0].(inbox := [Answer(w, config)])
      && forall x :: k < x < |w.ids| ==> s'.stations[x].node.broadcast == [Answer(w, config)]
  {
  }

  /** Station 0 passes it to its host. */
  lemma Hears(w: World, s: Swarm, r: Message)
    requires ValidWorld(w) && 2 <= |s.stations| == |w.ids| && r.dst == w.ids[0] && IsResponse(r.body)
    requires var st := s.stations[0]; st.node.uuid == w.ids[0] && st.node.hivemind == [] && st.inbox == [r]
    ensures var s' := Step(w, Step(w, s, Receive(0)), Deliver(0, true)); var st, st' := s.stations[0], s'.stations[0];
      && |s'.stations| == |w.ids|
      && st'.node.uuid == w.ids[0] && st'.node.hivemind == [] && st'.inbox == [] && st'.host == st.host + [r]
      && forall x :: 0 < x < |w.ids| ==> s'.stations[x] == s.stations[x]
  {
  }

  lemma Returns(w: World, s: Swarm, config: Config, k: nat)
    requires 1 <= k < |w.ids| && Returning(w, s, config, k)
    ensures var sent := Step(w, Step(w, s, Greet(k)), Drain(k, true, {0}));
      Returning(w, Step(w, Step(w, sent, Receive(0)), Deliver(0, true)), config, k + 1)
  {
    var sent := Step(w, Step(w, s, Greet(k)), Drain(k, true, {0}));
    Sends(w, s, config, k);
    Hears(w, sent, Answer(w, config));
  }

  lemma {:induction false} AllReturn(w: World, storage: Storage, start: seq<Action>, k: nat) returns (acts: seq<Action>)
    requires 1 <= k <= |w.ids| && Returning(w, Run(w, Start(w, storage), start), storage.config, k)
    ensures Returning(w, Run(w, Start(w, storage), acts), storage.config, |w.ids|)
    decreases |w.ids| - k
  {
    if k == |w.ids| {
      acts := start;
    } else {
      Returns(w, Run(w, Start(w, storage), start), storage.config, k);
      TwoSteps(w, Start(w, storage), start, Greet(k), Drain(k, true, {0}));
      var sent := start + [Greet(k)] + [Drain(k, true, {0})];
      TwoSteps(w, Start(w, storage), sent, Receive(0), Deliver(0, true));
      acts := AllReturn(w, storage, sent + [Receive(0)] + [Deliver(0, true)], k + 1);
    }
  }

  /** One request can bring its host a response from every other station. */
  lemma AllAnswersArrive(w: World, storage: Storage) returns (acts: seq<Action>)
    requires ValidWorld(w) && |w.ids| >= 2
    ensures var s := Run(w, Start(w, storage), acts);
      |s.stations| == |w.ids| && s.stations[0].host == seq(|w.ids| - 1, _ => Answer(w, storage.config))
  {
    var start := Storm(w, storage);
    acts := AllReturn(w, storage, start, 1);
  }
}
