/**
 N modules, their hosts and the broker. Every sequence of actions is a run: an action
 that is not enabled leaves the swarm as it is.
 */
module Swarm {
  import opened Bytes
  import opened Messages
  import opened AgentTable
  import opened Routing

  /** What is fixed: each station's host id and address, and the length of an agent list. */
  datatype World = World(ids: seq<u16>, ips: seq<u32>, listMax: u8)

  ghost predicate ValidWorld(w: World) {
    && |w.ids| == |w.ips|
    && (forall k :: 0 <= k < |w.ids| ==> w.ids[k] != 0)
    && (forall i, j :: 0 <= i < j < |w.ids| ==> w.ids[i] != w.ids[j])
  }

  datatype Station = Station(
    node: Node,
    inbox: seq<Message>,         // arrived from the network, not yet dispatched
    host: seq<Message>,          // written to the own host
    answered: seq<Message>,      // requests handled here
    issued: seq<Message>         // own messages queued: the host's and answers, in this order
  )

  /** `waiting`: the stations that had not been greeted when this injection happened. */
  datatype Injection = Injection(at: nat, msg: Message, waiting: set<nat>) {
    predicate Greeted() { at !in waiting }

    /** A request to everyone that left its module. */
    predicate ToAll() { IsRequest(msg.body) && msg.dst == 0 && Greeted() }
  }

  /** The message with this tag will never reach, or be answered by, station `at`. */
  datatype Loss = Loss(tag: nat, at: nat)

  datatype Swarm = Swarm(
    stations: seq<Station>,
    injected: seq<Injection>,
    lost: set<Loss>,
    announced: set<nat>,         // stations that announced their address
    announcements: nat,
    sends: nat                   // messages taken off a broadcast queue
  )

  datatype Action =
    | Greet(i: nat)                                     // the host gives the module its id
    | Inject(i: nat, dst: u16, body: Body)              // the host sends a message
    | Announce(i: nat)                                  // the module announces its address
    | Drain(i: nat, ok: bool, reach: set<nat>)          // one broadcast is sent; `reach` have room for it
    | Receive(i: nat)                                   // one arrived message is dispatched
    | Deliver(i: nat, ok: bool)                         // one message is written to the host
    | Forget(i: nat, id: u16)                           // an agent is unregistered

  function Start(w: World, storage: Storage): Swarm {
    Swarm(seq(|w.ids|, _ => Station(Node(0, [], storage, [], []), [], [], [], [])), [], {}, {}, 0, 0)
  }

  /** Hosts do not forge greetings or address announcements after start-up. */
  predicate HostBody(b: Body) { !b.Greeting? && !(b.Network? && b.call.IpDiscovery?) }

  predicate Enabled(w: World, s: Swarm, a: Action) {
    && a.i < |s.stations| == |w.ids| == |w.ips|
    && var n := s.stations[a.i].node;
       match a
       case Greet(_) => true
       case Inject(_, _, body) => HostBody(body)
       case Announce(_) => n.uuid != 0
       case Drain(_, _, _) => n.uuid != 0 && n.broadcast != []
       case Receive(_) => s.stations[a.i].inbox != []
       case Deliver(_, _) => n.hivemind != []
       case Forget(_, _) => true
  }

  /** Station j is a destination of `m`. */
  predicate Addressed(w: World, j: nat, m: Message)
    requires j < |w.ids|
  {
    m.dst == w.ids[j] || m.dst == 0
  }

  /** Messages whose fate is followed: plain ones to a host, and requests to a module. */
  predicate Followed(m: Message) { m.body.Plain? || IsRequest(m.body) }

  function LossesAt(w: World, m: Message, at: set<nat>): set<Loss> {
    if Followed(m) then set j | j in at && j < |w.ids| && Addressed(w, j, m) :: Loss(m.tag, j) else {}
  }

  function Below(n: nat): (r: set<nat>)
    ensures forall j: nat :: j in r <==> j < n
  {
    if n == 0 then {} else Below(n - 1) + {n - 1}
  }

  function Everyone(w: World): set<nat> { Below(|w.ids|) }

  function Set(s: Swarm, i: nat, st: Station): Swarm
    requires i < |s.stations|
  {
    s.(stations := s.stations[i := st])
  }

  function Injected(w: World, s: Swarm, i: nat, dst: u16, body: Body): Message
    requires i < |w.ids|
  {
    Message(w.ids[i], dst, body, |s.injected|)
  }

  /** The stations without an id. */
  function Waiting(s: Swarm): set<nat> {
    set k: nat | k < |s.stations| && s.stations[k].node.uuid == 0
  }

  /** A station after one dispatch; `fwd` marks a message of its own host. */
  function AfterDispatch(st: Station, m: Message, fwd: bool, listMax: u8): Station {
    var n' := Dispatch(st.node, m, fwd, listMax).0;
    var queued := n'.hivemind != st.node.hivemind || n'.broadcast != st.node.broadcast;
    var out := PassedOn(st.node, m, listMax);
    st.(node := n',
        answered := if Handles(st.node, m) then st.answered + [m] else st.answered,
        issued := if queued && out.Some? && (fwd || Handles(st.node, m)) then st.issued + [out.value] else st.issued)
  }

  /** Which stations an injected message is lost for: none, all, or all but the one that kept it. */
  function InjectLosses(w: World, st: Station, i: nat, m: Message): set<Loss> {
    var n' := Dispatch(st.node, m, true, w.listMax).0;
    if n'.broadcast != st.node.broadcast then {}
    else if Handles(st.node, m) || (m.body.Plain? && n'.hivemind != st.node.hivemind) then
      LossesAt(w, m, Everyone(w) - {i})
    else LossesAt(w, m, Everyone(w))
  }

  function DoInject(w: World, s: Swarm, i: nat, m: Message): Swarm
    requires i < |s.stations|
  {
    var st := s.stations[i];
    Set(s, i, AfterDispatch(st, m, true, w.listMax))
    .(injected := s.injected + [Injection(i, m, Waiting(s))],
      lost := s.lost + InjectLosses(w, st, i, m))
  }

  function Announcement(w: World, i: nat): Message
    requires i < |w.ids| == |w.ips|
  {
    Message(w.ids[i], 0, Network(IpDiscovery(w.ips[i])), 0)
  }

  function DoAnnounce(w: World, s: Swarm, i: nat): Swarm
    requires i < |s.stations| == |w.ids| == |w.ips|
  {
    var st := s.stations[i];
    Set(s, i, st.(node := st.node.(broadcast := Push(st.node.broadcast, Announcement(w, i)))))
    .(announced := s.announced + {i}, announcements := s.announcements + 1)
  }

  /** Where a sent message arrives: everywhere but at its sender, where there is room. */
  predicate Arrives(i: nat, ok: bool, reach: set<nat>, j: nat) { ok && j != i && j in reach }

  function Arrived(st: Station, j: nat, i: nat, ok: bool, reach: set<nat>, m: Message): Station {
    var st' := if Arrives(i, ok, reach, j) then st.(inbox := st.inbox + [m]) else st;
    if j == i && st.node.broadcast != [] then st'.(node := st.node.(broadcast := st.node.broadcast[1..])) else st'
  }

  function DoDrain(w: World, s: Swarm, i: nat, ok: bool, reach: set<nat>): Swarm
    requires i < |s.stations| && s.stations[i].node.broadcast != []
  {
    var m := s.stations[i].node.broadcast[0];
    s.(stations := seq(|s.stations|, j requires 0 <= j < |s.stations| => Arrived(s.stations[j], j, i, ok, reach, m)),
       lost := s.lost + LossesAt(w, m, set j | j in Everyone(w) && !Arrives(i, ok, reach, j) && j != i),
       sends := s.sends + 1)
  }

  function DoReceive(w: World, s: Swarm, i: nat): Swarm
    requires i < |s.stations| && s.stations[i].inbox != []
  {
    var st := s.stations[i];
    var m := st.inbox[0];
    var n' := Dispatch(st.node, m, false, w.listMax).0;
    var kept := Handles(st.node, m) || (m.body.Plain? && n'.hivemind != st.node.hivemind);
    Set(s, i, AfterDispatch(st, m, false, w.listMax).(inbox := st.inbox[1..]))
    .(lost := if kept then s.lost else s.lost + LossesAt(w, m, {i}))
  }

  function DoDeliver(w: World, s: Swarm, i: nat, ok: bool): Swarm
    requires i < |s.stations| && s.stations[i].node.hivemind != []
  {
    var st := s.stations[i];
    var m := st.node.hivemind[0];
    Set(s, i, st.(node := st.node.(hivemind := st.node.hivemind[1..]), host := if ok then st.host + [m] else st.host))
    .(lost := if ok || !m.body.Plain? then s.lost else s.lost + LossesAt(w, m, {i}))
  }

  function DoGreet(w: World, s: Swarm, i: nat): Swarm
    requires i < |s.stations| == |w.ids|
  {
    var st := s.stations[i];
    var greeting := Message(w.ids[i], w.ids[i], Greeting(w.ids[i]), 0);
    Set(s, i, st.(node := Dispatch(st.node, greeting, true, w.listMax).0))
  }

  function DoForget(s: Swarm, i: nat, id: u16): Swarm
    requires i < |s.stations|
  {
    var st := s.stations[i];
    Set(s, i, st.(node := st.node.(agents := Remove(st.node.agents, id))))
  }

  function Step(w: World, s: Swarm, a: Action): Swarm {
    if !Enabled(w, s, a) then s
    else
      match a
      case Greet(i) => DoGreet(w, s, i)
      case Inject(i, dst, body) => DoInject(w, s, i, Injected(w, s, i, dst, body))
      case Announce(i) => DoAnnounce(w, s, i)
      case Drain(i, ok, reach) => DoDrain(w, s, i, ok, reach)
      case Receive(i) => DoReceive(w, s, i)
      case Deliver(i, ok) => DoDeliver(w, s, i, ok)
      case Forget(i, id) => DoForget(s, i, id)
  }

  function Run(w: World, s: Swarm, acts: seq<Action>): Swarm {
    if acts == [] then s else Step(w, Run(w, s, acts[..|acts| - 1]), acts[|acts| - 1])
  }
}
