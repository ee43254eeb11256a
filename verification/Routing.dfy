/** What one module does with one message (src/message-handler/src), as functions on its state. */
module Routing {
  import opened Bytes
  import opened Messages
  import opened AgentTable

  /** Capacity of the output queues (src/message-handler/src/MessageHandlerContainer.cpp:11). */
  const QUEUE_MAX: nat := 8

  /** Which entries the module's flash accepts writes to. */
  datatype Flash = Flash(ssid: bool, password: bool, router: bool, mesh: bool)

  /** The configuration kept by the module. */
  datatype Storage = Storage(config: Config, flash: Flash)

  datatype Node = Node(
    uuid: u16,                    // 0 until the host has greeted
    agents: Table,
    storage: Storage,
    hivemind: seq<Message>,       // queue towards the own host
    broadcast: seq<Message>       // queue towards the network
  )

  predicate Full(q: seq<Message>) { |q| >= QUEUE_MAX }

  function Push(q: seq<Message>, m: Message): seq<Message> {
    if |q| < QUEUE_MAX then q + [m] else q
  }

  /** `forwardMessage`: the new state and its result. */
  function Forward(n: Node, m: Message, networkForwarding: bool): (Node, bool) {
    if m.dst == n.uuid then
      (n.(hivemind := Push(n.hivemind, m)), |n.hivemind| < QUEUE_MAX)
    else if m.dst == 0 && m.src == n.uuid then
      (n.(broadcast := Push(n.broadcast, m)), |n.broadcast| < QUEUE_MAX)
    else if m.dst == 0 then
      (n.(hivemind := Push(n.hivemind, m)), |n.hivemind| < QUEUE_MAX)
    else if Known(n.agents, m.dst) && networkForwarding then
      (n.(broadcast := Push(n.broadcast, m)), |n.broadcast| < QUEUE_MAX)
    else (n, false)
  }

  datatype ApiOutcome = Failed | Done | Reply(call: NetworkApi)

  /** `handleApiCall`: an address announcement registers its sender and is never answered. */
  function HandleApiCall(n: Node, src: u16, call: NetworkApi): (Node, ApiOutcome) {
    match call
    case IpDiscovery(ip) =>
      if CanRegister(n.agents, src) then (n.(agents := Upsert(n.agents, src, ip)), Done) else (n, Failed)
    case UnknownCall => (n, Failed)
  }

  function DispatchNetwork(n: Node, m: Message, call: NetworkApi, networkForwarding: bool): (Node, bool) {
    var (n', outcome) := HandleApiCall(n, m.src, call);
    match outcome
    case Failed => (n', false)
    case Done => (n', true)
    case Reply(r) => Forward(n', Message(n'.uuid, m.src, Network(r), m.tag), networkForwarding)
  }

  /** Both entries are tried, even if the first write fails. */
  function StoreAccess(s: Storage, a: Access): (Storage, bool) {
    var ssid := if s.flash.ssid then a.ssid else s.config.access.ssid;
    var password := if s.flash.password then a.password else s.config.access.password;
    (s.(config := s.config.(access := Access(ssid, password))), s.flash.ssid && s.flash.password)
  }

  /** The wanted entries are written in turn, until a write fails. */
  function Configure(s: Storage, wanted: Wanted): (Storage, bool) {
    var (s1, ok1) := if wanted.access.Some? then StoreAccess(s, wanted.access.value) else (s, true);
    var s2 :=
      if wanted.router.Some? && ok1 && s.flash.router then s1.(config := s1.config.(router := wanted.router.value))
      else s1;
    var ok2 := ok1 && (wanted.router.None? || s.flash.router);
    var s3 :=
      if wanted.mesh.Some? && ok2 && s.flash.mesh then s2.(config := s2.config.(mesh := wanted.mesh.value))
      else s2;
    (s3, ok2 && (wanted.mesh.None? || s.flash.mesh))
  }

  /** `handleMessage`: requests are answered with swapped addresses, responses pass through. */
  function HandleHive(n: Node, m: Message, listMax: u8): (Node, Option<Message>)
    requires m.body.Hive?
  {
    var id := m.body.msgId;
    match m.body.api
    case AgentsRequest =>
      (n, Some(Message(m.dst, m.src, Hive(id, AgentsResponse(Listing(n.agents, listMax))), m.tag)))
    case ConfigGetRequest =>
      (n, Some(Message(m.dst, m.src, Hive(id, ConfigGetResponse(n.storage.config)), m.tag)))
    case ConfigSetRequest(wanted) =>
      var (storage, ok) := Configure(n.storage, wanted);
      (n.(storage := storage), Some(Message(m.dst, m.src, Hive(id, ConfigSetResponse(ok)), m.tag)))
    case AgentsResponse(_) => (n, Some(m))
    case ConfigGetResponse(_) => (n, Some(m))
    case ConfigSetResponse(_) => (n, Some(m))
    case UnknownApi => (n, None)
  }

  function DispatchHive(n: Node, m: Message, networkForwarding: bool, listMax: u8): (Node, bool)
    requires m.body.Hive?
  {
    if m.dst != n.uuid then Forward(n, m, networkForwarding)
    else
      var (n', response) := HandleHive(n, m, listMax);
      match response
      case Some(r) => Forward(n', r, true)
      case None => (n', true)
  }

  /** `deserializeAndDispatch` of a message that was read successfully. */
  function Dispatch(n: Node, m: Message, networkForwarding: bool, listMax: u8): (Node, bool) {
    match m.body
    case Greeting(id) => (n.(uuid := id), true)
    case Network(call) => DispatchNetwork(n, m, call, networkForwarding)
    case Hive(_, _) => DispatchHive(n, m, networkForwarding, listMax)
    case Plain(_) => Forward(n, m, networkForwarding)
  }

  // ---- what a dispatch can do to the queues ---------------------------------------

  /** `r` is the response to request `q`: swapped addresses, same id, matching kind, same origin. */
  predicate Answers(q: Message, r: Message) {
    IsRequest(q.body) && r.src == q.dst && r.dst == q.src && r.tag == q.tag && Matches(q.body, r.body)
  }

  /** `m` is handled as a request by this module, rather than forwarded. */
  predicate Handles(n: Node, m: Message) { IsRequest(m.body) && m.dst == n.uuid }

  /** The message a dispatch passes on, if any: the one received, or the answer to it. */
  function PassedOn(n: Node, m: Message, listMax: u8): Option<Message> {
    match m.body
    case Greeting(_) => None
    case Network(_) => None
    case Plain(_) => Some(m)
    case Hive(_, _) => if m.dst == n.uuid then HandleHive(n, m, listMax).1 else Some(m)
  }

  /** A message passed on is for the host: its own, or somebody else's for everyone. */
  predicate ToHost(n: Node, r: Message) { r.dst == n.uuid || (r.dst == 0 && r.src != n.uuid) }

  /** A message passed on is for the network: the host's for everyone, or one for a known agent. */
  predicate ToNetwork(n: Node, r: Message, forwarding: bool) {
    r.dst != n.uuid && if r.dst == 0 then r.src == n.uuid else Known(n.agents, r.dst) && forwarding
  }

  /**
   A dispatch queues exactly the message it passes on, in exactly one place or nowhere: for
   the host, for the network, or not at all; and only a full queue refuses it.
   */
  lemma DispatchPlaces(n: Node, m: Message, fwd: bool, listMax: u8)
    ensures var n' := Dispatch(n, m, fwd, listMax).0; var out := PassedOn(n, m, listMax);
      && n'.hivemind == (if out.Some? && ToHost(n, out.value) then Push(n.hivemind, out.value) else n.hivemind)
      && n'.broadcast == (if out.Some? && ToNetwork(n, out.value, fwd || Handles(n, m))
                          then Push(n.broadcast, out.value) else n.broadcast)
      && (out.Some? ==> !(ToHost(n, out.value) && ToNetwork(n, out.value, fwd || Handles(n, m))))
  {
    if m.body.Hive? && m.dst == n.uuid {
      HandledQueues(n, m, listMax);
    }
  }

  /** The same, read backwards from a queue that changed. */
  lemma DispatchQueues(n: Node, m: Message, fwd: bool, listMax: u8)
    ensures var n' := Dispatch(n, m, fwd, listMax).0; var out := PassedOn(n, m, listMax);
      && (n'.hivemind == n.hivemind ||
          (out.Some? && n'.hivemind == n.hivemind + [out.value]
           && (out.value.dst == n.uuid || (out.value.dst == 0 && out.value.src != n.uuid))))
      && (n'.broadcast == n.broadcast ||
          (out.Some? && n'.broadcast == n.broadcast + [out.value] && out.value.dst != n.uuid
           && (if out.value.dst == 0 then out.value.src == n.uuid
               else Known(n.agents, out.value.dst) && (fwd || Handles(n, m)))))
      && (n'.hivemind == n.hivemind || n'.broadcast == n.broadcast)
  {
    DispatchPlaces(n, m, fwd, listMax);
  }

  lemma HandledQueues(n: Node, m: Message, listMax: u8)
    requires m.body.Hive? && m.dst == n.uuid
    ensures var (n', out) := HandleHive(n, m, listMax);
      && n' == n.(storage := n'.storage)
      && (out.Some? <==> !m.body.api.UnknownApi?)
      && (Handles(n, m) ==> Answers(m, out.value))
      && (out.Some? && !Handles(n, m) ==> out.value == m)
  {
  }

  /**
   A message from the network is put back on the network only when it is a request for
   this module, and then it is the matching response, for another module that is in the
   table; everything else can only reach the host.
   */
  lemma NoRelay(n: Node, m: Message, listMax: u8)
    requires m.src != n.uuid || m.dst != 0
    ensures var n' := Dispatch(n, m, false, listMax).0;
      n'.broadcast != n.broadcast ==>
        exists r :: n'.broadcast == n.broadcast + [r] && Answers(m, r)
          && m.dst == n.uuid && r.dst != n.uuid
          && (r.dst == 0 || Known(n.agents, r.dst))
  {
    DispatchQueues(n, m, false, listMax);
    if m.body.Hive? && m.dst == n.uuid {
      HandledQueues(n, m, listMax);
    }
  }

  /**
   A request to everyone is answered by exactly the modules that have no id yet, because
   their id reads as the broadcast address; a module with an id passes it to its host.
   */
  lemma QuestionToAll(n: Node, m: Message, listMax: u8)
    requires IsRequest(m.body) && m.dst == 0 && m.src != 0 && m.src != n.uuid
    requires Known(n.agents, m.src) && |n.broadcast| < QUEUE_MAX && |n.hivemind| < QUEUE_MAX
    ensures var n' := Dispatch(n, m, false, listMax).0;
      && (n.uuid == 0 <==> n'.broadcast != n.broadcast)
      && (n.uuid == 0 ==> exists r :: n'.broadcast == n.broadcast + [r] && Answers(m, r) && r.src == 0)
      && (n.uuid != 0 ==> n'.hivemind == n.hivemind + [m])
  {
    if n.uuid == 0 {
      HandledQueues(n, m, listMax);
      var r := HandleHive(n, m, listMax).1.value;
      assert Dispatch(n, m, false, listMax).0.broadcast == n.broadcast + [r];
    }
  }
}
