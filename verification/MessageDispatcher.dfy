/** The objects of the message handler, each proved to compute its function in `Routing`. */
module MessageDispatcher {
  import opened Bytes
  import opened Messages
  import opened AgentTable
  import opened Routing
  import opened ModuleRoutines

  /** The bounded queue of the container; its library is not in the repository. */
  class CircularQueue {
    var items: seq<Message>

    constructor ()
      ensures items == []
    {
      items := [];
    }

    method Push(m: Message) returns (ok: bool)
      modifies this
      ensures items == Routing.Push(old(items), m)
      ensures ok == (|old(items)| < QUEUE_MAX)
    {
      ok := |items| < QUEUE_MAX;
      if ok {
        items := items + [m];
      }
    }

    method Peek() returns (m: Option<Message>)
      ensures m == if items == [] then None else Some(items[0])
    {
      m := if items == [] then None else Some(items[0]);
    }

    method Pop()
      modifies this
      ensures items == if old(items) == [] then [] else old(items)[1..]
    {
      if items != [] {
        items := items[1..];
      }
    }
  }

  class Bsp {
    var uuid: u16
    var storage: Storage

    constructor (storage: Storage)
      ensures uuid == 0 && this.storage == storage
    {
      uuid := 0;
      this.storage := storage;
    }

    method StoreSSID(ssid: nat) returns (ok: bool)
      modifies this`storage
      ensures ok == old(storage).flash.ssid && storage.flash == old(storage).flash
      ensures storage.config == old(storage).config.(
        access := old(storage).config.access.(ssid := if ok then ssid else old(storage).config.access.ssid))
    {
      ok := storage.flash.ssid;
      if ok {
        storage := storage.(config := storage.config.(access := storage.config.access.(ssid := ssid)));
      }
    }

    method StorePassword(password: nat) returns (ok: bool)
      modifies this`storage
      ensures ok == old(storage).flash.password && storage.flash == old(storage).flash
      ensures storage.config == old(storage).config.(
        access := old(storage).config.access.(password := if ok then password else old(storage).config.access.password))
    {
      ok := storage.flash.password;
      if ok {
        storage := storage.(config := storage.config.(access := storage.config.access.(password := password)));
      }
    }

    method StoreIsRouter(router: bool) returns (ok: bool)
      modifies this`storage
      ensures ok == old(storage).flash.router && storage.flash == old(storage).flash
      ensures storage.config == if ok then old(storage).config.(router := router) else old(storage).config
    {
      ok := storage.flash.router;
      if ok {
        storage := storage.(config := storage.config.(router := router));
      }
    }

    method StoreMeshEnabled(mesh: bool) returns (ok: bool)
      modifies this`storage
      ensures ok == old(storage).flash.mesh && storage.flash == old(storage).flash
      ensures storage.config == if ok then old(storage).config.(mesh := mesh) else old(storage).config
    {
      ok := storage.flash.mesh;
      if ok {
        storage := storage.(config := storage.config.(mesh := mesh));
      }
    }

    /** The writes of a configuration request. */
    method SetConfig(wanted: Wanted) returns (ok: bool)
      modifies this`storage
      ensures (storage, ok) == Configure(old(storage), wanted)
    {
      ok := true;
      if wanted.access.Some? {
        var first := StoreSSID(wanted.access.value.ssid);
        var second := StorePassword(wanted.access.value.password);
        ok := ok && first && second;
      }
      if wanted.router.Some? && ok {
        var stored := StoreIsRouter(wanted.router.value);
        ok := ok && stored;
      }
      if wanted.mesh.Some? && ok {
        var stored := StoreMeshEnabled(wanted.mesh.value);
        ok := ok && stored;
      }
    }
  }

  class Dispatcher {
    const hivemindQueue: CircularQueue
    const broadcastQueue: CircularQueue
    const manager: NetworkManager
    const bsp: Bsp
    const listMax: u8

    ghost predicate Valid()
      reads this, manager
    {
      hivemindQueue != broadcastQueue && manager.Valid()
    }

    ghost function State(): Node
      reads this, hivemindQueue, broadcastQueue, manager, bsp
    {
      Node(bsp.uuid, manager.agents, bsp.storage, hivemindQueue.items, broadcastQueue.items)
    }

    constructor (hivemind: CircularQueue, broadcast: CircularQueue, manager: NetworkManager, bsp: Bsp, listMax: u8)
      requires hivemind != broadcast && manager.Valid()
      ensures Valid() && hivemindQueue == hivemind && broadcastQueue == broadcast
      ensures this.manager == manager && this.bsp == bsp && this.listMax == listMax
    {
      hivemindQueue := hivemind;
      broadcastQueue := broadcast;
      this.manager := manager;
      this.bsp := bsp;
      this.listMax := listMax;
    }

    method ForwardMessage(m: Message, networkForwarding: bool) returns (ok: bool)
      requires Valid()
      modifies hivemindQueue, broadcastQueue
      ensures Valid()
      ensures ok <==> |hivemindQueue.items| + |broadcastQueue.items|
                      == |old(hivemindQueue.items)| + |old(broadcastQueue.items)| + 1
      ensures !ok ==> State() == old(State())
      ensures (State(), ok) == Forward(old(State()), m, networkForwarding)
    {
      if m.dst == bsp.uuid {
        ok := hivemindQueue.Push(m);
        return;
      }
      if m.dst == 0 && m.src == bsp.uuid {
        ok := broadcastQueue.Push(m);
        return;
      }
      if m.dst == 0 && m.src != bsp.uuid {
        ok := hivemindQueue.Push(m);
        return;
      }
      var ip := manager.GetIPFromAgentID(m.dst);
      if ip.Some? && networkForwarding {
        ok := broadcastQueue.Push(m);
        return;
      }
      return false;
    }

    method HandleApiCall(src: u16, call: NetworkApi) returns (outcome: ApiOutcome)
      requires Valid()
      modifies manager
      ensures Valid()
      ensures (State(), outcome) == Routing.HandleApiCall(old(State()), src, call)
    {
      match call {
        case IpDiscovery(ip) =>
          var ok := manager.RegisterAgent(src, ip);
          if ok {
            return Done;
          }
        case UnknownCall =>
      }
      return Failed;
    }

    method DispatchNetworkAPI(m: Message, call: NetworkApi, networkForwarding: bool) returns (ok: bool)
      requires Valid()
      modifies manager, hivemindQueue, broadcastQueue
      ensures Valid()
      ensures (State(), ok) == DispatchNetwork(old(State()), m, call, networkForwarding)
    {
      var outcome := HandleApiCall(m.src, call);
      match outcome {
        case Failed => return false;
        case Done => return true;
        case Reply(r) =>
          ok := ForwardMessage(Message(bsp.uuid, m.src, Network(r), m.tag), networkForwarding);
      }
    }

    method HandleMessage(m: Message) returns (response: Option<Message>)
      requires Valid() && m.body.Hive?
      modifies bsp
      ensures Valid()
      ensures m.body.api.AgentsRequest? ==>
        && response.Some? && response.value.src == m.dst && response.value.dst == m.src
        && response.value.body.Hive? && response.value.body.msgId == m.body.msgId
        && response.value.body.api.AgentsResponse?
        && ListsAgents(response.value.body.api.agents, manager.agents, listMax)
      ensures (State(), response) == HandleHive(old(State()), m, listMax)
    {
      ListingLists(manager.agents, listMax);
      var id := m.body.msgId;
      match m.body.api {
        case AgentsRequest =>
          var agentList := new u16[listMax](_ => 0);
          var count, _ := manager.GetAgentList(agentList, listMax);
          return Some(Message(m.dst, m.src, Hive(id, AgentsResponse(agentList[..count])), m.tag));
        case ConfigGetRequest =>
          return Some(Message(m.dst, m.src, Hive(id, ConfigGetResponse(bsp.storage.config)), m.tag));
        case ConfigSetRequest(wanted) =>
          var ok := bsp.SetConfig(wanted);
          return Some(Message(m.dst, m.src, Hive(id, ConfigSetResponse(ok)), m.tag));
        case AgentsResponse(_) => return Some(m);
        case ConfigGetResponse(_) => return Some(m);
        case ConfigSetResponse(_) => return Some(m);
        case UnknownApi => return None;
      }
    }

    method DispatchHiveAPI(m: Message, networkForwarding: bool) returns (ok: bool)
      requires Valid() && m.body.Hive?
      modifies bsp, hivemindQueue, broadcastQueue
      ensures Valid()
      ensures (State(), ok) == DispatchHive(old(State()), m, networkForwarding, listMax)
    {
      if m.dst != bsp.uuid {
        ok := ForwardMessage(m, networkForwarding);
        return;
      }
      var response := HandleMessage(m);
      match response {
        case Some(r) => ok := ForwardMessage(r, true);
        case None => ok := true;
      }
    }

    /** `read` is what the deserializer produced, `None` when it failed. */
    method DeserializeAndDispatch(read: Option<Message>, networkForwarding: bool) returns (ok: bool)
      requires Valid()
      modifies bsp, manager, hivemindQueue, broadcastQueue
      ensures Valid()
      ensures read.Some? ==> (State(), ok) == Dispatch(old(State()), read.value, networkForwarding, listMax)
      ensures read.None? ==> State() == old(State()) && !ok
    {
      if read.None? {
        return false;
      }
      var m := read.value;
      match m.body {
        case Greeting(id) =>
          bsp.uuid := id;
          return true;
        case Network(call) => ok := DispatchNetworkAPI(m, call, networkForwarding);
        case Hive(_, _) => ok := DispatchHiveAPI(m, networkForwarding);
        case Plain(_) => ok := ForwardMessage(m, networkForwarding);
      }
    }
  }

  /** The consumer of a queue. `sink` is what the serializer wrote to its stream. */
  class MessageSender {
    const inputQueue: CircularQueue
    const bsp: Bsp
    var sink: seq<Message>

    constructor (queue: CircularQueue, bsp: Bsp)
      ensures inputQueue == queue && this.bsp == bsp && sink == []
    {
      inputQueue := queue;
      this.bsp := bsp;
      sink := [];
    }

    /** `writable` says whether the stream takes the next message. */
    method Serialize(m: Message, writable: bool) returns (ok: bool)
      modifies this
      ensures ok == writable
      ensures sink == if ok then old(sink) + [m] else old(sink)
    {
      if writable {
        sink := sink + [m];
      }
      ok := writable;
    }

    /** A greeting goes straight to the stream and through no queue. */
    method Greet(writable: bool) returns (ok: bool)
      modifies this
      ensures ok == writable && inputQueue.items == old(inputQueue.items)
      ensures sink == if ok then old(sink) + [Message(bsp.uuid, bsp.uuid, Greeting(bsp.uuid), 0)] else old(sink)
    {
      ok := Serialize(Message(bsp.uuid, bsp.uuid, Greeting(bsp.uuid), 0), writable);
    }

    /** The head of the queue leaves it whether or not it could be written. */
    method ProcessAndSerialize(writable: bool) returns (ok: bool)
      modifies this, inputQueue
      ensures old(inputQueue.items) == [] ==> ok && inputQueue.items == [] && sink == old(sink)
      ensures old(inputQueue.items) != [] ==>
        && ok == writable && inputQueue.items == old(inputQueue.items)[1..]
        && sink == if writable then old(sink) + [old(inputQueue.items)[0]] else old(sink)
    {
      var message := inputQueue.Peek();
      if message.Some? {
        ok := Serialize(message.value, writable);
        inputQueue.Pop();
        return;
      }
      return true;
    }
  }
}
