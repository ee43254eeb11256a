/** The messages exchanged between a host, its module and the other modules. */
module Messages {
  import opened Bytes

  datatype Option<+T> = None | Some(value: T)

  datatype NetworkApi = IpDiscovery(ip: u32) | UnknownCall

  /** The network configuration: how to join the network, whether to root the mesh, whether to mesh at all. */
  datatype Access = Access(ssid: nat, password: nat)
  datatype Config = Config(access: Access, router: bool, mesh: bool)

  /** The entries a request wants to change. */
  datatype Wanted = Wanted(access: Option<Access>, router: Option<bool>, mesh: Option<bool>)

  datatype HiveApi =
    | AgentsRequest
    | AgentsResponse(agents: seq<u16>)
    | ConfigGetRequest
    | ConfigGetResponse(config: Config)
    | ConfigSetRequest(wanted: Wanted)
    | ConfigSetResponse(ok: bool)
    | UnknownApi

  datatype Body = Greeting(id: u16) | Network(call: NetworkApi) | Hive(msgId: u32, api: HiveApi) | Plain(content: nat)

  /**
   `tag` is a history variable: the serial number of the host injection a message stems
   from. Replies inherit it; no branch of a module looks at it.
   */
  datatype Message = Message(src: u16, dst: u16, body: Body, tag: nat)

  predicate IsRequest(b: Body) {
    b.Hive? && (b.api.AgentsRequest? || b.api.ConfigGetRequest? || b.api.ConfigSetRequest?)
  }

  predicate IsResponse(b: Body) {
    b.Hive? && (b.api.AgentsResponse? || b.api.ConfigGetResponse? || b.api.ConfigSetResponse?)
  }

  /** `r` is the kind of response that request `q` asks for, with the same message id. */
  predicate Matches(q: Body, r: Body) {
    q.Hive? && r.Hive? && q.msgId == r.msgId &&
    match q.api
    case AgentsRequest => r.api.AgentsResponse?
    case ConfigGetRequest => r.api.ConfigGetResponse?
    case ConfigSetRequest(_) => r.api.ConfigSetResponse?
    case _ => false
  }
}
