/** Names and control-channel messages shared by the hub and the agents.

    Identifiers that the program draws from ULIDs, key generators and serial
    counters are modelled so that their freshness is visible in the type:
    a WireGuard key names the node that generated it and that node's
    generation counter; an envelope id names the hub operation that created
    it and the receiver; a session id names its node. */
module Wire {
  import opened Wrappers

  type NodeId = nat
  type LinkId = nat
  type Serial = nat
  type IPv4 = nat

  datatype WGKey = WGKey(owner: NodeId, generation: nat)

  datatype EnvId = EnvId(operation: nat, receiver: NodeId)

  datatype SessionId = SessionId(node: NodeId, serial: nat)

  /** The overlay_ip column: an address, or the placeholder a revoked row keeps. */
  datatype Overlay = Active(ip: IPv4) | Freed(node: NodeId)

  datatype Endpoint = Endpoint(ip: IPv4, port: int)

  datatype ExitAddr = ExitAddr(host: Overlay, port: int)

  /** PeerSpec: what a push says about one peer. The /32 in AllowedIPs is `allowed`. */
  datatype PeerSpec = PeerSpec(link: LinkId, node: NodeId, key: WGKey,
                               endpoint: Endpoint, allowed: Overlay, exit: Option<ExitAddr>)

  /** Hub to agent. Request stands for conf_get and svc_action. */
  datatype Frame =
    | RegisterAck(peers: seq<PeerSpec>)
    | PeerAdd(id: EnvId, spec: PeerSpec)
    | PeerUpdate(id: EnvId, spec: PeerSpec)
    | PeerRemove(id: EnvId, link: LinkId, key: WGKey)
    | RotateWG(id: EnvId)
    | Request(id: EnvId)
    | Kick
    | Error

  datatype PeerStatus = PeerStatus(node: NodeId, handshake: int)

  /** Agent to hub. */
  datatype Report =
    | Register(key: WGKey, port: int, socksPort: int)
    | Heartbeat(peers: seq<PeerStatus>)
    | Ack(ackId: EnvId, ok: bool)
    | Reply(replyId: EnvId)

  /** Pushes whose confirmation drives the link state machine. */
  predicate IsPush(f: Frame) {
    f.PeerAdd? || f.PeerUpdate?
  }
}
