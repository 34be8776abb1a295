/** The whole system: one hub, the agents, and the connections between them,
    as a state machine over events. Each hub handler is one event. */
module Network {
  import opened Wrappers
  import opened Wire
  import opened PeerTable
  import opened Device
  import opened StoreState
  import opened HubState

  /** An agent process; `conn` is the session it is reading from. */
  datatype Agent = Agent(serial: Serial, device: Device, conn: Option<SessionId>, port: int, socksPort: int)

  /** `wire` holds frames written to a connection and not yet read by the agent; `up` the reports
      the hub has not read. Both outlive the session on the hub side. */
  datatype Sys = Sys(hub: Hub, agents: map<NodeId, Agent>,
                     wire: map<SessionId, seq<Frame>>, up: map<SessionId, seq<Report>>)

  const INIT := Sys(NEW_HUB, map[], map[], map[])

  datatype Event =
    | EnrollNode(enroll: Operation, port: int, socksPort: int)
    | Handler(op: Operation)
    | Connect(node: NodeId, attempt: nat)
    | HubRead(node: NodeId, ip: IPv4, rows: seq<Link>, now: int)
    | HubWrite(node: NodeId)
    | HubRestart
    | AgentRead(node: NodeId)
    | AgentBeat(node: NodeId, peers: seq<PeerStatus>)
    | AgentLeave(node: NodeId)
    | AgentRestart(node: NodeId, port: int, socksPort: int)

  /** Handlers started by an administrator, a timer or a lost connection. */
  predicate Spontaneous(op: Operation) {
    || op.SessionClose? || op.SessionDrop? || op.StaleDrop? || op.CreateLink? || op.SetLinkExit? || op.DeleteLink?
    || op.DeleteNode? || op.RotateNode? || op.AskNode? || op.Collect?
  }

  /** A fresh process: no peers, a key of a generation never used before. */
  function FreshDevice(generation: nat): Device {
    Device(Ended, generation, EMPTY, map[])
  }

  function KeyOf(n: NodeId, a: Agent): WGKey {
    WGKey(n, a.device.generation)
  }

  /** The handler for the oldest report of n's session. */
  function ReadOperation(s: Sys, n: NodeId, ip: IPv4, rows: seq<Link>, now: int, r: Report): Option<Operation> {
    match r
    case Register(key, port, socksPort) => Some(Operation.Register(n, WgIdent(key, port, ip, socksPort), rows, now))
    case Ack(id, ok) => Some(Acknowledge(n, id, ok))
    case Heartbeat(peers) => Some(Beat(n, peers, now))
    case Reply(_) => None
  }

  ghost predicate Possible(s: Sys, e: Event) {
    match e
    case EnrollNode(op, port, _) => op.Enroll? && Enabled(s.hub, op) && ValidRegister(port)
    case Handler(op) => Spontaneous(op)
    case Connect(n, attempt) =>
      && n in s.agents && s.agents[n].conn == None && SessionId(n, attempt) !in s.wire
      && Admitted(s.hub, n, s.agents[n].serial)
    case HubRead(n, ip, rows, now) =>
      && n in s.hub.sessions && s.hub.sessions[n].open
      && s.hub.sessions[n].sid in s.up && s.up[s.hub.sessions[n].sid] != []
      && (s.up[s.hub.sessions[n].sid][0].Register? ==> IsListing(s.hub.tables, n, rows))
    case HubWrite(n) =>
      && n in s.hub.sessions && s.hub.sessions[n].open && s.hub.sessions[n].out != []
      && s.hub.sessions[n].sid in s.wire
    case HubRestart => true
    case AgentRead(n) =>
      && n in s.agents && s.agents[n].conn.Some? && s.agents[n].conn.value in s.wire
      && s.agents[n].conn.value in s.up && s.wire[s.agents[n].conn.value] != []
    case AgentBeat(n, _) =>
      && n in s.agents && s.agents[n].conn.Some? && s.agents[n].device.phase == Serve
      && s.agents[n].conn.value in s.up
    case AgentLeave(n) => n in s.agents
    case AgentRestart(n, port, _) => n in s.agents && ValidRegister(port)
  }

  ghost function Next(s: Sys, e: Event): Sys {
    if !Possible(s, e) then s
    else match e
    case EnrollNode(op, port, socksPort) =>
      var hub := Apply(s.hub, op);
      if op.node in hub.tables.nodes
      then s.(hub := hub, agents := s.agents[op.node := Agent(op.serial, FreshDevice(0), None, port, socksPort)])
      else s.(hub := hub)
    case Handler(op) => s.(hub := Apply(s.hub, op))
    case Connect(n, attempt) =>
      var a, sid := s.agents[n], SessionId(n, attempt);
      Sys(Apply(s.hub, SessionUp(n, sid)),
          s.agents[n := a.(device := a.device.(phase := Await), conn := Some(sid))],
          s.wire[sid := []],
          s.up[sid := [Report.Register(KeyOf(n, a), a.port, a.socksPort)]])
    case HubRead(n, ip, rows, now) =>
      var sid := s.hub.sessions[n].sid;
      var op := ReadOperation(s, n, ip, rows, now, s.up[sid][0]);
      s.(hub := if op.Some? then Apply(s.hub, op.value) else s.hub, up := s.up[sid := s.up[sid][1..]])
    case HubWrite(n) =>
      var sid := s.hub.sessions[n].sid;
      s.(hub := Flush(s.hub, n), wire := s.wire[sid := s.wire[sid] + [s.hub.sessions[n].out[0]]])
    case HubRestart => s.(hub := Restart(s.hub))
    case AgentRead(n) =>
      var a := s.agents[n];
      var sid := a.conn.value;
      var f := s.wire[sid][0];
      var device := Handle(a.device, f);
      s.(agents := s.agents[n := a.(device := device, conn := if device.phase == Ended then None else a.conn)],
         wire := s.wire[sid := s.wire[sid][1..]],
         up := s.up[sid := s.up[sid] + Answer(a.device, f)])
    case AgentBeat(n, peers) =>
      var sid := s.agents[n].conn.value;
      s.(up := s.up[sid := s.up[sid] + [Heartbeat(peers)]])
    case AgentLeave(n) =>
      var a := s.agents[n];
      s.(agents := s.agents[n := a.(device := a.device.(phase := Ended), conn := None)])
    case AgentRestart(n, port, socksPort) =>
      var a := s.agents[n];
      s.(agents := s.agents[n := Agent(a.serial, FreshDevice(a.device.generation + 1), None, port, socksPort)])
  }

  /** The state after a run. */
  ghost function Exec(s: Sys, run: seq<Event>): Sys {
    if run == [] then s else Next(Exec(s, run[..|run| - 1]), run[|run| - 1])
  }

  // ---- the drained view ----

  /** n's agent is reading from n's current session, which is open. */
  predicate Attached(s: Sys, n: NodeId) {
    && n in s.agents && n in s.hub.sessions && s.hub.sessions[n].open
    && s.agents[n].conn == Some(s.hub.sessions[n].sid) && s.hub.sessions[n].sid in s.wire
  }

  /** Everything sent to n's current session and not yet read by the agent. */
  function Queue(s: Sys, n: NodeId): seq<Frame>
    requires n in s.hub.sessions && s.hub.sessions[n].sid in s.wire
  {
    s.wire[s.hub.sessions[n].sid] + s.hub.sessions[n].out
  }

  function DrainedView(s: Sys, n: NodeId): Device
    requires Attached(s, n)
  {
    Drain(s.agents[n].device, Queue(s, n))
  }
}
