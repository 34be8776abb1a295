/** The invariant of the whole system, and its preservation by every event. */
module NetworkInvariant {
  import opened Wrappers
  import opened Wire
  import opened PeerTable
  import opened Device
  import opened StoreState
  import opened HubState
  import opened HubInvariants
  import opened HubView
  import opened SessionInvariant
  import opened Network

  /** One agent per node row, holding the certificate of that row. */
  ghost predicate AgentsOk(s: Sys) {
    && s.agents.Keys == s.hub.tables.nodes.Keys
    && forall n <- s.agents :: s.agents[n].serial == s.hub.tables.nodes[n].serial && ValidRegister(s.agents[n].port)
  }

  /** Connections belong to the node they name. */
  ghost predicate WiresOk(s: Sys) {
    && s.wire.Keys == s.up.Keys
    && (forall n <- s.hub.sessions :: s.hub.sessions[n].sid in s.wire)
    && (forall n <- s.agents | s.agents[n].conn.Some? ::
          s.agents[n].conn.value in s.wire && s.agents[n].conn.value.node == n)
  }

  /** A connection carries one register, first, with a key of its own node. */
  ghost predicate ReportsOk(s: Sys)
    requires WiresOk(s)
  {
    && (forall sid <- s.up :: forall i | 0 < i < |s.up[sid]| :: !s.up[sid][i].Register?)
    && forall n <- s.hub.sessions | FirstIsRegister(s.up[s.hub.sessions[n].sid]) ::
         var r := s.up[s.hub.sessions[n].sid][0];
         !s.hub.sessions[n].registered && r.key.owner == n && ValidRegister(r.port)
  }

  predicate FirstIsRegister(up: seq<Report>) {
    up != [] && up[0].Register?
  }

  /** What the hub recorded for a registered session is what its agent still uses. */
  ghost predicate CurrentOk(s: Sys)
    requires WiresOk(s)
  {
    forall n | n in s.agents && n in s.hub.sessions && s.agents[n].conn == Some(s.hub.sessions[n].sid) ::
      && (FirstIsRegister(s.up[s.hub.sessions[n].sid]) ==>
            var r := s.up[s.hub.sessions[n].sid][0];
            r.key == KeyOf(n, s.agents[n]) && r.port == s.agents[n].port && r.socksPort == s.agents[n].socksPort)
      && (s.hub.sessions[n].registered && n in s.hub.lastWG ==> Identifies(s.hub.lastWG[n], n, s.agents[n]))
  }

  predicate Identifies(w: WgIdent, n: NodeId, a: Agent) {
    w.key == KeyOf(n, a) && w.port == a.port && w.socksPort == a.socksPort
  }

  /** Every device is in order at every moment, and everything on its connection is sound for it. */
  ghost predicate DevicesOk(s: Sys)
    requires WiresOk(s)
  {
    forall n <- s.agents ::
      && Clean(s.agents[n].device.table)
      && (s.agents[n].conn.Some? ==>
            s.agents[n].device.phase != Ended && AllSound(s.agents[n].device, s.wire[s.agents[n].conn.value]))
  }

  ghost predicate OpenSessionsOk(s: Sys) {
    forall n | Attached(s, n) :: OpenOk(s.hub, n, s.agents[n].device, Queue(s, n))
  }

  ghost predicate Inv(s: Sys) {
    && Healthy(s.hub) && OwnKeys(s.hub)
    && AgentsOk(s) && WiresOk(s) && ReportsOk(s) && CurrentOk(s) && DevicesOk(s) && OpenSessionsOk(s)
  }

  // ---- handlers, seen by the whole system ----

  lemma ApplyKeepsOwnKeys(h: Hub, op: Operation)
    requires OwnKeys(h) && (op.Register? ==> op.ident.key.owner == op.node)
    ensures OwnKeys(Apply(h, op))
  {
  }

  lemma EnrollAddsRow(h: Hub, op: Operation)
    requires op.Enroll? && Enabled(h, op)
    ensures var nodes := Apply(h, op).tables.nodes;
            && (nodes.Keys == h.tables.nodes.Keys || nodes.Keys == h.tables.nodes.Keys + {op.node})
            && (op.node in nodes ==> nodes[op.node].serial == op.serial)
            && forall n <- h.tables.nodes :: nodes[n].serial == h.tables.nodes[n].serial
    ensures Apply(h, op).sessions == h.sessions && Apply(h, op).lastWG == h.lastWG
  {
  }

  lemma NewSessions(h: Hub, op: Operation, n: NodeId)
    requires n in Apply(h, op).sessions && !op.SessionUp?
    ensures (n in h.sessions && KeepsSession(op, n)) || !Enabled(h, op)
  {
  }

  /** A handler applied while the network stands still. */
  ghost predicate HandlerStep(s: Sys, op: Operation, s': Sys) {
    && s'.hub == Apply(s.hub, op) && s'.wire == s.wire
    && !op.SessionUp?
    && (op.Register? ==>
          op.ident.key.owner == op.node && op.node in s.hub.sessions && !s.hub.sessions[op.node].registered)
    && (forall n <- s.agents :: n in s'.agents && s'.agents[n] == s.agents[n])
    && (forall n <- s'.agents | n !in s.agents :: s'.agents[n].conn == None && Clean(s'.agents[n].device.table))
  }

  lemma HandlerKeepsOpenSessions(s: Sys, op: Operation, s': Sys)
    requires Healthy(s.hub) && OwnKeys(s.hub) && WiresOk(s) && OpenSessionsOk(s) && HandlerStep(s, op, s')
    ensures OpenSessionsOk(s')
  {
    forall n | Attached(s', n) ensures OpenOk(s'.hub, n, s'.agents[n].device, Queue(s', n)) {
      NewSessions(s.hub, op, n);
      if Enabled(s.hub, op) {
        SessionAfter(s.hub, op, n);
        assert Attached(s, n);
        HandlerKeepsOpen(s.hub, op, n, s.agents[n].device, Queue(s, n));
        QueueGrows(s, op, n, s');
      } else {
        assert Attached(s, n);
      }
    }
  }

  lemma QueueGrows(s: Sys, op: Operation, n: NodeId, s': Sys)
    requires Enabled(s.hub, op) && n in s.hub.sessions && KeepsSession(op, n) && s.hub.sessions[n].sid in s.wire
    requires s'.hub == Apply(s.hub, op) && s'.wire == s.wire
    requires n in s'.hub.sessions && s'.hub.sessions[n].open && s'.hub.sessions[n].sid == s.hub.sessions[n].sid
    ensures Queue(s', n) == QueueAfter(s.hub, op, n, Queue(s, n))
  {
    SessionAfter(s.hub, op, n);
    if n in Mails(s.hub, op) {
      var f := Mails(s.hub, op)[n].frame;
      var w, out := s.wire[s.hub.sessions[n].sid], s.hub.sessions[n].out;
      assert w + (out + [f]) == (w + out) + [f];
    }
  }

  // ---- the bookkeeping parts ----

  /** The hub forgets sessions and idents, or keeps them as they are. */
  ghost predicate Quieter(h: Hub, h': Hub) {
    && (forall n <- h'.sessions ::
          n in h.sessions && h'.sessions[n].sid == h.sessions[n].sid
              && h'.sessions[n].registered == h.sessions[n].registered)
    && (forall n <- h'.lastWG :: n in h.lastWG && h'.lastWG[n] == h.lastWG[n])
    && h'.tables.nodes.Keys == h.tables.nodes.Keys
    && (forall n <- h.tables.nodes :: h'.tables.nodes[n].serial == h.tables.nodes[n].serial)
  }

  lemma ApplyIsQuieter(h: Hub, op: Operation)
    requires !op.Register? && !op.Enroll? && !op.SessionUp?
    ensures Quieter(h, Apply(h, op))
  {
    hide Core, Mails;
    if Enabled(h, op) {
      CoreIsQuieter(h, op);
    }
  }

  lemma CoreIsQuieter(h: Hub, op: Operation)
    requires !op.Register? && !op.Enroll? && !op.SessionUp? && Enabled(h, op)
    ensures Quieter(h, Core(h, op))
  {
  }

  /** Agents keep their connection and identity, or lose the connection. */
  ghost predicate AgentsKept(s: Sys, s': Sys) {
    && s'.agents.Keys == s.agents.Keys
    && forall n <- s.agents :: var a, a' := s.agents[n], s'.agents[n];
         && a'.serial == a.serial && ValidRegister(a'.port)
         && (a'.conn == None || (a'.conn == a.conn && a'.device.generation == a.device.generation
                                 && a'.port == a.port && a'.socksPort == a.socksPort))
  }

  /** No register is added to a connection. */
  ghost predicate ReportsKept(s: Sys, s': Sys) {
    && s'.wire.Keys == s.wire.Keys && s'.up.Keys == s.up.Keys
    && forall sid | sid in s.up && sid in s'.up :: forall i | 0 <= i < |s'.up[sid]| && s'.up[sid][i].Register? ::
         i == 0 && s.up[sid] != [] && s.up[sid][0] == s'.up[sid][0]
  }

  lemma BookkeepingKept(s: Sys, s': Sys)
    requires AgentsOk(s) && WiresOk(s) && ReportsOk(s) && CurrentOk(s)
    requires Quieter(s.hub, s'.hub) && AgentsKept(s, s') && ReportsKept(s, s')
    ensures AgentsOk(s') && WiresOk(s') && ReportsOk(s') && CurrentOk(s')
  {
    hide NodesOk;
    forall n | n in s'.agents && n in s'.hub.sessions && s'.agents[n].conn == Some(s'.hub.sessions[n].sid)
      ensures FirstIsRegister(s'.up[s'.hub.sessions[n].sid]) ==>
                var r := s'.up[s'.hub.sessions[n].sid][0];
                r.key == KeyOf(n, s'.agents[n]) && r.port == s'.agents[n].port && r.socksPort == s'.agents[n].socksPort
      ensures s'.hub.sessions[n].registered && n in s'.hub.lastWG ==> Identifies(s'.hub.lastWG[n], n, s'.agents[n])
    {
      assert s.agents[n].conn == Some(s.hub.sessions[n].sid);
    }
  }

  // ---- event by event ----

  lemma HandlerEvent(s: Sys, e: Event)
    requires Inv(s) && e.Handler? && Possible(s, e)
    ensures Inv(Next(s, e))
  {
    hide TablesOk, OpenOk, RevokedSerials, CurrentOk, Core, Mails, AllSound, Clean;
    var s' := Next(s, e);
    ApplyKeepsHealthy(s.hub, e.op);
    ApplyKeepsOwnKeys(s.hub, e.op);
    ApplyIsQuieter(s.hub, e.op);
    BookkeepingKept(s, s');
    HandlerKeepsOpenSessions(s, e.op, s');
  }

  lemma EnrollEvent(s: Sys, e: Event)
    requires Inv(s) && e.EnrollNode? && Possible(s, e)
    ensures Inv(Next(s, e))
  {
    var s', op := Next(s, e), e.enroll;
    ApplyKeepsHealthy(s.hub, op);
    ApplyKeepsOwnKeys(s.hub, op);
    EnrollIsEnrolled(s, e);
    EnrolledBooks(s, op, s');
    EnrolledSessions(s, op, s');
    HandlerKeepsOpenSessions(s, op, s');
  }

  lemma EnrollIsEnrolled(s: Sys, e: Event)
    requires AgentsOk(s) && e.EnrollNode? && Possible(s, e)
    ensures Enrolled(s, e.enroll, Next(s, e)) && HandlerStep(s, e.enroll, Next(s, e))
  {
    hide Apply, Clean;
    EmptyIsClean();
    EnrollAddsRow(s.hub, e.enroll);
  }

  /** The new agent has no connection yet; everything else about the network stands still. */
  ghost predicate Enrolled(s: Sys, op: Operation, s': Sys) {
    && op.Enroll? && s'.wire == s.wire && s'.up == s.up && s'.hub.sessions == s.hub.sessions
        && s'.hub.lastWG == s.hub.lastWG
    && s'.agents.Keys == s'.hub.tables.nodes.Keys && s'.agents.Keys <= s.agents.Keys + {op.node}
    && (forall n <- s.agents :: n in s'.agents && s'.agents[n] == s.agents[n])
    && (forall n <- s.hub.tables.nodes ::
          n in s'.hub.tables.nodes && s'.hub.tables.nodes[n].serial == s.hub.tables.nodes[n].serial)
    && (forall n <- s'.agents | n !in s.agents ::
          var a := s'.agents[n];
          a.conn == None && a.device == FreshDevice(0) && ValidRegister(a.port)
              && a.serial == s'.hub.tables.nodes[n].serial)
  }

  lemma EnrolledBooks(s: Sys, op: Operation, s': Sys)
    requires AgentsOk(s) && WiresOk(s) && Enrolled(s, op, s')
    ensures AgentsOk(s') && WiresOk(s')
  {
  }

  lemma EnrolledSessions(s: Sys, op: Operation, s': Sys)
    requires AgentsOk(s) && WiresOk(s) && ReportsOk(s) && CurrentOk(s) && DevicesOk(s)
    requires Enrolled(s, op, s') && WiresOk(s')
    ensures ReportsOk(s') && CurrentOk(s') && DevicesOk(s')
  {
    hide Enrolled, ReportsOk, CurrentOk, DevicesOk, AgentsOk;
    EnrolledReports(s, op, s');
    EnrolledCurrent(s, op, s');
    EnrolledDevices(s, op, s');
  }

  lemma EnrolledReports(s: Sys, op: Operation, s': Sys)
    requires WiresOk(s) && ReportsOk(s) && Enrolled(s, op, s') && WiresOk(s')
    ensures ReportsOk(s')
  {
  }

  lemma EnrolledCurrent(s: Sys, op: Operation, s': Sys)
    requires WiresOk(s) && CurrentOk(s) && Enrolled(s, op, s') && WiresOk(s')
    ensures CurrentOk(s')
  {
    hide FirstIsRegister;
  }

  lemma EnrolledDevices(s: Sys, op: Operation, s': Sys)
    requires WiresOk(s) && DevicesOk(s) && Enrolled(s, op, s') && WiresOk(s')
    ensures DevicesOk(s')
  {
    hide AllSound, Clean;
    EmptyIsClean();
  }

  lemma HubWriteEvent(s: Sys, e: Event)
    requires Inv(s) && e.HubWrite? && Possible(s, e)
    ensures Inv(Next(s, e))
  {
    hide TablesOk, PendingOk, RuntimeOk, IdentsOk, DevicesOk, OpenSessionsOk, CurrentOk, Apply;
    var s', n := Next(s, e), e.node;
    FlushKeepsHealthy(s.hub, n);
    BookkeepingKept(s, s');
    WrittenKeepsOpen(s, s', n);
    WrittenSound(s, s', n);
  }

  /** Moving the oldest queued frame onto the connection does not change the queue as a whole. */
  lemma WrittenKeepsOpen(s: Sys, s': Sys, n: NodeId)
    requires SessionsOk(s.hub) && OpenSessionsOk(s) && n in s.hub.sessions && s.hub.sessions[n].open
        && s.hub.sessions[n].out != []
    requires s'.agents == s.agents && s'.hub == Flush(s.hub, n) && WiresOk(s)
    requires var sid := s.hub.sessions[n].sid; s'.wire == s.wire[sid := s.wire[sid] + [s.hub.sessions[n].out[0]]]
    ensures OpenSessionsOk(s')
  {
    forall m | Attached(s', m) ensures OpenOk(s'.hub, m, s'.agents[m].device, Queue(s', m)) {
      assert Attached(s, m);
      if m == n {
        var w, out := s.wire[s.hub.sessions[n].sid], s.hub.sessions[n].out;
        assert (w + [out[0]]) + out[1..] == w + out;
      }
      FlushView(s.hub, n, m, s.agents[m].device, Queue(s, m));
    }
  }

  lemma FlushView(h: Hub, n: NodeId, m: NodeId, dev: Device, q: seq<Frame>)
    requires n in h.sessions && h.sessions[n].out != [] && m in h.sessions && OpenOk(h, m, dev, q)
    ensures OpenOk(Flush(h, n), m, dev, q)
  {
    var h' := Flush(h, n);
    assert forall p :: Registered(h', p) == Registered(h, p);
    assert forall l: Link, p :: ExitWanted(h', l, p) == ExitWanted(h, l, p);
    assert forall t: Table, p :: Knows(h, t, p) ==> Knows(h', t, p);
  }

  /** A written frame was already part of an open session's sound queue. */
  lemma WrittenSound(s: Sys, s': Sys, n: NodeId)
    requires WiresOk(s) && DevicesOk(s) && OpenSessionsOk(s) && SessionsOk(s.hub)
    requires n in s.hub.sessions && s.hub.sessions[n].open && s.hub.sessions[n].out != []
    requires s'.agents == s.agents && WiresOk(s')
    requires var sid := s.hub.sessions[n].sid; s'.wire == s.wire[sid := s.wire[sid] + [s.hub.sessions[n].out[0]]]
    ensures DevicesOk(s')
  {
    var sid, out := s.hub.sessions[n].sid, s.hub.sessions[n].out;
    forall m <- s.agents | s.agents[m].conn == Some(sid)
      ensures AllSound(s.agents[m].device, s'.wire[sid])
    {
      assert m == n && Attached(s, n);
      assert Queue(s, n) == s'.wire[sid] + out[1..];
      AllSoundPrefix(s.agents[n].device, s'.wire[sid], out[1..]);
    }
  }

  lemma HubRestartEvent(s: Sys)
    requires Inv(s)
    ensures Inv(s.(hub := Restart(s.hub)))
  {
    RestartKeepsHealthy(s.hub);
    BookkeepingKept(s, s.(hub := Restart(s.hub)));
  }

  lemma AgentReadEvent(s: Sys, e: Event)
    requires Inv(s) && e.AgentRead? && Possible(s, e)
    ensures Inv(Next(s, e))
  {
    var s', n := Next(s, e), e.node;
    ReadIsDelivered(s, e);
    BookkeepingKept(s, s');
    DeliveredKeepsDevices(s, s', n);
    DeliveredKeepsOpen(s, s', n);
  }

  /** n's agent applied the oldest frame of its connection. */
  ghost predicate Delivered(s: Sys, s': Sys, n: NodeId) {
    && n in s.agents && s.agents[n].conn.Some? && s.agents[n].conn.value in s.wire
        && s.wire[s.agents[n].conn.value] != []
    && (var a := s.agents[n];
        var sid := a.conn.value;
        var device := Handle(a.device, s.wire[sid][0]);
        && s'.hub == s.hub && s'.wire == s.wire[sid := s.wire[sid][1..]]
        && s'.agents == s.agents[n := a.(device := device, conn := if device.phase == Ended then None else a.conn)])
  }

  lemma ReadIsDelivered(s: Sys, e: Event)
    requires AgentsOk(s) && WiresOk(s) && ReportsOk(s) && DevicesOk(s) && e.AgentRead? && Possible(s, e)
    ensures Delivered(s, Next(s, e), e.node) && AgentsKept(s, Next(s, e)) && ReportsKept(s, Next(s, e))
  {
    hide AllSound, TablesOk, Clean, Sound, Apply;
    var a := s.agents[e.node];
    ReportsAppended(s, Next(s, e), a.conn.value, Answer(a.device, s.wire[a.conn.value][0]));
  }

  lemma ReportsAppended(s: Sys, s': Sys, sid: SessionId, more: seq<Report>)
    requires WiresOk(s) && ReportsOk(s) && sid in s.up && forall r <- more :: !r.Register?
    requires s'.wire.Keys == s.wire.Keys && s'.up == s.up[sid := s.up[sid] + more]
    ensures ReportsKept(s, s')
  {
  }

  lemma DeliveredKeepsDevices(s: Sys, s': Sys, n: NodeId)
    requires WiresOk(s) && DevicesOk(s) && Delivered(s, s', n) && WiresOk(s')
    ensures DevicesOk(s')
  {
    HandleKeepsClean(s.agents[n].device, s.wire[s.agents[n].conn.value][0]);
    forall m <- s'.agents
      ensures Clean(s'.agents[m].device.table)
      ensures s'.agents[m].conn.Some? ==>
                s'.agents[m].device.phase != Ended && AllSound(s'.agents[m].device, s'.wire[s'.agents[m].conn.value])
    {
      if m != n && s.agents[m].conn.Some? {
        assert s.agents[m].conn.value != s.agents[n].conn.value;
      }
    }
  }

  lemma DeliveredKeepsOpen(s: Sys, s': Sys, n: NodeId)
    requires WiresOk(s) && SessionsOk(s.hub) && DevicesOk(s) && OpenSessionsOk(s) && Delivered(s, s', n)
    ensures OpenSessionsOk(s')
  {
    var sid := s.agents[n].conn.value;
    forall m | Attached(s', m) ensures OpenOk(s'.hub, m, s'.agents[m].device, Queue(s', m)) {
      assert Attached(s, m);
      if m == n {
        var out := s.hub.sessions[n].out;
        assert s.wire[sid] + out != [] && (s.wire[sid] + out)[1..] == s.wire[sid][1..] + out;
        DeliveryKeepsOpen(s.hub, n, s.agents[n].device, Queue(s, n));
      } else {
        assert s.hub.sessions[m].sid != sid;
      }
    }
  }

  lemma AgentLocalEvent(s: Sys, e: Event)
    requires Inv(s) && (e.AgentBeat? || e.AgentLeave? || e.AgentRestart?) && Possible(s, e)
    ensures Inv(Next(s, e))
  {
    hide TablesOk, OwnKeys, IdentsOk, PendingOk, RuntimeOk, CurrentOk, AgentsLeft, AgentsKept, ReportsKept;
    var s' := Next(s, e);
    LocalIsKept(s, e);
    BookkeepingKept(s, s');
    LocalKeepsDevices(s, s');
  }

  /** The agent stays as it is, or drops its connection with a device that is still in order. */
  ghost predicate AgentsLeft(s: Sys, s': Sys) {
    && s'.agents.Keys == s.agents.Keys
    && forall n <- s.agents :: s'.agents[n] == s.agents[n]
        || (s'.agents[n].conn == None && Clean(s'.agents[n].device.table))
  }

  lemma LocalIsKept(s: Sys, e: Event)
    requires AgentsOk(s) && WiresOk(s) && ReportsOk(s) && DevicesOk(s)
    requires (e.AgentBeat? || e.AgentLeave? || e.AgentRestart?) && Possible(s, e)
    ensures AgentsKept(s, Next(s, e)) && ReportsKept(s, Next(s, e)) && AgentsLeft(s, Next(s, e))
    ensures Next(s, e).hub == s.hub && Next(s, e).wire == s.wire
  {
    hide AgentsKept, ReportsKept, AgentsLeft, AllSound, ReportsOk, DevicesOk, Clean;
    match e
    case AgentBeat(n, peers) => BeatIsKept(s, Next(s, e), s.agents[n].conn.value, peers);
    case AgentLeave(n) =>
      DeviceIsClean(s, n);
      ConnectionDropped(s, Next(s, e), n);
    case AgentRestart(n, _, _) =>
      EmptyIsClean();
      ConnectionDropped(s, Next(s, e), n);
  }

  lemma DeviceIsClean(s: Sys, n: NodeId)
    requires WiresOk(s) && DevicesOk(s) && n in s.agents
    ensures Clean(s.agents[n].device.table)
  {
  }

  lemma EmptyIsClean()
    ensures Clean(EMPTY)
  {
  }

  lemma BeatIsKept(s: Sys, s': Sys, sid: SessionId, peers: seq<PeerStatus>)
    requires AgentsOk(s) && WiresOk(s) && ReportsOk(s) && sid in s.up
    requires s' == s.(up := s.up[sid := s.up[sid] + [Heartbeat(peers)]])
    ensures AgentsKept(s, s') && ReportsKept(s, s') && AgentsLeft(s, s')
  {
    ReportsAppended(s, s', sid, [Heartbeat(peers)]);
  }

  lemma ConnectionDropped(s: Sys, s': Sys, n: NodeId)
    requires AgentsOk(s) && WiresOk(s) && ReportsOk(s) && DevicesOk(s) && n in s.agents
    requires s'.up == s.up && s'.wire == s.wire && n in s'.agents && s'.agents == s.agents[n := s'.agents[n]]
    requires var a := s'.agents[n];
             a.conn == None && a.serial == s.agents[n].serial && ValidRegister(a.port) && Clean(a.device.table)
    ensures AgentsKept(s, s') && ReportsKept(s, s') && AgentsLeft(s, s')
  {
  }

  lemma LocalKeepsDevices(s: Sys, s': Sys)
    requires WiresOk(s) && WiresOk(s') && DevicesOk(s) && OpenSessionsOk(s)
    requires AgentsLeft(s, s') && s'.hub == s.hub && s'.wire == s.wire
    ensures DevicesOk(s') && OpenSessionsOk(s')
  {
    forall m | Attached(s', m) ensures OpenOk(s'.hub, m, s'.agents[m].device, Queue(s', m)) {
      assert Attached(s, m);
    }
  }

  lemma ConnectEvent(s: Sys, e: Event)
    requires Inv(s) && e.Connect? && Possible(s, e)
    ensures Inv(Next(s, e))
  {
    var s', n, sid := Next(s, e), e.node, SessionId(e.node, e.attempt);
    var op := SessionUp(n, sid);
    ApplyKeepsHealthy(s.hub, op);
    ApplyKeepsOwnKeys(s.hub, op);
    SessionUpEffect(s.hub, op);
    ConnectedBooks(s, s', n, sid);
    ConnectedReports(s, s', n, sid);
    ConnectedDevices(s, s', n, sid);
    ConnectedKeepsOpen(s, s', n, sid);
  }

  lemma SessionUpEffect(h: Hub, op: Operation)
    requires op.SessionUp? && Enabled(h, op)
    ensures Apply(h, op).tables == h.tables && Apply(h, op).lastWG == h.lastWG
    ensures Apply(h, op).sessions == h.sessions[op.node := Session(op.sid, true, false, [], map[])]
  {
  }

  /** n dialled in and sent its register. */
  ghost predicate Connected(s: Sys, s': Sys, n: NodeId, sid: SessionId) {
    && n in s.agents && s.agents[n].conn == None && sid !in s.wire && sid.node == n
    && Enabled(s.hub, SessionUp(n, sid)) && s'.hub == Apply(s.hub, SessionUp(n, sid))
    && (var a := s.agents[n];
        && s'.agents == s.agents[n := a.(device := a.device.(phase := Await), conn := Some(sid))]
        && s'.wire == s.wire[sid := []]
        && s'.up == s.up[sid := [Report.Register(KeyOf(n, a), a.port, a.socksPort)]])
  }

  lemma ConnectedBooks(s: Sys, s': Sys, n: NodeId, sid: SessionId)
    requires AgentsOk(s) && WiresOk(s) && Connected(s, s', n, sid)
    requires s'.hub.tables == s.hub.tables
    requires s'.hub.sessions == s.hub.sessions[n := Session(sid, true, false, [], map[])]
    ensures AgentsOk(s') && WiresOk(s')
  {
  }

  lemma ConnectedReports(s: Sys, s': Sys, n: NodeId, sid: SessionId)
    requires AgentsOk(s) && WiresOk(s) && ReportsOk(s) && CurrentOk(s) && Connected(s, s', n, sid) && WiresOk(s')
    requires s'.hub.lastWG == s.hub.lastWG
    requires s'.hub.sessions == s.hub.sessions[n := Session(sid, true, false, [], map[])]
    ensures ReportsOk(s') && CurrentOk(s')
  {
  }

  lemma ConnectedDevices(s: Sys, s': Sys, n: NodeId, sid: SessionId)
    requires WiresOk(s) && DevicesOk(s) && Connected(s, s', n, sid) && WiresOk(s')
    ensures DevicesOk(s')
  {
  }

  lemma ConnectedKeepsOpen(s: Sys, s': Sys, n: NodeId, sid: SessionId)
    requires Healthy(s.hub) && OwnKeys(s.hub) && WiresOk(s) && DevicesOk(s) && OpenSessionsOk(s)
        && Connected(s, s', n, sid)
    requires s'.hub.sessions == s.hub.sessions[n := Session(sid, true, false, [], map[])]
    ensures OpenSessionsOk(s')
  {
    var op := SessionUp(n, sid);
    forall m | Attached(s', m) ensures OpenOk(s'.hub, m, s'.agents[m].device, Queue(s', m)) {
      if m != n {
        assert Attached(s, m);
        HandlerKeepsOpen(s.hub, op, m, s.agents[m].device, Queue(s, m));
        assert QueueAfter(s.hub, op, m, Queue(s, m)) == Queue(s', m);
      }
    }
  }

  lemma HubReadEvent(s: Sys, e: Event)
    requires Inv(s) && e.HubRead? && Possible(s, e)
    ensures Inv(Next(s, e))
  {
    hide Healthy, DevicesOk, CurrentOk, OwnKeys, TablesOk, Apply;
    var s', n := Next(s, e), e.node;
    var r := s.up[s.hub.sessions[n].sid][0];
    if r.Register? {
      ReadRegisterEvent(s, e, r);
    } else if r.Reply? {
      BookkeepingKept(s, s');
      LocalKeepsDevices(s, s');
    } else {
      ReadReportEvent(s, e, r);
    }
  }

  lemma ReadReportEvent(s: Sys, e: Event, r: Report)
    requires Inv(s) && e.HubRead? && Possible(s, e) && r == s.up[s.hub.sessions[e.node].sid][0]
        && (r.Ack? || r.Heartbeat?)
    ensures Inv(Next(s, e))
  {
    var s', op := Next(s, e), ReadOperation(s, e.node, e.ip, e.rows, e.now, r).value;
    ApplyKeepsHealthy(s.hub, op);
    ApplyKeepsOwnKeys(s.hub, op);
    ApplyIsQuieter(s.hub, op);
    ReportPopped(s, e, op);
    BookkeepingKept(s, s');
    HandlerKeepsOpenSessions(s, op, s');
  }

  lemma ReportPopped(s: Sys, e: Event, op: Operation)
    requires AgentsOk(s) && WiresOk(s) && ReportsOk(s) && e.HubRead? && Possible(s, e)
    requires ReadOperation(s, e.node, e.ip, e.rows, e.now, s.up[s.hub.sessions[e.node].sid][0]) == Some(op)
    requires !op.Register?
    ensures HandlerStep(s, op, Next(s, e)) && AgentsKept(s, Next(s, e)) && ReportsKept(s, Next(s, e))
    ensures Next(s, e).agents == s.agents
  {
  }

  lemma ReadRegisterEvent(s: Sys, e: Event, r: Report)
    requires Inv(s) && e.HubRead? && Possible(s, e) && r == s.up[s.hub.sessions[e.node].sid][0] && r.Register?
    ensures Inv(Next(s, e))
  {
    hide Next, Possible, DevicesOk, CurrentOk, ReportsOk, TablesOk, OpenSessionsOk, Apply, HandlerStep, RegisteredStep;
    var s', n := Next(s, e), e.node;
    var op := RegisterIsRead(s, e, r);
    ApplyKeepsHealthy(s.hub, op);
    ApplyKeepsOwnKeys(s.hub, op);
    HandlerKeepsOpenSessions(s, op, s');
    RegisteredBooks(s, s', n, r);
    RegisteredCurrent(s, s', n, r);
    SameDevices(s, s');
  }

  /** Reading a register is the register handler, applied to what the report says. */
  lemma RegisterIsRead(s: Sys, e: Event, r: Report) returns (op: Operation)
    requires WiresOk(s) && ReportsOk(s) && SessionsOk(s.hub) && e.HubRead? && Possible(s, e)
    requires r == s.up[s.hub.sessions[e.node].sid][0] && r.Register?
    ensures var s' := Next(s, e);
            && HandlerStep(s, op, s') && RegisteredStep(s, s', e.node, r)
            && s'.hub == Apply(s.hub, op) && s'.agents == s.agents && s'.wire == s.wire
            && op.Register? && op.ident.key.owner == op.node
  {
    hide Apply;
    op := ReadOperation(s, e.node, e.ip, e.rows, e.now, r).value;
    assert FirstIsRegister(s.up[s.hub.sessions[e.node].sid]);
    RegisterEffect(s.hub, op);
  }

  lemma SameDevices(s: Sys, s': Sys)
    requires WiresOk(s) && WiresOk(s') && DevicesOk(s) && s'.agents == s.agents && s'.wire == s.wire
    ensures DevicesOk(s')
  {
  }

  lemma RegisterEffect(h: Hub, op: Operation)
    requires op.Register? && Enabled(h, op)
    ensures var h' := Apply(h, op);
            && h'.tables.nodes.Keys == h.tables.nodes.Keys
            && (forall n <- h.tables.nodes :: h'.tables.nodes[n].serial == h.tables.nodes[n].serial)
            && h'.sessions.Keys == h.sessions.Keys && h'.lastWG == h.lastWG[op.node := op.ident]
            && (forall n <- h.sessions :: h'.sessions[n].sid == h.sessions[n].sid)
            && (forall n <- h.sessions :: h'.sessions[n].registered == (h.sessions[n].registered || n == op.node))
  {
    hide Mails, RegisterLinks;
  }

  /** n's report was read and n is now registered with what it said. */
  ghost predicate RegisteredStep(s: Sys, s': Sys, n: NodeId, r: Report) {
    && n in s.hub.sessions && s.hub.sessions[n].sid in s.up && s.up[s.hub.sessions[n].sid] != []
    && r == s.up[s.hub.sessions[n].sid][0] && r.Register?
    && s'.agents == s.agents && s'.wire == s.wire
    && s'.up == s.up[s.hub.sessions[n].sid := s.up[s.hub.sessions[n].sid][1..]]
    && s'.hub.tables.nodes.Keys == s.hub.tables.nodes.Keys
    && (forall m <- s.hub.tables.nodes :: s'.hub.tables.nodes[m].serial == s.hub.tables.nodes[m].serial)
    && s'.hub.sessions.Keys == s.hub.sessions.Keys
    && n in s'.hub.lastWG
    && (var w := s'.hub.lastWG[n]; w.key == r.key && w.port == r.port && w.socksPort == r.socksPort)
    && s'.hub.lastWG == s.hub.lastWG[n := s'.hub.lastWG[n]]
    && forall m <- s.hub.sessions :: s'.hub.sessions[m].sid == s.hub.sessions[m].sid
                                     && s'.hub.sessions[m].registered == (s.hub.sessions[m].registered || m == n)
  }

  lemma RegisteredBooks(s: Sys, s': Sys, n: NodeId, r: Report)
    requires AgentsOk(s) && WiresOk(s) && ReportsOk(s) && SessionsOk(s.hub) && RegisteredStep(s, s', n, r)
    ensures AgentsOk(s') && WiresOk(s') && ReportsOk(s')
  {
    var sid := s.hub.sessions[n].sid;
    assert forall m <- s.hub.sessions :: s.hub.sessions[m].sid == sid ==> m == n;
    assert !FirstIsRegister(s'.up[sid]);
  }

  lemma RegisteredCurrent(s: Sys, s': Sys, n: NodeId, r: Report)
    requires WiresOk(s) && WiresOk(s') && ReportsOk(s) && CurrentOk(s) && SessionsOk(s.hub)
        && RegisteredStep(s, s', n, r)
    ensures CurrentOk(s')
  {
    hide AgentsOk, DevicesOk, TablesOk;
    var sid := s.hub.sessions[n].sid;
    assert forall m <- s.hub.sessions :: s.hub.sessions[m].sid == sid ==> m == n;
    assert !FirstIsRegister(s'.up[sid]);
  }

  /** Every event keeps the invariant. */
  lemma NextKeepsInv(s: Sys, e: Event)
    requires Inv(s)
    ensures Inv(Next(s, e))
  {
    if Possible(s, e) {
      match e
      case EnrollNode(_, _, _) => EnrollEvent(s, e);
      case Handler(_) => HandlerEvent(s, e);
      case Connect(_, _) => ConnectEvent(s, e);
      case HubRead(_, _, _, _) => HubReadEvent(s, e);
      case HubWrite(_) => HubWriteEvent(s, e);
      case HubRestart => HubRestartEvent(s);
      case AgentRead(_) => AgentReadEvent(s, e);
      case _ => AgentLocalEvent(s, e);
    }
  }

  lemma ExecMore(run: seq<Event>, e: Event)
    ensures Exec(INIT, run + [e]) == Next(Exec(INIT, run), e)
  {
    hide Next;
    assert (run + [e])[..|run|] == run;
  }

  /** Every reachable state satisfies the invariant. */
  lemma {:induction false} EveryRunKeepsInv(run: seq<Event>)
    ensures Inv(Exec(INIT, run))
  {
    if run != [] {
      EveryRunKeepsInv(run[..|run| - 1]);
      NextKeepsInv(Exec(INIT, run[..|run| - 1]), run[|run| - 1]);
    }
  }
}
