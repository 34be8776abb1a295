/** What a deleted node's agent is left with. The kick is meant to leave nothing
    behind; here is exactly when it does. */
module Deletion {
  import opened Wrappers
  import opened Wire
  import opened PeerTable
  import opened Device
  import opened StoreState
  import opened HubState
  import HubForms
  import Ipam
  import opened Network
  import opened HubView
  import opened NetworkInvariant
  import opened Guarantees
  import Recovery

  /** Everything p's agent can still read: its session's queue, or what was written before the session closed. */
  ghost function Left(s: Sys, p: NodeId): seq<Frame>
    requires p in s.agents
  {
    var conn := s.agents[p].conn;
    if Attached(s, p) then Queue(s, p) else if conn.Some? && conn.value in s.wire then s.wire[conn.value] else []
  }

  /** The kick finds room on the queue of the session p's agent is reading from. */
  predicate KickSent(s: Sys, p: NodeId) {
    Attached(s, p) && |s.hub.sessions[p].out| < OUT_CAPACITY
  }

  /** What p's agent could read of its session if the kick were taken away: a kick that finds the queue
      full closes the session, and the frames not written yet are lost with it. */
  ghost function LeftWithoutKick(s: Sys, p: NodeId): seq<Frame>
    requires p in s.agents
  {
    if Attached(s, p) && !KickSent(s, p) then s.wire[s.hub.sessions[p].sid] else Left(s, p)
  }

  /** DeleteNode's effect on p's own session. */
  lemma KickedSession(h: Hub, p: NodeId, now: int)
    requires p in h.tables.nodes
    ensures var h' := Apply(h, Operation.DeleteNode(p, now));
            && (p in h'.sessions <==> p in h.sessions)
            && (p in h.sessions ==> h'.sessions[p] == Post(h.sessions[p], Mail(Kick, map[])))
  {
  }

  /** A deleted node's agent ends without peers if and only if the kick was sent and is dispatched, or
      what it could read without the kick leaves no peer anyway. This covers nodes that are offline,
      sessions that overflow, and kicks read in place of a register_ack or after a rotate_wg. */
  lemma DeletedNodeIsCleared(s: Sys, p: NodeId, now: int)
    requires p in s.agents && p in s.hub.tables.nodes
    ensures var s', dev := Next(s, Handler(Operation.DeleteNode(p, now))), s.agents[p].device;
            && p in s'.agents && s'.agents[p] == s.agents[p]
            && (Drain(dev, Left(s', p)).table == EMPTY <==>
                  || (KickSent(s, p) && Dispatches(dev, Queue(s, p)))
                  || Drain(dev, LeftWithoutKick(s, p)).table == EMPTY)
  {
    hide Apply;
    var s', dev := Next(s, Handler(Operation.DeleteNode(p, now))), s.agents[p].device;
    KickedSession(s.hub, p, now);
    if KickSent(s, p) {
      var w, out := s.wire[s.hub.sessions[p].sid], s.hub.sessions[p].out;
      assert w + (out + [Kick]) == (w + out) + [Kick];
      assert Left(s', p) == Queue(s, p) + [Kick];
      KickClearsIffDispatched(dev, Queue(s, p));
    } else {
      assert Left(s', p) == LeftWithoutKick(s, p);
    }
  }

  /** The same for an agent attached to an open session: it stays attached and drains to no peers if and
      only if the queue has room and the kick is dispatched or there is nothing left to clear. */
  lemma AttachedNodeIsCleared(s: Sys, p: NodeId, now: int)
    requires Attached(s, p) && p in s.hub.tables.nodes
    ensures var s', dev, q := Next(s, Handler(Operation.DeleteNode(p, now))), s.agents[p].device, Queue(s, p);
            (Attached(s', p) && DrainedView(s', p).table == EMPTY) <==>
              |s.hub.sessions[p].out| < OUT_CAPACITY && (Dispatches(dev, q) || Drain(dev, q).table == EMPTY)
  {
    hide Apply;
    KickedSession(s.hub, p, now);
    DeletedNodeIsCleared(s, p, now);
  }

  // ---- nodes that are offline ----

  /** The process of p's agent is started again. */
  predicate Restarts(e: Event, p: NodeId) {
    e.AgentRestart? && e.node == p && ValidRegister(e.port)
  }

  ghost predicate RestartsIn(run: seq<Event>, p: NodeId) {
    exists i :: 0 <= i < |run| && Restarts(run[i], p)
  }

  /** A deleted node without a connection never gets one again, so only a restart changes its device. */
  lemma OfflineStep(s: Sys, e: Event, p: NodeId, serial: Serial)
    requires Withdrawn(s.hub, p, serial) && p in s.agents && s.agents[p].conn == None
    requires AgentsOk(s)
    ensures var s' := Next(s, e);
            && p in s'.agents && s'.agents[p].conn == None
            && s'.agents[p].device.table == if Restarts(e, p) then EMPTY else s.agents[p].device.table
  {
    hide Apply, Handle, Flush;
  }

  /** A node deleted while offline keeps its peers: whatever happens afterwards, its device is empty if and
      only if it was empty before or the agent's process is restarted. */
  lemma {:induction false} OfflineNodeIsCleared(run: seq<Event>, p: NodeId, now: int, more: seq<Event>)
    requires var s := Exec(INIT, run);
             p in s.agents && p in s.hub.tables.nodes && s.agents[p].conn == None
    ensures var s, s' := Exec(INIT, run), Exec(INIT, run + [Handler(Operation.DeleteNode(p, now))] + more);
            && p in s'.agents && s'.agents[p].conn == None
            && (s'.agents[p].device.table == EMPTY <==> s.agents[p].device.table == EMPTY || RestartsIn(more, p))
    decreases |more|
  {
    hide Next, Withdrawn, Restarts, RestartsIn, Exec;
    var deleted := run + [Handler(Operation.DeleteNode(p, now))];
    if more == [] {
      assert deleted + more == deleted;
      ExecMore(run, Handler(Operation.DeleteNode(p, now)));
      DeletionIsLocal(Exec(INIT, run), p, now);
      NoRestarts(p);
    } else {
      var init, last := more[..|more| - 1], more[|more| - 1];
      assert init + [last] == more;
      assert deleted + init + [last] == deleted + more;
      ExecMore(deleted + init, last);
      OfflineNodeIsCleared(run, p, now, init);
      OfflineNext(run, p, now, init, last);
      RestartsMore(init, last, p);
    }
  }

  lemma NoRestarts(p: NodeId)
    ensures !RestartsIn([], p)
  {
  }

  lemma OfflineNext(run: seq<Event>, p: NodeId, now: int, init: seq<Event>, last: Event)
    requires p in Exec(INIT, run).hub.tables.nodes
    requires var s := Exec(INIT, run + [Handler(Operation.DeleteNode(p, now))] + init);
             p in s.agents && s.agents[p].conn == None
    ensures var s := Exec(INIT, run + [Handler(Operation.DeleteNode(p, now))] + init);
            var s' := Next(s, last);
            && p in s'.agents && s'.agents[p].conn == None
            && s'.agents[p].device.table == if Restarts(last, p) then EMPTY else s.agents[p].device.table
  {
    hide Next, Exec, Withdrawn, Restarts, CurrentOk, ReportsOk, DevicesOk, OwnKeys, Healthy;
    var serial := StillWithdrawn(run, p, now, init);
    EveryRunKeepsInv(run + [Handler(Operation.DeleteNode(p, now))] + init);
    OfflineStep(Exec(INIT, run + [Handler(Operation.DeleteNode(p, now))] + init), last, p, serial);
  }

  lemma DeletionIsLocal(s: Sys, p: NodeId, now: int)
    requires p in s.hub.tables.nodes
    ensures var s' := Next(s, Handler(Operation.DeleteNode(p, now)));
            s'.agents == s.agents && Withdrawn(s'.hub, p, s.hub.tables.nodes[p].serial)
  {
  }

  lemma StillWithdrawn(run: seq<Event>, p: NodeId, now: int, more: seq<Event>) returns (serial: Serial)
    requires p in Exec(INIT, run).hub.tables.nodes
    ensures Withdrawn(Exec(INIT, run + [Handler(Operation.DeleteNode(p, now))] + more).hub, p, serial)
  {
    hide Next;
    var deleted := run + [Handler(Operation.DeleteNode(p, now))];
    assert deleted[..|deleted| - 1] == run;
    serial := Exec(INIT, run).hub.tables.nodes[p].serial;
    DeletionIsLocal(Exec(INIT, run), p, now);
    WithdrawnForever(Exec(INIT, deleted), more, p, serial);
    ExecAppend(INIT, deleted, more);
  }

  lemma RestartsMore(run: seq<Event>, e: Event, p: NodeId)
    ensures RestartsIn(run + [e], p) <==> RestartsIn(run, p) || Restarts(e, p)
  {
    if RestartsIn(run, p) {
      var i :| 0 <= i < |run| && Restarts(run[i], p);
      assert (run + [e])[i] == run[i];
    }
    assert (run + [e])[|run|] == e;
  }

  // ---- a kick that is sent and does not clear ----

  /** Room in a /24 that holds at most one node. */
  lemma RoomLeft(t: Tables, n: NodeId)
    requires n <= 1 && (forall m <- t.nodes :: m < n) && t.cooldown == map[]
    ensures var (t', ip) := Ipam.Allocate(t, Ipam.Prefix(0, 24), 0, 0); t' == t && ip.Some?
  {
    hide Ipam.Used;
    var p := Ipam.Prefix(0, 24);
    Ipam.Powers();
    Ipam.AllocateIsLeastFree(t, p, 0, 0);
    assert p.Network() == 0 && p.Broadcast() == 255;
    var ip := if 0 in t.nodes && t.nodes[0].overlay == Active(10) then 11 else 10;
    assert Ipam.Free(t, p, 0, 0, ip);
    assert Ipam.Prune(t, 0) == t;
  }

  /** The hub at the start, and with node 0 enrolled: nothing but rows with their own serial. */
  ghost predicate Plain(s: Sys, n: NodeId) {
    && Inv(s) && n <= 2 && (forall m: NodeId :: m in s.hub.tables.nodes <==> m < n)
    && (forall m <- s.hub.tables.nodes :: !s.hub.tables.nodes[m].revoked && s.hub.tables.nodes[m].serial == m)
    && s.hub.tables.links == map[] && s.hub.tables.cooldown == map[]
    && s.hub.links == map[] && s.hub.sessions == map[]
  }

  lemma EnrollNext(s: Sys, n: NodeId)
    requires Plain(s, n) && n <= 1
    ensures Plain(Next(s, EnrollNode(Enroll(n, n, Ipam.Prefix(0, 24), 0, 0), 1, 0)), n + 1)
  {
    hide Apply, Inv, Ipam.Allocate;
    var op := Enroll(n, n, Ipam.Prefix(0, 24), 0, 0);
    NextKeepsInv(s, EnrollNode(op, 1, 0));
    HubForms.EnrollForm(s.hub, n, n, Ipam.Prefix(0, 24), 0, 0);
    RoomLeft(s.hub.tables, n);
    assert Next(s, EnrollNode(op, 1, 0)).hub == Apply(s.hub, op);
  }

  lemma LinkThem(s: Sys)
    requires Plain(s, 2)
    ensures var t := Next(s, Handler(Operation.CreateLink(0, 0, 1))).hub.tables;
            Live(t, 0) && Live(t, 1) && Linked(t, 0, 1)
  {
    hide Apply, Inv;
    var op := Operation.CreateLink(0, 0, 1);
    HubForms.CreateLinkForm(s.hub, 0, 0, 1);
    var t := Next(s, Handler(op)).hub.tables;
    assert t == InsertLink(s.hub.tables, 0, 0, 1);
    assert Joins(t.links[0], 0, 1);
  }

  lemma NothingIsPlain()
    ensures Plain(INIT, 0)
  {
    EveryRunKeepsInv([]);
    Recovery.ExecNothing(INIT);
  }

  /** Two nodes, linked. */
  lemma TwoLinkedNodes() returns (run: seq<Event>)
    ensures var t := Exec(INIT, run).hub.tables; Live(t, 0) && Linked(t, 0, 1)
  {
    hide Next, Plain;
    var e0 := EnrollNode(Enroll(0, 0, Ipam.Prefix(0, 24), 0, 0), 1, 0);
    var e1 := EnrollNode(Enroll(1, 1, Ipam.Prefix(0, 24), 0, 0), 1, 0);
    NothingIsPlain();
    EnrollNext(INIT, 0);
    EnrollNext(Next(INIT, e0), 1);
    LinkThem(Next(Next(INIT, e0), e1));
    run := [e0, e1, Handler(Operation.CreateLink(0, 0, 1))];
    Recovery.ThreeEvents(INIT, e0, e1, run[2]);
  }

  /** A reachable state in which node p's agent holds a peer, has just dialled in and not yet registered. */
  lemma DiallingWithPeers() returns (run: seq<Event>, p: NodeId)
    ensures var s := Exec(INIT, run);
            && p in s.hub.tables.nodes && Attached(s, p) && Queue(s, p) == [] && s.hub.sessions[p].out == []
            && s.agents[p].device.phase == Await && s.agents[p].device.table != EMPTY
  {
    hide Next, Converged, Exec;
    var linked := TwoLinkedNodes();
    var more := Recovery.ConvergenceIsAlwaysPossible(linked);
    run, p := linked + more, 0;
    var s := Exec(INIT, run);
    EveryRunKeepsInv(run);
    StillLinked(Exec(INIT, linked), s);
    HoldsSomebody(s);
    var attempt := Redial(s, 0);
    Recovery.TwoEvents(s, AgentLeave(0), Connect(0, attempt));
    run := run + [AgentLeave(0), Connect(0, attempt)];
    ExecAppend(INIT, linked + more, [AgentLeave(0), Connect(0, attempt)]);
  }

  lemma StillLinked(s: Sys, s': Sys)
    requires Recovery.SameGraph(s, s') && Linked(s.hub.tables, 0, 1) && Live(s.hub.tables, 0)
    ensures Linked(s'.hub.tables, 0, 1) && Live(s'.hub.tables, 0)
  {
    var id :| id in s.hub.tables.links && Joins(s.hub.tables.links[id], 0, 1);
    assert id in s'.hub.tables.links && Joins(s'.hub.tables.links[id], 0, 1);
  }

  lemma HoldsSomebody(s: Sys)
    requires Converged(s) && Live(s.hub.tables, 0) && Linked(s.hub.tables, 0, 1)
    ensures 0 in s.agents && s.agents[0].device.table != EMPTY
  {
    assert ConvergedAt(s, 0);
    assert 1 in s.agents[0].device.table.nodeKeys;
  }

  lemma InvParts(s: Sys)
    requires Inv(s)
    ensures AgentsOk(s) && WiresOk(s) && Healthy(s.hub)
  {
  }

  lemma Redial(s: Sys, p: NodeId) returns (attempt: nat)
    requires Inv(s) && Live(s.hub.tables, p)
    ensures var s' := Next(Next(s, AgentLeave(p)), Connect(p, attempt));
            && p in s.agents && p in s'.hub.tables.nodes && Attached(s', p) && Queue(s', p) == []
                && s'.hub.sessions[p].out == []
            && s'.agents[p].device.phase == Await && s'.agents[p].device.table == s.agents[p].device.table
  {
    hide Apply, Inv, Healthy;
    InvParts(s);
    Recovery.LiveIsAdmitted(s, p);
    attempt := Recovery.FreshAttempt(p, s.wire.Keys);
    HubForms.SessionUpForm(s.hub, p, SessionId(p, attempt));
  }

  /** The failure is reachable: a kick is sent, read in place of register_ack, and the peer stays installed. */
  lemma KickCanLeavePeers() returns (run: seq<Event>, p: NodeId, now: int)
    ensures var s := Exec(INIT, run);
            && KickSent(s, p) && p in s.hub.tables.nodes
            && var s' := Next(s, Handler(Operation.DeleteNode(p, now)));
               && Attached(s', p) && Kick in Queue(s', p) && DrainedView(s', p).table != EMPTY
  {
    hide Exec, Next;
    run, p := DiallingWithPeers();
    now := 0;
    var s := Exec(INIT, run);
    MissedKick(s, p, now);
  }

  lemma MissedKick(s: Sys, p: NodeId, now: int)
    requires p in s.hub.tables.nodes && Attached(s, p) && Queue(s, p) == [] && s.hub.sessions[p].out == []
    requires s.agents[p].device.phase == Await && s.agents[p].device.table != EMPTY
    ensures var s' := Next(s, Handler(Operation.DeleteNode(p, now)));
            Attached(s', p) && Kick in Queue(s', p) && DrainedView(s', p).table != EMPTY
  {
    hide Apply;
    KickedSession(s.hub, p, now);
    AttachedNodeIsCleared(s, p, now);
  }
}
