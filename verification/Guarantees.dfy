/** What the matchmaking protocol guarantees over every run: any sequence of
    administrator commands, agent and hub restarts, lost connections,
    overflowing queues and deliveries, from an empty hub. */
module Guarantees {
  import opened Wrappers
  import opened Wire
  import opened PeerTable
  import opened Device
  import opened StoreState
  import opened HubState
  import HubForms
  import opened HubView
  import opened SessionInvariant
  import opened Network
  import opened NetworkInvariant
  import opened AckInvariant

  // ---- the drained view ----

  /** n's drained view is that of an agent still serving its session. */
  ghost predicate Serving(s: Sys, n: NodeId) {
    Attached(s, n) && Registered(s.hub, n) && DrainedView(s, n).phase == Serve
  }

  /** Once everything already sent to an open registered session has been applied, its agent holds
      exactly current entries: every peer is the other end of a link, with the key, endpoint and
      address last registered, and every registered other end is held. */
  lemma DrainedViewIsCurrent(run: seq<Event>, x: NodeId)
    requires Serving(Exec(INIT, run), x)
    ensures var s := Exec(INIT, run);
            var h, view := s.hub, DrainedView(s, x);
            && (forall p <- view.table.nodeKeys ::
                  && Linked(h.tables, x, p) && p in h.lastWG
                  && view.table.nodeKeys[p] == h.lastWG[p].key && h.lastWG[p].key in view.table.kernel
                  && view.table.kernel[h.lastWG[p].key]
                     == PeerConf(Endpoint(h.lastWG[p].ip, h.lastWG[p].port), OverlayOf(h.tables, p)))
            && (forall p | Linked(h.tables, x, p) && Registered(h, p) :: p in view.table.nodeKeys)
  {
    hide Healthy, CurrentOk, ReportsOk, DevicesOk, OwnKeys, AgentsOk, ViewOk, Linked;
    EveryRunKeepsInv(run);
    var s := Exec(INIT, run);
    assert OpenOk(s.hub, x, s.agents[x].device, Queue(s, x));
    ViewedPeers(s.hub, x, DrainedView(s, x));
  }

  lemma ViewedPeers(h: Hub, x: NodeId, view: Device)
    requires ViewOk(h, x, view)
    ensures forall p <- view.table.nodeKeys ::
              && Linked(h.tables, x, p) && p in h.lastWG
              && view.table.nodeKeys[p] == h.lastWG[p].key && h.lastWG[p].key in view.table.kernel
              && view.table.kernel[h.lastWG[p].key]
                 == PeerConf(Endpoint(h.lastWG[p].ip, h.lastWG[p].port), OverlayOf(h.tables, p))
    ensures forall p | Linked(h.tables, x, p) && Registered(h, p) :: p in view.table.nodeKeys
  {
    forall p <- view.table.nodeKeys ensures Linked(h.tables, x, p) && Knows(h, view.table, p) {
    }
    forall p | Linked(h.tables, x, p) && Registered(h, p) ensures p in view.table.nodeKeys {
      var id :| id in h.tables.links && Joins(h.tables.links[id], x, p);
      assert Other(h.tables.links[id], x) == p;
    }
  }

  /** An open registered session always drains to a serving agent unless the hub itself ended it:
      a rotate or kick is queued, or something was sent before register_ack. */
  lemma OnlyTheHubEndsServing(run: seq<Event>, x: NodeId)
    requires var s := Exec(INIT, run); Attached(s, x) && Registered(s.hub, x)
    ensures var s := Exec(INIT, run);
            DrainedView(s, x).phase == Serve <==>
              && (forall f <- Queue(s, x) :: !Ends(f))
              && (s.agents[x].device.phase == Await ==> Queue(s, x) != [] && Queue(s, x)[0].RegisterAck?)
  {
    EveryRunKeepsInv(run);
    var s := Exec(INIT, run);
    var q := Queue(s, x);
    DispatchesIffServing(s.agents[x].device, q);
    assert (forall f <- q :: !Ends(f)) <==> (forall i | 0 <= i < |q| :: !Ends(q[i]));
  }

  /** The drained exit map: an entry for exactly the registered links that designate their other end
      as an exit with a SOCKS port, holding that node's overlay address and port; none for anything
      that is not a link of x. */
  lemma DrainedExitsAreCurrent(run: seq<Event>, x: NodeId)
    requires Serving(Exec(INIT, run), x)
    ensures var s := Exec(INIT, run);
            var h, exits := s.hub, DrainedView(s, x).exits;
            && (forall id <- exits :: id in h.tables.links && Touches(h.tables.links[id], x))
            && (forall id <- h.tables.links :: var l := h.tables.links[id];
                  var p := Other(l, x);
                  Touches(l, x) && Registered(h, p) ==>
                    && p in h.lastWG
                    && (id in exits <==> l.exit == Some(p) && h.lastWG[p].socksPort > 0)
                    && (id in exits ==> exits[id] == ExitAddr(OverlayOf(h.tables, p), h.lastWG[p].socksPort)))
  {
    hide Healthy, CurrentOk, ReportsOk, DevicesOk, OwnKeys, AgentsOk, ViewOk;
    EveryRunKeepsInv(run);
    var s := Exec(INIT, run);
    assert OpenOk(s.hub, x, s.agents[x].device, Queue(s, x));
    ViewedExits(s.hub, x, DrainedView(s, x));
  }

  lemma ViewedExits(h: Hub, x: NodeId, view: Device)
    requires ViewOk(h, x, view)
    ensures forall id <- view.exits :: id in h.tables.links && Touches(h.tables.links[id], x)
    ensures forall id <- h.tables.links :: var l := h.tables.links[id];
              var p := Other(l, x);
              Touches(l, x) && Registered(h, p) ==>
                && p in h.lastWG
                && (id in view.exits <==> l.exit == Some(p) && h.lastWG[p].socksPort > 0)
                && (id in view.exits ==> view.exits[id] == ExitAddr(OverlayOf(h.tables, p), h.lastWG[p].socksPort))
  {
    forall id <- h.tables.links | Touches(h.tables.links[id], x) && Registered(h, Other(h.tables.links[id], x))
      ensures Other(h.tables.links[id], x) in h.lastWG
      ensures Lookup(view.exits, id) == ExitWanted(h, h.tables.links[id], Other(h.tables.links[id], x))
    {
    }
  }

  // ---- every device at every moment ----

  /** Every agent's device, at every moment of every run, and after any part of what is on its way to
      it: both maps inverse, the kernel's peer set equal to their keys, no two peers sharing an
      allowed IP. */
  lemma DevicesAlwaysClean(run: seq<Event>, n: NodeId)
    requires n in Exec(INIT, run).agents
    ensures Clean(Exec(INIT, run).agents[n].device.table)
    ensures Attached(Exec(INIT, run), n) ==> Clean(DrainedView(Exec(INIT, run), n).table)
  {
    EveryRunKeepsInv(run);
    var s := Exec(INIT, run);
    if Attached(s, n) {
      DrainKeepsClean(s.agents[n].device, Queue(s, n));
    }
  }

  /** AddPeer, which never drops a stale key, only ever meets an unknown node; and for every frame an
      agent reads while serving, the in-memory stub would end with the same maps. */
  lemma EveryPushMeetsItsCase(run: seq<Event>, n: NodeId)
    requires var s := Exec(INIT, run);
             n in s.agents && s.agents[n].conn.Some? && s.agents[n].conn.value in s.wire
             && s.wire[s.agents[n].conn.value] != [] && s.agents[n].device.phase == Serve
    ensures var s := Exec(INIT, run);
            var t, f := s.agents[n].device.table, s.wire[s.agents[n].conn.value][0];
            match f
            case PeerAdd(_, spec) => spec.node !in t.nodeKeys && Maps(Add(t, spec)) == StubAdd(Maps(t), spec)
            case PeerUpdate(_, spec) => Maps(Update(t, spec)) == StubUpdate(Maps(t), spec)
            case PeerRemove(_, _, key) => Maps(RemoveKey(t, key)) == StubRemove(Maps(t), key)
            case _ => true
  {
    EveryRunKeepsInv(run);
    var s := Exec(INIT, run);
    var t, f := s.agents[n].device.table, s.wire[s.agents[n].conn.value][0];
    assert Sound(s.agents[n].device, f);
    match f
    case PeerAdd(_, spec) => StubRefines(t, spec, spec.key);
    case PeerUpdate(_, spec) => StubRefines(t, spec, spec.key);
    case PeerRemove(_, _, key) => StubRemoveAgrees(t, key);
    case _ =>
  }

  /** In every reachable state an agent running on the stub would end with the same maps, after everything
      that is on its way to it: register_ack, pushes, withdrawals, rotation and kick. */
  lemma StubWouldAgree(run: seq<Event>, n: NodeId)
    requires Attached(Exec(INIT, run), n)
    ensures var s := Exec(INIT, run);
            var d := s.agents[n].device;
            StubDrain(d.phase, Maps(d.table), Queue(s, n)) == (DrainedView(s, n).phase, Maps(DrainedView(s, n).table))
  {
    EveryRunKeepsInv(run);
    var s := Exec(INIT, run);
    StubDrainRefines(s.agents[n].device, Queue(s, n));
  }

  /** In every reachable state the nodes that are not deleted have addresses, all of them different. */
  lemma ActiveAddressesDistinct(run: seq<Event>, n: NodeId, m: NodeId)
    requires var t := Exec(INIT, run).hub.tables; Live(t, n) && Live(t, m) && n != m
    ensures var t := Exec(INIT, run).hub.tables;
            t.nodes[n].overlay.Active? && t.nodes[m].overlay.Active? && t.nodes[n].overlay.ip != t.nodes[m].overlay.ip
  {
    EveryRunKeepsInv(run);
    assert NodesOk(Exec(INIT, run).hub.tables);
  }

  /** A serving agent answers every frame that carries an id under that id: pushes, withdrawals and rotations
      with a successful confirmation, requests with a reply; nothing else is answered. */
  lemma AnswersCarryTheId(s: Sys, n: NodeId)
    requires Possible(s, AgentRead(n)) && s.agents[n].device.phase == Serve
    ensures var sid := s.agents[n].conn.value;
            var said := Next(s, AgentRead(n)).up[sid];
            match s.wire[sid][0]
            case PeerAdd(id, _) => said == s.up[sid] + [Ack(id, true)]
            case PeerUpdate(id, _) => said == s.up[sid] + [Ack(id, true)]
            case PeerRemove(id, _, _) => said == s.up[sid] + [Ack(id, true)]
            case RotateWG(id) => said == s.up[sid] + [Ack(id, true)]
            case Request(id) => said == s.up[sid] + [Reply(id)]
            case _ => said == s.up[sid]
  {
    hide Handle;
  }

  // ---- convergence ----

  /** n's current session is attached, registered and has nothing left to deliver either way. */
  ghost predicate Settled(s: Sys, n: NodeId) {
    && Attached(s, n) && Registered(s.hub, n) && Queue(s, n) == []
    && s.hub.sessions[n].sid in s.up && s.up[s.hub.sessions[n].sid] == []
  }

  ghost predicate Quiescent(s: Sys) {
    forall n | Live(s.hub.tables, n) :: Settled(s, n)
  }

  /** The devices are the link graph: x holds p exactly when they are linked, with p's actual device
      key, listen port and overlay address, and with exactly the designated exits. */
  ghost predicate Converged(s: Sys) {
    forall x | Live(s.hub.tables, x) :: ConvergedAt(s, x)
  }

  ghost predicate HoldsActual(s: Sys, t: Table, p: NodeId)
    requires p in s.agents
  {
    && p in t.nodeKeys && t.nodeKeys[p] == KeyOf(p, s.agents[p]) && t.nodeKeys[p] in t.kernel
    && t.kernel[t.nodeKeys[p]].allowed == OverlayOf(s.hub.tables, p)
    && t.kernel[t.nodeKeys[p]].endpoint.port == s.agents[p].port
  }

  /** After any run whatsoever, as soon as every live node is registered and everything is drained,
      the agents' devices equal the link graph. */
  lemma QuiescentIsConverged(run: seq<Event>)
    requires Quiescent(Exec(INIT, run))
    ensures Converged(Exec(INIT, run))
  {
    EveryRunKeepsInv(run);
    var s := Exec(INIT, run);
    forall x | Live(s.hub.tables, x) ensures ConvergedAt(s, x) {
      SettledIsConverged(s, x);
    }
  }

  ghost predicate ConvergedAt(s: Sys, x: NodeId) {
    && x in s.agents
    && var d := s.agents[x].device;
       && (forall p :: p in d.table.nodeKeys <==> Linked(s.hub.tables, x, p))
       && (forall p <- d.table.nodeKeys :: p in s.agents && HoldsActual(s, d.table, p))
       && d.table.kernel.Keys == (set p | p in d.table.nodeKeys :: d.table.nodeKeys[p])
       && (forall id <- d.exits :: id in s.hub.tables.links && Touches(s.hub.tables.links[id], x))
       && (forall id <- s.hub.tables.links | Touches(s.hub.tables.links[id], x) ::
             var p := Other(s.hub.tables.links[id], x);
             p in s.agents && Lookup(d.exits, id) ==
             if s.hub.tables.links[id].exit == Some(p) && s.agents[p].socksPort > 0
             then Some(ExitAddr(OverlayOf(s.hub.tables, p), s.agents[p].socksPort)) else None)
  }

  lemma SettledIsConverged(s: Sys, x: NodeId)
    requires Inv(s) && Quiescent(s) && Live(s.hub.tables, x)
    ensures ConvergedAt(s, x)
  {
    SettledView(s, x);
    forall p | Linked(s.hub.tables, x, p)
      ensures p in s.agents && Registered(s.hub, p) && p in s.hub.lastWG && Identifies(s.hub.lastWG[p], p, s.agents[p])
    {
      NeighbourSettled(s, x, p);
    }
    SettledPeers(s, x);
    SettledExits(s, x);
  }

  lemma SettledView(s: Sys, x: NodeId)
    requires Inv(s) && Settled(s, x)
    ensures Clean(s.agents[x].device.table) && ViewOk(s.hub, x, s.agents[x].device)
  {
    assert OpenOk(s.hub, x, s.agents[x].device, []);
    assert Drain(s.agents[x].device, []) == s.agents[x].device;
  }

  /** The other ends of x's links are all registered, with what their agents actually use. */
  ghost predicate NeighboursKnown(s: Sys, x: NodeId) {
    forall p | Linked(s.hub.tables, x, p) ::
      p in s.agents && Registered(s.hub, p) && p in s.hub.lastWG && Identifies(s.hub.lastWG[p], p, s.agents[p])
  }

  lemma SettledPeers(s: Sys, x: NodeId)
    requires x in s.agents && LinksOk(s.hub.tables) && NeighboursKnown(s, x)
    requires Clean(s.agents[x].device.table) && ViewOk(s.hub, x, s.agents[x].device)
    ensures var t := s.agents[x].device.table;
            && (forall p :: p in t.nodeKeys <==> Linked(s.hub.tables, x, p))
            && (forall p <- t.nodeKeys :: p in s.agents && HoldsActual(s, t, p))
            && t.kernel.Keys == (set p | p in t.nodeKeys :: t.nodeKeys[p])
  {
    hide LinksOk, DisjointAllowed;
    var h, d := s.hub, s.agents[x].device;
    forall p ensures p in d.table.nodeKeys <==> Linked(h.tables, x, p) {
      if Linked(h.tables, x, p) {
        var id :| id in h.tables.links && Joins(h.tables.links[id], x, p);
        assert Other(h.tables.links[id], x) == p;
      }
    }
    forall p <- d.table.nodeKeys ensures p in s.agents && HoldsActual(s, d.table, p) {
      assert Knows(h, d.table, p);
    }
  }

  lemma SettledExits(s: Sys, x: NodeId)
    requires x in s.agents && LinksOk(s.hub.tables) && NeighboursKnown(s, x) && ViewOk(s.hub, x, s.agents[x].device)
    ensures var exits := s.agents[x].device.exits;
            && (forall id <- exits :: id in s.hub.tables.links && Touches(s.hub.tables.links[id], x))
            && (forall id <- s.hub.tables.links | Touches(s.hub.tables.links[id], x) ::
                  var p := Other(s.hub.tables.links[id], x);
                  p in s.agents && Lookup(exits, id) ==
                  if s.hub.tables.links[id].exit == Some(p) && s.agents[p].socksPort > 0
                  then Some(ExitAddr(OverlayOf(s.hub.tables, p), s.agents[p].socksPort)) else None)
  {
    var h, d := s.hub, s.agents[x].device;
    forall id <- h.tables.links | Touches(h.tables.links[id], x)
      ensures Lookup(d.exits, id) == ExitWanted(h, h.tables.links[id], Other(h.tables.links[id], x))
      ensures Linked(h.tables, x, Other(h.tables.links[id], x))
    {
      LinkOfOther(h.tables, id, x);
    }
  }

  lemma NeighbourSettled(s: Sys, x: NodeId, p: NodeId)
    requires Inv(s) && Quiescent(s) && Linked(s.hub.tables, x, p)
    ensures p in s.agents && Registered(s.hub, p) && p in s.hub.lastWG && Identifies(s.hub.lastWG[p], p, s.agents[p])
  {
    assert Live(s.hub.tables, p);
    assert Settled(s, p);
  }

  /** In a converged system holding is mutual. */
  lemma ConvergedIsMutual(s: Sys, x: NodeId, p: NodeId)
    requires Converged(s) && Live(s.hub.tables, x) && Live(s.hub.tables, p)
    ensures p in s.agents[x].device.table.nodeKeys <==> x in s.agents[p].device.table.nodeKeys
  {
    assert Linked(s.hub.tables, x, p) <==> Linked(s.hub.tables, p, x) by {
      if id :| id in s.hub.tables.links && Joins(s.hub.tables.links[id], x, p) {
        assert Joins(s.hub.tables.links[id], p, x);
      }
      if id :| id in s.hub.tables.links && Joins(s.hub.tables.links[id], p, x) {
        assert Joins(s.hub.tables.links[id], x, p);
      }
    }
  }

  // ---- confirmations ----

  /** While x's end is open and registered and so is the other end, x's side of the link is confirmed,
      or a push for it is still queued, or its confirmation is on its way. */
  lemma NoConfirmationIsLost(run: seq<Event>, id: LinkId, x: NodeId)
    requires var h := Exec(INIT, run).hub; id in h.tables.links && Owed(h, h.tables.links[id], x)
    ensures var s := Exec(INIT, run);
            var l, ses := s.hub.tables.links[id], s.hub.sessions[x];
            && id in s.hub.links && ses.sid in s.wire && ses.sid in s.up
            && (|| Flag(s.hub.links[id], SideOf(l, x))
                || exists e :: e in ses.pending && ses.pending[e] == AckRef(id, SideOf(l, x))
                               && (Queued(Queue(s, x), e) || Ack(e, true) in s.up[ses.sid]))
  {
    hide NodesOk, RuntimeOk, IdentsOk, PendingOk, CurrentOk, ReportsOk, DevicesOk, OpenSessionsOk, OwnKeys, AgentsOk,
        Next;
    ReachableAcks(run);
    var s := Exec(INIT, run);
    assert SideOk(s.hub, s.hub.tables.links[id], x, Queue(s, x), s.up[s.hub.sessions[x].sid]);
    var ref := AckRef(id, SideOf(s.hub.tables.links[id], x));
    assert Flag(s.hub.links[id], ref.side) || Awaited(s.hub.sessions[x], Queue(s, x), s.up[s.hub.sessions[x].sid], ref);
  }

  /** A registered end that has been served completely. */
  ghost predicate DrainedEnd(s: Sys, n: NodeId) {
    Registered(s.hub, n) ==>
      && s.hub.sessions[n].open && s.hub.sessions[n].sid in s.wire && s.hub.sessions[n].sid in s.up
      && Queue(s, n) == [] && s.up[s.hub.sessions[n].sid] == []
  }

  /** When both ends are drained, the status is pending exactly if an end is not registered. */
  lemma DrainedStatus(run: seq<Event>, id: LinkId, now: int)
    requires var s := Exec(INIT, run);
             && id in s.hub.tables.links
             && DrainedEnd(s, s.hub.tables.links[id].a) && DrainedEnd(s, s.hub.tables.links[id].b)
    ensures var h := Exec(INIT, run).hub;
            var l := h.tables.links[id];
            StatusOf(h, l, now) != Pending <==> Registered(h, l.a) && Registered(h, l.b)
  {
    hide AcksOk, SideOk, Next, NodesOk, OwnKeys, CurrentOk, ReportsOk, DevicesOk, OpenSessionsOk, PendingOk,
        RuntimeOk, IdentsOk;
    ReachableAcks(run);
    var s := Exec(INIT, run);
    var l := s.hub.tables.links[id];
    if Registered(s.hub, l.a) && Registered(s.hub, l.b) {
      SideConfirmed(s, l, l.a);
      SideConfirmed(s, l, l.b);
    }
  }

  lemma SideConfirmed(s: Sys, l: Link, x: NodeId)
    requires Inv(s) && AcksOk(s) && l.id in s.hub.tables.links && s.hub.tables.links[l.id] == l
    requires Owed(s.hub, l, x) && DrainedEnd(s, x)
    ensures l.id in s.hub.links && Flag(s.hub.links[l.id], SideOf(l, x))
  {
    hide Healthy, CurrentOk, ReportsOk, DevicesOk, OpenSessionsOk, OwnKeys, AgentsOk;
    assert SideOk(s.hub, l, x, [], []);
  }

  /** Some report names m with a handshake less than 180 s old. */
  ghost predicate RecentlySeen(peers: seq<PeerStatus>, m: NodeId, now: int) {
    exists i :: 0 <= i < |peers| && peers[i].node == m && now - peers[i].handshake < 180
  }

  /** After a heartbeat, a link that is not pending is active exactly if its last handshake was recent
      before or the heartbeat reports a recent one for its other end; otherwise it is degraded. */
  lemma HeartbeatDecidesStatus(h: Hub, n: NodeId, peers: seq<PeerStatus>, at: int, id: LinkId, now: int)
    requires n in h.sessions && id in h.tables.links && Touches(h.tables.links[id], n) && h.tables.links[id].id == id
    requires StatusOf(Apply(h, Beat(n, peers, at)), h.tables.links[id], now) != Pending
    ensures var l := h.tables.links[id];
            && id in h.links
            && (StatusOf(Apply(h, Beat(n, peers, at)), l, now) == ActiveLink <==>
                  now - h.links[id].lastHS < 180 || RecentlySeen(peers, Other(l, n), now))
  {
    HubForms.BeatForm(h, n, peers, at);
    hide Apply;
    if id in h.links {
      NewestIsRecent(peers, Other(h.tables.links[id], n), h.links[id].lastHS, now);
    }
  }

  lemma {:induction false} NewestIsRecent(peers: seq<PeerStatus>, m: NodeId, base: int, now: int)
    ensures now - NewestHandshake(peers, m, base) < 180 <==> now - base < 180 || RecentlySeen(peers, m, now)
  {
    if peers != [] {
      var init, last := peers[..|peers| - 1], |peers| - 1;
      NewestIsRecent(init, m, base, now);
      if RecentlySeen(init, m, now) {
        var i :| 0 <= i < |init| && init[i].node == m && now - init[i].handshake < 180;
        assert peers[i] == init[i];
      }
      if RecentlySeen(peers, m, now) {
        var i :| 0 <= i < |peers| && peers[i].node == m && now - peers[i].handshake < 180;
        assert i < last ==> init[i] == peers[i];
      }
    }
  }

  // ---- withdrawn nodes ----

  lemma {:induction false} ExecAppend(s: Sys, run: seq<Event>, more: seq<Event>)
    ensures Exec(s, run + more) == Exec(Exec(s, run), more)
  {
    if more == [] {
      assert run + more == run;
    } else {
      var init := more[..|more| - 1];
      assert (run + more)[..|run + more| - 1] == run + init;
      ExecAppend(s, run, init);
    }
  }

  ghost predicate Withdrawn(h: Hub, p: NodeId, serial: Serial) {
    p in h.tables.nodes && h.tables.nodes[p].revoked && h.tables.nodes[p].serial == serial
  }

  lemma ApplyKeepsWithdrawn(h: Hub, op: Operation, p: NodeId, serial: Serial)
    requires Withdrawn(h, p, serial)
    ensures Withdrawn(Apply(h, op), p, serial)
  {
  }

  lemma NextKeepsWithdrawn(s: Sys, e: Event, p: NodeId, serial: Serial)
    requires Withdrawn(s.hub, p, serial)
    ensures Withdrawn(Next(s, e).hub, p, serial)
  {
    if Possible(s, e) {
      match e
      case EnrollNode(op, _, _) => ApplyKeepsWithdrawn(s.hub, op, p, serial);
      case Handler(op) => ApplyKeepsWithdrawn(s.hub, op, p, serial);
      case Connect(n, attempt) => ApplyKeepsWithdrawn(s.hub, SessionUp(n, SessionId(n, attempt)), p, serial);
      case HubRead(n, ip, rows, now) =>
        var op := ReadOperation(s, n, ip, rows, now, s.up[s.hub.sessions[n].sid][0]);
        if op.Some? {
          ApplyKeepsWithdrawn(s.hub, op.value, p, serial);
        }
      case _ =>
    }
  }

  lemma {:induction false} WithdrawnForever(s: Sys, more: seq<Event>, p: NodeId, serial: Serial)
    requires Withdrawn(s.hub, p, serial)
    ensures Withdrawn(Exec(s, more).hub, p, serial)
  {
    if more != [] {
      WithdrawnForever(s, more[..|more| - 1], p, serial);
      NextKeepsWithdrawn(Exec(s, more[..|more| - 1]), more[|more| - 1], p, serial);
    }
  }

  /** After DeleteNode(p), in every later state and across hub restarts: no link and no other node's
      drained view mentions p, and p's certificate is admitted for no node; the in-memory revocation
      list is always exactly the serials of revoked rows. */
  lemma WithdrawnStaysWithdrawn(run: seq<Event>, now: int, more: seq<Event>, p: NodeId, x: NodeId)
    requires p in Exec(INIT, run).hub.tables.nodes
    ensures var serial := Exec(INIT, run).hub.tables.nodes[p].serial;
            var s := Exec(INIT, run + [Handler(DeleteNode(p, now))] + more);
            && (forall id <- s.hub.tables.links :: !Touches(s.hub.tables.links[id], p))
            && (forall n :: !Admitted(s.hub, n, serial))
            && (forall sn :: !Admitted(s.hub, p, sn))
            && s.hub.revoked == RevokedSerials(s.hub.tables)
            && (Serving(s, x) ==> p !in DrainedView(s, x).table.nodeKeys)
  {
    var s0, deleted := Exec(INIT, run), run + [Handler(DeleteNode(p, now))];
    var serial := s0.hub.tables.nodes[p].serial;
    assert deleted[..|deleted| - 1] == run;
    assert Withdrawn(Exec(INIT, deleted).hub, p, serial);
    WithdrawnForever(Exec(INIT, deleted), more, p, serial);
    ExecAppend(INIT, deleted, more);
    EveryRunKeepsInv(deleted + more);
    WithdrawnEffects(Exec(INIT, deleted + more), p, serial, x);
  }

  lemma WithdrawnEffects(s: Sys, p: NodeId, serial: Serial, x: NodeId)
    requires Inv(s) && Withdrawn(s.hub, p, serial)
    ensures forall id <- s.hub.tables.links :: !Touches(s.hub.tables.links[id], p)
    ensures forall n :: !Admitted(s.hub, n, serial)
    ensures forall sn :: !Admitted(s.hub, p, sn)
    ensures Serving(s, x) ==> p !in DrainedView(s, x).table.nodeKeys
  {
    hide CurrentOk, ReportsOk, DevicesOk, AgentsOk, IdentsOk, PendingOk, RuntimeOk, LinksPresent, ExitsBacked, Knows;
    assert serial in RevokedSerials(s.hub.tables);
    if Serving(s, x) {
      var view := DrainedView(s, x);
      assert PeersRight(s.hub, x, view);
      if p in view.table.nodeKeys {
        assert Linked(s.hub.tables, x, p);
      }
    }
  }

  /** A collected node has no session, and no serving node's drained view contains it. */
  lemma CollectedIsGone(run: seq<Event>, p: NodeId, x: NodeId)
    requires p in Exec(INIT, run).hub.gcDone
    ensures var s := Exec(INIT, run);
            p !in s.hub.sessions && (Serving(s, x) ==> p !in DrainedView(s, x).table.nodeKeys)
  {
    EveryRunKeepsInv(run);
    var s := Exec(INIT, run);
    if Serving(s, x) {
      assert PeersRight(s.hub, x, DrainedView(s, x));
    }
  }
}
