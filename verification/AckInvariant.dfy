/** No confirmation is lost: while a link's ends are registered, each side is
    confirmed or its confirmation is still on the way. */
module AckInvariant {
  import opened Wrappers
  import opened Wire
  import opened Device
  import opened StoreState
  import opened HubState
  import opened HubInvariants
  import opened HubView
  import opened SessionInvariant
  import opened Network
  import opened NetworkInvariant

  ghost predicate Queued(q: seq<Frame>, e: EnvId) {
    exists f :: f in q && IsPush(f) && f.id == e
  }

  /** A push for `ref` is queued for the agent, or its confirmation is queued for the hub. */
  ghost predicate Awaited(s: Session, q: seq<Frame>, up: seq<Report>, ref: AckRef) {
    exists e :: e in s.pending && s.pending[e] == ref && (Queued(q, e) || Ack(e, true) in up)
  }

  /** Side x of link l: confirmed, or awaited. */
  ghost predicate SideOk(h: Hub, l: Link, x: NodeId, q: seq<Frame>, up: seq<Report>)
    requires x in h.sessions
  {
    l.id in h.links && (Flag(h.links[l.id], SideOf(l, x)) || Awaited(h.sessions[x], q, up, AckRef(l.id, SideOf(l, x))))
  }

  /** x's end of l is owed a confirmation: x can still be reached and the other end is registered. */
  predicate Owed(h: Hub, l: Link, x: NodeId) {
    Touches(l, x) && Registered(h, x) && h.sessions[x].open && Registered(h, Other(l, x))
  }

  ghost predicate AcksOk(s: Sys)
    requires WiresOk(s)
  {
    && (forall sid <- s.up :: forall r <- s.up[sid] | r.Ack? :: r.ok)
    && forall id, x | id in s.hub.tables.links && Owed(s.hub, s.hub.tables.links[id], x) ::
         SideOk(s.hub, s.hub.tables.links[id], x, Queue(s, x), s.up[s.hub.sessions[x].sid])
  }

  // ---- handlers ----

  lemma AwaitedGrows(s: Session, s': Session, q: seq<Frame>, q': seq<Frame>, up: seq<Report>, up': seq<Report>,
      ref: AckRef)
    requires Awaited(s, q, up, ref)
    requires forall e <- s.pending :: e in s'.pending && s'.pending[e] == s.pending[e]
    requires forall f <- q :: f in q'
    requires forall r <- up | r.Ack? :: r in up'
    ensures Awaited(s', q', up', ref)
  {
    var e :| e in s.pending && s.pending[e] == ref && (Queued(q, e) || Ack(e, true) in up);
    if Queued(q, e) {
      var f :| f in q && IsPush(f) && f.id == e;
      assert f in q';
    }
  }

  /** The handler pushes link l to x. */
  ghost predicate Pushes(h: Hub, op: Operation, l: Link, x: NodeId)
    requires Enabled(h, op)
  {
    x in Mails(h, op) &&
    var m := Mails(h, op)[x];
    IsPush(m.frame) && m.frame.id in m.awaits && m.awaits[m.frame.id] == AckRef(l.id, SideOf(l, x))
  }

  lemma PushIsAwaited(h: Hub, op: Operation, l: Link, x: NodeId, q: seq<Frame>, up: seq<Report>)
    requires Enabled(h, op) && x in Core(h, op).sessions && Pushes(h, op, l, x)
    ensures Awaited(Apply(h, op).sessions[x], QueueAfter(h, op, x, q), up, AckRef(l.id, SideOf(l, x)))
  {
    var m := Mails(h, op)[x];
    var s' := Apply(h, op).sessions[x];
    assert m.frame in QueueAfter(h, op, x, q);
    assert Queued(QueueAfter(h, op, x, q), m.frame.id);
    assert m.frame.id in s'.pending && s'.pending[m.frame.id] == AckRef(l.id, SideOf(l, x));
  }

  /** The link existed, the confirmation was owed already and the flag has not been reset. */
  ghost predicate OwedBefore(h: Hub, core: Hub, l: Link, x: NodeId) {
    && l.id in h.tables.links && h.tables.links[l.id] == l && Owed(h, l, x)
    && (l.id in h.links && l.id in core.links && Flag(h.links[l.id], SideOf(l, x))
        ==> Flag(core.links[l.id], SideOf(l, x)))
  }

  ghost predicate OwedIn(core: Hub, l: Link, x: NodeId) {
    l.id in core.tables.links && core.tables.links[l.id] == l && Owed(core, l, x)
  }

  /** How a handler can come to owe a confirmation on l: it confirms the side, pushes, or leaves it as it was. */
  lemma OwedAfter(h: Hub, op: Operation, l: Link, x: NodeId)
    requires Healthy(h) && Enabled(h, op) && !op.Acknowledge? && OwedIn(Core(h, op), l, x)
    ensures l.id in Core(h, op).links
    ensures Flag(Core(h, op).links[l.id], SideOf(l, x)) || Pushes(h, op, l, x) || OwedBefore(h, Core(h, op), l, x)
  {
    CoreKeepsRuntime(h, op);
    if op.Register? {
      RegisterOwes(h, op, l, x);
    } else if op.CreateLink? || op.SetLinkExit? {
      PairOwes(h, op, l, x);
    } else {
      OtherOwes(h, op, l, x);
    }
  }

  lemma RegisterOwes(h: Hub, op: Operation, l: Link, x: NodeId)
    requires LinksOk(h.tables) && IdentsOk(h) && Enabled(h, op) && op.Register? && OwedIn(Core(h, op), l, x)
    requires l.id in Core(h, op).links
    ensures Flag(Core(h, op).links[l.id], SideOf(l, x)) || Pushes(h, op, l, x) || OwedBefore(h, Core(h, op), l, x)
  {
    if x == op.node {
      RegisterConfirms(h, op, l);
    } else if Other(l, x) == op.node {
      RegisterPushes(h, op, l, x);
    } else {
      RegisterKeepsFlags(h, op, l, x);
    }
  }

  /** register_ack is an implicit confirmation of the registering side. */
  lemma RegisterConfirms(h: Hub, op: Operation, l: Link)
    requires LinksOk(h.tables) && IdentsOk(h) && Enabled(h, op) && op.Register? && OwedIn(Core(h, op), l, op.node)
    requires l.id in Core(h, op).links
    ensures Flag(Core(h, op).links[l.id], SideOf(l, op.node))
  {
    LinkOfOther(h.tables, l.id, op.node);
    assert Registered(h, Other(l, op.node)) && Live(h.tables, Other(l, op.node));
  }

  lemma RegisterPushes(h: Hub, op: Operation, l: Link, x: NodeId)
    requires LinksOk(h.tables) && IdentsOk(h) && Enabled(h, op) && op.Register? && OwedIn(Core(h, op), l, x)
    requires Other(l, x) == op.node
    ensures Pushes(h, op, l, x)
  {
    hide NodesOk, Expected, Core;
    RegisterLeavesLinks(h, op);
    LinkOfOther(h.tables, l.id, x);
    LinkOfIsTheLink(h.tables, l.id);
    assert Registered(h, x) && Live(h.tables, x);
  }

  lemma RegisterLeavesLinks(h: Hub, op: Operation)
    requires Enabled(h, op) && op.Register?
    ensures Core(h, op).tables.links == h.tables.links
    ensures forall n :: Registered(Core(h, op), n) <==> Registered(h, n) || n == op.node
  {
  }

  lemma RegisterKeepsFlags(h: Hub, op: Operation, l: Link, x: NodeId)
    requires Enabled(h, op) && op.Register? && OwedIn(Core(h, op), l, x) && x != op.node && Other(l, x) != op.node
    ensures OwedBefore(h, Core(h, op), l, x)
  {
    assert Core(h, op).tables.links == h.tables.links;
  }

  lemma PairOwes(h: Hub, op: Operation, l: Link, x: NodeId)
    requires LinksOk(h.tables) && IdentsOk(h) && Enabled(h, op) && (op.CreateLink? || op.SetLinkExit?)
    requires OwedIn(Core(h, op), l, x) && l.id in Core(h, op).links
    ensures Pushes(h, op, l, x) || OwedBefore(h, Core(h, op), l, x)
  {
    if l.id == op.link {
      if op.CreateLink? {
        CreatePushes(h, op, l, x);
      } else {
        SetExitPushes(h, op, l, x);
      }
    } else {
      PairKeepsFlags(h, op, l, x);
    }
  }

  lemma CreatePushes(h: Hub, op: Operation, l: Link, x: NodeId)
    requires IdentsOk(h) && Enabled(h, op) && op.CreateLink? && OwedIn(Core(h, op), l, x) && l.id == op.link
    ensures Pushes(h, op, l, x)
  {
    assert PairReady(h, l);
  }

  lemma SetExitPushes(h: Hub, op: Operation, l: Link, x: NodeId)
    requires LinksOk(h.tables) && IdentsOk(h) && Enabled(h, op) && op.SetLinkExit? && OwedIn(Core(h, op), l, x)
        && l.id == op.link
    ensures Pushes(h, op, l, x)
  {
    assert PairReady(h, l);
  }

  lemma PairKeepsFlags(h: Hub, op: Operation, l: Link, x: NodeId)
    requires Enabled(h, op) && (op.CreateLink? || op.SetLinkExit?) && OwedIn(Core(h, op), l, x) && l.id != op.link
    requires LinksOk(h.tables)
    ensures OwedBefore(h, Core(h, op), l, x)
  {
    assert Core(h, op).sessions == h.sessions;
  }

  lemma OtherOwes(h: Hub, op: Operation, l: Link, x: NodeId)
    requires LinksOk(h.tables) && Enabled(h, op)
    requires !op.Register? && !op.CreateLink? && !op.SetLinkExit? && !op.Acknowledge?
    requires OwedIn(Core(h, op), l, x) && l.id in Core(h, op).links
    ensures OwedBefore(h, Core(h, op), l, x)
  {
    var core := Core(h, op);
    assert core.tables.links == h.tables.links || op.DeleteLink? || op.DeleteNode?;
  }

  /** A handler other than an acknowledgement keeps every confirmation that is still owed. */
  lemma HandlerKeepsSide(h: Hub, op: Operation, l: Link, x: NodeId, q: seq<Frame>, up: seq<Report>, up': seq<Report>)
    requires Healthy(h) && Enabled(h, op) && !op.Acknowledge? && KeepsSession(op, x)
    requires forall r <- up | r.Ack? :: r in up'
    requires OwedIn(Apply(h, op), l, x)
    requires x in h.sessions
    requires l.id in h.tables.links && h.tables.links[l.id] == l && Owed(h, l, x) ==> SideOk(h, l, x, q, up)
    ensures SideOk(Apply(h, op), l, x, QueueAfter(h, op, x, q), up')
  {
    var core := Core(h, op);
    OwedAtCore(h, op, l, x);
    OwedAfter(h, op, l, x);
    if Pushes(h, op, l, x) {
      PushIsAwaited(h, op, l, x, q, up');
    } else if !Flag(core.links[l.id], SideOf(l, x)) {
      PendingGrows(h, op, x);
      AwaitedGrows(h.sessions[x], Apply(h, op).sessions[x], q, QueueAfter(h, op, x, q), up, up',
          AckRef(l.id, SideOf(l, x)));
    }
  }

  lemma OwedAtCore(h: Hub, op: Operation, l: Link, x: NodeId)
    requires Enabled(h, op) && OwedIn(Apply(h, op), l, x)
    ensures OwedIn(Core(h, op), l, x)
  {
  }

  /** Only an acknowledgement shortens the list of awaited confirmations; a push never reuses an id. */
  lemma PendingGrows(h: Hub, op: Operation, x: NodeId)
    requires PendingOk(h) && Enabled(h, op) && !op.Acknowledge? && KeepsSession(op, x) && x in h.sessions
    ensures x in Apply(h, op).sessions
    ensures forall e <- h.sessions[x].pending ::
              e in Apply(h, op).sessions[x].pending && Apply(h, op).sessions[x].pending[e] == h.sessions[x].pending[e]
  {
    hide Core, Mails, Fresh;
    MailsAreFresh(h, op);
    CoreKeepsPendingOf(h, op, x);
  }

  lemma CoreKeepsPendingOf(h: Hub, op: Operation, x: NodeId)
    requires Enabled(h, op) && !op.Acknowledge? && KeepsSession(op, x) && x in h.sessions
    ensures x in Core(h, op).sessions && Core(h, op).sessions[x].pending == h.sessions[x].pending
  {
  }

  // ---- events ----

  /** Confirmations already sent to the hub stay where they are. */
  ghost predicate AcksStay(s: Sys, s': Sys) {
    && (forall sid <- s.wire :: sid in s'.wire && s'.wire[sid] == s.wire[sid])
    && (forall sid <- s.up :: sid in s'.up && forall r <- s.up[sid] | r.Ack? :: r in s'.up[sid])
    && (forall sid <- s'.up :: forall r <- s'.up[sid] | r.Ack? :: r.ok)
  }

  lemma HandlerKeepsAcks(s: Sys, op: Operation, s': Sys)
    requires Healthy(s.hub) && WiresOk(s) && WiresOk(s') && AcksOk(s)
    requires s'.hub == Apply(s.hub, op) && !op.Acknowledge? && AcksStay(s, s')
    ensures AcksOk(s')
  {
    hide Core, Mails, TablesOk, SideOk, SessionsOk;
    forall id, x | id in s'.hub.tables.links && Owed(s'.hub, s'.hub.tables.links[id], x)
      ensures SideOk(s'.hub, s'.hub.tables.links[id], x, Queue(s', x), s'.up[s'.hub.sessions[x].sid])
    {
      if Enabled(s.hub, op) {
        EnabledKeepsSide(s, op, s', id, x);
      } else {
        assert Owed(s.hub, s.hub.tables.links[id], x);
        AckedSideKept(s.hub, s.hub.tables.links[id], x, Queue(s, x), s.up[s.hub.sessions[x].sid],
            s'.up[s.hub.sessions[x].sid]);
      }
    }
  }

  lemma AckedSideKept(h: Hub, l: Link, x: NodeId, q: seq<Frame>, up: seq<Report>, up': seq<Report>)
    requires x in h.sessions && SideOk(h, l, x, q, up) && forall r <- up | r.Ack? :: r in up'
    ensures SideOk(h, l, x, q, up')
  {
    if !Flag(h.links[l.id], SideOf(l, x)) {
      AwaitedGrows(h.sessions[x], h.sessions[x], q, q, up, up', AckRef(l.id, SideOf(l, x)));
    }
  }

  lemma EnabledKeepsSide(s: Sys, op: Operation, s': Sys, id: LinkId, x: NodeId)
    requires Healthy(s.hub) && WiresOk(s) && WiresOk(s') && AcksOk(s)
    requires s'.hub == Apply(s.hub, op) && !op.Acknowledge? && AcksStay(s, s') && Enabled(s.hub, op)
    requires id in s'.hub.tables.links && Owed(s'.hub, s'.hub.tables.links[id], x)
    ensures SideOk(s'.hub, s'.hub.tables.links[id], x, Queue(s', x), s'.up[s'.hub.sessions[x].sid])
  {
    var l := s'.hub.tables.links[id];
    OwedKeepsSession(s.hub, op, l, x);
    SessionAfter(s.hub, op, x);
    var sid := s.hub.sessions[x].sid;
    ApplyKeepsHealthy(s.hub, op);
    HandlerKeepsSide(s.hub, op, l, x, Queue(s, x), s.up[sid], s'.up[sid]);
    QueueGrows(s, op, x, s'.(wire := s.wire));
  }

  lemma OwedKeepsSession(h: Hub, op: Operation, l: Link, x: NodeId)
    requires Enabled(h, op) && Owed(Apply(h, op), l, x)
    ensures KeepsSession(op, x) && x in h.sessions
  {
  }

  /** Reading a confirmation sets the flag it was awaited for and no longer awaits it. */
  lemma AcknowledgeKeepsAcks(s: Sys, x: NodeId, e: EnvId, s': Sys)
    requires WiresOk(s) && WiresOk(s') && AcksOk(s) && RuntimeOk(s.hub) && SessionsOk(s.hub)
    requires x in s.hub.sessions && s.up[s.hub.sessions[x].sid] != [] && s.up[s.hub.sessions[x].sid][0] == Ack(e, true)
    requires s'.hub == Apply(s.hub, Acknowledge(x, e, true)) && s'.wire == s.wire
    requires s'.up == s.up[s.hub.sessions[x].sid := s.up[s.hub.sessions[x].sid][1..]]
    ensures AcksOk(s')
  {
    hide Apply;
    AcknowledgeEffect(s.hub, x, e);
    forall id, y | id in s'.hub.tables.links && Owed(s'.hub, s'.hub.tables.links[id], y)
      ensures SideOk(s'.hub, s'.hub.tables.links[id], y, Queue(s', y), s'.up[s'.hub.sessions[y].sid])
    {
      var l := s.hub.tables.links[id];
      assert Owed(s.hub, l, y);
      var sid := s.hub.sessions[y].sid;
      AcknowledgeKeepsSide(s.hub, l, x, y, e, Queue(s, y), s.up[sid], s'.up[sid]);
    }
  }

  lemma AcknowledgeEffect(h: Hub, x: NodeId, e: EnvId)
    requires x in h.sessions
    ensures var h' := Apply(h, Acknowledge(x, e, true));
            && h'.tables == h.tables && h'.sessions.Keys == h.sessions.Keys
            && forall y <- h.sessions :: var s, s' := h.sessions[y], h'.sessions[y];
                 s'.sid == s.sid && s'.open == s.open && s'.registered == s.registered && s'.out == s.out
  {
  }

  lemma AcknowledgeKeepsSide(h: Hub, l: Link, x: NodeId, y: NodeId, e: EnvId, q: seq<Frame>, up: seq<Report>,
      up': seq<Report>)
    requires x in h.sessions && y in h.sessions && SideOk(h, l, y, q, up)
    requires if x == y then up != [] && up[0] == Ack(e, true) && up' == up[1..] else up' == up
    ensures var h' := Apply(h, Acknowledge(x, e, true)); y in h'.sessions && SideOk(h', l, y, q, up')
  {
    var h', ref := Apply(h, Acknowledge(x, e, true)), AckRef(l.id, SideOf(l, y));
    if !Flag(h'.links[l.id], ref.side) {
      var e' :| e' in h.sessions[y].pending && h.sessions[y].pending[e'] == ref
          && (Queued(q, e') || Ack(e', true) in up);
      assert !(x == y && e' == e);
      assert e' in h'.sessions[y].pending && h'.sessions[y].pending[e'] == ref;
      assert Ack(e', true) in up ==> Ack(e', true) in up';
    }
  }

  lemma WrittenKeepsAcks(s: Sys, n: NodeId, s': Sys)
    requires WiresOk(s) && WiresOk(s') && SessionsOk(s.hub) && AcksOk(s)
    requires n in s.hub.sessions && s.hub.sessions[n].out != [] && s'.hub == Flush(s.hub, n) && s'.up == s.up
    requires var sid := s.hub.sessions[n].sid; s'.wire == s.wire[sid := s.wire[sid] + [s.hub.sessions[n].out[0]]]
    ensures AcksOk(s')
  {
    forall id, x | id in s'.hub.tables.links && Owed(s'.hub, s'.hub.tables.links[id], x)
      ensures SideOk(s'.hub, s'.hub.tables.links[id], x, Queue(s', x), s'.up[s'.hub.sessions[x].sid])
    {
      assert Owed(s.hub, s.hub.tables.links[id], x);
      if x == n {
        var w, out := s.wire[s.hub.sessions[n].sid], s.hub.sessions[n].out;
        assert (w + [out[0]]) + out[1..] == w + out;
      }
      assert Queue(s', x) == Queue(s, x);
    }
  }

  /** A delivered push becomes a confirmation on its way to the hub. */
  lemma DeliveredKeepsAcks(s: Sys, n: NodeId, s': Sys)
    requires WiresOk(s) && WiresOk(s') && SessionsOk(s.hub) && DevicesOk(s) && OpenSessionsOk(s) && AcksOk(s)
    requires Delivered(s, s', n)
    requires var a := s.agents[n];
             var sid := a.conn.value;
             s'.up == s.up[sid := s.up[sid] + Answer(a.device, s.wire[sid][0])]
    ensures AcksOk(s')
  {
    var a := s.agents[n];
    forall id, x | id in s'.hub.tables.links && Owed(s'.hub, s'.hub.tables.links[id], x)
      ensures SideOk(s'.hub, s'.hub.tables.links[id], x, Queue(s', x), s'.up[s'.hub.sessions[x].sid])
    {
      var l, sid := s.hub.tables.links[id], s.hub.sessions[x].sid;
      if sid == a.conn.value {
        assert x == n && Attached(s, n);
        var q, q' := Queue(s, n), Queue(s', n);
        assert q == [s.wire[sid][0]] + q';
        DeliveredSide(s.hub, l, n, a.device, q, q', s.up[sid]);
      } else {
        assert Queue(s', x) == Queue(s, x);
      }
    }
  }

  lemma DeliveredSide(h: Hub, l: Link, n: NodeId, dev: Device, q: seq<Frame>, q': seq<Frame>, up: seq<Report>)
    requires n in h.sessions && OpenOk(h, n, dev, q) && dev.phase != Ended && q != [] && q == [q[0]] + q'
    requires SideOk(h, l, n, q, up)
    ensures SideOk(h, l, n, q', up + Answer(dev, q[0]))
  {
    var ref := AckRef(l.id, SideOf(l, n));
    if !Flag(h.links[l.id], ref.side) {
      var e :| e in h.sessions[n].pending && h.sessions[n].pending[e] == ref && (Queued(q, e) || Ack(e, true) in up);
      if Queued(q, e) {
        var f :| f in q && IsPush(f) && f.id == e;
        assert f in q' || f == q[0];
        if f == q[0] {
          assert dev.phase == Serve && Answer(dev, f) == [Ack(e, true)];
          assert Ack(e, true) in up + Answer(dev, f);
        }
      }
    }
  }

  lemma LocalKeepsAcks(s: Sys, s': Sys)
    requires WiresOk(s) && WiresOk(s') && AcksOk(s) && s'.hub == s.hub && AcksStay(s, s')
    ensures AcksOk(s')
  {
    forall id, x | id in s'.hub.tables.links && Owed(s'.hub, s'.hub.tables.links[id], x)
      ensures SideOk(s'.hub, s'.hub.tables.links[id], x, Queue(s', x), s'.up[s'.hub.sessions[x].sid])
    {
      var sid := s.hub.sessions[x].sid;
      AckedSideKept(s.hub, s.hub.tables.links[id], x, Queue(s, x), s.up[sid], s'.up[sid]);
    }
  }

  lemma ReadKeepsAcks(s: Sys, e: Event)
    requires Inv(s) && AcksOk(s) && e.HubRead? && Possible(s, e) && WiresOk(Next(s, e))
    ensures AcksOk(Next(s, e))
  {
    hide TablesOk, CurrentOk, ReportsOk, DevicesOk, OpenSessionsOk, OwnKeys, Apply, AgentsOk;
    var s', n := Next(s, e), e.node;
    var r := s.up[s.hub.sessions[n].sid][0];
    if r.Ack? {
      assert r in s.up[s.hub.sessions[n].sid];
      AcknowledgeKeepsAcks(s, n, r.ackId, s');
    } else {
      PoppedAcksStay(s, s', s.hub.sessions[n].sid);
      var op := ReadOperation(s, n, e.ip, e.rows, e.now, r);
      if op.Some? {
        HandlerKeepsAcks(s, op.value, s');
      } else {
        LocalKeepsAcks(s, s');
      }
    }
  }

  lemma PoppedAcksStay(s: Sys, s': Sys, sid: SessionId)
    requires WiresOk(s) && AcksOk(s) && sid in s.up && s.up[sid] != [] && !s.up[sid][0].Ack?
    requires s'.wire == s.wire && s'.up == s.up[sid := s.up[sid][1..]]
    ensures AcksStay(s, s')
  {
    assert s.up[sid] == [s.up[sid][0]] + s.up[sid][1..];
  }

  lemma NextKeepsAcks(s: Sys, e: Event)
    requires Inv(s) && AcksOk(s)
    ensures WiresOk(Next(s, e)) && AcksOk(Next(s, e))
  {
    NextKeepsInv(s, e);
    if Possible(s, e) {
      if e.HubRead? {
        ReadKeepsAcks(s, e);
      } else if e.HubWrite? || e.AgentRead? || e.HubRestart? {
        TransportKeepsAcks(s, e);
      } else {
        AdditionsKeepAcks(s, e);
      }
    }
  }

  lemma TransportKeepsAcks(s: Sys, e: Event)
    requires Inv(s) && AcksOk(s) && Possible(s, e) && WiresOk(Next(s, e))
        && (e.HubWrite? || e.AgentRead? || e.HubRestart?)
    ensures AcksOk(Next(s, e))
  {
    hide TablesOk, CurrentOk, OpenSessionsOk, OwnKeys, Apply, Admitted, Enabled;
    match e
    case HubWrite(n) => WrittenKeepsAcks(s, n, Next(s, e));
    case AgentRead(n) =>
      ReadIsDelivered(s, e);
      DeliveredKeepsAcks(s, n, Next(s, e));
    case HubRestart =>
  }

  /** Events that start a handler, or only add to what was sent. */
  lemma AdditionsKeepAcks(s: Sys, e: Event)
    requires Inv(s) && AcksOk(s) && Possible(s, e) && WiresOk(Next(s, e))
    requires !e.HubRead? && !e.HubWrite? && !e.AgentRead? && !e.HubRestart?
    ensures AcksOk(Next(s, e))
  {
    hide CurrentOk, ReportsOk, DevicesOk, OpenSessionsOk, OwnKeys;
    AdditionsStay(s, e);
    match e
    case EnrollNode(op, _, _) => HandlerKeepsAcks(s, op, Next(s, e));
    case Handler(op) => HandlerKeepsAcks(s, op, Next(s, e));
    case Connect(n, attempt) => HandlerKeepsAcks(s, SessionUp(n, SessionId(n, attempt)), Next(s, e));
    case _ => LocalKeepsAcks(s, Next(s, e));
  }

  lemma AdditionsStay(s: Sys, e: Event)
    requires WiresOk(s) && AcksOk(s) && Possible(s, e)
    requires !e.HubRead? && !e.HubWrite? && !e.AgentRead? && !e.HubRestart?
    ensures AcksStay(s, Next(s, e))
  {
  }

  lemma {:induction false} ReachableAcks(run: seq<Event>)
    ensures Inv(Exec(INIT, run)) && AcksOk(Exec(INIT, run))
  {
    if run != [] {
      ReachableAcks(run[..|run| - 1]);
      NextKeepsAcks(Exec(INIT, run[..|run| - 1]), run[|run| - 1]);
      NextKeepsInv(Exec(INIT, run[..|run| - 1]), run[|run| - 1]);
    }
  }
}
