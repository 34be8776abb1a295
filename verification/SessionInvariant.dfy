/** What holds of one open session and the agent reading from it, and why
    hub handlers, deliveries and writes keep it. */
module SessionInvariant {
  import opened Wrappers
  import opened Wire
  import opened PeerTable
  import opened Device
  import opened StoreState
  import opened HubState
  import opened HubInvariants
  import opened HubView
  import opened ViewSteps
  import opened RegisterView

  /** Before registration only frames that cannot confirm or push anything are sent. */
  ghost predicate Silent(q: seq<Frame>) {
    forall f <- q :: !f.RegisterAck? && !IsPush(f)
  }

  /** dev is the device of n's agent, q everything n's open session still has for it. */
  ghost predicate OpenOk(h: Hub, n: NodeId, dev: Device, q: seq<Frame>)
    requires n in h.sessions
  {
    && Clean(dev.table) && AllSound(dev, q)
    && (dev.phase == Await && q != [] ==> !IsPush(q[0]))
    && (if h.sessions[n].registered
        then (dev.phase == Await ==> q != []) && DrainedOk(h, n, Drain(dev, q))
        else dev.phase == Await && Silent(q))
  }

  /** A registered session's drained view is right, unless the agent is about to leave the session. */
  ghost predicate DrainedOk(h: Hub, n: NodeId, view: Device) {
    view.phase != Await && (view.phase == Serve ==> ViewOk(h, n, view))
  }

  // ---- handlers ----

  lemma CommitView(core: Hub, mails: map<NodeId, Mail>, x: NodeId, d: Device)
    requires ViewOk(core, x, d)
    ensures ViewOk(Commit(core, mails), x, d)
  {
    var h' := Commit(core, mails);
    assert forall p :: Registered(h', p) ==> Registered(core, p);
    assert forall l: Link, p :: ExitWanted(h', l, p) == ExitWanted(core, l, p);
    assert forall t: Table, p :: Knows(core, t, p) ==> Knows(h', t, p);
  }

  lemma MailKinds(h: Hub, op: Operation, n: NodeId)
    requires Enabled(h, op) && n in Mails(h, op)
    ensures var f := Mails(h, op)[n].frame;
            && (IsPush(f) ==> Registered(h, n))
            && (f.RegisterAck? ==> op.Register? && op.node == n)
  {
  }

  /** The handler does not replace n's session. */
  predicate KeepsSession(op: Operation, n: NodeId) {
    !((op.SessionUp? || op.SessionDrop?) && op.node == n)
  }

  lemma CoreKeepsSession(h: Hub, op: Operation, n: NodeId)
    requires Enabled(h, op) && n in h.sessions && KeepsSession(op, n)
    ensures n in Core(h, op).sessions
    ensures var s, s' := h.sessions[n], Core(h, op).sessions[n];
            s'.sid == s.sid && (s'.open ==> s.open) && s'.out == s.out
            && s'.registered == (s.registered || (op.Register? && op.node == n))
  {
  }

  /** What a handler does to a session it keeps. */
  lemma SessionAfter(h: Hub, op: Operation, n: NodeId)
    requires Enabled(h, op) && n in h.sessions && KeepsSession(op, n)
    ensures n in Apply(h, op).sessions
    ensures var s, s' := h.sessions[n], Apply(h, op).sessions[n];
            && s'.sid == s.sid
            && (s'.open ==> s.open)
            && s'.registered == (s.registered || (op.Register? && op.node == n))
            && (s'.open ==> s'.out == (if n in Mails(h, op) then s.out + [Mails(h, op)[n].frame] else s.out))
            && s.out <= s'.out
  {
    hide Core, Mails;
    CoreKeepsSession(h, op, n);
  }

  lemma SilentDrain(dev: Device, q: seq<Frame>)
    requires dev.phase == Await && Silent(q)
    ensures q == [] || Drain(dev, q).phase == Ended
  {
    if q != [] {
      assert q[0] in q;
      EndedStays(Handle(dev, q[0]), q[1..]);
    }
  }

  /** The queue as the handler leaves it. */
  ghost function QueueAfter(h: Hub, op: Operation, n: NodeId, q: seq<Frame>): seq<Frame>
    requires Enabled(h, op)
  {
    if n in Mails(h, op) then q + [Mails(h, op)[n].frame] else q
  }

  lemma HandlerKeepsOpen(h: Hub, op: Operation, n: NodeId, dev: Device, q: seq<Frame>)
    requires Healthy(h) && OwnKeys(h) && Enabled(h, op) && (op.Register? ==> op.ident.key.owner == op.node)
    requires n in h.sessions && KeepsSession(op, n) && OpenOk(h, n, dev, q)
    requires op.Register? && op.node == n ==> !h.sessions[n].registered
    ensures n in Apply(h, op).sessions && OpenOk(Apply(h, op), n, dev, QueueAfter(h, op, n, q))
  {
    SessionAfter(h, op, n);
    if op.Register? && op.node == n {
      OwnHandlerKeepsOpen(h, op, n, dev, q);
    } else if h.sessions[n].registered {
      RegisteredKeepsOpen(h, op, n, dev, q);
    } else {
      WaitingKeepsOpen(h, op, n, dev, q);
    }
  }

  lemma OwnHandlerKeepsOpen(h: Hub, op: Operation, n: NodeId, dev: Device, q: seq<Frame>)
    requires Healthy(h) && OwnKeys(h) && Enabled(h, op) && op.Register? && op.node == n
    requires n in h.sessions && !h.sessions[n].registered && OpenOk(h, n, dev, q)
    requires n in Apply(h, op).sessions && Apply(h, op).sessions[n].registered
    ensures OpenOk(Apply(h, op), n, dev, QueueAfter(h, op, n, q))
  {
    hide Clean, Healthy, Core, Mails;
    OwnRegisterStep(h, op, dev);
    var ack := RegisterAck(Expected(h, n, op.rows));
    SilentDrain(dev, q);
    AllSoundAppend(dev, q, ack);
    DrainAppend(dev, q, ack);
    if q == [] {
      CommitView(Core(h, op), Mails(h, op), n, Handle(dev, ack));
    }
  }

  lemma WaitingKeepsOpen(h: Hub, op: Operation, n: NodeId, dev: Device, q: seq<Frame>)
    requires Enabled(h, op) && n in h.sessions && !h.sessions[n].registered && OpenOk(h, n, dev, q)
    requires !(op.Register? && op.node == n)
    requires n in Apply(h, op).sessions && !Apply(h, op).sessions[n].registered
    ensures OpenOk(Apply(h, op), n, dev, QueueAfter(h, op, n, q))
  {
    if n in Mails(h, op) {
      MailKinds(h, op, n);
      var f := Mails(h, op)[n].frame;
      SilentDrain(dev, q);
      AllSoundAppend(dev, q, f);
      assert Silent(q + [f]);
    }
  }

  lemma RegisteredKeepsOpen(h: Hub, op: Operation, n: NodeId, dev: Device, q: seq<Frame>)
    requires Healthy(h) && OwnKeys(h) && Enabled(h, op) && (op.Register? ==> op.ident.key.owner == op.node)
    requires Registered(h, n) && KeepsSession(op, n) && OpenOk(h, n, dev, q) && !(op.Register? && op.node == n)
    requires n in Apply(h, op).sessions && Apply(h, op).sessions[n].registered
    ensures OpenOk(Apply(h, op), n, dev, QueueAfter(h, op, n, q))
  {
    DrainKeepsClean(dev, q);
    ViewAfter(h, op, n, Drain(dev, q));
    QueueKeepsOpen(Apply(h, op), n, dev, q, MailFor(h, op, n));
  }

  /** The drained view before the handler, and the frame it mails, give a right view after it. */
  lemma ViewAfter(h: Hub, op: Operation, n: NodeId, view: Device)
    requires Bystander(h, op, n) && TablesOk(h.tables) && Clean(view.table) && DrainedOk(h, n, view)
    ensures SentOk(Apply(h, op), n, view, MailFor(h, op, n))
  {
    var core, mails, m := Core(h, op), Mails(h, op), MailFor(h, op, n);
    if view.phase == Serve {
      BystanderStep(h, op, n, view);
    }
    CommitSent(core, mails, n, view, m);
  }

  ghost predicate SentOk(h: Hub, n: NodeId, view: Device, m: Option<Frame>) {
    match m
    case None => DrainedOk(h, n, view)
    case Some(f) => Sound(view, f) && DrainedOk(h, n, Handle(view, f))
  }

  lemma CommitSent(core: Hub, mails: map<NodeId, Mail>, n: NodeId, view: Device, m: Option<Frame>)
    requires view.phase != Await && (view.phase == Serve ==> StepOk(core, n, view, m))
    ensures SentOk(Commit(core, mails), n, view, m)
  {
    if view.phase == Serve {
      match m
      case None => CommitView(core, mails, n, view);
      case Some(f) =>
        if Handle(view, f).phase == Serve {
          CommitView(core, mails, n, Handle(view, f));
        }
    }
  }

  lemma QueueKeepsOpen(h: Hub, n: NodeId, dev: Device, q: seq<Frame>, m: Option<Frame>)
    requires Registered(h, n) && Clean(dev.table) && AllSound(dev, q)
    requires dev.phase == Await ==> q != [] && !IsPush(q[0])
    requires SentOk(h, n, Drain(dev, q), m)
    ensures OpenOk(h, n, dev, if m.Some? then q + [m.value] else q)
  {
    if m.Some? {
      AllSoundAppend(dev, q, m.value);
      DrainAppend(dev, q, m.value);
    }
  }

  // ---- deliveries ----

  lemma DeliveryKeepsOpen(h: Hub, n: NodeId, dev: Device, q: seq<Frame>)
    requires n in h.sessions && OpenOk(h, n, dev, q) && q != [] && dev.phase != Ended
    ensures Handle(dev, q[0]).phase == Ended || OpenOk(h, n, Handle(dev, q[0]), q[1..])
  {
    HandleKeepsClean(dev, q[0]);
    assert q[0] in q;
  }
}
