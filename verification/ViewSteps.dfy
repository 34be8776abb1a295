/** Handler by handler: the frame a node is sent, applied to its drained view,
    gives the view the new hub state calls for. */
module ViewSteps {
  import opened Wrappers
  import opened Wire
  import opened PeerTable
  import opened Device
  import opened StoreState
  import opened HubState
  import opened HubInvariants
  import opened HubView

  /** What a handler mails to x. */
  ghost function MailFor(h: Hub, op: Operation, x: NodeId): Option<Frame>
    requires Enabled(h, op)
  {
    if x in Mails(h, op) then Some(Mails(h, op)[x].frame) else None
  }

  /** Handlers that mail nothing and leave links and identities alone. */
  predicate Quiet(op: Operation) {
    || op.Enroll? || op.SessionUp? || op.SessionClose? || op.SessionDrop? || op.StaleDrop? || op.Acknowledge?
    || op.Beat?
  }

  // ---- what changes, as seen from x ----

  lemma QuietChange(h: Hub, op: Operation, x: NodeId)
    requires LinksOk(h.tables) && Enabled(h, op)
    requires Quiet(op)
    ensures SameBut(h, Core(h, op), x, x) && MailFor(h, op, x) == None
  {
    hide Core, Mails, Enabled, LinksOk, Registered;
    QuietMail(h, op, x);
    QuietCore(h, op);
    forall q | Linked(h.tables, x, q) ensures SamePeer(h, Core(h, op), q) {
      LinkedIsLive(h.tables, x, q);
    }
  }

  lemma QuietCore(h: Hub, op: Operation)
    requires Enabled(h, op)
    requires Quiet(op)
    ensures var core := Core(h, op);
            && core.tables.links == h.tables.links && core.lastWG == h.lastWG && core.gcDone <= h.gcDone
            && (forall q <- h.tables.nodes :: OverlayOf(core.tables, q) == OverlayOf(h.tables, q))
            && (forall q :: Registered(core, q) ==> Registered(h, q))
  {
  }

  lemma QuietMail(h: Hub, op: Operation, x: NodeId)
    requires Enabled(h, op)
    requires Quiet(op)
    ensures MailFor(h, op, x) == None
  {
    hide Core;
  }

  lemma LinkedIsLive(t: Tables, x: NodeId, q: NodeId)
    requires LinksOk(t) && Linked(t, x, q)
    ensures Live(t, x) && Live(t, q) && x != q && Linked(t, q, x)
  {
    var id :| id in t.links && Joins(t.links[id], x, q);
    assert Joins(t.links[id], q, x);
  }

  lemma RegisterChange(h: Hub, op: Operation, x: NodeId)
    requires Enabled(h, op) && op.Register? && op.node != x && x in h.sessions
    ensures SameBut(h, Core(h, op), x, op.node)
    ensures MailFor(h, op, x) ==
            if Linked(h.tables, op.node, x) && Reachable(h, x)
            then Some(PeerUpdate(EnvId(h.operations, x),
                SpecFor(h.tables, LinkOf(h.tables, op.node, x), op.node, op.ident)))
            else None
  {
    assert Core(h, op).tables.links == h.tables.links;
  }

  lemma CreateChange(h: Hub, op: Operation, x: NodeId, p: NodeId)
    requires Enabled(h, op) && op.CreateLink?
    requires if x == op.a then p == op.b else if x == op.b then p == op.a else p == x
    ensures SameBut(h, Core(h, op), x, p)
  {
    var core := Core(h, op);
    forall id, q | q != p && LinkTo(core.tables, id, x, q)
        ensures id in h.tables.links && h.tables.links[id] == core.tables.links[id] {
    }
  }

  lemma SetExitChange(h: Hub, op: Operation, x: NodeId, p: NodeId)
    requires Enabled(h, op) && op.SetLinkExit?
    requires if Touches(h.tables.links[op.link], x) then p == Other(h.tables.links[op.link], x) else p == x
    ensures SameBut(h, Core(h, op), x, p)
  {
  }

  lemma DeleteLinkChange(h: Hub, op: Operation, x: NodeId, p: NodeId)
    requires Enabled(h, op) && op.DeleteLink?
    requires if Touches(h.tables.links[op.link], x) then p == Other(h.tables.links[op.link], x) else p == x
    ensures SameBut(h, Core(h, op), x, p)
  {
  }

  lemma DeleteNodeChange(h: Hub, op: Operation, x: NodeId)
    requires Enabled(h, op) && op.DeleteNode? && op.node != x
    ensures SameBut(h, Core(h, op), x, op.node)
  {
  }

  lemma CollectChange(h: Hub, op: Operation, x: NodeId)
    requires Enabled(h, op) && op.Collect? && op.node != x
    ensures SameBut(h, Core(h, op), x, op.node)
  {
  }

  lemma PairMail(h: Hub, op: Operation, x: NodeId, l: Link, p: NodeId)
    requires Enabled(h, op) && LinksOk(h.tables)
    requires (op.CreateLink? && l == SortedLink(op.link, op.a, op.b))
             || (op.SetLinkExit? && l == h.tables.links[op.link].(exit := op.exit))
    requires Touches(l, x) && p == Other(l, x)
    ensures op.link in Core(h, op).tables.links && Core(h, op).tables.links[op.link] == l && l.id == op.link
    ensures MailFor(h, op, x) ==
            if PairReady(h, l) then
              var spec := SpecFor(Core(h, op).tables, l, p, h.lastWG[p]);
              Some(if op.CreateLink? then PeerAdd(EnvId(h.operations, x), spec)
                  else PeerUpdate(EnvId(h.operations, x), spec))
            else None
  {
    hide FreshLink, NodesOk, Linked;
  }

  // ---- from what changed to the new view ----

  /** The mailed frame, if any, is sound for the drained view and leads to the right one. */
  ghost predicate StepOk(core: Hub, x: NodeId, d: Device, m: Option<Frame>) {
    match m
    case None => ViewOk(core, x, d)
    case Some(f) => Sound(d, f) && (Handle(d, f).phase == Serve ==> ViewOk(core, x, Handle(d, f)))
  }

  /** A drained view that is right before the handler runs. */
  ghost predicate Right(h: Hub, x: NodeId, d: Device) {
    TablesOk(h.tables) && OwnKeys(h) && d.phase == Serve && Clean(d.table) && ViewOk(h, x, d)
  }

  /** x is sent the current spec of p, over the only link they have. */
  lemma UpdatedStep(h: Hub, core: Hub, x: NodeId, p: NodeId, d: Device, l: Link, m: Option<Frame>)
    requires Right(h, x, d) && TablesOk(core.tables) && OwnKeys(core) && SameBut(h, core, x, p)
    requires LinkTo(core.tables, l.id, x, p) && core.tables.links[l.id] == l && Live(h.tables, p)
    requires p in core.lastWG && p !in core.gcDone && OverlayOf(core.tables, p) == OverlayOf(h.tables, p)
    requires forall id | LinkTo(h.tables, id, x, p) :: id == l.id
    requires m.Some?
    requires (m.value.PeerUpdate? && m.value.spec == SpecFor(core.tables, l, p, core.lastWG[p]))
             || (m.value.PeerAdd? && m.value.spec == SpecFor(core.tables, l, p, core.lastWG[p])
                 && !Linked(h.tables, x, p))
    ensures StepOk(core, x, d, m)
  {
    var spec := m.value.spec;
    SpecIsSound(h, x, d, spec);
    ViewUpdated(h, core, x, p, d, l);
    if m.value.PeerAdd? {
      AddEffect(d.table, spec);
    }
  }

  /** x is told to drop p, or never had it. */
  lemma WithdrawnStep(h: Hub, core: Hub, x: NodeId, p: NodeId, d: Device, l: Link, m: Option<Frame>)
    requires Right(h, x, d) && LinksOk(core.tables) && SameBut(h, core, x, p)
    requires LinkTo(h.tables, l.id, x, p) && h.tables.links[l.id] == l
    requires Registered(core, p) ==> forall id :: !LinkTo(core.tables, id, x, p)
    requires p in h.lastWG ==> m.Some? && m.value.PeerRemove? && m.value.link == l.id && m.value.key == h.lastWG[p].key
    requires p !in h.lastWG ==> m == None
    ensures StepOk(core, x, d, m)
  {
    hide SameBut, PeersRight, LinksPresent, ExitsBacked, NodesOk, Clean;
    if p in h.lastWG {
      PeerKey(h, x, d, p);
      WithdrawnView(h, core, x, p, d, l, h.lastWG[p].key);
      assert Handle(d, m.value) == d.(table := RemoveKey(d.table, h.lastWG[p].key), exits := d.exits - {l.id});
    } else {
      StrangerUnknown(h, x, d, p);
      ViewIdle(h, core, x, p, d);
    }
  }

  lemma WithdrawnView(h: Hub, core: Hub, x: NodeId, p: NodeId, d: Device, l: Link, key: WGKey)
    requires Right(h, x, d) && LinksOk(core.tables) && SameBut(h, core, x, p)
    requires LinkTo(h.tables, l.id, x, p) && h.tables.links[l.id] == l
    requires Registered(core, p) ==> forall id :: !LinkTo(core.tables, id, x, p)
    requires if p in d.table.nodeKeys then d.table.nodeKeys[p] == key else key !in d.table.peerNodes
    ensures ViewOk(core, x, d.(table := RemoveKey(d.table, key), exits := d.exits - {l.id}))
  {
    ViewRemoved(h, core, x, p, d, l, key);
  }

  /** The view either files p under its last key or does not use that key at all. */
  lemma PeerKey(h: Hub, x: NodeId, d: Device, p: NodeId)
    requires Right(h, x, d) && p in h.lastWG
    ensures if p in d.table.nodeKeys then d.table.nodeKeys[p] == h.lastWG[p].key
        else h.lastWG[p].key !in d.table.peerNodes
  {
    if p in d.table.nodeKeys {
      assert Knows(h, d.table, p);
    } else if h.lastWG[p].key in d.table.peerNodes {
      ViewKeysOwned(h, x, d, h.lastWG[p].key);
    }
  }

  lemma StrangerUnknown(h: Hub, x: NodeId, d: Device, p: NodeId)
    requires Right(h, x, d) && (p !in h.lastWG || !Linked(h.tables, x, p))
    ensures p !in d.table.nodeKeys
  {
    if p in d.table.nodeKeys {
      var known := Linked(h.tables, x, p) && Knows(h, d.table, p);
    }
  }

  lemma UnlinkedStep(h: Hub, core: Hub, x: NodeId, p: NodeId, d: Device)
    requires Right(h, x, d) && LinksOk(core.tables) && SameBut(h, core, x, p)
    requires !Linked(h.tables, x, p) && !Linked(core.tables, x, p)
    ensures StepOk(core, x, d, None)
  {
    StrangerUnknown(h, x, d, p);
    ViewIdle(h, core, x, p, d);
  }

  /** The link to p was created or changed, but p is not registered: x hears of it later. */
  lemma PendingPairStep(h: Hub, core: Hub, x: NodeId, p: NodeId, d: Device)
    requires Right(h, x, d) && LinksOk(core.tables) && SameBut(h, core, x, p) && !Registered(core, p)
    requires Linked(core.tables, x, p) && core.lastWG == h.lastWG && core.gcDone == h.gcDone
    requires OverlayOf(core.tables, p) == OverlayOf(h.tables, p)
    requires forall id | LinkTo(h.tables, id, x, p) :: LinkTo(core.tables, id, x, p)
    ensures StepOk(core, x, d, None)
  {
    if p in d.table.nodeKeys {
      assert Linked(h.tables, x, p) && Knows(h, d.table, p);
    }
    ViewIdle(h, core, x, p, d);
  }

  // ---- handler by handler ----

  /** x is registered before the handler runs, and the handler is not about x's own session. */
  ghost predicate Bystander(h: Hub, op: Operation, x: NodeId) {
    && Healthy(h) && OwnKeys(h) && Enabled(h, op) && (op.Register? ==> op.ident.key.owner == op.node)
    && Registered(h, x)
    && !((op.Register? || op.SessionUp? || op.SessionDrop?) && op.node == x)
  }

  lemma CoreKeepsOwnKeys(h: Hub, op: Operation)
    requires OwnKeys(h) && Enabled(h, op) && (op.Register? ==> op.ident.key.owner == op.node)
    ensures OwnKeys(Core(h, op))
  {
  }

  lemma RegisterStep(h: Hub, op: Operation, x: NodeId, d: Device)
    requires Bystander(h, op, x) && op.Register? && Right(h, x, d)
    ensures StepOk(Core(h, op), x, d, MailFor(h, op, x))
  {
    var n := op.node;
    RegisterChange(h, op, x);
    CoreKeepsTables(h, op);
    CoreKeepsOwnKeys(h, op);
    if Linked(h.tables, x, n) {
      LinkedIsLive(h.tables, x, n);
      RegisterFacts(h, op, x);
      UpdatedStep(h, Core(h, op), x, n, d, LinkOf(h.tables, n, x), MailFor(h, op, x));
    } else {
      assert !Linked(h.tables, n, x) by {
        if Linked(h.tables, n, x) {
          LinkedIsLive(h.tables, n, x);
        }
      }
      UnlinkedStep(h, Core(h, op), x, n, d);
    }
  }

  lemma RegisterFacts(h: Hub, op: Operation, x: NodeId)
    requires Healthy(h) && Enabled(h, op) && op.Register? && Linked(h.tables, op.node, x)
    ensures var l, core := LinkOf(h.tables, op.node, x), Core(h, op);
            && LinkTo(core.tables, l.id, x, op.node) && core.tables.links[l.id] == l
            && op.node in core.lastWG && op.node !in core.gcDone
            && OverlayOf(core.tables, op.node) == OverlayOf(h.tables, op.node)
            && SpecFor(h.tables, l, op.node, op.ident) == SpecFor(core.tables, l, op.node, core.lastWG[op.node])
            && forall id | LinkTo(h.tables, id, x, op.node) :: id == l.id
  {
    hide Mails, RegisterLinks, NodesOk, RevokedSerials;
    var l := LinkOf(h.tables, op.node, x);
    forall id | LinkTo(h.tables, id, x, op.node) ensures id == l.id {
      OneLink(h.tables, x, op.node, id, l.id);
    }
  }

  lemma PairStep(h: Hub, op: Operation, x: NodeId, d: Device, l: Link, p: NodeId)
    requires Bystander(h, op, x) && Right(h, x, d)
    requires (op.CreateLink? && l == SortedLink(op.link, op.a, op.b))
             || (op.SetLinkExit? && l == h.tables.links[op.link].(exit := op.exit))
    requires Touches(l, x) && p == Other(l, x)
    ensures StepOk(Core(h, op), x, d, MailFor(h, op, x))
  {
    hide Core, Mails, Knows, ViewOk, Drain, MailFor, NodesOk, RevokedSerials, PendingOk, RuntimeOk, Linked, LinkTo,
        SameBut, StepOk, Clean, OwnKeys;
    CoreKeepsTables(h, op);
    CoreKeepsOwnKeys(h, op);
    PairMail(h, op, x, l, p);
    PairFacts(h, op, x, l, p);
    if op.CreateLink? {
      CreateChange(h, op, x, p);
    } else {
      SetExitChange(h, op, x, p);
    }
    if PairReady(h, l) {
      UpdatedStep(h, Core(h, op), x, p, d, l, MailFor(h, op, x));
    } else {
      PendingPairStep(h, Core(h, op), x, p, d);
    }
  }

  lemma NotLinkedEitherWay(t: Tables, a: NodeId, b: NodeId)
    requires !Linked(t, a, b)
    ensures !Linked(t, b, a)
    ensures forall id :: !LinkTo(t, id, a, b) && !LinkTo(t, id, b, a)
  {
    assert forall l: Link :: Joins(l, a, b) <==> Joins(l, b, a);
  }

  /** The link of a pair operation, seen from its end x. */
  predicate PairLink(h: Hub, op: Operation, l: Link) {
    || (op.CreateLink? && l == SortedLink(op.link, op.a, op.b))
    || (op.SetLinkExit? && op.link in h.tables.links && l == h.tables.links[op.link].(exit := op.exit))
  }

  lemma PairFacts(h: Hub, op: Operation, x: NodeId, l: Link, p: NodeId)
    requires Healthy(h) && Enabled(h, op) && Registered(h, x)
    requires PairLink(h, op, l) && Touches(l, x) && p == Other(l, x)
    ensures var core := Core(h, op);
            && core.lastWG == h.lastWG && core.gcDone == h.gcDone && core.sessions == h.sessions
            && OverlayOf(core.tables, p) == OverlayOf(h.tables, p)
            && LinkTo(core.tables, l.id, x, p) && Linked(core.tables, x, p) && Live(h.tables, p)
            && (op.CreateLink? ==> !Linked(h.tables, x, p))
            && (forall id | LinkTo(h.tables, id, x, p) :: id == l.id && LinkTo(core.tables, id, x, p))
            && (Registered(h, p) ==> p !in h.gcDone)
            && (PairReady(h, l) || !Registered(h, p))
  {
    hide RevokedSerials, RuntimeOk, PendingOk, NodesOk, Mails, PairLinks;
    PairLinkFacts(h, op, x, l, p);
  }

  lemma PairLinkFacts(h: Hub, op: Operation, x: NodeId, l: Link, p: NodeId)
    requires LinksOk(h.tables) && Enabled(h, op) && PairLink(h, op, l) && Touches(l, x) && p == Other(l, x)
    ensures LinkTo(Core(h, op).tables, l.id, x, p) && Linked(Core(h, op).tables, x, p) && Live(h.tables, p)
    ensures op.CreateLink? ==> !Linked(h.tables, x, p)
    ensures forall id | LinkTo(h.tables, id, x, p) :: id == l.id && LinkTo(Core(h, op).tables, id, x, p)
  {
    hide Mails, PairLinks;
    assert LinkTo(Core(h, op).tables, l.id, x, p);
    if op.CreateLink? {
      NotLinkedEitherWay(h.tables, op.a, op.b);
    } else {
      forall id | LinkTo(h.tables, id, x, p) ensures id == l.id {
        OneLink(h.tables, x, p, id, l.id);
      }
    }
  }

  lemma UnrelatedLinkStep(h: Hub, op: Operation, x: NodeId, d: Device)
    requires Bystander(h, op, x) && Right(h, x, d) && (op.CreateLink? || op.SetLinkExit? || op.DeleteLink?)
    requires if op.CreateLink? then x != op.a && x != op.b else !Touches(h.tables.links[op.link], x)
    ensures StepOk(Core(h, op), x, d, MailFor(h, op, x))
  {
    CoreKeepsTables(h, op);
    match op {
      case CreateLink(_, _, _) => CreateChange(h, op, x, x);
      case SetLinkExit(_, _) => SetExitChange(h, op, x, x);
      case DeleteLink(_) => DeleteLinkChange(h, op, x, x);
    }
    UnrelatedMail(h, op, x);
    ViewKept(h, Core(h, op), x, d);
  }

  lemma UnrelatedMail(h: Hub, op: Operation, x: NodeId)
    requires Enabled(h, op) && (op.CreateLink? || op.SetLinkExit? || op.DeleteLink?)
    requires if op.CreateLink? then x != op.a && x != op.b else !Touches(h.tables.links[op.link], x)
    ensures MailFor(h, op, x) == None
  {
  }

  lemma DeleteLinkStep(h: Hub, op: Operation, x: NodeId, d: Device)
    requires Bystander(h, op, x) && Right(h, x, d) && op.DeleteLink? && Touches(h.tables.links[op.link], x)
    ensures StepOk(Core(h, op), x, d, MailFor(h, op, x))
  {
    var l := h.tables.links[op.link];
    var p := Other(l, x);
    CoreKeepsTables(h, op);
    DeleteLinkChange(h, op, x, p);
    DeleteLinkFacts(h, op, x, l, p);
    WithdrawnStep(h, Core(h, op), x, p, d, l, MailFor(h, op, x));
  }

  lemma DeleteLinkFacts(h: Hub, op: Operation, x: NodeId, l: Link, p: NodeId)
    requires LinksOk(h.tables) && Enabled(h, op) && op.DeleteLink? && l == h.tables.links[op.link] && x in h.sessions
    requires Touches(l, x) && p == Other(l, x)
    ensures LinkTo(h.tables, l.id, x, p) && forall id :: !LinkTo(Core(h, op).tables, id, x, p)
    ensures MailFor(h, op, x) ==
            if p in h.lastWG then Some(PeerRemove(EnvId(h.operations, x), l.id, h.lastWG[p].key)) else None
  {
    forall id ensures !LinkTo(Core(h, op).tables, id, x, p) {
      if LinkTo(Core(h, op).tables, id, x, p) {
        OneLink(h.tables, x, p, id, l.id);
      }
    }
  }

  /** DeleteNode and offline collection: every other end is told to drop the node. */
  lemma DepartureStep(h: Hub, op: Operation, x: NodeId, d: Device)
    requires Bystander(h, op, x) && Right(h, x, d) && (op.DeleteNode? || op.Collect?) && op.node != x
    ensures StepOk(Core(h, op), x, d, MailFor(h, op, x))
  {
    var n := op.node;
    CoreKeepsTables(h, op);
    if op.DeleteNode? {
      DeleteNodeChange(h, op, x);
    } else {
      CollectChange(h, op, x);
    }
    DepartureFacts(h, op, x);
    if Linked(h.tables, n, x) {
      WithdrawnStep(h, Core(h, op), x, n, d, LinkOf(h.tables, n, x), MailFor(h, op, x));
    } else {
      UnlinkedStep(h, Core(h, op), x, n, d);
    }
  }

  lemma DepartureFacts(h: Hub, op: Operation, x: NodeId)
    requires LinksOk(h.tables) && Enabled(h, op) && (op.DeleteNode? || op.Collect?) && op.node != x && x in h.sessions
    ensures var n, core := op.node, Core(h, op);
            && (Registered(core, n) ==> forall id :: !LinkTo(core.tables, id, x, n))
            && (if Linked(h.tables, n, x)
                then
                  var l := LinkOf(h.tables, n, x);
                  && LinkTo(h.tables, l.id, x, n) && h.tables.links[l.id] == l
                  && MailFor(h, op, x) ==
                     if n in h.lastWG then Some(PeerRemove(EnvId(h.operations, x), l.id, h.lastWG[n].key)) else None
                else !Linked(h.tables, x, n) && !Linked(core.tables, x, n) && MailFor(h, op, x) == None)
  {
    if !Linked(h.tables, op.node, x) {
      assert !Linked(h.tables, x, op.node) by {
        if Linked(h.tables, x, op.node) {
          LinkedIsLive(h.tables, x, op.node);
        }
      }
    }
  }

  lemma QuietStep(h: Hub, op: Operation, x: NodeId, d: Device)
    requires Bystander(h, op, x) && Right(h, x, d)
    requires Quiet(op)
    ensures StepOk(Core(h, op), x, d, MailFor(h, op, x))
  {
    QuietChange(h, op, x);
    CoreKeepsTables(h, op);
    ViewKept(h, Core(h, op), x, d);
  }

  lemma AskStep(h: Hub, op: Operation, x: NodeId, d: Device)
    requires Bystander(h, op, x) && Right(h, x, d) && (op.RotateNode? || op.AskNode?)
    ensures StepOk(Core(h, op), x, d, MailFor(h, op, x))
  {
    hide ViewOk, Clean, OwnKeys, TablesOk;
    assert Core(h, op) == h;
  }

  lemma KickStep(h: Hub, op: Operation, x: NodeId, d: Device)
    requires Bystander(h, op, x) && Right(h, x, d) && op.DeleteNode? && op.node == x
    ensures StepOk(Core(h, op), x, d, MailFor(h, op, x))
  {
    assert MailFor(h, op, x) == Some(Kick);
    assert Handle(d, Kick).phase == Ended;
  }

  lemma LinkStep(h: Hub, op: Operation, x: NodeId, d: Device)
    requires Bystander(h, op, x) && Right(h, x, d) && (op.CreateLink? || op.SetLinkExit? || op.DeleteLink?)
    ensures StepOk(Core(h, op), x, d, MailFor(h, op, x))
  {
    if op.CreateLink? && (x == op.a || x == op.b) {
      var l := SortedLink(op.link, op.a, op.b);
      PairStep(h, op, x, d, l, Other(l, x));
    } else if op.SetLinkExit? && Touches(h.tables.links[op.link], x) {
      var l := h.tables.links[op.link].(exit := op.exit);
      PairStep(h, op, x, d, l, Other(l, x));
    } else if op.DeleteLink? && Touches(h.tables.links[op.link], x) {
      DeleteLinkStep(h, op, x, d);
    } else {
      UnrelatedLinkStep(h, op, x, d);
    }
  }

  /** Every handler, every registered node whose own session it does not replace. */
  lemma BystanderStep(h: Hub, op: Operation, x: NodeId, d: Device)
    requires Bystander(h, op, x) && Right(h, x, d)
    ensures StepOk(Core(h, op), x, d, MailFor(h, op, x))
  {
    if op.Register? {
      RegisterStep(h, op, x, d);
    } else if op.CreateLink? || op.SetLinkExit? || op.DeleteLink? {
      LinkStep(h, op, x, d);
    } else if op.DeleteNode? && op.node == x {
      KickStep(h, op, x, d);
    } else if op.DeleteNode? || op.Collect? {
      DepartureStep(h, op, x, d);
    } else if op.RotateNode? || op.AskNode? {
      AskStep(h, op, x, d);
    } else {
      QuietStep(h, op, x, d);
    }
  }
}
