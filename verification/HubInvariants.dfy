/** Every handler keeps the hub healthy. */
module HubInvariants {
  import opened Wrappers
  import opened Wire
  import opened StoreState
  import opened HubState
  import Ipam

  // ---- the tables ----

  lemma TouchKeepsTables(t: Tables, n: NodeId, now: int)
    requires TablesOk(t)
    ensures TablesOk(TouchNode(t, n, now)) && RevokedSerials(TouchNode(t, n, now)) == RevokedSerials(t)
  {
    TouchKeepsLinks(t, n, now);
    TouchKeepsNodes(t, n, now);
    TouchKeepsSerials(t, n, now);
  }

  lemma TouchKeepsLinks(t: Tables, n: NodeId, now: int)
    requires LinksOk(t)
    ensures LinksOk(TouchNode(t, n, now))
  {
  }

  lemma TouchKeepsNodes(t: Tables, n: NodeId, now: int)
    requires NodesOk(t)
    ensures NodesOk(TouchNode(t, n, now))
  {
  }

  lemma TouchKeepsSerials(t: Tables, n: NodeId, now: int)
    ensures RevokedSerials(TouchNode(t, n, now)) == RevokedSerials(t)
  {
    var t' := TouchNode(t, n, now);
    assert forall m <- t.nodes :: t'.nodes[m].serial == t.nodes[m].serial && t'.nodes[m].revoked == t.nodes[m].revoked;
  }

  lemma CreateKeepsTables(t: Tables, n: NodeId, ip: IPv4, serial: Serial)
    requires TablesOk(t) && n !in t.nodes
    requires !Ipam.ActiveIP(t, ip) && forall m <- t.nodes :: t.nodes[m].serial != serial
    ensures TablesOk(CreateNode(t, n, ip, serial)) && RevokedSerials(CreateNode(t, n, ip, serial)) == RevokedSerials(t)
  {
    var t' := CreateNode(t, n, ip, serial);
    assert forall m <- t.nodes :: t'.nodes[m] == t.nodes[m];
    CreateKeepsNodes(t, n, ip, serial);
    CreateKeepsSerials(t, n, ip, serial);
  }

  lemma CreateKeepsNodes(t: Tables, n: NodeId, ip: IPv4, serial: Serial)
    requires NodesOk(t) && n !in t.nodes
    requires !Ipam.ActiveIP(t, ip) && forall m <- t.nodes :: t.nodes[m].serial != serial
    ensures NodesOk(CreateNode(t, n, ip, serial))
  {
  }

  lemma CreateKeepsSerials(t: Tables, n: NodeId, ip: IPv4, serial: Serial)
    requires n !in t.nodes
    ensures RevokedSerials(CreateNode(t, n, ip, serial)) == RevokedSerials(t)
  {
    var t' := CreateNode(t, n, ip, serial);
    assert forall m <- t.nodes :: t'.nodes[m] == t.nodes[m];
  }

  lemma RevokeKeepsTables(t: Tables, n: NodeId, now: int)
    requires TablesOk(t) && n in t.nodes
    ensures TablesOk(RevokeNode(t, n, now))
    ensures RevokedSerials(RevokeNode(t, n, now)) == RevokedSerials(t) + {t.nodes[n].serial}
  {
    RevokeKeepsLinks(t, n, now);
    RevokeKeepsNodes(t, n, now);
    RevokeAddsSerial(t, n, now);
  }

  lemma RevokeKeepsLinks(t: Tables, n: NodeId, now: int)
    requires LinksOk(t) && n in t.nodes
    ensures LinksOk(RevokeNode(t, n, now))
  {
  }

  lemma RevokeKeepsNodes(t: Tables, n: NodeId, now: int)
    requires NodesOk(t) && n in t.nodes
    ensures NodesOk(RevokeNode(t, n, now))
  {
  }

  lemma RevokeAddsSerial(t: Tables, n: NodeId, now: int)
    requires n in t.nodes
    ensures RevokedSerials(RevokeNode(t, n, now)) == RevokedSerials(t) + {t.nodes[n].serial}
  {
    var t' := RevokeNode(t, n, now);
    assert forall m <- t.nodes :: t'.nodes[m].serial == t.nodes[m].serial;
    assert forall m <- t.nodes | m != n :: t'.nodes[m].revoked == t.nodes[m].revoked;
  }

  lemma InsertKeepsLinks(t: Tables, id: LinkId, a: NodeId, b: NodeId)
    requires LinksOk(t) && a != b && Live(t, a) && Live(t, b) && id !in t.links && !Linked(t, a, b)
    ensures LinksOk(InsertLink(t, id, a, b))
  {
    hide NodesOk;
    forall i <- t.links ensures !Joins(t.links[i], a, b) {
    }
  }

  lemma UpdateExitKeepsLinks(t: Tables, id: LinkId, exit: Option<NodeId>)
    requires LinksOk(t) && id in t.links && (exit.Some? ==> Touches(t.links[id], exit.value))
    ensures LinksOk(UpdateExit(t, id, exit))
  {
  }

  lemma RemoveKeepsLinks(t: Tables, id: LinkId)
    requires LinksOk(t)
    ensures LinksOk(RemoveLink(t, id))
  {
  }

  /** Link operations leave the node table alone. */
  lemma SameNodes(t: Tables, t': Tables)
    requires TablesOk(t) && LinksOk(t') && t'.nodes == t.nodes
    ensures TablesOk(t') && RevokedSerials(t') == RevokedSerials(t)
  {
  }

  lemma CoreKeepsTables(h: Hub, op: Operation)
    requires Healthy(h) && Enabled(h, op)
    ensures TablesOk(Core(h, op).tables) && Core(h, op).revoked == RevokedSerials(Core(h, op).tables)
  {
    hide LinksOk, NodesOk, RevokedSerials, RuntimeOk, PendingOk, IdentsOk, SessionsOk;
    match op
    case Enroll(_, _, _, _, _) => EnrollKeepsTables(h, op);
    case SessionDrop(n, now) => TouchKeepsTables(h.tables, n, now);
    case StaleDrop(n, now) => TouchKeepsTables(h.tables, n, now);
    case Register(n, _, _, now) => TouchKeepsTables(h.tables, n, now);
    case Beat(n, _, now) => TouchKeepsTables(h.tables, n, now);
    case CreateLink(id, a, b) =>
      InsertKeepsLinks(h.tables, id, a, b);
      SameNodes(h.tables, Core(h, op).tables);
    case SetLinkExit(id, exit) =>
      UpdateExitKeepsLinks(h.tables, id, exit);
      SameNodes(h.tables, Core(h, op).tables);
    case DeleteLink(id) =>
      RemoveKeepsLinks(h.tables, id);
      SameNodes(h.tables, Core(h, op).tables);
    case DeleteNode(n, now) => RevokeKeepsTables(h.tables, n, now);
    case _ =>
  }

  lemma EnrollKeepsTables(h: Hub, op: Operation)
    requires Healthy(h) && Enabled(h, op) && op.Enroll?
    ensures TablesOk(Core(h, op).tables) && h.revoked == RevokedSerials(Core(h, op).tables)
  {
    var (t, ip) := Ipam.Allocate(h.tables, op.prefix, op.cooldown, op.now);
    Ipam.AllocateIsLeastFree(h.tables, op.prefix, op.cooldown, op.now);
    assert t.nodes == h.tables.nodes && t.links == h.tables.links;
    PruneKeepsTables(h.tables, t);
    if ip.Some? {
      CreateKeepsTables(t, op.node, ip.value, op.serial);
    }
  }

  lemma PruneKeepsTables(t: Tables, t': Tables)
    requires TablesOk(t) && t'.nodes == t.nodes && t'.links == t.links
    ensures TablesOk(t') && RevokedSerials(t') == RevokedSerials(t)
  {
  }

  // ---- the runtime maps ----

  lemma CoreKeepsSessions(h: Hub, op: Operation)
    requires Healthy(h) && Enabled(h, op)
    ensures SessionsOk(Core(h, op))
  {
    hide RegisterLinks, BeatLinks, PairLinks, FreshLink, IsListing, Mails, TablesOk, RevokedSerials, RuntimeOk,
        IdentsOk, PendingOk;
  }

  lemma CoreKeepsIdents(h: Hub, op: Operation)
    requires Healthy(h) && Enabled(h, op)
    ensures IdentsOk(Core(h, op))
  {
    hide Mails, TablesOk, RevokedSerials, PendingOk, RuntimeOk, RegisterLinks, BeatLinks, PairLinks;
  }

  lemma CoreKeepsRuntime(h: Hub, op: Operation)
    requires Healthy(h) && Enabled(h, op)
    ensures RuntimeOk(Core(h, op))
  {
    match op
    case Register(_, _, _, _) => RegisterKeepsRuntime(h, op);
    case DeleteNode(_, _) => DeleteNodeKeepsRuntime(h, op);
    case CreateLink(_, _, _) => LinkOpsKeepRuntime(h, op);
    case SetLinkExit(_, _) => LinkOpsKeepRuntime(h, op);
    case DeleteLink(_) => LinkOpsKeepRuntime(h, op);
    case _ => SessionOpsKeepRuntime(h, op);
  }

  lemma RegisterKeepsRuntime(h: Hub, op: Operation)
    requires Healthy(h) && Enabled(h, op) && op.Register?
    ensures RuntimeOk(Core(h, op))
  {
    hide BeatLinks, PairLinks, FreshLink, IsListing, Mails, NodesOk, RevokedSerials, PendingOk, IdentsOk;
  }

  lemma DeleteNodeKeepsRuntime(h: Hub, op: Operation)
    requires Healthy(h) && Enabled(h, op) && op.DeleteNode?
    ensures RuntimeOk(Core(h, op))
  {
  }

  lemma LinkOpsKeepRuntime(h: Hub, op: Operation)
    requires Healthy(h) && Enabled(h, op) && (op.CreateLink? || op.SetLinkExit? || op.DeleteLink?)
    ensures RuntimeOk(Core(h, op))
  {
    hide TablesOk, PendingOk, IdentsOk, Mails;
    var core := Core(h, op);
    assert core.sessions == h.sessions;
    forall id <- core.tables.links | id in h.tables.links
      ensures core.tables.links[id].a == h.tables.links[id].a && core.tables.links[id].b == h.tables.links[id].b
    {
    }
  }

  lemma SessionOpsKeepRuntime(h: Hub, op: Operation)
    requires Healthy(h) && Enabled(h, op)
    requires !op.Register? && !op.DeleteNode? && !op.CreateLink? && !op.SetLinkExit? && !op.DeleteLink?
    ensures RuntimeOk(Core(h, op))
  {
    hide TablesOk, PendingOk, IdentsOk, SessionsOk, RevokedSerials;
    var core := Core(h, op);
    assert core.tables.links == h.tables.links && h.links.Keys <= core.links.Keys;
    assert forall n :: Registered(core, n) ==> Registered(h, n);
  }

  lemma CoreKeepsPending(h: Hub, op: Operation)
    requires Healthy(h) && Enabled(h, op)
    ensures PendingOk(Core(h, op))
  {
    hide RegisterLinks, BeatLinks, PairLinks, FreshLink, IsListing, Mails, TablesOk, RevokedSerials, RuntimeOk,
        IdentsOk;
  }

  lemma MailsAreFresh(h: Hub, op: Operation)
    requires Enabled(h, op)
    ensures Fresh(h, Mails(h, op))
  {
  }

  /** Every awaited confirmation carries an id of this very operation and its receiver. */
  ghost predicate Fresh(h: Hub, mails: map<NodeId, Mail>) {
    forall n, id | n in mails && id in mails[n].awaits :: id == EnvId(h.operations, n)
  }

  /** Posting mail leaves identity and registration alone, and only adds this operation's ids. */
  lemma CommitKeeps(core: Hub, mails: map<NodeId, Mail>)
    requires SessionsOk(core) && IdentsOk(core) && RuntimeOk(core) && PendingOk(core) && Fresh(core, mails)
    ensures SessionsOk(Commit(core, mails)) && IdentsOk(Commit(core, mails))
    ensures RuntimeOk(Commit(core, mails)) && PendingOk(Commit(core, mails))
  {
    var h' := Commit(core, mails);
    forall n, id | n in h'.sessions && id in h'.sessions[n].pending
      ensures id.operation < h'.operations
    {
      if id !in core.sessions[n].pending {
        assert n in mails && id in mails[n].awaits;
      }
    }
  }

  lemma ApplyKeepsHealthy(h: Hub, op: Operation)
    requires Healthy(h)
    ensures Healthy(Apply(h, op))
  {
    if Enabled(h, op) {
      CoreKeepsTables(h, op);
      CoreKeepsSessions(h, op);
      CoreKeepsIdents(h, op);
      CoreKeepsRuntime(h, op);
      CoreKeepsPending(h, op);
      MailsAreFresh(h, op);
      CommitKeeps(Core(h, op), Mails(h, op));
    }
  }

  lemma RestartKeepsHealthy(h: Hub)
    requires Healthy(h)
    ensures Healthy(Restart(h))
  {
  }

  lemma FlushKeepsHealthy(h: Hub, n: NodeId)
    requires Healthy(h) && n in h.sessions && h.sessions[n].out != []
    ensures Healthy(Flush(h, n))
  {
    hide TablesOk, RevokedSerials;
  }
}
