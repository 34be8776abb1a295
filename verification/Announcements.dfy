/** What each handler sends to whom, while there is room on the queue. */
module Announcements {
  import opened Wrappers
  import opened Wire
  import opened StoreState
  import opened HubState
  import opened HubInvariants
  import opened HubView
  import opened SessionInvariant
  import opened RegisterView

  /** The spec introduces `peer`, as w describes it, over the link l as the tables t have it. */
  ghost predicate Introduces(t: Tables, spec: PeerSpec, l: Link, peer: NodeId, w: WgIdent) {
    && spec.link == l.id && spec.node == peer && spec.key == w.key && spec.endpoint == Endpoint(w.ip, w.port)
    && peer in t.nodes && spec.allowed == t.nodes[peer].overlay
    && spec.exit == if l.exit == Some(peer) && w.socksPort > 0
                    then Some(ExitAddr(t.nodes[peer].overlay, w.socksPort)) else None
  }

  /** x is told to drop the key the hub has for n, over the link that joins them. */
  ghost predicate Withdraws(h: Hub, sent: seq<Frame>, x: NodeId, n: NodeId) {
    if Linked(h.tables, n, x) && n in h.lastWG then
      && |sent| == 1 && sent[0].PeerRemove? && sent[0].key == h.lastWG[n].key
      && sent[0].link in h.tables.links && Joins(h.tables.links[sent[0].link], n, x)
    else sent == []
  }

  ghost predicate WithdrawsLink(h: Hub, sent: seq<Frame>, x: NodeId, l: Link) {
    if Touches(l, x) && Other(l, x) in h.lastWG then
      |sent| == 1 && sent[0].PeerRemove? && sent[0].link == l.id && sent[0].key == h.lastWG[Other(l, x)].key
    else sent == []
  }

  /** x is sent n's new identity. */
  ghost predicate Announces(h: Hub, sent: seq<Frame>, x: NodeId, n: NodeId, ident: WgIdent) {
    if Linked(h.tables, n, x) && Registered(h, x) then
      && |sent| == 1 && sent[0].PeerUpdate?
      && sent[0].spec.link in h.tables.links && Joins(h.tables.links[sent[0].spec.link], n, x)
      && Introduces(h.tables, sent[0].spec, h.tables.links[sent[0].spec.link], n, ident)
    else sent == []
  }

  /** Both ends of l are introduced to each other, or neither. */
  ghost predicate PairSent(h: Hub, sent: seq<Frame>, x: NodeId, l: Link, update: bool) {
    if Touches(l, x) && Registered(h, l.a) && Registered(h, l.b) then
      && |sent| == 1 && (if update then sent[0].PeerUpdate? else sent[0].PeerAdd?)
      && Other(l, x) in h.lastWG
      && Introduces(h.tables, sent[0].spec, l, Other(l, x), h.lastWG[Other(l, x)])
    else sent == []
  }

  /** The answer to a register lists exactly the registered neighbours, each as it registered. */
  ghost predicate Answers(h: Hub, sent: seq<Frame>, n: NodeId) {
    && |sent| == 1 && sent[0].RegisterAck?
    && (forall p: NodeId :: Listed(sent[0].peers, p) <==> Linked(h.tables, n, p) && Registered(h, p))
    && forall spec <- sent[0].peers ::
         && spec.link in h.tables.links && Joins(h.tables.links[spec.link], n, spec.node) && spec.node in h.lastWG
         && Introduces(h.tables, spec, h.tables.links[spec.link], spec.node, h.lastWG[spec.node])
  }

  ghost predicate Listed(specs: seq<PeerSpec>, p: NodeId) {
    exists spec :: spec in specs && spec.node == p
  }

  /** The frames the handler puts on x's queue. */
  ghost function SentTo(h: Hub, op: Operation, x: NodeId): seq<Frame>
    requires Enabled(h, op)
  {
    if x in Mails(h, op) then [Mails(h, op)[x].frame] else []
  }

  lemma QueueIsExtended(h: Hub, op: Operation, x: NodeId)
    requires Enabled(h, op) && x in h.sessions && KeepsSession(op, x) && |h.sessions[x].out| < 64
    ensures x in Apply(h, op).sessions
    ensures Apply(h, op).sessions[x].out == h.sessions[x].out + SentTo(h, op, x)
  {
    hide Mails, RegisterLinks, BeatLinks, PairLinks, IsListing, FreshLink;
  }

  lemma Creation(h: Hub, op: Operation, x: NodeId)
    requires Healthy(h) && Enabled(h, op) && op.CreateLink?
    ensures PairSent(h, SentTo(h, op, x), x, SortedLink(op.link, op.a, op.b), false)
  {
    hide FreshLink, RevokedSerials, PendingOk, RuntimeOk, NodesOk, SessionsOk, Core;
  }

  lemma ExitChange(h: Hub, op: Operation, x: NodeId)
    requires Healthy(h) && Enabled(h, op) && op.SetLinkExit?
    ensures PairSent(h, SentTo(h, op, x), x, h.tables.links[op.link].(exit := op.exit), true)
  {
    hide RevokedSerials, PendingOk, RuntimeOk, NodesOk;
  }

  lemma Registration(h: Hub, op: Operation, x: NodeId)
    requires Healthy(h) && Enabled(h, op) && op.Register? && x in h.sessions && x != op.node
    ensures Announces(h, SentTo(h, op, x), x, op.node, op.ident)
  {
    hide Expected, RevokedSerials, PendingOk, RuntimeOk, NodesOk;
    if Linked(h.tables, op.node, x) {
      var l := LinkOf(h.tables, op.node, x);
      assert Joins(l, op.node, x) && h.tables.links[l.id] == l;
    }
  }

  lemma LinkDeletion(h: Hub, op: Operation, x: NodeId)
    requires Healthy(h) && Enabled(h, op) && op.DeleteLink? && x in h.sessions
    ensures WithdrawsLink(h, SentTo(h, op, x), x, h.tables.links[op.link])
  {
    hide RevokedSerials, PendingOk, RuntimeOk, NodesOk;
  }

  lemma Departure(h: Hub, op: Operation, x: NodeId)
    requires Healthy(h) && Enabled(h, op) && (op.DeleteNode? || op.Collect?) && x in h.sessions
    ensures if op.DeleteNode? && x == op.node then SentTo(h, op, x) == [Kick]
            else Withdraws(h, SentTo(h, op, x), x, op.node)
  {
    hide RevokedSerials, PendingOk, RuntimeOk, NodesOk, IdentsOk, SessionsOk, Core;
    if Linked(h.tables, op.node, x) {
      var l := LinkOf(h.tables, op.node, x);
      assert Joins(l, op.node, x) && h.tables.links[l.id] == l;
    }
  }

  lemma Answer(h: Hub, op: Operation)
    requires Healthy(h) && Enabled(h, op) && op.Register?
    ensures Answers(h, SentTo(h, op, op.node), op.node)
  {
    hide Expected, IsListing, RevokedSerials, PendingOk, RuntimeOk, NodesOk, SessionsOk;
    var n, specs := op.node, Expected(h, op.node, op.rows);
    ExpectedIsCurrent(h, n, op.rows);
    assert SentTo(h, op, n) == [RegisterAck(specs)];
    forall p: NodeId ensures Listed(specs, p) <==> Linked(h.tables, n, p) && Registered(h, p) {
      NeighbourIsListed(h, n, op.rows, p);
    }
  }

  lemma NeighbourIsListed(h: Hub, n: NodeId, rows: seq<Link>, p: NodeId)
    requires LinksOk(h.tables) && IdentsOk(h) && IsListing(h.tables, n, rows)
    ensures Listed(Expected(h, n, rows), p) <==> Linked(h.tables, n, p) && Registered(h, p)
  {
    hide Expected, SpecFor;
    ExpectedIsCurrent(h, n, rows);
    if Linked(h.tables, n, p) && Registered(h, p) {
      var id :| id in h.tables.links && Joins(h.tables.links[id], n, p);
      var l := h.tables.links[id];
      assert Other(l, n) == p && Live(h.tables, p) && l in rows;
      RowsExpected(h, n, rows, l);
      RowNamesOther(h, n, l);
    }
  }

  lemma RowNamesOther(h: Hub, n: NodeId, l: Link)
    requires Reachable(h, Other(l, n))
    ensures RowSpec(h, n, l).node == Other(l, n)
  {
  }

  /** What x is sent by a handler that keeps its session, while fewer than 64 frames are queued: both ends of
      a new link get peer_add, of a link whose exit changes peer_update, if both are registered; a register is
      answered with exactly the registered neighbours and announced to each of them; the other ends of
      withdrawn links get peer_remove with the last known key; nobody else gets anything. */
  lemma WhatIsSent(h: Hub, op: Operation, x: NodeId)
    requires Healthy(h) && Enabled(h, op) && x in h.sessions && KeepsSession(op, x) && |h.sessions[x].out| < 64
    ensures x in Apply(h, op).sessions && h.sessions[x].out <= Apply(h, op).sessions[x].out
    ensures var sent := Apply(h, op).sessions[x].out[|h.sessions[x].out|..];
            match op
            case CreateLink(id, a, b) => PairSent(h, sent, x, SortedLink(id, a, b), false)
            case SetLinkExit(id, exit) => PairSent(h, sent, x, h.tables.links[id].(exit := exit), true)
            case Register(n, ident, _, _) =>
              if x == n then Answers(h, sent, n) else Announces(h, sent, x, n, ident)
            case DeleteLink(id) => WithdrawsLink(h, sent, x, h.tables.links[id])
            case DeleteNode(n, _) => if x == n then sent == [Kick] else Withdraws(h, sent, x, n)
            case Collect(n, _, _) => Withdraws(h, sent, x, n)
            case RotateNode(n) => sent == if x == n then [RotateWG(EnvId(h.operations, n))] else []
            case AskNode(n) => sent == if x == n then [Request(EnvId(h.operations, n))] else []
            case _ => sent == []
  {
    hide Apply, Mails, Healthy, PairSent, Answers, Announces, Withdraws, WithdrawsLink, IsListing, FreshLink;
    QueueIsExtended(h, op, x);
    assert Apply(h, op).sessions[x].out[|h.sessions[x].out|..] == SentTo(h, op, x);
    if op.CreateLink? {
      Creation(h, op, x);
    } else if op.SetLinkExit? {
      ExitChange(h, op, x);
    } else if op.Register? {
      if x == op.node {
        Answer(h, op);
      } else {
        Registration(h, op, x);
      }
    } else if op.DeleteLink? {
      LinkDeletion(h, op, x);
    } else if op.DeleteNode? || op.Collect? {
      Departure(h, op, x);
    } else {
      Plain(h, op, x);
    }
  }

  lemma Plain(h: Hub, op: Operation, x: NodeId)
    requires Enabled(h, op) && !op.CreateLink? && !op.SetLinkExit? && !op.Register? && !op.DeleteLink?
    requires !op.DeleteNode? && !op.Collect?
    ensures SentTo(h, op, x) ==
            match op
            case RotateNode(n) => if x == n then [RotateWG(EnvId(h.operations, n))] else []
            case AskNode(n) => if x == n then [Request(EnvId(h.operations, n))] else []
            case _ => []
  {
  }
}
