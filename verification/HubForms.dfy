/** Each handler of HubState written out as the assignments the program makes,
    and the partial results its loops pass through. */
module HubForms {
  import opened Wrappers
  import opened Wire
  import opened StoreState
  import opened HubState
  import HubView
  import Ipam

  // ---- mail delivered so far ----

  /** The part of `mails` addressed to `done`. */
  ghost function Restrict(mails: map<NodeId, Mail>, done: set<NodeId>): map<NodeId, Mail> {
    map n | n in mails && n in done :: mails[n]
  }

  /** The sessions after only the nodes in `done` have been sent their mail. */
  ghost function Posted(sessions: map<NodeId, Session>, mails: map<NodeId, Mail>, done: set<NodeId>)
    : map<NodeId, Session>
  {
    PostAll(sessions, Restrict(mails, done))
  }

  lemma PostNext(sessions: map<NodeId, Session>, mails: map<NodeId, Mail>, done: set<NodeId>, n: NodeId)
    requires n !in done
    ensures Posted(sessions, mails, done + {n})
            == if n in mails && n in sessions then Posted(sessions, mails, done)[n := Post(sessions[n], mails[n])]
               else Posted(sessions, mails, done)
    ensures n in Posted(sessions, mails, done) <==> n in sessions
    ensures n in sessions ==> Posted(sessions, mails, done)[n] == sessions[n]
  {
  }

  lemma PostNone(sessions: map<NodeId, Session>, mails: map<NodeId, Mail>)
    ensures Posted(sessions, mails, {}) == sessions
    ensures PostAll(sessions, map[]) == sessions
  {
  }

  lemma PostDone(sessions: map<NodeId, Session>, mails: map<NodeId, Mail>, done: set<NodeId>)
    requires mails.Keys <= done
    ensures Posted(sessions, mails, done) == PostAll(sessions, mails)
  {
    assert Restrict(mails, done) == mails;
  }

  lemma PostOne(sessions: map<NodeId, Session>, n: NodeId, m: Mail)
    requires n in sessions
    ensures PostAll(sessions, map[n := m]) == sessions[n := Post(sessions[n], m)]
  {
  }

  /** The envelope PushTo sends, from the parts of the hub it depends on. */
  ghost function PushAt(operation: nat, t: Tables, l: Link, update: bool, to: NodeId, w: WgIdent): Mail {
    PushTo(NEW_HUB.(operations := operation, tables := t), l, update, to, w)
  }

  ghost function RemovalAt(operation: nat, l: Link, to: NodeId, w: WgIdent): Mail {
    Mail(PeerRemove(EnvId(operation, to), l.id, w.key), map[])
  }

  // ---- the rows of one node ----

  /** The other ends of some rows. */
  ghost function Neighbours(n: NodeId, rows: seq<Link>): set<NodeId> {
    set l | l in rows :: Other(l, n)
  }

  ghost function Ids(rows: seq<Link>): set<LinkId> {
    set l | l in rows :: l.id
  }

  /** A row is a link of n, to a node no other row leads to. */
  lemma RowFacts(t: Tables, n: NodeId, rows: seq<Link>, i: nat)
    requires LinksOk(t) && IsListing(t, n, rows) && i < |rows|
    ensures var l := rows[i];
            && l.id in t.links && t.links[l.id] == l && Touches(l, n) && Other(l, n) != n
            && Linked(t, n, Other(l, n)) && LinkOf(t, n, Other(l, n)) == l
            && Other(l, n) !in Neighbours(n, rows[..i]) && l.id !in Ids(rows[..i])
            && Neighbours(n, rows[..i + 1]) == Neighbours(n, rows[..i]) + {Other(l, n)}
            && Ids(rows[..i + 1]) == Ids(rows[..i]) + {l.id}
  {
    var l := rows[i];
    assert l in rows;
    HubView.LinkOfOther(t, l.id, n);
    assert rows[..i + 1] == rows[..i] + [l];
    forall k | k in rows[..i] ensures Other(k, n) != Other(l, n) && k.id != l.id {
      var j :| 0 <= j < i && rows[j] == k;
      assert k in rows && rows[j] != rows[i];
      HubView.LinkOfOther(t, k.id, n);
      if Other(k, n) == Other(l, n) {
        HubView.OneLink(t, n, Other(l, n), k.id, l.id);
      }
    }
  }

  /** Between them the rows lead to every node linked to n, and to n itself by none. */
  lemma RowsCover(t: Tables, n: NodeId, rows: seq<Link>)
    requires LinksOk(t) && IsListing(t, n, rows)
    ensures forall m :: Linked(t, n, m) <==> m in Neighbours(n, rows)
    ensures forall id :: id in Ids(rows) <==> id in t.links && Touches(t.links[id], n)
    ensures n !in Neighbours(n, rows)
  {
    forall m ensures Linked(t, n, m) <==> m in Neighbours(n, rows) {
      if Linked(t, n, m) {
        var id :| id in t.links && Joins(t.links[id], n, m);
        assert t.links[id] in rows && Other(t.links[id], n) == m;
      }
      if m in Neighbours(n, rows) {
        var l :| l in rows && Other(l, n) == m;
        assert Joins(t.links[l.id], n, m);
      }
    }
    forall id <- t.links | Touches(t.links[id], n) ensures id in Ids(rows) {
      assert t.links[id] in rows;
    }
    HubView.NoSelfLink(t, n);
  }

  // ---- register ----

  /** The runtime map after the links `ids` have been handled. */
  ghost function LinksUpTo(h: Hub, n: NodeId, ids: set<LinkId>): map<LinkId, LinkRT> {
    map id | id in RegisterLinks(h, n) && (id in h.links || id in ids) ::
      if id in ids then RegisterLinks(h, n)[id] else h.links[id]
  }

  lemma LinksStep(h: Hub, n: NodeId, ids: set<LinkId>, l: Link)
    requires l.id in h.tables.links && h.tables.links[l.id] == l && Touches(l, n) && l.id !in ids
    ensures var before := LinksUpTo(h, n, ids);
            var rt := if l.id in before then before[l.id] else FRESH_RT;
            LinksUpTo(h, n, ids + {l.id})
            == before[l.id := if Reachable(h, Other(l, n)) then SetFlag(rt, SideOf(l, n)) else rt]
  {
  }

  lemma LinksDone(h: Hub, n: NodeId, ids: set<LinkId>)
    requires forall id :: id in ids <==> id in h.tables.links && Touches(h.tables.links[id], n)
    ensures LinksUpTo(h, n, {}) == h.links
    ensures LinksUpTo(h, n, ids) == RegisterLinks(h, n)
  {
  }

  lemma ExpectedStep(h: Hub, n: NodeId, rows: seq<Link>, i: nat)
    requires i < |rows|
    ensures var other := Other(rows[i], n);
            Expected(h, n, rows[..i + 1]) == Expected(h, n, rows[..i])
              + (if Reachable(h, other) then [SpecFor(h.tables, rows[i], other, h.lastWG[other])] else [])
  {
    assert rows[..i + 1][..i] == rows[..i];
  }

  ghost function Marked(h: Hub, n: NodeId): map<NodeId, Session>
    requires n in h.sessions
  {
    h.sessions[n := h.sessions[n].(registered := true)]
  }

  /** The sessions once the other ends of some rows have been sent n's identity. */
  ghost function PushedTo(h: Hub, n: NodeId, ident: WgIdent, rows: seq<Link>, done: set<NodeId>): map<NodeId, Session>
    requires n in h.sessions
  {
    Posted(Marked(h, n), RegisterMails(h, n, ident, rows), done)
  }

  /** The loop body takes the maps from the first i rows to the first i + 1. */
  lemma PushStep(h: Hub, n: NodeId, ident: WgIdent, rows: seq<Link>, i: nat)
    requires LinksOk(h.tables) && IsListing(h.tables, n, rows) && i < |rows| && n in h.sessions
    ensures var l := rows[i];
            var other := Other(l, n);
            var before := LinksUpTo(h, n, Ids(rows[..i]));
            var rt := if l.id in before then before[l.id] else FRESH_RT;
            var posted := PushedTo(h, n, ident, rows, Neighbours(n, rows[..i]));
            && other != n
            && (other in posted <==> other in h.sessions) && (other in posted ==> posted[other] == h.sessions[other])
            && LinksUpTo(h, n, Ids(rows[..i + 1]))
               == before[l.id := if Reachable(h, other) then SetFlag(rt, SideOf(l, n)) else rt]
            && PushedTo(h, n, ident, rows, Neighbours(n, rows[..i + 1]))
               == (if Reachable(h, other)
                   then posted[other := Post(h.sessions[other], PushAt(h.operations, h.tables, l, true, other, ident))]
                   else posted)
  {
    hide LinksUpTo, Posted, Expected, IsListing;
    RowFacts(h.tables, n, rows, i);
    LinksStep(h, n, Ids(rows[..i]), rows[i]);
    PostNext(Marked(h, n), RegisterMails(h, n, ident, rows), Neighbours(n, rows[..i]), Other(rows[i], n));
  }

  /** After the loop only the registering node itself is left to be answered. */
  lemma PushDone(h: Hub, n: NodeId, ident: WgIdent, rows: seq<Link>)
    requires LinksOk(h.tables) && IsListing(h.tables, n, rows) && n in h.sessions
    ensures PushedTo(h, n, ident, rows, {}) == Marked(h, n)
    ensures LinksUpTo(h, n, {}) == h.links && LinksUpTo(h, n, Ids(rows)) == RegisterLinks(h, n)
    ensures var posted := PushedTo(h, n, ident, rows, Neighbours(n, rows));
            && n in posted
            && PostAll(Marked(h, n), RegisterMails(h, n, ident, rows))
               == posted[n := Post(posted[n], Mail(RegisterAck(Expected(h, n, rows)), map[]))]
  {
    var mails, done := RegisterMails(h, n, ident, rows), Neighbours(n, rows);
    RowsCover(h.tables, n, rows);
    LinksDone(h, n, Ids(rows));
    PostNone(Marked(h, n), mails);
    PostNext(Marked(h, n), mails, done, n);
    PostDone(Marked(h, n), mails, done + {n});
  }

  lemma RegisterForm(h: Hub, n: NodeId, ident: WgIdent, rows: seq<Link>, now: int)
    requires n in h.sessions && ValidRegister(ident.port) && IsListing(h.tables, n, rows)
    ensures Apply(h, Operation.Register(n, ident, rows, now))
            == Hub(TouchNode(h.tables, n, now), PostAll(Marked(h, n), RegisterMails(h, n, ident, rows)),
                RegisterLinks(h, n),
                   h.lastWG[n := ident], h.gcDone, h.revoked, h.operations + 1)
  {
  }

  // ---- sessions and confirmations ----

  lemma SessionUpForm(h: Hub, n: NodeId, sid: SessionId)
    requires Enabled(h, SessionUp(n, sid))
    ensures Apply(h, SessionUp(n, sid))
            == Hub(h.tables, h.sessions[n := Session(sid, true, false, [], map[])], h.links,
                   h.lastWG, h.gcDone - {n}, h.revoked, h.operations + 1)
  {
    PostNone(h.sessions[n := Session(sid, true, false, [], map[])], map[]);
  }

  lemma SessionDropForm(h: Hub, n: NodeId, now: int)
    requires n in h.sessions
    ensures Apply(h, SessionDrop(n, now))
            == Hub(TouchNode(h.tables, n, now), h.sessions - {n}, h.links, h.lastWG, h.gcDone, h.revoked,
                h.operations + 1)
  {
    PostNone(h.sessions - {n}, map[]);
  }

  lemma StaleDropForm(h: Hub, n: NodeId, now: int)
    ensures Apply(h, StaleDrop(n, now)) == h.(tables := TouchNode(h.tables, n, now), operations := h.operations + 1)
  {
    PostNone(h.sessions, map[]);
  }

  lemma AcknowledgeForm(h: Hub, n: NodeId, id: EnvId, ok: bool)
    requires n in h.sessions
    ensures var s := h.sessions[n];
            Apply(h, Acknowledge(n, id, ok))
            == Hub(h.tables, h.sessions[n := s.(pending := s.pending - {id})],
                   if id in s.pending && ok && s.pending[id].link in h.links
                   then h.links[s.pending[id].link := SetFlag(h.links[s.pending[id].link], s.pending[id].side)]
                   else h.links,
                   h.lastWG, h.gcDone, h.revoked, h.operations + 1)
  {
    PostNone(h.sessions[n := h.sessions[n].(pending := h.sessions[n].pending - {id})], map[]);
  }

  lemma AskForm(h: Hub, n: NodeId)
    requires n in h.sessions
    ensures Apply(h, RotateNode(n))
            == h.(sessions := h.sessions[n := Post(h.sessions[n], Mail(RotateWG(EnvId(h.operations, n)), map[]))],
                  operations := h.operations + 1)
    ensures Apply(h, AskNode(n))
            == h.(sessions := h.sessions[n := Post(h.sessions[n], Mail(Request(EnvId(h.operations, n)), map[]))],
                  operations := h.operations + 1)
  {
    PostOne(h.sessions, n, Mail(RotateWG(EnvId(h.operations, n)), map[]));
    PostOne(h.sessions, n, Mail(Request(EnvId(h.operations, n)), map[]));
  }

  // ---- heartbeats ----

  /** The runtime map when the status w has been compared with the links `ids` only. */
  ghost function BeatUpTo(h: Hub, n: NodeId, seen: seq<PeerStatus>, w: PeerStatus, ids: set<LinkId>)
    : map<LinkId, LinkRT>
  {
    map id | id in BeatLinks(h, n, seen + [w]) && (id in BeatLinks(h, n, seen) || id in ids) ::
      if id in ids then BeatLinks(h, n, seen + [w])[id] else BeatLinks(h, n, seen)[id]
  }

  lemma BeatNone(h: Hub, n: NodeId)
    ensures BeatLinks(h, n, []) == h.links
  {
  }

  /** Which links one more status touches, and how. */
  lemma BeatOne(h: Hub, n: NodeId, seen: seq<PeerStatus>, w: PeerStatus, id: LinkId)
    ensures var before, after := BeatLinks(h, n, seen), BeatLinks(h, n, seen + [w]);
            if id in h.tables.links && Touches(h.tables.links[id], n) && Other(h.tables.links[id], n) == w.node then
              var rt := if id in before then before[id] else FRESH_RT;
              id in after && after[id] == if w.handshake > rt.lastHS then rt.(lastHS := w.handshake) else rt
            else (id in after <==> id in before) && (id in before ==> after[id] == before[id])
  {
    assert (seen + [w])[..|seen|] == seen;
    if id in h.tables.links {
      ReportsMore(seen, w, Other(h.tables.links[id], n));
    }
    if id in h.tables.links && !Reports(seen, Other(h.tables.links[id], n)) {
      NothingReported(seen, Other(h.tables.links[id], n), FRESH_RT.lastHS);
    }
  }

  lemma ReportsMore(seen: seq<PeerStatus>, w: PeerStatus, m: NodeId)
    ensures Reports(seen + [w], m) <==> Reports(seen, m) || w.node == m
  {
    if Reports(seen, m) {
      var i :| 0 <= i < |seen| && seen[i].node == m;
      assert (seen + [w])[i].node == m;
    }
    if w.node == m {
      assert (seen + [w])[|seen|].node == m;
    }
  }

  lemma {:induction false} NothingReported(peers: seq<PeerStatus>, m: NodeId, base: int)
    requires !Reports(peers, m)
    ensures NewestHandshake(peers, m, base) == base
  {
    if peers != [] {
      ReportsMore(peers[..|peers| - 1], peers[|peers| - 1], m);
      assert peers[..|peers| - 1] + [peers[|peers| - 1]] == peers;
      NothingReported(peers[..|peers| - 1], m, base);
    }
  }

  /** The inner loop's body. */
  lemma BeatRow(h: Hub, n: NodeId, seen: seq<PeerStatus>, w: PeerStatus, rows: seq<Link>, j: nat)
    requires LinksOk(h.tables) && IsListing(h.tables, n, rows) && j <= |rows|
    ensures BeatUpTo(h, n, seen, w, Ids(rows[..0])) == BeatLinks(h, n, seen)
    ensures j < |rows| ==>
              var l, before := rows[j], BeatUpTo(h, n, seen, w, Ids(rows[..j]));
              var rt := if l.id in before then before[l.id] else FRESH_RT;
              BeatUpTo(h, n, seen, w, Ids(rows[..j + 1]))
              == if Other(l, n) == w.node
                 then before[l.id := if w.handshake > rt.lastHS then rt.(lastHS := w.handshake) else rt]
                 else before
  {
    hide BeatLinks, LinksOk, IsListing;
    forall id ensures id in BeatLinks(h, n, seen) ==> id in BeatLinks(h, n, seen + [w]) {
      BeatOne(h, n, seen, w, id);
    }
    if j < |rows| {
      RowFacts(h.tables, n, rows, j);
      BeatOne(h, n, seen, w, rows[j].id);
    }
  }

  lemma BeatRowsDone(h: Hub, n: NodeId, seen: seq<PeerStatus>, w: PeerStatus, rows: seq<Link>)
    requires LinksOk(h.tables) && IsListing(h.tables, n, rows)
    ensures BeatUpTo(h, n, seen, w, Ids(rows)) == BeatLinks(h, n, seen + [w])
  {
    hide BeatLinks, LinksOk, IsListing;
    RowsCover(h.tables, n, rows);
    var before, after := BeatLinks(h, n, seen), BeatLinks(h, n, seen + [w]);
    forall id ensures id in after ==> id in Ids(rows) || (id in before && before[id] == after[id]) {
      BeatOne(h, n, seen, w, id);
    }
  }

  lemma BeatForm(h: Hub, n: NodeId, peers: seq<PeerStatus>, now: int)
    requires n in h.sessions
    ensures Apply(h, Beat(n, peers, now))
            == h.(links := BeatLinks(h, n, peers), tables := TouchNode(h.tables, n, now),
                operations := h.operations + 1)
  {
    PostNone(h.sessions, map[]);
  }

  lemma EnrollForm(h: Hub, n: NodeId, serial: Serial, p: Ipam.Prefix, cooldown: int, now: int)
    requires p.bits <= 32 && n !in h.tables.nodes && forall m <- h.tables.nodes :: h.tables.nodes[m].serial != serial
    ensures var (t, ip) := Ipam.Allocate(h.tables, p, cooldown, now);
            Apply(h, Enroll(n, serial, p, cooldown, now))
            == h.(tables := if ip.Some? then CreateNode(t, n, ip.value, serial) else t, operations := h.operations + 1)
  {
    PostNone(h.sessions, map[]);
  }

  // ---- pairs ----

  /** pushPairLocked, as two messages one after the other. */
  ghost function PairSessions(h: Hub, l: Link, update: bool): map<NodeId, Session> {
    if PairReady(h, l) && l.a != l.b then
      h.sessions[l.a := Post(h.sessions[l.a], PushAt(h.operations, h.tables, l, update, l.a, h.lastWG[l.b]))]
                [l.b := Post(h.sessions[l.b], PushAt(h.operations, h.tables, l, update, l.b, h.lastWG[l.a]))]
    else h.sessions
  }

  lemma PairPosted(h: Hub, l: Link, update: bool)
    requires l.a != l.b
    ensures PostAll(h.sessions, PairMails(h, l, update)) == PairSessions(h, l, update)
  {
  }

  lemma CreateLinkForm(h: Hub, id: LinkId, a: NodeId, b: NodeId)
    requires Enabled(h, Operation.CreateLink(id, a, b))
    ensures var t, l := InsertLink(h.tables, id, a, b), SortedLink(id, a, b);
            Apply(h, Operation.CreateLink(id, a, b))
            == Hub(t, PairSessions(h.(tables := t), l, false), PairLinks(h.(tables := t), l),
                   h.lastWG, h.gcDone, h.revoked, h.operations + 1)
  {
    PairPosted(h.(tables := InsertLink(h.tables, id, a, b)), SortedLink(id, a, b), false);
  }

  lemma SetLinkExitForm(h: Hub, id: LinkId, exit: Option<NodeId>)
    requires Enabled(h, Operation.SetLinkExit(id, exit)) && LinksOk(h.tables)
    ensures var t := UpdateExit(h.tables, id, exit);
            var l := t.links[id];
            Apply(h, Operation.SetLinkExit(id, exit))
            == Hub(t, PairSessions(h.(tables := t), l, true), PairLinks(h.(tables := t), l),
                   h.lastWG, h.gcDone, h.revoked, h.operations + 1)
  {
    var t := UpdateExit(h.tables, id, exit);
    PairPosted(h.(tables := t), t.links[id], true);
  }

  // ---- withdrawals ----

  /** removeSideLocked. */
  ghost function SideRemoved(sessions: map<NodeId, Session>, operation: nat, lastWG: map<NodeId, WgIdent>,
                             l: Link, to: NodeId, peer: NodeId): map<NodeId, Session>
  {
    if to in sessions && peer in lastWG
    then sessions[to := Post(sessions[to], RemovalAt(operation, l, to, lastWG[peer]))]
    else sessions
  }

  ghost function BothRemoved(h: Hub, l: Link): map<NodeId, Session> {
    SideRemoved(SideRemoved(h.sessions, h.operations, h.lastWG, l, l.a, l.b), h.operations, h.lastWG, l, l.b, l.a)
  }

  lemma RemovePosted(h: Hub, l: Link)
    requires l.a != l.b
    ensures PostAll(h.sessions, RemoveMails(h, l)) == BothRemoved(h, l)
  {
    hide Post, Withdrawal, RemovalAt;
    assert l.b in h.lastWG ==> Withdrawal(h, l, l.a, l.b) == RemovalAt(h.operations, l, l.a, h.lastWG[l.b]) by {
      RemovalIsWithdrawal(h, l, l.a, l.b);
    }
    assert l.a in h.lastWG ==> Withdrawal(h, l, l.b, l.a) == RemovalAt(h.operations, l, l.b, h.lastWG[l.a]) by {
      RemovalIsWithdrawal(h, l, l.b, l.a);
    }
  }

  lemma RemovalIsWithdrawal(h: Hub, l: Link, to: NodeId, peer: NodeId)
    ensures peer in h.lastWG ==> Withdrawal(h, l, to, peer) == RemovalAt(h.operations, l, to, h.lastWG[peer])
  {
  }

  lemma DeleteLinkForm(h: Hub, id: LinkId)
    requires Enabled(h, Operation.DeleteLink(id)) && LinksOk(h.tables)
    ensures Apply(h, Operation.DeleteLink(id))
            == Hub(RemoveLink(h.tables, id), BothRemoved(h, h.tables.links[id]),
                   h.links - {id}, h.lastWG, h.gcDone, h.revoked, h.operations + 1)
  {
    RemovePosted(h, h.tables.links[id]);
  }

  /** The sessions once the nodes in `done` have been told to drop n. */
  ghost function WithdrawnFrom(h: Hub, n: NodeId, done: set<NodeId>): map<NodeId, Session> {
    Posted(h.sessions, WithdrawNodeMails(h, n), done)
  }

  lemma WithdrawStep(h: Hub, n: NodeId, rows: seq<Link>, i: nat)
    requires LinksOk(h.tables) && IsListing(h.tables, n, rows) && i < |rows|
    ensures WithdrawnFrom(h, n, Neighbours(n, rows[..i + 1]))
            == SideRemoved(WithdrawnFrom(h, n, Neighbours(n, rows[..i])), h.operations, h.lastWG, rows[i],
                Other(rows[i], n), n)
  {
    hide Posted, IsListing;
    RowFacts(h.tables, n, rows, i);
    PostNext(h.sessions, WithdrawNodeMails(h, n), Neighbours(n, rows[..i]), Other(rows[i], n));
  }

  lemma WithdrawDone(h: Hub, n: NodeId, rows: seq<Link>)
    requires LinksOk(h.tables) && IsListing(h.tables, n, rows)
    ensures WithdrawnFrom(h, n, {}) == h.sessions
    ensures WithdrawnFrom(h, n, Neighbours(n, rows)) == PostAll(h.sessions, WithdrawNodeMails(h, n))
  {
    RowsCover(h.tables, n, rows);
    PostNone(h.sessions, WithdrawNodeMails(h, n));
    PostDone(h.sessions, WithdrawNodeMails(h, n), Neighbours(n, rows));
  }

  lemma CollectForm(h: Hub, n: NodeId, now: int, after: int, rows: seq<Link>)
    requires Enabled(h, Collect(n, now, after)) && LinksOk(h.tables) && IsListing(h.tables, n, rows)
    ensures Apply(h, Collect(n, now, after))
            == h.(sessions := WithdrawnFrom(h, n, Neighbours(n, rows)), gcDone := h.gcDone + {n},
                operations := h.operations + 1)
  {
    WithdrawDone(h, n, rows);
  }

  ghost function Kicked(sessions: map<NodeId, Session>, n: NodeId): map<NodeId, Session> {
    if n in sessions then sessions[n := Post(sessions[n], Mail(Kick, map[]))] else sessions
  }

  lemma KickLast(h: Hub, n: NodeId)
    requires n !in WithdrawNodeMails(h, n)
    ensures PostAll(h.sessions, DeleteNodeMails(h, n)) == Kicked(PostAll(h.sessions, WithdrawNodeMails(h, n)), n)
  {
  }

  lemma DeleteNodeForm(h: Hub, n: NodeId, now: int, rows: seq<Link>)
    requires n in h.tables.nodes && LinksOk(h.tables) && IsListing(h.tables, n, rows)
    ensures Apply(h, Operation.DeleteNode(n, now))
            == Hub(RevokeNode(h.tables, n, now), Kicked(WithdrawnFrom(h, n, Neighbours(n, rows)), n),
                h.links - Ids(rows),
                   h.lastWG - {n}, h.gcDone - {n}, h.revoked + {h.tables.nodes[n].serial}, h.operations + 1)
  {
    hide PostAll, LinksOk, IsListing, Neighbours, WithdrawnFrom, RevokeNode, Ids, Kicked, DeleteNodeMails;
    RowsCover(h.tables, n, rows);
    WithdrawDone(h, n, rows);
    assert n !in WithdrawNodeMails(h, n);
    KickLast(h, n);
    LinksForgotten(h, n, rows);
  }

  // ---- collections ----

  /** gcOfflinePeers: one collection after the other. */
  ghost function CollectAll(h: Hub, nodes: seq<NodeId>, now: int, after: int): Hub {
    if nodes == [] then h
    else Apply(CollectAll(h, nodes[..|nodes| - 1], now, after), Collect(nodes[|nodes| - 1], now, after))
  }

  /** One sweep collects exactly the listed nodes that are overdue when it starts. */
  lemma {:induction false} CollectAllDone(h: Hub, nodes: seq<NodeId>, now: int, after: int)
    ensures var h' := CollectAll(h, nodes, now, after);
            && h'.tables == h.tables && h'.sessions.Keys == h.sessions.Keys
            && h'.gcDone == h.gcDone + set n | n in nodes && Overdue(h, n, now, after)
  {
    if nodes != [] {
      var init, n := nodes[..|nodes| - 1], nodes[|nodes| - 1];
      CollectAllDone(h, init, now, after);
      CollectOne(CollectAll(h, init, now, after), n, now, after);
      assert forall m :: m in nodes <==> m in init || m == n;
    }
  }

  lemma CollectOne(h: Hub, n: NodeId, now: int, after: int)
    ensures var h' := Apply(h, Collect(n, now, after));
            && h'.tables == h.tables && h'.sessions.Keys == h.sessions.Keys
            && h'.gcDone == if Overdue(h, n, now, after) then h.gcDone + {n} else h.gcDone
  {
    hide WithdrawNodeMails;
  }

  lemma LinksForgotten(h: Hub, n: NodeId, rows: seq<Link>)
    requires LinksOk(h.tables) && IsListing(h.tables, n, rows)
    ensures h.links - Ids(rows)
            == map id | id in h.links && !(id in h.tables.links && Touches(h.tables.links[id], n)) :: h.links[id]
  {
    RowsCover(h.tables, n, rows);
  }
}
