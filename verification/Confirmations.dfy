/** The confirmation flags and handshake times of the links, tied to the events
    of the run: which side has confirmed what, and what the status says. */
module Confirmations {
  import opened Wrappers
  import opened Wire
  import opened StoreState
  import opened HubState
  import opened HubForms
  import opened HubInvariants
  import opened HubView
  import opened Network
  import opened NetworkInvariant
  import opened History
  import Guarantees
  import Ipam

  // ---- confirmations ----

  /** Every awaited confirmation belongs to a registered session and names the side its own node is on. */
  ghost predicate PendingSides(h: Hub) {
    forall n, e | n in h.sessions && e in h.sessions[n].pending ::
      h.sessions[n].registered && RightSide(h.tables, n, h.sessions[n].pending[e])
  }

  ghost predicate RightSide(t: Tables, n: NodeId, ref: AckRef) {
    ref.link in t.links ==>
      (t.links[ref.link].a == n && ref.side == SideA) || (t.links[ref.link].b == n && ref.side == SideB)
  }

  lemma CoreKeepsSides(h: Hub, op: Operation)
    requires PendingSides(h) && Enabled(h, op)
    ensures PendingSides(Core(h, op))
  {
    hide RegisterLinks, BeatLinks, PairLinks, IsListing, Mails, Ipam.Allocate;
    var core := Core(h, op);
    EndsAreKept(h, op);
    forall n, e | n in core.sessions && e in core.sessions[n].pending
      ensures core.sessions[n].registered && RightSide(core.tables, n, core.sessions[n].pending[e])
    {
      assert n in h.sessions && e in h.sessions[n].pending && core.sessions[n].pending[e] == h.sessions[n].pending[e];
    }
  }

  /** What the mails of a handler make their receivers await. */
  lemma MailsKeepSides(h: Hub, op: Operation, n: NodeId, e: EnvId)
    requires TablesOk(h.tables) && Enabled(h, op) && n in Core(h, op).sessions
    requires n in Mails(h, op) && e in Mails(h, op)[n].awaits
    ensures Core(h, op).sessions[n].registered && RightSide(Core(h, op).tables, n, Mails(h, op)[n].awaits[e])
  {
    if op.Register? {
      RegisterMailSides(h, op, n, e);
    } else if op.CreateLink? || op.SetLinkExit? {
      PairMailSides(h, op, n, e);
    } else {
      NothingAwaited(h, op, n);
    }
  }

  lemma RegisterMailSides(h: Hub, op: Operation, n: NodeId, e: EnvId)
    requires LinksOk(h.tables) && Enabled(h, op) && n in Core(h, op).sessions && op.Register?
    requires n in Mails(h, op) && e in Mails(h, op)[n].awaits
    ensures Core(h, op).sessions[n].registered && RightSide(Core(h, op).tables, n, Mails(h, op)[n].awaits[e])
  {
    hide Expected, RegisterLinks, SpecFor;
    var l := LinkOf(h.tables, op.node, n);
    assert Core(h, op).tables.links == h.tables.links && Joins(l, op.node, n);
    assert Mails(h, op)[n].awaits == map[EnvId(h.operations, n) := AckRef(l.id, SideOf(l, n))];
  }

  lemma PairMailSides(h: Hub, op: Operation, n: NodeId, e: EnvId)
    requires LinksOk(h.tables) && Enabled(h, op) && n in Core(h, op).sessions && (op.CreateLink? || op.SetLinkExit?)
    requires n in Mails(h, op) && e in Mails(h, op)[n].awaits
    ensures Core(h, op).sessions[n].registered && RightSide(Core(h, op).tables, n, Mails(h, op)[n].awaits[e])
  {
    hide SpecFor, PairLinks, FreshLink;
    var t := Core(h, op).tables;
    var l := t.links[op.link];
    assert l.id == op.link && l.a != l.b && PairReady(h.(tables := t), l);
    assert n in {l.a, l.b} && Mails(h, op)[n].awaits == map[EnvId(h.operations, n) := AckRef(l.id, SideOf(l, n))];
  }

  lemma NothingAwaited(h: Hub, op: Operation, n: NodeId)
    requires Enabled(h, op) && n in Mails(h, op) && !op.Register? && !op.CreateLink? && !op.SetLinkExit?
    ensures Mails(h, op)[n].awaits == map[]
  {
    hide Core;
  }

  lemma ApplyKeepsSides(h: Hub, op: Operation)
    requires TablesOk(h.tables) && PendingSides(h)
    ensures PendingSides(Apply(h, op))
  {
    hide Core, Mails, RightSide;
    if Enabled(h, op) {
      CoreKeepsSides(h, op);
      var core, h' := Core(h, op), Apply(h, op);
      forall n, e | n in h'.sessions && e in h'.sessions[n].pending
        ensures h'.sessions[n].registered && RightSide(h'.tables, n, h'.sessions[n].pending[e])
      {
        if n in Mails(h, op) && e in Mails(h, op)[n].awaits {
          MailsKeepSides(h, op, n, e);
        }
      }
    }
  }

  lemma NextKeepsSides(s: Sys, e: Event)
    requires Healthy(s.hub) && PendingSides(s.hub)
    ensures PendingSides(Next(s, e).hub)
  {
    hide Next, Apply, OperationOf;
    HubNext(s, e);
    if OperationOf(s, e).Some? {
      ApplyKeepsSides(s.hub, OperationOf(s, e).value);
    }
  }

  lemma {:induction false} ReachableSides(run: seq<Event>)
    ensures Inv(Exec(INIT, run)) && PendingSides(Exec(INIT, run).hub)
  {
    EveryRunKeepsInv(run);
    if run != [] {
      ReachableSides(run[..|run| - 1]);
      LastOf(run);
      NextKeepsSides(Exec(INIT, run[..|run| - 1]), run[|run| - 1]);
    }
  }

  /** Reading ack(e, ok) from x sets the one flag that e was awaited for, and only if it reports success. */
  lemma AckSetsItsOwnFlag(h: Hub, x: NodeId, e: EnvId, ok: bool)
    requires x in h.sessions
    ensures var h', p := Apply(h, Acknowledge(x, e, ok)), h.sessions[x].pending;
            && h'.links.Keys == h.links.Keys
            && (forall id <- h.links ::
                  && h'.links[id].lastHS == h.links[id].lastHS
                  && h'.links[id].ackA == (h.links[id].ackA || (ok && e in p && p[e] == AckRef(id, SideA)))
                  && h'.links[id].ackB == (h.links[id].ackB || (ok && e in p && p[e] == AckRef(id, SideB))))
            && e !in h'.sessions[x].pending
  {
    hide Apply;
    AcknowledgeForm(h, x, e, ok);
  }

  /** x's side of the link is flagged as confirmed: the first flag is that of the lower end. */
  predicate Flagged(h: Hub, id: LinkId, x: NodeId) {
    id in h.links && id in h.tables.links && if h.tables.links[id].a == x then h.links[id].ackA else h.links[id].ackB
  }

  /** Node x registers while the other end of the link is registered, or acknowledges a push of the link
      with success. */
  ghost predicate Confirms(s: Sys, e: Event, id: LinkId, x: NodeId) {
    match Heard(s, e)
    case Some(Register(_, port, _)) =>
      && e.node == x && 0 < port <= 65535 && id in s.hub.tables.links
      && Touches(s.hub.tables.links[id], x) && Registered(s.hub, Other(s.hub.tables.links[id], x))
    case Some(Ack(ack, ok)) =>
      e.node == x && ok && ack in s.hub.sessions[x].pending && s.hub.sessions[x].pending[ack].link == id
    case _ => false
  }

  /** The hub restarts, the link is only being created, or it is pushed to both ends again. */
  ghost predicate Resets(s: Sys, e: Event, id: LinkId) {
    || e.HubRestart?
    || id !in s.hub.tables.links
    || (&& e.Handler? && e.op.SetLinkExit? && e.op.link == id
        && var l := s.hub.tables.links[id];
           && (e.op.exit == None || e.op.exit == Some(l.a) || e.op.exit == Some(l.b))
           && Registered(s.hub, l.a) && Registered(s.hub, l.b))
  }

  ghost function Confirming(id: LinkId, x: NodeId): Moment {
    (s: Sys, e: Event) => Confirms(s, e, id, x)
  }

  ghost function Resetting(id: LinkId): Moment {
    (s: Sys, e: Event) => Resets(s, e, id)
  }

  /** x has confirmed the link since the pair was last pushed and the hub last restarted. */
  ghost predicate ConfirmedSince(run: seq<Event>, id: LinkId, x: NodeId) {
    Since(run, Confirming(id, x), Resetting(id))
  }

  // ---- why that is so: one handler ----

  ghost predicate Confirmation(h: Hub, op: Operation, id: LinkId, x: NodeId) {
    match op
    case Register(n, ident, _, _) =>
      n == x && id in h.tables.links && Touches(h.tables.links[id], x) && Registered(h, Other(h.tables.links[id], x))
    case Acknowledge(n, ack, ok) =>
      n == x && ok && n in h.sessions && ack in h.sessions[n].pending && h.sessions[n].pending[ack].link == id
    case _ => false
  }

  ghost predicate Repush(h: Hub, op: Operation, id: LinkId) {
    && op.SetLinkExit? && op.link == id && id in h.tables.links
    && Registered(h, h.tables.links[id].a) && Registered(h, h.tables.links[id].b)
  }

  /** How one handler leaves the flag of x's side. */
  ghost predicate FlagLaw(h: Hub, op: Operation, h': Hub, id: LinkId, x: NodeId) {
    if id in h.tables.links
    then Flagged(h', id, x) <==> Confirmation(h, op, id, x) || (Flagged(h, id, x) && !Repush(h, op, id))
    else !Flagged(h', id, x) && !Confirmation(h, op, id, x)
  }

  lemma RegisteredIsReachable(h: Hub, id: LinkId, x: NodeId)
    requires LinksOk(h.tables) && IdentsOk(h) && id in h.tables.links && Touches(h.tables.links[id], x)
    ensures Registered(h, x) <==> Reachable(h, x)
  {
  }

  lemma RegisterFlag(h: Hub, op: Operation, id: LinkId, x: NodeId)
    requires LinksOk(h.tables) && IdentsOk(h) && Enabled(h, op) && op.Register?
    requires id in h.tables.links && Touches(h.tables.links[id], x)
    ensures FlagLaw(h, op, Core(h, op), id, x)
  {
    hide Core, Enabled, LinksOk, IdentsOk, Reachable;
    RegisterLeaves(h, op);
    RegisteredIsReachable(h, id, x);
    assert Touches(h.tables.links[id], Other(h.tables.links[id], x));
    RegisteredIsReachable(h, id, Other(h.tables.links[id], x));
    LinkOfOther(h.tables, id, x);
  }

  lemma RegisterLeaves(h: Hub, op: Operation)
    requires Enabled(h, op) && op.Register?
    ensures Core(h, op).tables.links == h.tables.links && Core(h, op).links == RegisterLinks(h, op.node)
  {
  }

  lemma AckFlag(h: Hub, op: Operation, id: LinkId, x: NodeId)
    requires LinksOk(h.tables) && RuntimeOk(h) && PendingSides(h) && Enabled(h, op) && op.Acknowledge?
    requires id in h.tables.links && Touches(h.tables.links[id], x)
    ensures FlagLaw(h, op, Core(h, op), id, x)
  {
    var p := h.sessions[op.node].pending;
    if op.id in p && p[op.id].link == id {
      assert RightSide(h.tables, op.node, p[op.id]);
      assert Registered(h, op.node) && id in h.links;
    }
  }

  lemma ExitFlag(h: Hub, op: Operation, id: LinkId, x: NodeId)
    requires LinksOk(h.tables) && IdentsOk(h) && Enabled(h, op) && op.SetLinkExit?
    requires id in h.tables.links && Touches(h.tables.links[id], x)
    ensures FlagLaw(h, op, Core(h, op), id, x)
  {
    var l := h.tables.links[op.link];
    RegisteredIsReachable(h, op.link, l.a);
    RegisteredIsReachable(h, op.link, l.b);
  }

  lemma OtherFlag(h: Hub, op: Operation, id: LinkId, x: NodeId)
    requires LinksOk(h.tables) && Enabled(h, op) && !op.Register? && !op.Acknowledge? && !op.SetLinkExit?
    requires id in Core(h, op).tables.links && Touches(Core(h, op).tables.links[id], x)
    ensures FlagLaw(h, op, Core(h, op), id, x)
  {
    hide Core, Enabled, LinksOk;
    EndsAreKept(h, op);
    OtherKeepsFlags(h, op, id);
  }

  lemma OtherKeepsFlags(h: Hub, op: Operation, id: LinkId)
    requires Enabled(h, op) && !op.Register? && !op.Acknowledge? && !op.SetLinkExit? && id in Core(h, op).tables.links
    ensures op.CreateLink? && op.link == id ==> id !in h.tables.links && id !in h.links
    ensures var links' := Core(h, op).links;
            if id in h.links
            then id in links' && links'[id].ackA == h.links[id].ackA && links'[id].ackB == h.links[id].ackB
            else id in links' ==> !links'[id].ackA && !links'[id].ackB
  {
    hide RegisterLinks, NewestHandshake, Mails;
  }

  lemma FlagAfter(h: Hub, op: Operation, id: LinkId, x: NodeId)
    requires Healthy(h) && PendingSides(h) && Enabled(h, op)
    requires id in Apply(h, op).tables.links && Touches(Apply(h, op).tables.links[id], x)
    ensures FlagLaw(h, op, Apply(h, op), id, x)
    ensures id in h.tables.links ==> Touches(h.tables.links[id], x)
  {
    hide Core, Mails, LinksOk, PendingSides, NodesOk, FlagLaw;
    EndsAreKept(h, op);
    var core, h' := Core(h, op), Apply(h, op);
    assert h'.links == core.links && h'.tables == core.tables;
    if op.Register? {
      RegisterFlag(h, op, id, x);
    } else if op.Acknowledge? {
      AckFlag(h, op, id, x);
    } else if op.SetLinkExit? {
      ExitFlag(h, op, id, x);
    } else {
      OtherFlag(h, op, id, x);
    }
    SameFlag(h, op, core, h', id, x);
  }

  lemma SameFlag(h: Hub, op: Operation, h1: Hub, h2: Hub, id: LinkId, x: NodeId)
    requires h1.links == h2.links && h1.tables == h2.tables && FlagLaw(h, op, h1, id, x)
    ensures FlagLaw(h, op, h2, id, x)
  {
  }

  // ---- one event ----

  lemma FlagNext(s: Sys, e: Event, id: LinkId, x: NodeId)
    requires Inv(s) && PendingSides(s.hub)
    requires id in Next(s, e).hub.tables.links && Touches(Next(s, e).hub.tables.links[id], x)
    ensures id in s.hub.tables.links ==> Touches(s.hub.tables.links[id], x)
    ensures Flagged(Next(s, e).hub, id, x) <==> Confirms(s, e, id, x) || (Flagged(s.hub, id, x) && !Resets(s, e, id))
  {
    hide Next, Apply, Healthy, Inv, PendingSides;
    HubNext(s, e);
    var op := OperationOf(s, e);
    if op.Some? {
      HealthyPart(s);
      MomentOfHandler(s, e, op.value, id, x);
      if Enabled(s.hub, op.value) {
        FlagAfter(s.hub, op.value, id, x);
      } else {
        Unchanged(s.hub, op.value);
      }
    } else {
      MomentWithoutHandler(s, e, id, x);
    }
  }

  lemma MomentOfHandler(s: Sys, e: Event, op: Operation, id: LinkId, x: NodeId)
    requires OperationOf(s, e) == Some(op)
    ensures Confirms(s, e, id, x) <==> Enabled(s.hub, op) && Confirmation(s.hub, op, id, x)
    ensures Resets(s, e, id) <==> id !in s.hub.tables.links || (Enabled(s.hub, op) && Repush(s.hub, op, id))
  {
  }

  lemma MomentWithoutHandler(s: Sys, e: Event, id: LinkId, x: NodeId)
    requires OperationOf(s, e) == None
    ensures !Confirms(s, e, id, x)
    ensures HubAfter(s, e).tables == s.hub.tables
    ensures if e.HubRestart? then HubAfter(s, e).links == map[] && Resets(s, e, id)
            else HubAfter(s, e).links == s.hub.links && (Resets(s, e, id) <==> id !in s.hub.tables.links)
  {
  }

  // ---- the flags ----

  /** In every reachable state a side's flag is set if and only if its node has confirmed the link since
      the pair was last pushed and the hub last restarted. */
  lemma {:induction false} FlagsAreHistory(run: seq<Event>, id: LinkId, x: NodeId)
    requires var t := Exec(INIT, run).hub.tables; id in t.links && Touches(t.links[id], x)
    ensures Flagged(Exec(INIT, run).hub, id, x) <==> ConfirmedSince(run, id, x)
  {
    hide Next, Inv, Flagged, Confirms, Resets, Since, PendingSides;
    if run == [] {
      NothingLinked(id);
    } else {
      var init, e := run[..|run| - 1], run[|run| - 1];
      var s := Exec(INIT, init);
      LastOf(run);
      ReachableSides(init);
      FlagNext(s, e, id, x);
      SinceNext(init, e, Confirming(id, x), Resetting(id));
      if id in s.hub.tables.links {
        FlagsAreHistory(init, id, x);
      } else {
        NotLinkedYet(s, e, id, x);
      }
    }
  }

  lemma NothingLinked(id: LinkId)
    ensures id !in Exec(INIT, []).hub.tables.links
  {
  }

  lemma NotLinkedYet(s: Sys, e: Event, id: LinkId, x: NodeId)
    requires id !in s.hub.tables.links
    ensures Resets(s, e, id) && !Flagged(s.hub, id, x)
  {
  }

  // ---- handshakes ----

  /** The hub reads a heartbeat in which an end of the link reports a handshake with the other end that is
      less than 180 s old at `now`. */
  ghost predicate Sees(s: Sys, e: Event, id: LinkId, now: int) {
    match Heard(s, e)
    case Some(Heartbeat(peers)) =>
      && id in s.hub.tables.links && Touches(s.hub.tables.links[id], e.node)
      && Guarantees.RecentlySeen(peers, Other(s.hub.tables.links[id], e.node), now)
    case _ => false
  }

  /** The hub restarts, or the link is only being created. */
  ghost predicate Forgets(s: Sys, e: Event, id: LinkId) {
    e.HubRestart? || id !in s.hub.tables.links
  }

  ghost function Seeing(id: LinkId, now: int): Moment {
    (s: Sys, e: Event) => Sees(s, e, id, now)
  }

  ghost function Forgetting(id: LinkId): Moment {
    (s: Sys, e: Event) => Forgets(s, e, id)
  }

  /** A handshake that is recent at `now` was reported since the link was created and the hub last restarted. */
  ghost predicate SeenSince(run: seq<Event>, id: LinkId, now: int) {
    Since(run, Seeing(id, now), Forgetting(id))
  }

  predicate Recent(h: Hub, id: LinkId, now: int) {
    now - (if id in h.links then h.links[id].lastHS else 0) < 180
  }

  lemma BeatSees(h: Hub, n: NodeId, peers: seq<PeerStatus>, id: LinkId, now: int)
    requires id in h.tables.links
    ensures var l := h.tables.links[id];
            Recent(h.(links := BeatLinks(h, n, peers)), id, now) <==>
              Recent(h, id, now) || (Touches(l, n) && Guarantees.RecentlySeen(peers, Other(l, n), now))
  {
    var l := h.tables.links[id];
    Guarantees.NewestIsRecent(peers, Other(l, n), if id in h.links then h.links[id].lastHS else 0, now);
  }

  lemma RecentAfter(h: Hub, op: Operation, id: LinkId, now: int)
    requires Enabled(h, op) && id in Core(h, op).tables.links
    ensures if id in h.tables.links
            then Recent(Core(h, op), id, now) <==>
                   || Recent(h, id, now)
                   || (op.Beat? && Touches(h.tables.links[id], op.node)
                       && Guarantees.RecentlySeen(op.peers, Other(h.tables.links[id], op.node), now))
            else Recent(Core(h, op), id, now) <==> now < 180
  {
    hide Mails, IsListing, BeatLinks, Guarantees.RecentlySeen;
    if op.Beat? {
      BeatLeaves(h, op);
      BeatSees(h, op.node, op.peers, id, now);
    }
  }

  lemma BeatLeaves(h: Hub, op: Operation)
    requires Enabled(h, op) && op.Beat?
    ensures Core(h, op).tables.links == h.tables.links && Core(h, op).links == BeatLinks(h, op.node, op.peers)
  {
  }

  lemma RecentNext(s: Sys, e: Event, id: LinkId, now: int)
    requires id in Next(s, e).hub.tables.links
    ensures if id in s.hub.tables.links
            then Recent(Next(s, e).hub, id, now) <==>
                   Sees(s, e, id, now) || if e.HubRestart? then now < 180 else Recent(s.hub, id, now)
            else (Recent(Next(s, e).hub, id, now) <==> now < 180) && !Sees(s, e, id, now)
  {
    hide Next, Core, Mails, Guarantees.RecentlySeen;
    HubNext(s, e);
    var op := OperationOf(s, e);
    if op.Some? {
      SeesInBeat(s, e, op.value, id, now);
      if Enabled(s.hub, op.value) {
        RecentAfter(s.hub, op.value, id, now);
      }
    }
  }

  lemma SeesInBeat(s: Sys, e: Event, op: Operation, id: LinkId, now: int)
    requires OperationOf(s, e) == Some(op)
    ensures Sees(s, e, id, now) <==>
              && Enabled(s.hub, op) && op.Beat? && id in s.hub.tables.links && Touches(s.hub.tables.links[id], op.node)
              && Guarantees.RecentlySeen(op.peers, Other(s.hub.tables.links[id], op.node), now)
  {
  }

  lemma {:induction false} HandshakesAreHistory(run: seq<Event>, id: LinkId, now: int)
    requires id in Exec(INIT, run).hub.tables.links
    ensures Recent(Exec(INIT, run).hub, id, now) <==> now < 180 || SeenSince(run, id, now)
  {
    hide Next, Recent, Sees, Since;
    if run == [] {
      NothingLinked(id);
    } else {
      var init, e := run[..|run| - 1], run[|run| - 1];
      LastOf(run);
      RecentNext(Exec(INIT, init), e, id, now);
      SinceNext(init, e, Seeing(id, now), Forgetting(id));
      if id in Exec(INIT, init).hub.tables.links {
        HandshakesAreHistory(init, id, now);
      }
    }
  }

  /** The status of a link, in terms of the run: it is not pending if and only if both ends are registered
      and each has confirmed the link since the pair was last pushed and the hub last restarted; it is then
      active if and only if an end has since reported a handshake less than 180 s old. */
  lemma StatusIsHistory(run: seq<Event>, id: LinkId, now: int)
    requires id in Exec(INIT, run).hub.tables.links
    ensures var h := Exec(INIT, run).hub;
            var l := h.tables.links[id];
            var confirmed :=
              && l.a in h.sessions && h.sessions[l.a].registered && l.b in h.sessions && h.sessions[l.b].registered
              && ConfirmedSince(run, id, l.a) && ConfirmedSince(run, id, l.b);
            && (StatusOf(h, l, now) == Pending <==> !confirmed)
            && (StatusOf(h, l, now) == ActiveLink <==> confirmed && (now < 180 || SeenSince(run, id, now)))
  {
    hide Next, ConfirmedSince, SeenSince, CurrentOk, ReportsOk, DevicesOk, OpenSessionsOk, OwnKeys, AgentsOk;
    EveryRunKeepsInv(run);
    var l := Exec(INIT, run).hub.tables.links[id];
    FlagsAreHistory(run, id, l.a);
    FlagsAreHistory(run, id, l.b);
    HandshakesAreHistory(run, id, now);
  }
}
