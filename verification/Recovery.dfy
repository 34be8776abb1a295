/** Convergence can always be reached: from every reachable state, whatever has
    failed so far, it is enough that every node reconnects once. */
module Recovery {
  import opened Wrappers
  import opened Wire
  import opened Device
  import opened StoreState
  import opened HubState
  import opened HubForms
  import opened HubView
  import opened SessionInvariant
  import opened Network
  import opened NetworkInvariant
  import opened Guarantees

  // ---- what is always available ----

  lemma FreshAttempt(n: NodeId, used: set<SessionId>) returns (attempt: nat)
    ensures SessionId(n, attempt) !in used
  {
    attempt := 0;
    var rest := used;
    while exists sid :: sid in rest && sid.serial >= attempt
      invariant rest <= used && forall sid | sid in used && sid !in rest :: sid.serial < attempt
      decreases |rest|
    {
      var sid :| sid in rest && sid.serial >= attempt;
      attempt := sid.serial + 1;
      rest := rest - {sid};
    }
  }

  lemma SomeListing(t: Tables, n: NodeId) returns (rows: seq<Link>)
    requires LinksOk(t)
    ensures IsListing(t, n, rows)
  {
    rows := [];
    var ids := t.links.Keys;
    while ids != {}
      invariant ids <= t.links.Keys
      invariant forall l :: l in rows <==> l.id in t.links && l.id !in ids && t.links[l.id] == l && Touches(l, n)
      invariant forall i, j | 0 <= i < j < |rows| :: rows[i] != rows[j]
      decreases |ids|
    {
      var id :| id in ids;
      ids := ids - {id};
      if Touches(t.links[id], n) {
        rows := rows + [t.links[id]];
      }
    }
  }

  lemma LiveIsAdmitted(s: Sys, n: NodeId)
    requires AgentsOk(s) && Healthy(s.hub) && Live(s.hub.tables, n)
    ensures n in s.agents && Admitted(s.hub, n, s.agents[n].serial)
  {
    var serial := s.agents[n].serial;
    assert forall m <- s.hub.tables.nodes | s.hub.tables.nodes[m].revoked :: s.hub.tables.nodes[m].serial != serial;
  }

  // ---- one event at a time ----

  /** Links and the set of live nodes are what they were. */
  ghost predicate SameGraph(s: Sys, s': Sys) {
    s'.hub.tables.links == s.hub.tables.links && forall n :: Live(s'.hub.tables, n) <==> Live(s.hub.tables, n)
  }

  /** Everything that concerns m's session is what it was. */
  ghost predicate Untouched(s: Sys, s': Sys, m: NodeId) {
    && m in s.agents && m in s'.agents && s'.agents[m] == s.agents[m]
    && m in s.hub.sessions && m in s'.hub.sessions && s'.hub.sessions[m] == s.hub.sessions[m]
    && (var sid := s.hub.sessions[m].sid;
        && sid in s.wire && sid in s'.wire && s'.wire[sid] == s.wire[sid]
        && sid in s.up && sid in s'.up && s'.up[sid] == s.up[sid])
  }

  lemma SettledStays(s: Sys, s': Sys, m: NodeId)
    requires Settled(s, m) && Untouched(s, s', m)
    ensures Settled(s', m)
  {
  }

  /** m has been served completely except for at most one frame, which its agent will apply. */
  ghost predicate Nearly(s: Sys, m: NodeId) {
    && Attached(s, m) && Registered(s.hub, m)
    && (var sid := s.hub.sessions[m].sid;
        && s.wire[sid] == [] && sid in s.up && s.up[sid] == []
        && (|| s.hub.sessions[m].out == []
            || (&& |s.hub.sessions[m].out| == 1
                && var f, d := s.hub.sessions[m].out[0], s.agents[m].device;
                   (f.PeerUpdate? && d.phase == Serve) || (f.RegisterAck? && d.phase == Await))))
  }

  /** Only m's session moved. */
  ghost predicate OnlyOf(s: Sys, s': Sys, m: NodeId) {
    && s'.hub.sessions.Keys == s.hub.sessions.Keys && SameGraph(s, s')
    && (forall k | k != m && k in s.hub.sessions && Untouched(s, s, k) :: Untouched(s, s', k))
  }

  lemma InvBasics(s: Sys)
    requires Inv(s)
    ensures WiresOk(s) && SessionsOk(s.hub)
  {
  }

  /** Deliver what is left for m: write the frame, let the agent apply it, read its confirmation. */
  lemma DeliverRest(s: Sys, m: NodeId) returns (run: seq<Event>)
    requires Inv(s) && Nearly(s, m)
    ensures Inv(Exec(s, run)) && Settled(Exec(s, run), m) && OnlyOf(s, Exec(s, run), m)
  {
    hide Inv, Next, WiresOk, SessionsOk, Linked, Live;
    InvBasics(s);
    if s.hub.sessions[m].out == [] {
      run := [];
    } else {
      var s1 := Next(s, HubWrite(m));
      NextKeepsInv(s, HubWrite(m));
      InvBasics(s1);
      Written(s, m);
      var s2 := Next(s1, AgentRead(m));
      NextKeepsInv(s1, AgentRead(m));
      InvBasics(s2);
      Applied(s1, m);
      if s2.up[s2.hub.sessions[m].sid] == [] {
        run := [HubWrite(m), AgentRead(m)];
        TwoEvents(s, HubWrite(m), AgentRead(m));
      } else {
        var e := HubRead(m, 0, [], 0);
        NextKeepsInv(s2, e);
        Confirmed(s2, m);
        run := [HubWrite(m), AgentRead(m), e];
        ThreeEvents(s, HubWrite(m), AgentRead(m), e);
      }
    }
  }

  lemma TwoEvents(s: Sys, a: Event, b: Event)
    ensures Exec(s, [a, b]) == Next(Next(s, a), b)
  {
    hide Next;
    assert [a, b][..1] == [a] && [a][..0] == [];
    assert Exec(s, [a]) == Next(Exec(s, []), a);
  }

  lemma ThreeEvents(s: Sys, a: Event, b: Event, c: Event)
    ensures Exec(s, [a, b, c]) == Next(Next(Next(s, a), b), c)
  {
    hide Next;
    assert [a, b, c][..2] == [a, b];
    TwoEvents(s, a, b);
  }

  /** The frame is on the connection. */
  ghost predicate OnTheWire(s: Sys, m: NodeId) {
    && Attached(s, m) && Registered(s.hub, m) && s.hub.sessions[m].out == []
    && (var sid := s.hub.sessions[m].sid;
        && |s.wire[sid]| == 1 && sid in s.up && s.up[sid] == []
        && var f, d := s.wire[sid][0], s.agents[m].device;
           (f.PeerUpdate? && d.phase == Serve) || (f.RegisterAck? && d.phase == Await))
  }

  lemma Written(s: Sys, m: NodeId)
    requires WiresOk(s) && SessionsOk(s.hub) && Nearly(s, m) && s.hub.sessions[m].out != []
    ensures var s' := Next(s, HubWrite(m)); OnTheWire(s', m) && OnlyOf(s, s', m)
  {
    hide Apply, Handle;
    var s' := Next(s, HubWrite(m));
    assert s'.hub.tables == s.hub.tables;
  }

  lemma Applied(s: Sys, m: NodeId)
    requires WiresOk(s) && SessionsOk(s.hub) && OnTheWire(s, m)
    ensures var s' := Next(s, AgentRead(m));
            && Attached(s', m) && Registered(s'.hub, m) && Queue(s', m) == [] && OnlyOf(s, s', m)
            && s'.hub.sessions[m].sid in s'.up
            && var up := s'.up[s'.hub.sessions[m].sid];
               up == [] || (|up| == 1 && up[0].Ack?)
  {
    hide Apply;
    var s' := Next(s, AgentRead(m));
    assert s'.hub == s.hub;
  }

  lemma Confirmed(s: Sys, m: NodeId)
    requires WiresOk(s) && SessionsOk(s.hub) && Attached(s, m) && Registered(s.hub, m) && Queue(s, m) == []
    requires s.hub.sessions[m].sid in s.up && |s.up[s.hub.sessions[m].sid]| == 1 && s.up[s.hub.sessions[m].sid][0].Ack?
    ensures var s' := Next(s, HubRead(m, 0, [], 0)); Settled(s', m) && OnlyOf(s, s', m)
  {
    hide Apply;
    var ack := s.up[s.hub.sessions[m].sid][0];
    AcknowledgeForm(s.hub, m, ack.ackId, ack.ok);
    var s' := Next(s, HubRead(m, 0, [], 0));
    assert s'.hub.tables == s.hub.tables;
  }

  // ---- everybody loses its connection ----

  lemma DropOne(s: Sys, m: NodeId)
    requires Inv(s) && m in s.hub.sessions
    ensures var s' := Next(s, Handler(SessionDrop(m, 0)));
            Inv(s') && s'.hub.sessions == s.hub.sessions - {m} && SameGraph(s, s')
  {
    hide Inv, Apply;
    NextKeepsInv(s, Handler(SessionDrop(m, 0)));
    SessionDropForm(s.hub, m, 0);
  }

  lemma {:induction false} DropAll(s: Sys) returns (run: seq<Event>)
    requires Inv(s)
    ensures var s' := Exec(s, run); Inv(s') && s'.hub.sessions == map[] && SameGraph(s, s')
    decreases |s.hub.sessions|
  {
    hide Inv, Next;
    if s.hub.sessions == map[] {
      run := [];
    } else {
      var m :| m in s.hub.sessions;
      var e := Handler(SessionDrop(m, 0));
      DropOne(s, m);
      var s1 := Next(s, e);
      assert s1.hub.sessions.Keys == s.hub.sessions.Keys - {m};
      var more := DropAll(s1);
      run := [e] + more;
      FirstThen(s, e, more);
    }
  }

  lemma ExecNothing(s: Sys)
    ensures Exec(s, []) == s
  {
  }

  lemma FirstThen(s: Sys, e: Event, more: seq<Event>)
    ensures Exec(s, [e] + more) == Exec(Next(s, e), more)
  {
    ExecAppend(s, [e], more);
    assert [e][..0] == [];
    assert Exec(s, [e]) == Next(Exec(s, []), e);
  }

  // ---- one node comes back ----

  /** Exactly the nodes in `done` have sessions, and all of them are settled. */
  ghost predicate Back(s: Sys, done: set<NodeId>) {
    Inv(s) && s.hub.sessions.Keys == done && forall m <- done :: Settled(s, m)
  }

  /** n has dialled in and its register is on the way. */
  ghost predicate Dialled(s: Sys, n: NodeId) {
    && Attached(s, n) && !Registered(s.hub, n) && Queue(s, n) == [] && s.agents[n].device.phase == Await
    && s.hub.sessions[n].sid in s.up && |s.up[s.hub.sessions[n].sid]| == 1 && s.up[s.hub.sessions[n].sid][0].Register?
  }

  lemma Dial(s: Sys, n: NodeId, done: set<NodeId>) returns (run: seq<Event>)
    requires Back(s, done) && Live(s.hub.tables, n) && n !in done
    ensures var s' := Exec(s, run);
            && Inv(s') && s'.hub.sessions.Keys == done + {n} && SameGraph(s, s')
            && Dialled(s', n) && forall m <- done :: Settled(s', m)
  {
    hide Inv, Settled;
    var leave := AgentLeave(n);
    var s1 := Next(s, leave);
    NextKeepsInv(s, leave);
    LeaveFacts(s, n, done);
    var attempt := FreshAttempt(n, s1.wire.Keys);
    var dial := Connect(n, attempt);
    NextKeepsInv(s1, dial);
    DialFacts(s1, n, attempt, done);
    run := [leave, dial];
    TwoEvents(s, leave, dial);
  }

  lemma LeaveFacts(s: Sys, n: NodeId, done: set<NodeId>)
    requires Back(s, done) && Live(s.hub.tables, n) && n !in done
    ensures var s' := Next(s, AgentLeave(n));
            && n in s'.agents && s'.agents[n].conn == None && s'.hub == s.hub
            && Admitted(s'.hub, n, s'.agents[n].serial) && forall m <- done :: Settled(s', m)
  {
    hide Apply, Healthy;
    LiveIsAdmitted(s, n);
    var s' := Next(s, AgentLeave(n));
    forall m <- done ensures Settled(s', m) {
      SettledStays(s, s', m);
    }
  }

  lemma DialFacts(s: Sys, n: NodeId, attempt: nat, done: set<NodeId>)
    requires WiresOk(s) && s.hub.sessions.Keys == done && n !in done && (forall m <- done :: Settled(s, m))
    requires n in s.agents && s.agents[n].conn == None && Admitted(s.hub, n, s.agents[n].serial)
    requires SessionId(n, attempt) !in s.wire
    ensures var s' := Next(s, Connect(n, attempt));
            && s'.hub.sessions.Keys == done + {n} && SameGraph(s, s') && Dialled(s', n)
            && forall m <- done :: Settled(s', m)
  {
    hide Apply;
    var sid := SessionId(n, attempt);
    SessionUpForm(s.hub, n, sid);
    var s' := Next(s, Connect(n, attempt));
    forall m <- done ensures Settled(s', m) {
      SettledStays(s, s', m);
    }
  }

  /** The register is processed: n's answer and the others' pushes are queued, nothing overflows. */
  lemma Announce(s: Sys, n: NodeId, done: set<NodeId>) returns (e: Event)
    requires Inv(s) && s.hub.sessions.Keys == done + {n} && n !in done
    requires Dialled(s, n) && forall m <- done :: Settled(s, m)
    ensures var s' := Next(s, e);
            Inv(s') && s'.hub.sessions.Keys == done + {n} && SameGraph(s, s') && forall m <- done + {n} :: Nearly(s', m)
  {
    hide Apply, OpenOk, Settled, Nearly, Dialled, IsListing, SameGraph, CurrentOk, ReportsOk, DevicesOk, OwnKeys,
        AgentsOk;
    var rows := SomeListing(s.hub.tables, n);
    e := HubRead(n, 0, rows, 0);
    NextKeepsInv(s, e);
    AnnounceFacts(s, n, rows);
    forall m <- done ensures Nearly(Next(s, e), m) {
      NeighbourNearly(s, n, rows, m);
    }
  }

  lemma AnnounceIs(s: Sys, n: NodeId, rows: seq<Link>)
    requires Inv(s) && Dialled(s, n) && IsListing(s.hub.tables, n, rows)
    ensures var r, s' := s.up[s.hub.sessions[n].sid][0], Next(s, HubRead(n, 0, rows, 0));
            var ident := WgIdent(r.key, r.port, 0, r.socksPort);
            && ValidRegister(r.port)
            && s'.hub == Hub(TouchNode(s.hub.tables, n, 0),
                PostAll(Marked(s.hub, n), RegisterMails(s.hub, n, ident, rows)),
                             RegisterLinks(s.hub, n), s.hub.lastWG[n := ident], s.hub.gcDone, s.hub.revoked,
                                 s.hub.operations + 1)
            && s'.agents == s.agents && s'.wire == s.wire && s'.up == s.up[s.hub.sessions[n].sid := []]
  {
    hide Apply, IsListing, OpenOk, Healthy, DevicesOk, CurrentOk;
    var sid := s.hub.sessions[n].sid;
    var r := s.up[sid][0];
    assert s.up[sid][1..] == [];
    assert FirstIsRegister(s.up[sid]);
    RegisterForm(s.hub, n, WgIdent(r.key, r.port, 0, r.socksPort), rows, 0);
  }

  lemma AnnounceFacts(s: Sys, n: NodeId, rows: seq<Link>)
    requires Inv(s) && Dialled(s, n) && IsListing(s.hub.tables, n, rows)
    ensures var s' := Next(s, HubRead(n, 0, rows, 0));
            s'.hub.sessions.Keys == s.hub.sessions.Keys && SameGraph(s, s') && Nearly(s', n)
  {
    hide Next, Inv, IsListing, Apply, RegisterLinks, Expected, LinksOk;
    AnnounceIs(s, n, rows);
  }

  lemma NeighbourNearly(s: Sys, n: NodeId, rows: seq<Link>, m: NodeId)
    requires Inv(s) && Dialled(s, n) && IsListing(s.hub.tables, n, rows) && m != n && Settled(s, m)
    ensures Nearly(Next(s, HubRead(n, 0, rows, 0)), m)
  {
    hide Next, Inv, IsListing, Apply, PostAll, RegisterMails, RegisterLinks;
    AnnounceIs(s, n, rows);
    SettledServes(s, m);
    InvBasics(s);
    var r := s.up[s.hub.sessions[n].sid][0];
    PushedOnce(s.hub, n, WgIdent(r.key, r.port, 0, r.socksPort), rows, m);
  }

  /** An empty queue takes the push without overflowing. */
  lemma PushedOnce(h: Hub, n: NodeId, ident: WgIdent, rows: seq<Link>, m: NodeId)
    requires n in h.sessions && m in h.sessions && m != n && h.sessions[m].out == []
    ensures var ss := PostAll(Marked(h, n), RegisterMails(h, n, ident, rows));
            && m in ss && ss[m].sid == h.sessions[m].sid && ss[m].open == h.sessions[m].open
            && ss[m].registered == h.sessions[m].registered
            && (ss[m].out == [] || (|ss[m].out| == 1 && ss[m].out[0].PeerUpdate?))
  {
  }

  /** A settled node's agent is in its read loop. */
  lemma SettledServes(s: Sys, m: NodeId)
    requires Inv(s) && Settled(s, m)
    ensures s.agents[m].device.phase == Serve
  {
    assert OpenOk(s.hub, m, s.agents[m].device, []);
  }

  // ---- everybody comes back ----

  /** Deliver what is left for every node in todo. */
  lemma {:induction false} DeliverAll(s: Sys, todo: set<NodeId>, served: set<NodeId>) returns (run: seq<Event>)
    requires Inv(s) && s.hub.sessions.Keys == todo + served && todo !! served
    requires (forall m <- todo :: Nearly(s, m)) && forall m <- served :: Settled(s, m)
    ensures Back(Exec(s, run), todo + served) && SameGraph(s, Exec(s, run))
    decreases |todo|
  {
    hide Inv, Next, Nearly, Settled, Untouched;
    if todo == {} {
      run := [];
    } else {
      var m :| m in todo;
      var first := DeliverRest(s, m);
      var s1 := Exec(s, first);
      forall k | k != m && k in s.hub.sessions ensures Untouched(s, s1, k) {
        StillThere(s, k, todo, served);
      }
      forall k <- todo - {m} ensures Nearly(s1, k) {
        NearlyStays(s, s1, k);
      }
      forall k <- served ensures Settled(s1, k) {
        SettledStays(s, s1, k);
      }
      var more := DeliverAll(s1, todo - {m}, served + {m});
      run := first + more;
      ExecAppend(s, first, more);
      assert todo - {m} + (served + {m}) == todo + served;
    }
  }

  lemma StillThere(s: Sys, k: NodeId, todo: set<NodeId>, served: set<NodeId>)
    requires k in todo + served && (forall m <- todo :: Nearly(s, m)) && forall m <- served :: Settled(s, m)
    ensures Untouched(s, s, k)
  {
  }

  lemma NearlyStays(s: Sys, s': Sys, m: NodeId)
    requires Nearly(s, m) && Untouched(s, s', m)
    ensures Nearly(s', m)
  {
  }

  lemma Rejoin(s: Sys, n: NodeId, done: set<NodeId>) returns (run: seq<Event>)
    requires Back(s, done) && Live(s.hub.tables, n) && n !in done
    ensures Back(Exec(s, run), done + {n}) && SameGraph(s, Exec(s, run))
  {
    hide Inv, Next, Nearly, Settled, Dialled, Exec;
    var dial := Dial(s, n, done);
    var s1 := Exec(s, dial);
    var e := Announce(s1, n, done);
    var s2 := Next(s1, e);
    var rest := DeliverAll(s2, done + {n}, {});
    assert done + {n} + {} == done + {n};
    run := dial + ([e] + rest);
    ExecAppend(s, dial, [e] + rest);
    FirstThen(s1, e, rest);
  }

  lemma {:induction false} RejoinAll(s: Sys, todo: set<NodeId>, done: set<NodeId>) returns (run: seq<Event>)
    requires Back(s, done) && todo !! done && forall n <- todo :: Live(s.hub.tables, n)
    ensures Back(Exec(s, run), todo + done) && SameGraph(s, Exec(s, run))
    decreases |todo|
  {
    hide Back, Exec, Live;
    if todo == {} {
      run := [];
      ExecNothing(s);
      assert todo + done == done;
    } else {
      var n :| n in todo;
      var first := Rejoin(s, n, done);
      var more := RejoinAll(Exec(s, first), todo - {n}, done + {n});
      run := first + more;
      ExecAppend(s, first, more);
      assert todo - {n} + (done + {n}) == todo + done;
    }
  }

  /** From every reachable state some continuation, in which every node loses its connection once and
      comes back, ends with the agents' devices equal to the link graph; no link is lost on the way. */
  lemma ConvergenceIsAlwaysPossible(run: seq<Event>) returns (more: seq<Event>)
    ensures var s' := Exec(INIT, run + more);
            && Quiescent(s') && Converged(s') && SameGraph(Exec(INIT, run), s')
  {
    hide Inv, Next, Settled, Converged;
    EveryRunKeepsInv(run);
    var s := Exec(INIT, run);
    var drop := DropAll(s);
    var s1 := Exec(s, drop);
    var live := set n | n in s1.hub.tables.nodes && Live(s1.hub.tables, n);
    var back := RejoinAll(s1, live, {});
    more := drop + back;
    ExecAppend(s, drop, back);
    ExecAppend(INIT, run, more);
    assert live + {} == live;
    QuiescentIsConverged(run + more);
  }
}
