/** What the hub's memory and tables say about the past: every flag, time and
    identity it keeps is tied to the events of the run, not to the formula that
    computed it. */
module History {
  import opened Wrappers
  import opened Wire
  import opened StoreState
  import opened HubState
  import opened HubForms
  import opened HubInvariants
  import opened Device
  import opened Network
  import opened NetworkInvariant
  import Ipam

  // ---- moments of a run ----

  type Moment = (Sys, Event) -> bool

  /** Something happened, and nothing since has undone it. */
  ghost predicate Since(run: seq<Event>, happens: Moment, undoes: Moment) {
    exists k: nat | k < |run| && Happened(run, k, happens) ::
      forall j: nat | k < j < |run| :: !Happened(run, j, undoes)
  }

  ghost predicate Happened(run: seq<Event>, k: nat, what: Moment)
    requires k < |run|
  {
    what(Exec(INIT, run[..k]), run[k])
  }

  lemma SinceNext(run: seq<Event>, e: Event, happens: Moment, undoes: Moment)
    ensures !Since([], happens, undoes)
    ensures Since(run + [e], happens, undoes) <==>
              happens(Exec(INIT, run), e) || (Since(run, happens, undoes) && !undoes(Exec(INIT, run), e))
  {
    var all, n := run + [e], |run|;
    assert all[..n] == run;
    assert forall k: nat, what: Moment | k < n :: Happened(all, k, what) == Happened(run, k, what) by {
      forall k: nat | k < n ensures all[..k] == run[..k] && all[k] == run[k] {
      }
    }
    assert forall what: Moment :: Happened(all, n, what) == what(Exec(INIT, run), e);
    if Since(all, happens, undoes) {
      var k: nat :| k < n + 1 && Happened(all, k, happens) && forall j: nat | k < j < n + 1 ::
          !Happened(all, j, undoes);
      if k < n {
        assert Happened(run, k, happens);
      }
    }
    if happens(Exec(INIT, run), e) {
      assert Happened(all, n, happens);
    }
    if Since(run, happens, undoes) && !undoes(Exec(INIT, run), e) {
      var k: nat :| k < n && Happened(run, k, happens) && forall j: nat | k < j < n :: !Happened(run, j, undoes);
      assert Happened(all, k, happens);
    }
  }

  /** The report the hub reads in this event. */
  ghost function Heard(s: Sys, e: Event): Option<Report> {
    if e.HubRead? && Possible(s, e) then Some(s.up[s.hub.sessions[e.node].sid][0]) else None
  }

  /** The handler an event runs, if it runs one. */
  ghost function OperationOf(s: Sys, e: Event): Option<Operation> {
    if !Possible(s, e) then None
    else match e
    case EnrollNode(op, _, _) => Some(op)
    case Handler(op) => Some(op)
    case Connect(n, attempt) => Some(SessionUp(n, SessionId(n, attempt)))
    case HubRead(n, ip, rows, now) => ReadOperation(s, n, ip, rows, now, s.up[s.hub.sessions[n].sid][0])
    case _ => None
  }

  /** What an event does to the hub. */
  ghost function HubAfter(s: Sys, e: Event): Hub {
    match OperationOf(s, e)
    case Some(op) => Apply(s.hub, op)
    case None =>
      if e.HubRestart? then Restart(s.hub)
      else if e.HubWrite? && Possible(s, e) then Flush(s.hub, e.node)
      else s.hub
  }

  lemma HubNext(s: Sys, e: Event)
    ensures Next(s, e).hub == HubAfter(s, e)
  {
    hide Apply, Handle, Enabled;
  }

  lemma LastOf(run: seq<Event>)
    requires run != []
    ensures Exec(INIT, run) == Next(Exec(INIT, run[..|run| - 1]), run[|run| - 1])
    ensures run[..|run| - 1] + [run[|run| - 1]] == run
  {
    hide Next;
    WithoutLast(run);
  }

  lemma WithoutLast(run: seq<Event>)
    requires run != []
    ensures run[..|run| - 1] + [run[|run| - 1]] == run
  {
  }

  // ---- what every handler leaves alone ----

  /** A link never changes its ends, and only creation adds one. */
  lemma EndsAreKept(h: Hub, op: Operation)
    requires Enabled(h, op)
    ensures forall id <- Core(h, op).tables.links | !(op.CreateLink? && op.link == id) ::
              && id in h.tables.links
              && Core(h, op).tables.links[id].a == h.tables.links[id].a
              && Core(h, op).tables.links[id].b == h.tables.links[id].b
  {
    hide RegisterLinks, BeatLinks, PairLinks;
  }

  lemma HealthyPart(s: Sys)
    requires Inv(s)
    ensures Healthy(s.hub) && WiresOk(s) && ReportsOk(s)
  {
  }

  lemma Unchanged(h: Hub, op: Operation)
    requires !Enabled(h, op)
    ensures Apply(h, op) == h
  {
  }

  // ---- last contact ----

  /** When the hub hears of n in this event: a session of n goes down, or it reads n's register or heartbeat. */
  ghost function Contact(s: Sys, e: Event, n: NodeId): Option<int> {
    match Heard(s, e)
    case Some(Register(_, port, _)) => if e.node == n && 0 < port <= 65535 then Some(e.now) else None
    case Some(Heartbeat(_)) => if e.node == n then Some(e.now) else None
    case Some(_) => None
    case None =>
      if e.Handler? && e.op.SessionDrop? && e.op.node == n && n in s.hub.sessions then Some(e.op.now)
      else if e.Handler? && e.op.StaleDrop? && e.op.node == n && n in s.hub.tables.nodes then Some(e.op.now)
      else None
  }

  /** The time of the latest contact with n, if there was any. */
  ghost function LastContact(run: seq<Event>, n: NodeId): Option<int> {
    if run == [] then None
    else
      var init := run[..|run| - 1];
      var latest := Contact(Exec(INIT, init), run[|run| - 1], n);
      if latest.Some? then latest else LastContact(init, n)
  }

  ghost function HandlerContact(h: Hub, op: Operation, n: NodeId): Option<int> {
    match op
    case SessionDrop(m, now) => if m == n then Some(now) else None
    case StaleDrop(m, now) => if m == n && n in h.tables.nodes then Some(now) else None
    case Register(m, _, _, now) => if m == n then Some(now) else None
    case Beat(m, _, now) => if m == n then Some(now) else None
    case _ => None
  }

  lemma SeenAfter(h: Hub, op: Operation, n: NodeId)
    requires SessionsOk(h) && Enabled(h, op)
    ensures n in h.tables.nodes ==> n in Core(h, op).tables.nodes
    ensures n !in h.tables.nodes ==> HandlerContact(h, op, n) == None
    ensures n in Core(h, op).tables.nodes ==>
              var seen := Core(h, op).tables.nodes[n].lastSeen;
              if n !in h.tables.nodes then seen == 0
              else match HandlerContact(h, op, n)
                   case Some(t) => seen == t
                   case None => seen == h.tables.nodes[n].lastSeen
  {
    hide RegisterLinks, BeatLinks, PairLinks;
  }

  lemma ContactIsHandlers(s: Sys, e: Event, n: NodeId)
    ensures match OperationOf(s, e)
            case Some(op) => Contact(s, e, n) == if Enabled(s.hub, op) then HandlerContact(s.hub, op, n) else None
            case None => Contact(s, e, n) == None
  {
  }

  ghost predicate SeenIs(t: Tables, n: NodeId, last: Option<int>) {
    if n in t.nodes then t.nodes[n].lastSeen == (if last.Some? then last.value else 0) else last == None
  }

  /** last_seen is the time of the latest contact, and zero if there was none since the node enrolled. */
  lemma {:induction false} LastSeenIsLastContact(run: seq<Event>, n: NodeId)
    ensures SeenIs(Exec(INIT, run).hub.tables, n, LastContact(run, n))
  {
    hide Next, Inv, Contact, OperationOf, Core, Mails;
    if run != [] {
      var init, e := run[..|run| - 1], run[|run| - 1];
      var s := Exec(INIT, init);
      LastSeenIsLastContact(init, n);
      LastOf(run);
      HubNext(s, e);
      EveryRunKeepsInv(init);
      HealthyPart(s);
      ContactIsHandlers(s, e, n);
      if OperationOf(s, e).Some? && Enabled(s.hub, OperationOf(s, e).value) {
        SeenAfter(s.hub, OperationOf(s, e).value, n);
      }
    }
  }

  // ---- identities and registration ----

  /** The hub reads a valid register of n. */
  ghost predicate Registers(s: Sys, e: Event, n: NodeId) {
    match Heard(s, e)
    case Some(Register(_, port, _)) => e.node == n && 0 < port <= 65535
    case _ => false
  }

  /** What n said in its latest valid register, unless the hub has restarted or n was deleted since. */
  ghost function LastRegister(run: seq<Event>, n: NodeId): Option<WgIdent> {
    if run == [] then None
    else
      var init, e := run[..|run| - 1], run[|run| - 1];
      if e.HubRestart? || (e.Handler? && e.op.DeleteNode? && e.op.node == n) then None
      else if Registers(Exec(INIT, init), e, n) then
        var said := Heard(Exec(INIT, init), e).value;
        Some(WgIdent(said.key, said.port, e.ip, said.socksPort))
      else LastRegister(init, n)
  }

  function IdentOf(h: Hub, n: NodeId): Option<WgIdent> {
    if n in h.lastWG then Some(h.lastWG[n]) else None
  }

  lemma IdentAfter(h: Hub, op: Operation, n: NodeId)
    requires Enabled(h, op)
    ensures IdentOf(Core(h, op), n) ==
            if op.DeleteNode? && op.node == n then None
            else if op.Register? && op.node == n then Some(op.ident) else IdentOf(h, n)
  {
    hide RegisterLinks, BeatLinks, PairLinks;
  }

  /** The identity the hub hands out for n is exactly what n's latest register said, with the address the
      register came from. */
  lemma {:induction false} IdentIsLastRegister(run: seq<Event>, n: NodeId)
    ensures IdentOf(Exec(INIT, run).hub, n) == LastRegister(run, n)
  {
    hide Next, Inv, Registers, IdentOf;
    if run == [] {
      NothingKnown(n);
    } else {
      var init := run[..|run| - 1];
      IdentIsLastRegister(init, n);
      LastOf(run);
      EveryRunKeepsInv(init);
      IdentNext(Exec(INIT, init), run[|run| - 1], n);
    }
  }

  lemma NothingKnown(n: NodeId)
    ensures IdentOf(Exec(INIT, []).hub, n) == None && !Registered(Exec(INIT, []).hub, n)
  {
  }

  lemma IdentNext(s: Sys, e: Event, n: NodeId)
    requires Inv(s)
    ensures IdentOf(Next(s, e).hub, n) ==
            if e.HubRestart? || (e.Handler? && e.op.DeleteNode? && e.op.node == n) then None
            else if Registers(s, e, n) then
              var said := Heard(s, e).value;
              Some(WgIdent(said.key, said.port, e.ip, said.socksPort))
            else IdentOf(s.hub, n)
  {
    hide Next, Inv, Core, Mails, Enabled, OperationOf, Registers, Heard;
    HubNext(s, e);
    HealthyPart(s);
    MomentOfRegister(s, e, n);
    var op := OperationOf(s, e);
    if op.Some? && Enabled(s.hub, op.value) {
      IdentAfter(s.hub, op.value, n);
    }
  }

  lemma MomentOfRegister(s: Sys, e: Event, n: NodeId)
    requires WiresOk(s) && SessionsOk(s.hub) && IdentsOk(s.hub)
    ensures match OperationOf(s, e)
            case Some(op) =>
              && !e.HubRestart?
              && (Registers(s, e, n) <==> Enabled(s.hub, op) && op.Register? && op.node == n)
              && (Registers(s, e, n) ==>
                    var said := Heard(s, e).value;
                    op.ident == WgIdent(said.key, said.port, e.ip, said.socksPort))
              && (op.DeleteNode? && op.node == n <==> e.Handler? && e.op.DeleteNode? && e.op.node == n)
              && (!Enabled(s.hub, op) && op.DeleteNode? && op.node == n ==> n !in s.hub.lastWG)
              && (Enabled(s.hub, op) && (op.SessionUp? || op.SessionDrop?) && op.node == n ==> Departs(s, e, n))
              && (Departs(s, e, n) && n in s.hub.sessions ==>
                    Enabled(s.hub, op) && (op.SessionUp? || op.SessionDrop?) && op.node == n)
            case None =>
              !Registers(s, e, n) && !(e.Handler? && e.op.DeleteNode? && e.op.node == n)
              && (Departs(s, e, n) <==> e.HubRestart?)
  {
    hide IsListing;
  }

  /** n dials in anew, its session is dropped, or the hub restarts. */
  ghost predicate Departs(s: Sys, e: Event, n: NodeId) {
    || e.HubRestart?
    || (e.Connect? && e.node == n && Possible(s, e))
    || (e.Handler? && e.op.SessionDrop? && e.op.node == n)
  }

  ghost function Registering(n: NodeId): Moment {
    (s: Sys, e: Event) => Registers(s, e, n)
  }

  ghost function Departing(n: NodeId): Moment {
    (s: Sys, e: Event) => Departs(s, e, n)
  }

  lemma RegisteredAfter(h: Hub, op: Operation, n: NodeId)
    requires Enabled(h, op)
    ensures Registered(Apply(h, op), n) <==>
              if op.Register? && op.node == n then true
              else Registered(h, n) && !((op.SessionUp? || op.SessionDrop?) && op.node == n)
  {
    hide RegisterLinks, BeatLinks, PairLinks, Mails;
  }

  /** A node is registered if and only if its register was read since it last dialled in, was dropped or the
      hub restarted. */
  lemma {:induction false} RegisteredIsHistory(run: seq<Event>, n: NodeId)
    ensures Registered(Exec(INIT, run).hub, n) <==> Since(run, Registering(n), Departing(n))
  {
    hide Next, Inv, Since, Registered, Registers, Departs;
    if run == [] {
      SinceNext(run, HubRestart, Registering(n), Departing(n));
      NothingKnown(n);
    } else {
      var init, e := run[..|run| - 1], run[|run| - 1];
      RegisteredIsHistory(init, n);
      LastOf(run);
      SinceNext(init, e, Registering(n), Departing(n));
      EveryRunKeepsInv(init);
      RegisteredNext(Exec(INIT, init), e, n);
    }
  }

  lemma RegisteredNext(s: Sys, e: Event, n: NodeId)
    requires Inv(s)
    ensures Registered(Next(s, e).hub, n) <==> Registers(s, e, n) || (Registered(s.hub, n) && !Departs(s, e, n))
  {
    hide Next, Inv, Apply, Enabled, OperationOf, Registers, Departs, Heard;
    HubNext(s, e);
    HealthyPart(s);
    MomentOfRegister(s, e, n);
    var op := OperationOf(s, e);
    if op.Some? {
      if Enabled(s.hub, op.value) {
        RegisteredAfter(s.hub, op.value, n);
      } else {
        Unchanged(s.hub, op.value);
      }
    }
  }

  // ---- queues ----

  lemma QueueOfHandler(h: Hub, op: Operation, n: NodeId)
    requires Enabled(h, op) && n in Apply(h, op).sessions
    ensures n in h.sessions || (op.SessionUp? && op.node == n)
    ensures (n in h.sessions ==> |h.sessions[n].out| <= 64) ==> |Apply(h, op).sessions[n].out| <= 64
    ensures n in h.sessions && h.sessions[n].open && !Apply(h, op).sessions[n].open ==>
              op == SessionClose(n) || |h.sessions[n].out| >= 64
  {
    hide Mails, RegisterLinks, BeatLinks, PairLinks, IsListing, FreshLink;
  }

  lemma QueueNext(s: Sys, e: Event, n: NodeId)
    requires n in Next(s, e).hub.sessions && (n in s.hub.sessions ==> |s.hub.sessions[n].out| <= 64)
    ensures |Next(s, e).hub.sessions[n].out| <= 64
    ensures n in s.hub.sessions && s.hub.sessions[n].open && !Next(s, e).hub.sessions[n].open ==>
              e == Handler(SessionClose(n)) || |s.hub.sessions[n].out| == 64
  {
    hide Next, Apply, Enabled, IsListing;
    HubNext(s, e);
    var op := OperationOf(s, e);
    if op.Some? {
      if Enabled(s.hub, op.value) {
        QueueOfHandler(s.hub, op.value, n);
      } else {
        Unchanged(s.hub, op.value);
      }
    }
  }

  /** In every reachable state at most 64 frames are queued for a session; and a session closes only if an
      administrator, a timer or its connection closes it, or something is sent to it when 64 are queued. */
  lemma {:induction false} QueuesAreBounded(run: seq<Event>, n: NodeId, e: Event)
    requires n in Exec(INIT, run).hub.sessions
    ensures var s, s' := Exec(INIT, run), Next(Exec(INIT, run), e);
            && |s.hub.sessions[n].out| <= 64
            && (n in s'.hub.sessions && s.hub.sessions[n].open && !s'.hub.sessions[n].open ==>
                  e == Handler(SessionClose(n)) || |s.hub.sessions[n].out| == 64)
  {
    hide Next;
    if run == [] {
      NoSessions(n);
    } else {
      var init := run[..|run| - 1];
      LastOf(run);
      if n in Exec(INIT, init).hub.sessions {
        QueuesAreBounded(init, n, e);
      }
      QueueNext(Exec(INIT, init), run[|run| - 1], n);
    }
    if n in Next(Exec(INIT, run), e).hub.sessions {
      QueueNext(Exec(INIT, run), e, n);
    }
  }

  lemma NoSessions(n: NodeId)
    ensures n !in Exec(INIT, []).hub.sessions
  {
  }

  // ---- nothing is left behind ----

  /** Runtime state belongs to links that exist, collected nodes are live. */
  ghost predicate NoRemains(h: Hub) {
    h.links.Keys <= h.tables.links.Keys && forall n <- h.gcDone :: Live(h.tables, n)
  }

  lemma RemainsAfter(h: Hub, op: Operation)
    requires LinksOk(h.tables) && NoRemains(h) && Enabled(h, op)
    ensures NoRemains(Apply(h, op))
  {
    hide Core, Mails;
    RuntimeAfter(h, op);
    CollectedAfter(h, op);
    forall n <- Apply(h, op).gcDone ensures Live(Apply(h, op).tables, n) {
    }
  }

  lemma RuntimeAfter(h: Hub, op: Operation)
    requires LinksOk(h.tables) && h.links.Keys <= h.tables.links.Keys && Enabled(h, op)
    ensures Core(h, op).links.Keys <= Core(h, op).tables.links.Keys
  {
    hide Mails, IsListing, FreshLink, NewestHandshake, Live;
    forall id <- Core(h, op).links ensures id in Core(h, op).tables.links {
    }
  }

  lemma CollectedAfter(h: Hub, op: Operation)
    requires Enabled(h, op)
    ensures forall n <- Core(h, op).gcDone ::
              (op.Collect? && n == op.node) || (n in h.gcDone && !(op.DeleteNode? && n == op.node))
    ensures forall n | Live(h.tables, n) && !(op.DeleteNode? && n == op.node) :: Live(Core(h, op).tables, n)
    ensures op.Collect? ==> Live(Core(h, op).tables, op.node)
  {
    hide RegisterLinks, BeatLinks, PairLinks, IsListing, FreshLink;
  }

  /** In every reachable state the hub keeps no runtime state of a deleted link, and no deleted node among the
      collected ones. */
  lemma {:induction false} NothingIsLeftBehind(run: seq<Event>)
    ensures var h := Exec(INIT, run).hub;
            && (forall id <- h.links :: id in h.tables.links)
            && (forall n <- h.gcDone :: n in h.tables.nodes && !h.tables.nodes[n].revoked)
  {
    hide Next, Inv, Apply, Live, Enabled;
    NoRemainsIs(Exec(INIT, run).hub);
    if run != [] {
      var init := run[..|run| - 1];
      var s, e := Exec(INIT, init), run[|run| - 1];
      NothingIsLeftBehind(init);
      NoRemainsIs(s.hub);
      LastOf(run);
      HubNext(s, e);
      EveryRunKeepsInv(init);
      HealthyPart(s);
      var op := OperationOf(s, e);
      if op.Some? {
        if Enabled(s.hub, op.value) {
          RemainsAfter(s.hub, op.value);
        } else {
          Unchanged(s.hub, op.value);
        }
      }
    }
  }

  lemma NoRemainsIs(h: Hub)
    ensures NoRemains(h) <==>
              && (forall id <- h.links :: id in h.tables.links)
              && (forall n <- h.gcDone :: n in h.tables.nodes && !h.tables.nodes[n].revoked)
  {
  }
}
