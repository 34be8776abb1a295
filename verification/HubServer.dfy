/** The hub as the program has it: objects whose fields the handlers update
    under the hub's lock. Every handler is proved to do exactly what the
    corresponding operation of HubState says. */
module HubServer {
  import opened Wrappers
  import opened Wire
  import opened StoreState
  import H = HubState
  import Ipam
  import opened HubForms

  /** The database handle; every method is one statement or transaction. */
  class Store {
    var tables: Tables

    constructor ()
      ensures tables == NO_TABLES
    {
      tables := NO_TABLES;
    }

    /** SELECT ... FROM links WHERE a=n OR b=n, in whatever order the rows come. */
    method LinksOfNode(n: NodeId) returns (rows: seq<Link>)
      requires LinksOk(tables)
      ensures IsListing(tables, n, rows)
    {
      rows := [];
      var ids := tables.links.Keys;
      while ids != {}
        invariant ids <= tables.links.Keys
        invariant forall l ::
                    l in rows <==> l.id in tables.links && l.id !in ids && tables.links[l.id] == l && Touches(l, n)
        invariant forall i, j | 0 <= i < j < |rows| :: rows[i] != rows[j]
        decreases ids
      {
        var id :| id in ids;
        ids := ids - {id};
        if Touches(tables.links[id], n) {
          rows := rows + [tables.links[id]];
        }
      }
    }

    // ---- addresses ----

    method ActiveAddresses() returns (used: set<IPv4>)
      ensures used == set n | n in tables.nodes && !tables.nodes[n].revoked && tables.nodes[n].overlay.Active? ::
          tables.nodes[n].overlay.ip
    {
      used := {};
      var todo := tables.nodes.Keys;
      while todo != {}
        invariant todo <= tables.nodes.Keys
        invariant used == set n | n in tables.nodes && n !in todo && !tables.nodes[n].revoked
            && tables.nodes[n].overlay.Active?
                            :: tables.nodes[n].overlay.ip
        decreases todo
      {
        var n :| n in todo;
        todo := todo - {n};
        if !tables.nodes[n].revoked && tables.nodes[n].overlay.Active? {
          used := used + {tables.nodes[n].overlay.ip};
        }
      }
    }

    method CoolingAddresses() returns (used: set<IPv4>)
      ensures used == set o | o in tables.cooldown && o.Active? :: o.ip
    {
      used := {};
      var todo := tables.cooldown.Keys;
      while todo != {}
        invariant todo <= tables.cooldown.Keys
        invariant used == set o | o in tables.cooldown && o !in todo && o.Active? :: o.ip
        decreases todo
      {
        var o :| o in todo;
        todo := todo - {o};
        if o.Active? {
          used := used + {o.ip};
        }
      }
    }

    /** The scan skips network+1, the hub's own address, and stops at the broadcast address. */
    method AllocateIP(p: Ipam.Prefix, cooldown: int, now: int) returns (ip: Option<IPv4>)
      requires p.Valid()
      modifies this
      ensures (tables, ip) == Ipam.Allocate(old(tables), p, cooldown, now)
    {
      hide Ipam.Pow2, Ipam.Mask, Ipam.Contains;
      var active := ActiveAddresses();
      tables := Ipam.Prune(tables, now - cooldown);
      var cooling := CoolingAddresses();
      var used := active + cooling;
      assert used == Ipam.Used(tables);
      var network := p.Network();
      var broadcast := Ipam.LastAddr(p);
      var addr: IPv4 := network + 1;
      Ipam.ContainsRange(p, addr);
      while Ipam.Contains(p, addr)
        modifies {}
        invariant network < addr <= broadcast + 1
        invariant addr > network + 1 ==>
                    Ipam.FirstFree(used, network + 2, broadcast) == Ipam.FirstFree(used, addr, broadcast)
        invariant Ipam.Contains(p, addr) <==> addr <= broadcast
        decreases broadcast + 1 - addr
      {
        if addr == broadcast {
          break;
        }
        if addr == network + 1 {
          addr := addr + 1;
          Ipam.ContainsRange(p, addr);
          continue;
        }
        if addr !in used {
          return Some(addr);
        }
        addr := addr + 1;
        Ipam.ContainsRange(p, addr);
      }
      ip := None;
    }

    method CreateNode(n: NodeId, ip: IPv4, serial: Serial)
      modifies this
      ensures tables == StoreState.CreateNode(old(tables), n, ip, serial)
    {
      tables := tables.(nodes := tables.nodes[n := NodeRow(Active(ip), serial, 0, false)]);
    }

    /** The nodes that are not revoked. */
    method ListNodes() returns (nodes: seq<NodeId>)
      ensures forall n :: n in nodes <==> StoreState.Live(tables, n)
    {
      nodes := [];
      var todo := tables.nodes.Keys;
      while todo != {}
        invariant todo <= tables.nodes.Keys
        invariant forall n :: n in nodes <==> StoreState.Live(tables, n) && n !in todo
        decreases todo
      {
        var n :| n in todo;
        todo := todo - {n};
        if !tables.nodes[n].revoked {
          nodes := nodes + [n];
        }
      }
    }

    method TouchNode(n: NodeId, now: int)
      modifies this
      ensures tables == StoreState.TouchNode(old(tables), n, now)
    {
      if n in tables.nodes {
        tables := tables.(nodes := tables.nodes[n := tables.nodes[n].(lastSeen := now)]);
      }
    }

    /** The pair is stored in ascending order, so UNIQUE(a,b) catches both ways round. */
    method CreateLink(id: LinkId, a: NodeId, b: NodeId) returns (r: Option<Link>)
      requires LinksOk(tables) && id !in tables.links
      modifies this
      ensures r == if a != b && !Linked(old(tables), a, b) then Some(SortedLink(id, a, b)) else None
      ensures tables == if r.Some? then InsertLink(old(tables), id, a, b) else old(tables)
    {
      if a == b {
        return None;
      }
      var l := if a <= b then Link(id, a, b, None) else Link(id, b, a, None);
      if exists i | i in tables.links :: tables.links[i].a == l.a && tables.links[i].b == l.b {
        assert Linked(tables, a, b);
        return None;
      }
      assert !Linked(tables, a, b);
      tables := tables.(links := tables.links[id := l]);
      r := Some(l);
    }

    method SetLinkExit(id: LinkId, exit: Option<NodeId>) returns (r: Option<Link>)
      modifies this
      ensures r.Some? <==> id in old(tables).links && (exit.Some? ==> Touches(old(tables).links[id], exit.value))
      ensures r.Some? ==> tables == UpdateExit(old(tables), id, exit) && r.value == tables.links[id]
      ensures r == None ==> tables == old(tables)
    {
      if id !in tables.links {
        return None;
      }
      var l := tables.links[id];
      if exit.Some? && exit.value != l.a && exit.value != l.b {
        return None;
      }
      tables := tables.(links := tables.links[id := l.(exit := exit)]);
      r := Some(l.(exit := exit));
    }

    method DeleteLink(id: LinkId) returns (r: Option<Link>)
      modifies this
      ensures r == if id in old(tables).links then Some(old(tables).links[id]) else None
      ensures tables == RemoveLink(old(tables), id)
    {
      r := if id in tables.links then Some(tables.links[id]) else None;
      tables := tables.(links := tables.links - {id});
    }

    /** The deletion transaction; returns the node's row and the links it had. */
    method DeleteNode(n: NodeId, now: int) returns (r: Option<(NodeRow, seq<Link>)>)
      requires LinksOk(tables)
      modifies this
      ensures r.Some? <==> n in old(tables).nodes
      ensures r.Some? ==> tables == RevokeNode(old(tables), n, now)
      ensures r.Some? ==> r.value.0 == old(tables).nodes[n] && IsListing(old(tables), n, r.value.1)
      ensures r == None ==> tables == old(tables)
    {
      if n !in tables.nodes {
        return None;
      }
      var row := tables.nodes[n];
      var rows := LinksOfNode(n);
      tables := Tables(tables.nodes[n := row.(revoked := true, overlay := Freed(n))],
                       map id | id in tables.links && tables.links[id].a != n && tables.links[id].b != n ::
                           tables.links[id],
                       tables.cooldown[row.overlay := now]);
      r := Some((row, rows));
    }
  }

  /** One live control connection. */
  class Session {
    const sid: SessionId
    var open: bool
    var registered: bool
    var out: seq<Frame>
    var pending: map<EnvId, H.AckRef>

    function State(): H.Session
      reads this
    {
      H.Session(sid, open, registered, out, pending)
    }

    constructor (sid: SessionId)
      ensures this.sid == sid && State() == H.Session(sid, true, false, [], map[])
    {
      this.sid, open, registered, out, pending := sid, true, false, [], map[];
    }

    /** Enqueue, or tear the session down when the queue is full. */
    method Send(f: Frame)
      modifies this
      ensures State() == H.Send(old(State()), f)
      ensures if |old(out)| < 64 then out == old(out) + [f] && open == old(open) else out == old(out) && !open
    {
      if |out| < H.OUT_CAPACITY {
        out := out + [f];
      } else {
        Close();
      }
    }

    method Close()
      modifies this
      ensures State() == old(State()).(open := false)
    {
      open := false;
    }
  }

  /** The hub. Every method is one handler, run under the hub's lock. */
  class Hub {
    const store: Store
    var sessions: map<NodeId, Session>
    var links: map<LinkId, H.LinkRT>
    var lastWG: map<NodeId, H.WgIdent>
    var gcDone: set<NodeId>
    var revoked: set<Serial>
    var operations: nat

    ghost function Live(): (live: map<NodeId, H.Session>)
      reads this`sessions, sessions.Values
      ensures live.Keys == sessions.Keys
    {
      map n | n in sessions :: sessions[n].State()
    }

    ghost function State(): H.Hub
      reads this, store, sessions.Values
    {
      H.Hub(store.tables, Live(), links, lastWG, gcDone, revoked, operations)
    }

    /** Each session is filed under its own node, so different nodes have different session objects. */
    ghost predicate Valid()
      reads this`sessions
    {
      forall n <- sessions :: sessions[n].sid.node == n
    }

    lemma LiveAt(n: NodeId)
      requires n in sessions
      ensures Live()[n] == sessions[n].State()
    {
    }

    /** A hub starts from the tables alone, whatever was in memory before. */
    constructor (store: Store)
      requires TablesOk(store.tables)
      ensures this.store == store && Valid()
      ensures State() == H.Restart(H.NEW_HUB.(tables := store.tables))
    {
      this.store := store;
      sessions, links, lastWG, gcDone := map[], map[], map[], {};
      revoked := RevokedSerials(store.tables);
      operations := 0;
    }

    // ---- one session at a time ----

    /** Put one envelope on n's queue, recording the confirmation it awaits. */
    method Post(n: NodeId, m: H.Mail)
      requires Valid() && n in sessions
      modifies sessions[n]
      ensures Valid() && Live() == old(Live())[n := H.Post(old(Live())[n], m)]
    {
      var s := sessions[n];
      assert forall k <- sessions | k != n :: sessions[k] != s;
      s.pending := s.pending + m.awaits;
      s.Send(m.frame);
    }

    method SendPeerSpec(to: NodeId, l: Link, update: bool, w: H.WgIdent)
      requires Valid() && to in sessions
      modifies sessions[to]
      ensures Valid() && Live() == old(Live())[to := H.Post(old(Live())[to],
          PushAt(operations, store.tables, l, update, to, w))]
    {
      var spec := H.SpecFor(store.tables, l, Other(l, to), w);
      var id := EnvId(operations, to);
      Post(to, H.Mail(if update then PeerUpdate(id, spec)
          else PeerAdd(id, spec), map[id := H.AckRef(l.id, H.SideOf(l, to))]));
    }

    /** removeSideLocked: tell `to` to drop `peer`. */
    method RemoveSide(l: Link, to: NodeId, peer: NodeId)
      requires Valid()
      modifies sessions.Values
      ensures Valid() && Live() == SideRemoved(old(Live()), operations, lastWG, l, to, peer)
    {
      if to in sessions && peer in lastWG {
        Post(to, H.Mail(PeerRemove(EnvId(operations, to), l.id, lastWG[peer].key), map[]));
      }
    }

    /** Mark n's session registered. */
    method Admit(n: NodeId)
      requires Valid() && n in sessions
      modifies sessions[n]
      ensures Valid() && Live() == old(Live())[n := old(Live())[n].(registered := true)]
    {
      var s := sessions[n];
      assert forall k <- sessions | k != n :: sessions[k] != s;
      s.registered := true;
    }

    /** session.close on n's session. */
    method Shut(n: NodeId)
      requires Valid() && n in sessions
      modifies sessions[n]
      ensures Valid() && Live() == old(Live())[n := old(Live())[n].(open := false)] && !sessions[n].open
    {
      var s := sessions[n];
      assert forall k <- sessions | k != n :: sessions[k] != s;
      s.Close();
    }

    /** Strike a confirmation off n's list and say what it confirmed. */
    method TakePending(n: NodeId, id: EnvId) returns (ref: Option<H.AckRef>)
      requires Valid() && n in sessions
      modifies sessions[n]
      ensures var s := old(Live())[n];
              && Valid() && Live() == old(Live())[n := s.(pending := s.pending - {id})]
              && ref == if id in s.pending then Some(s.pending[id]) else None
    {
      var s := sessions[n];
      assert forall k <- sessions | k != n :: sessions[k] != s;
      ref := if id in s.pending then Some(s.pending[id]) else None;
      s.pending := s.pending - {id};
    }

    /** One live session per node: an older one is closed before the new one takes its place. */
    method Replace(n: NodeId, up: Session)
      requires Valid() && up.sid.node == n && up !in sessions.Values
      modifies this`sessions, sessions.Values
      ensures Valid() && sessions == old(sessions)[n := up] && up.State() == old(up.State())
      ensures Live() == old(Live())[n := up.State()]
      ensures n in old(sessions) ==> !old(sessions)[n].open
    {
      if n in sessions {
        Shut(n);
      }
      sessions := sessions[n := up];
    }

    method Unfile(n: NodeId)
      requires Valid()
      modifies this`sessions
      ensures Valid() && sessions == old(sessions) - {n} && Live() == old(Live()) - {n}
    {
      sessions := sessions - {n};
    }

    method CloseDetached(s: Session)
      requires Valid() && (s.sid.node in sessions ==> sessions[s.sid.node] != s)
      modifies s
      ensures Valid() && Live() == old(Live()) && !s.open
    {
      assert forall k <- sessions :: sessions[k] != s;
      s.Close();
    }

    // ---- enrollment ----

    /** handleEnroll after the token has been burnt: an address, then the node row. */
    method Enroll(n: NodeId, serial: Serial, p: Ipam.Prefix, cooldown: int, now: int) returns (ip: Option<IPv4>)
      requires Valid() && p.Valid() && n !in store.tables.nodes
      requires forall m <- store.tables.nodes :: store.tables.nodes[m].serial != serial
      modifies this`operations, store
      ensures Valid() && State() == H.Apply(old(State()), H.Enroll(n, serial, p, cooldown, now))
      ensures ip == Ipam.Allocate(old(store.tables), p, cooldown, now).1
    {
      hide Live, Valid, H.Apply, Ipam.Allocate;
      EnrollForm(State(), n, serial, p, cooldown, now);
      ip := store.AllocateIP(p, cooldown, now);
      if ip.Some? {
        store.CreateNode(n, ip.value, serial);
      }
      operations := operations + 1;
    }

    // ---- sessions ----

    /** handleConn's admission and runSession's prologue. */
    method SessionUp(n: NodeId, serial: Serial, attempt: nat) returns (s: Option<Session>)
      requires Valid()
      modifies this, sessions.Values
      ensures Valid()
      ensures s.Some? <==> H.Admitted(old(State()), n, serial)
      ensures s.Some? ==> fresh(s.value) && n in sessions && sessions[n] == s.value
      ensures s.Some? ==> State() == H.Apply(old(State()), H.SessionUp(n, SessionId(n, attempt)))
      ensures s.Some? && n in old(sessions) ==> !old(sessions)[n].open
      ensures s == None ==> State() == old(State())
    {
      hide Live, Valid, H.Apply;
      if serial in revoked || n !in store.tables.nodes || store.tables.nodes[n].revoked
          || store.tables.nodes[n].serial != serial {
        return None;
      }
      SessionUpForm(State(), n, SessionId(n, attempt));
      var up := new Session(SessionId(n, attempt));
      Replace(n, up);
      gcDone := gcDone - {n};
      operations := operations + 1;
      s := Some(up);
    }

    /** dropSession: the map entry goes only if it still is this session. */
    method SessionDown(s: Session, now: int)
      requires Valid()
      modifies this, store, s
      ensures Valid()
      ensures !s.open
      ensures var n, h := s.sid.node, old(State());
              State() == H.Apply(h, if n in old(sessions) && old(sessions)[n] == s then H.SessionDrop(n, now)
                                    else H.StaleDrop(n, now))
    {
      hide Live, H.Apply;
      var n := s.sid.node;
      if n in sessions && sessions[n] == s {
        SessionDropForm(State(), n, now);
        Unfile(n);
      } else {
        StaleDropForm(State(), n, now);
      }
      CloseDetached(s);
      store.TouchNode(n, now);
      operations := operations + 1;
    }

    /** handleAck */
    method HandleAck(s: Session, id: EnvId, ok: bool)
      requires Valid() && s.sid.node in sessions && sessions[s.sid.node] == s
      modifies this, s
      ensures Valid()
      ensures State() == H.Apply(old(State()), H.Acknowledge(s.sid.node, id, ok))
    {
      hide Live, Valid, H.Apply;
      AcknowledgeForm(State(), s.sid.node, id, ok);
      var ref := TakePending(s.sid.node, id);
      if ref.Some? && ok && ref.value.link in links {
        links := links[ref.value.link := H.SetFlag(links[ref.value.link], ref.value.side)];
      }
      operations := operations + 1;
    }

    // ---- register ----

    /** handleRegister. `rows` is the order in which the database returned n's links. */
    method HandleRegister(s: Session, key: WGKey, port: int, remote: IPv4, socksPort: int, now: int)
      returns (accepted: bool, ghost rows: seq<Link>)
      requires Valid() && LinksOk(store.tables)
      requires s.sid.node in sessions && sessions[s.sid.node] == s
      modifies this, store, sessions.Values
      ensures Valid()
      ensures accepted <==> 0 < port <= 65535
      ensures accepted ==>
                && IsListing(old(store.tables), s.sid.node, rows)
                && State() == H.Apply(old(State()),
                    H.Register(s.sid.node, H.WgIdent(key, port, remote, socksPort), rows, now))
      ensures !accepted ==> State() == old(State())
    {
      hide Live, Valid, H.Post, H.Apply, H.PostAll, H.RegisterMails, H.RegisterLinks, H.Expected, LinksUpTo,
          PushedTo, IsListing, LinksOk;
      rows := [];
      if port <= 0 || port > 65535 {
        return false, rows;
      }
      var n, ident := s.sid.node, H.WgIdent(key, port, remote, socksPort);
      ghost var h := State();
      var found := store.LinksOfNode(n);
      rows := found;
      Introduce(n, ident, found, h);
      operations := operations + 1;
      store.TouchNode(n, now);
      RegisterForm(h, n, ident, found, now);
      accepted := true;
    }

    /** Record n's identity, push it to n's reachable neighbours and answer with theirs. */
    method Introduce(n: NodeId, ident: H.WgIdent, rows: seq<Link>, ghost h: H.Hub)
      requires Valid() && n in h.sessions && LinksOk(h.tables) && IsListing(h.tables, n, rows) && State() == h
      modifies this`lastWG, this`links, sessions.Values
      ensures Valid()
      ensures lastWG == h.lastWG[n := ident] && links == H.RegisterLinks(h, n)
      ensures Live() == H.PostAll(Marked(h, n), H.RegisterMails(h, n, ident, rows))
    {
      hide Live, Valid, H.Post, H.PostAll, H.RegisterMails, H.RegisterLinks, H.Expected, LinksUpTo, PushedTo,
          IsListing, LinksOk;
      lastWG := lastWG[n := ident];
      Admit(n);
      var expected := PushToNeighbours(n, ident, rows, h);
      PushDone(h, n, ident, rows);
      Post(n, H.Mail(RegisterAck(expected), map[]));
    }

    /** The loop over n's links: collect the reconciliation list, confirm n's side, push to the other end. */
    method PushToNeighbours(n: NodeId, ident: H.WgIdent, rows: seq<Link>, ghost h: H.Hub)
        returns (expected: seq<PeerSpec>)
      requires Valid() && n in h.sessions && LinksOk(h.tables) && IsListing(h.tables, n, rows)
      requires State() == h.(lastWG := h.lastWG[n := ident], sessions := Marked(h, n))
      modifies this`links, sessions.Values
      ensures Valid()
      ensures expected == H.Expected(h, n, rows)
      ensures links == H.RegisterLinks(h, n)
      ensures Live() == PushedTo(h, n, ident, rows, Neighbours(n, rows))
    {
      hide H.RegisterMails, H.RegisterLinks, H.Expected, LinksUpTo, PushedTo, IsListing, LinksOk;
      expected := [];
      PushDone(h, n, ident, rows);
      assert Neighbours(n, rows[..0]) == {} && Ids(rows[..0]) == {};
      EmptyExpected(h, n);
      for i := 0 to |rows|
        invariant Valid()
        invariant expected == H.Expected(h, n, rows[..i])
        invariant links == LinksUpTo(h, n, Ids(rows[..i]))
        invariant Live() == PushedTo(h, n, ident, rows, Neighbours(n, rows[..i]))
      {
        PushStep(h, n, ident, rows, i);
        ExpectedStep(h, n, rows, i);
        var spec := PushRow(n, ident, rows[i]);
        if spec.Some? {
          expected := expected + [spec.value];
        }
      }
      assert rows[..|rows|] == rows;
    }

    /** One link of the registering node n. */
    method PushRow(n: NodeId, ident: H.WgIdent, l: Link) returns (spec: Option<PeerSpec>)
      requires Valid()
      modifies this`links, sessions.Values
      ensures Valid()
      ensures var other := Other(l, n);
              var reachable := H.Reachable(old(State()), other);
              var rt := if l.id in old(links) then old(links)[l.id] else H.FRESH_RT;
              && spec == (if reachable then Some(H.SpecFor(store.tables, l, other, lastWG[other])) else None)
              && links == old(links)[l.id := if reachable then H.SetFlag(rt, H.SideOf(l, n)) else rt]
              && Live() == (if reachable
                            then old(Live())[other := H.Post(old(Live())[other],
                                PushAt(operations, store.tables, l, true, other, ident))]
                            else old(Live()))
    {
      hide Live, Valid, H.Post, PushAt, H.SpecFor;
      if l.id !in links {
        links := links[l.id := H.FRESH_RT];
      }
      var other := Other(l, n);
      if other in sessions {
        LiveAt(other);
      }
      if other !in sessions || !sessions[other].registered || other !in lastWG {
        return None;
      }
      spec := Some(H.SpecFor(store.tables, l, other, lastWG[other]));
      links := links[l.id := H.SetFlag(links[l.id], H.SideOf(l, n))];
      SendPeerSpec(other, l, true, ident);
    }

    // ---- heartbeats ----

    /** handleHeartbeat's handshake bookkeeping: every reported peer against every link of n. */
    method HandleHeartbeat(s: Session, peers: seq<PeerStatus>, now: int)
      requires Valid() && LinksOk(store.tables)
      requires s.sid.node in sessions && sessions[s.sid.node] == s
      modifies this`links, this`operations, store
      ensures Valid() && State() == H.Apply(old(State()), H.Beat(s.sid.node, peers, now))
    {
      hide Live, Valid, H.Apply, LinksOk, IsListing, H.BeatLinks, BeatUpTo;
      var n := s.sid.node;
      ghost var h := State();
      var rows := store.LinksOfNode(n);
      BeatNone(h, n);
      for i := 0 to |peers|
        modifies this`links
        invariant links == H.BeatLinks(h, n, peers[..i])
      {
        BeatRow(h, n, peers[..i], peers[i], rows, 0);
        for j := 0 to |rows|
          modifies this`links
          invariant links == BeatUpTo(h, n, peers[..i], peers[i], Ids(rows[..j]))
        {
          BeatRow(h, n, peers[..i], peers[i], rows, j);
          var l := rows[j];
          if Other(l, n) == peers[i].node {
            var rt := if l.id in links then links[l.id] else H.FRESH_RT;
            links := links[l.id := if peers[i].handshake > rt.lastHS then rt.(lastHS := peers[i].handshake) else rt];
          }
        }
        BeatRowsDone(h, n, peers[..i], peers[i], rows);
        assert peers[..i + 1] == peers[..i] + [peers[i]];
        assert rows[..|rows|] == rows;
      }
      assert peers[..|peers|] == peers;
      store.TouchNode(n, now);
      operations := operations + 1;
      BeatForm(h, n, peers, now);
    }

    // ---- pairs ----

    /** Both ends are online, registered and known. */
    method IsReady(l: Link) returns (ready: bool)
      ensures ready <==> H.PairReady(State(), l)
    {
      hide Live;
      if l.a !in sessions || l.b !in sessions {
        return false;
      }
      LiveAt(l.a);
      LiveAt(l.b);
      ready := sessions[l.a].registered && sessions[l.b].registered && l.a in lastWG && l.b in lastWG;
    }

    /** pushLink's and SetLinkExit's locked part. */
    method PushPair(l: Link, update: bool)
      requires Valid() && l.a != l.b
      modifies this`links, sessions.Values
      ensures Valid()
      ensures links == H.PairLinks(old(State()), l) && Live() == PairSessions(old(State()), l, update)
    {
      hide Live, Valid, H.Post, PushAt, H.Apply, H.SpecFor;
      if l.id !in links {
        links := links[l.id := H.FRESH_RT];
      }
      var ready := IsReady(l);
      if !ready {
        return;
      }
      ReadyEnds(State(), l);
      links := links[l.id := links[l.id].(ackA := false, ackB := false)];
      SendPeerSpec(l.a, l, update, lastWG[l.b]);
      SendPeerSpec(l.b, l, update, lastWG[l.a]);
    }

    /** The panel's guard against revoked nodes, then CreateLink. */
    method CreateLink(id: LinkId, a: NodeId, b: NodeId) returns (r: Option<Link>)
      requires Valid() && LinksOk(store.tables) && H.FreshLink(State(), id)
      modifies this, store, sessions.Values
      ensures Valid()
      ensures r.Some? <==> H.Enabled(old(State()), H.CreateLink(id, a, b))
      ensures State() == H.Apply(old(State()), H.CreateLink(id, a, b))
    {
      hide Live, Valid, H.Apply, H.Enabled, LinksOk, PairSessions, H.PairLinks;
      ghost var h := State();
      CreateEnabled(h, id, a, b);
      r := None;
      if a in store.tables.nodes && !store.tables.nodes[a].revoked && b in store.tables.nodes
          && !store.tables.nodes[b].revoked {
        r := store.CreateLink(id, a, b);
      }
      if r.Some? {
        CreateLinkForm(h, id, a, b);
        PushPair(r.value, false);
        operations := operations + 1;
      } else {
        NotEnabled(h, H.CreateLink(id, a, b));
      }
    }

    method SetLinkExit(id: LinkId, exit: Option<NodeId>) returns (r: Option<Link>)
      requires Valid() && LinksOk(store.tables)
      modifies this, store, sessions.Values
      ensures Valid()
      ensures r.Some? <==> H.Enabled(old(State()), H.SetLinkExit(id, exit))
      ensures State() == H.Apply(old(State()), H.SetLinkExit(id, exit))
    {
      hide Live, Valid, H.Apply, LinksOk, PairSessions, H.PairLinks;
      LinkEnds(store.tables, id);
      ghost var h := State();
      r := store.SetLinkExit(id, exit);
      if r.Some? {
        SetLinkExitForm(h, id, exit);
        PushPair(r.value, true);
        operations := operations + 1;
      } else {
        NotEnabled(h, H.SetLinkExit(id, exit));
      }
    }

    method DeleteLink(id: LinkId) returns (r: Option<Link>)
      requires Valid() && LinksOk(store.tables)
      modifies this, store, sessions.Values
      ensures Valid()
      ensures r.Some? <==> id in old(store.tables).links
      ensures State() == H.Apply(old(State()), H.DeleteLink(id))
    {
      hide Live, Valid, H.Apply, LinksOk, SideRemoved;
      ghost var h := State();
      if id !in store.tables.links {
        NotEnabled(h, H.DeleteLink(id));
        return None;
      }
      DeleteLinkForm(h, id);
      r := store.DeleteLink(id);
      var l := r.value;
      RemoveSide(l, l.a, l.b);
      RemoveSide(l, l.b, l.a);
      links := links - {id};
      operations := operations + 1;
    }

    // ---- nodes ----

    method DeleteNode(n: NodeId, now: int) returns (done: bool)
      requires Valid() && LinksOk(store.tables)
      modifies this, store, sessions.Values
      ensures Valid()
      ensures done <==> n in old(store.tables).nodes
      ensures State() == H.Apply(old(State()), H.DeleteNode(n, now))
    {
      hide Live, Valid, H.Apply, LinksOk, WithdrawnFrom, RevokeNode, IsListing, H.Post, Kicked, Ids, H.Enabled;
      ghost var h := State();
      var r := store.DeleteNode(n, now);
      if r == None {
        DeleteNodeNotEnabled(h, n, now);
        return false;
      }
      var rows := r.value.1;
      DeleteNodeForm(h, n, now, rows);
      Forget(n, r.value.0.serial, rows, h);
      done := true;
    }

    /** The runtime half of DeleteNode, after the tables have changed. */
    method Forget(n: NodeId, serial: Serial, rows: seq<Link>, ghost h: H.Hub)
      requires Valid() && LinksOk(h.tables) && IsListing(h.tables, n, rows)
      requires State() == h.(tables := store.tables)
      modifies this`links, this`revoked, this`lastWG, this`gcDone, this`operations, sessions.Values
      ensures Valid()
      ensures State() == H.Hub(store.tables, Kicked(WithdrawnFrom(h, n, Neighbours(n, rows)), n), h.links - Ids(rows),
                               h.lastWG - {n}, h.gcDone - {n}, h.revoked + {serial}, h.operations + 1)
    {
      hide Live, Valid, LinksOk, WithdrawnFrom, IsListing, H.Post, Kicked, Ids, Neighbours;
      WithdrawFromPeers(n, rows, h);
      ForgetLinks(rows);
      revoked := revoked + {serial};
      SendKick(n);
      ForgetIdentity(n);
    }

    method ForgetIdentity(n: NodeId)
      modifies this`lastWG, this`gcDone, this`operations
      ensures lastWG == old(lastWG) - {n} && gcDone == old(gcDone) - {n} && operations == old(operations) + 1
    {
      lastWG := lastWG - {n};
      gcDone := gcDone - {n};
      operations := operations + 1;
    }

    method SendKick(n: NodeId)
      requires Valid()
      modifies sessions.Values
      ensures Valid() && Live() == Kicked(old(Live()), n)
    {
      if n in sessions {
        Post(n, H.Mail(Kick, map[]));
      }
    }

    /** Every other end of n's links is told to drop n. */
    method WithdrawFromPeers(n: NodeId, rows: seq<Link>, ghost h: H.Hub)
      requires Valid() && LinksOk(h.tables) && IsListing(h.tables, n, rows)
      requires Live() == h.sessions && lastWG == h.lastWG && operations == h.operations
      modifies sessions.Values
      ensures Valid() && Live() == WithdrawnFrom(h, n, Neighbours(n, rows))
    {
      hide LinksOk, IsListing, WithdrawnFrom;
      WithdrawDone(h, n, rows);
      assert Neighbours(n, rows[..0]) == {};
      for i := 0 to |rows|
        invariant Valid() && Live() == WithdrawnFrom(h, n, Neighbours(n, rows[..i]))
      {
        WithdrawStep(h, n, rows, i);
        RemoveSide(rows[i], Other(rows[i], n), n);
      }
      assert rows[..|rows|] == rows;
    }

    method ForgetLinks(rows: seq<Link>)
      modifies this`links
      ensures links == old(links) - Ids(rows)
    {
      for i := 0 to |rows|
        invariant links == old(links) - Ids(rows[..i])
      {
        assert rows[..i + 1] == rows[..i] + [rows[i]];
        links := links - {rows[i].id};
      }
      assert rows[..|rows|] == rows;
    }

    method RotateWG(n: NodeId) returns (sent: bool)
      requires Valid()
      modifies this, sessions.Values
      ensures Valid()
      ensures sent <==> n in old(sessions)
      ensures State() == H.Apply(old(State()), H.RotateNode(n))
    {
      hide H.Apply;
      sent := n in sessions;
      if sent {
        AskForm(State(), n);
        Post(n, H.Mail(Frame.RotateWG(EnvId(operations, n)), map[]));
        operations := operations + 1;
      } else {
        NotEnabled(State(), H.RotateNode(n));
      }
    }

    /** The send half of requestReply. */
    method Ask(n: NodeId) returns (sent: bool)
      requires Valid()
      modifies this, sessions.Values
      ensures Valid()
      ensures sent <==> n in old(sessions)
      ensures State() == H.Apply(old(State()), H.AskNode(n))
    {
      hide H.Apply;
      sent := n in sessions;
      if sent {
        AskForm(State(), n);
        Post(n, H.Mail(Request(EnvId(operations, n)), map[]));
        operations := operations + 1;
      } else {
        NotEnabled(State(), H.AskNode(n));
      }
    }

    // ---- offline nodes ----

    /** gcOfflinePeers: one collection per listed node, in the order of the listing. */
    method GcOfflinePeers(now: int, after: int) returns (ghost nodes: seq<NodeId>)
      requires Valid() && LinksOk(store.tables)
      modifies this`gcDone, this`operations, sessions.Values
      ensures Valid()
      ensures forall n :: n in nodes <==> StoreState.Live(store.tables, n)
      ensures State() == CollectAll(old(State()), nodes, now, after)
      ensures gcDone == old(gcDone) + set n | n in nodes && H.Overdue(old(State()), n, now, after)
    {
      hide H.Apply, LinksOk, H.Overdue;
      ghost var h := State();
      var listed := store.ListNodes();
      nodes := listed;
      for i := 0 to |listed|
        invariant Valid()
        invariant State() == CollectAll(old(State()), listed[..i], now, after)
      {
        CollectNode(listed[i], now, after);
        assert listed[..i + 1][..i] == listed[..i];
      }
      assert listed[..|listed|] == listed;
      CollectAllDone(h, listed, now, after);
    }

    method CollectNode(n: NodeId, now: int, after: int)
      requires Valid() && LinksOk(store.tables) && StoreState.Live(store.tables, n)
      modifies this`gcDone, this`operations, sessions.Values
      ensures Valid()
      ensures State() == H.Apply(old(State()), H.Collect(n, now, after))
    {
      hide Live, Valid, H.Apply, LinksOk, IsListing, WithdrawnFrom;
      ghost var h := State();
      if n in sessions || n in gcDone || store.tables.nodes[n].lastSeen == 0
          || now - store.tables.nodes[n].lastSeen < after {
        NotEnabled(h, H.Collect(n, now, after));
        return;
      }
      var rows := store.LinksOfNode(n);
      CollectForm(h, n, now, after, rows);
      WithdrawFromPeers(n, rows, h);
      gcDone := gcDone + {n};
      operations := operations + 1;
    }

    // ---- status ----

    method LinkStatus(l: Link, now: int) returns (status: H.LinkStatus)
      ensures status == H.StatusOf(State(), l, now)
    {
      var aOn := l.a in sessions && sessions[l.a].registered;
      var bOn := l.b in sessions && sessions[l.b].registered;
      if l.id !in links || !aOn || !bOn || !links[l.id].ackA || !links[l.id].ackB {
        return H.Pending;
      }
      if now - links[l.id].lastHS < 180 {
        return H.ActiveLink;
      }
      status := H.Degraded;
    }
  }

  lemma LinkEnds(t: Tables, id: LinkId)
    requires LinksOk(t)
    ensures id in t.links ==> t.links[id].id == id && t.links[id].a != t.links[id].b
  {
  }

  lemma ReadyEnds(h: H.Hub, l: Link)
    requires H.PairReady(h, l)
    ensures l.a in h.sessions && l.b in h.sessions && l.a in h.lastWG && l.b in h.lastWG
  {
  }

  lemma CreateEnabled(h: H.Hub, id: LinkId, a: NodeId, b: NodeId)
    ensures H.Enabled(h, H.CreateLink(id, a, b)) <==>
              && a != b && StoreState.Live(h.tables, a) && StoreState.Live(h.tables, b)
              && H.FreshLink(h, id) && !Linked(h.tables, a, b)
  {
  }

  lemma NotEnabled(h: H.Hub, op: H.Operation)
    requires !H.Enabled(h, op)
    ensures H.Apply(h, op) == h
  {
  }

  lemma DeleteNodeNotEnabled(h: H.Hub, n: NodeId, now: int)
    requires n !in h.tables.nodes
    ensures H.Apply(h, H.DeleteNode(n, now)) == h
  {
  }

  lemma EmptyExpected(h: H.Hub, n: NodeId)
    ensures H.Expected(h, n, []) == []
  {
  }
}
