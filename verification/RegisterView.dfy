/** Registration is the convergence path: whatever the device held before, the
    reconciliation list alone gives it the view the hub calls for. */
module RegisterView {
  import opened Wrappers
  import opened Wire
  import opened PeerTable
  import opened Device
  import opened StoreState
  import opened HubState
  import opened HubInvariants
  import opened HubView

  /** The spec that row l contributes to n's list. */
  function RowSpec(h: Hub, n: NodeId, l: Link): PeerSpec
    requires Reachable(h, Other(l, n))
  {
    SpecFor(h.tables, l, Other(l, n), h.lastWG[Other(l, n)])
  }

  ghost predicate FromRow(h: Hub, n: NodeId, rows: seq<Link>, s: PeerSpec) {
    exists l :: l in rows && Reachable(h, Other(l, n)) && s == RowSpec(h, n, l)
  }

  lemma {:induction false} ExpectedFromRows(h: Hub, n: NodeId, rows: seq<Link>)
    ensures forall s <- Expected(h, n, rows) :: FromRow(h, n, rows, s)
  {
    if rows != [] {
      var init := rows[..|rows| - 1];
      ExpectedFromRows(h, n, init);
      forall s <- Expected(h, n, rows) ensures FromRow(h, n, rows, s) {
        if s in Expected(h, n, init) {
          var l :| l in init && Reachable(h, Other(l, n)) && s == RowSpec(h, n, l);
          assert l in rows;
        } else {
          assert rows[|rows| - 1] in rows;
        }
      }
    }
  }

  lemma {:induction false} RowsExpected(h: Hub, n: NodeId, rows: seq<Link>, l: Link)
    requires l in rows && Reachable(h, Other(l, n))
    ensures RowSpec(h, n, l) in Expected(h, n, rows)
  {
    var init, last := rows[..|rows| - 1], rows[|rows| - 1];
    if l != last {
      assert l in init;
      RowsExpected(h, n, init, l);
    }
  }

  ghost predicate DistinctLinks(specs: seq<PeerSpec>) {
    forall i, j | 0 <= i < j < |specs| :: specs[i].link != specs[j].link
  }

  ghost predicate DistinctRows(rows: seq<Link>) {
    forall i, j | 0 <= i < j < |rows| :: rows[i].id != rows[j].id
  }

  lemma {:induction false} ExpectedLinksDistinct(h: Hub, n: NodeId, rows: seq<Link>)
    requires DistinctRows(rows)
    ensures DistinctLinks(Expected(h, n, rows))
  {
    if rows != [] {
      var init := rows[..|rows| - 1];
      ExpectedLinksDistinct(h, n, init);
      ExpectedFromRows(h, n, init);
      forall s <- Expected(h, n, init) ensures s.link != rows[|rows| - 1].id {
        var l :| l in init && Reachable(h, Other(l, n)) && s == RowSpec(h, n, l);
      }
    }
  }

  lemma {:induction false} ExitsOfEntries(specs: seq<PeerSpec>)
    requires DistinctLinks(specs)
    ensures forall s <- specs :: Lookup(ExitsOf(specs), s.link) == s.exit
    ensures forall id <- ExitsOf(specs) :: exists s :: s in specs && s.link == id
  {
    if specs != [] {
      var init, last := specs[..|specs| - 1], specs[|specs| - 1];
      ExitsOfEntries(init);
      assert forall s <- init :: s.link != last.link;
      forall s <- specs ensures Lookup(ExitsOf(specs), s.link) == s.exit {
        if s in init {
          assert Lookup(ExitsOf(init), s.link) == s.exit;
        } else {
          assert last.link !in ExitsOf(init);
        }
      }
      forall id <- ExitsOf(specs) ensures exists s :: s in specs && s.link == id {
        if id in ExitsOf(init) {
          var s :| s in init && s.link == id;
          assert s in specs;
        } else {
          assert last in specs && last.link == id;
        }
      }
    }
  }

  /** Every listed spec is the current one of a reachable neighbour, over the link they share. */
  ghost predicate Current(h: Hub, n: NodeId, s: PeerSpec) {
    && s.link in h.tables.links && Joins(h.tables.links[s.link], n, s.node)
    && Reachable(h, s.node) && s == SpecFor(h.tables, h.tables.links[s.link], s.node, h.lastWG[s.node])
  }

  lemma ExpectedIsCurrent(h: Hub, n: NodeId, rows: seq<Link>)
    requires LinksOk(h.tables) && IsListing(h.tables, n, rows)
    ensures forall s <- Expected(h, n, rows) :: Current(h, n, s)
    ensures DistinctLinks(Expected(h, n, rows))
  {
    ExpectedFromRows(h, n, rows);
    forall s <- Expected(h, n, rows) ensures Current(h, n, s) {
      var l :| l in rows && Reachable(h, Other(l, n)) && s == RowSpec(h, n, l);
    }
    forall i, j | 0 <= i < j < |rows| ensures rows[i].id != rows[j].id {
      assert rows[i] in rows && rows[j] in rows;
    }
    ExpectedLinksDistinct(h, n, rows);
  }

  /** A list of current specs over distinct links names distinct nodes, keys and addresses. */
  lemma CurrentIsDistinct(h: Hub, n: NodeId, specs: seq<PeerSpec>)
    requires TablesOk(h.tables) && OwnKeys(h) && DistinctLinks(specs) && forall s <- specs :: Current(h, n, s)
    ensures Distinct(specs) && DistinctAllowed(specs)
  {
    forall i, j | 0 <= i < j < |specs|
      ensures specs[i].node != specs[j].node && specs[i].key != specs[j].key && specs[i].allowed != specs[j].allowed
    {
      TwoSpecsDiffer(h, n, specs[i], specs[j]);
    }
  }

  lemma TwoSpecsDiffer(h: Hub, n: NodeId, s: PeerSpec, s': PeerSpec)
    requires TablesOk(h.tables) && OwnKeys(h) && Current(h, n, s) && Current(h, n, s') && s.link != s'.link
    ensures s.node != s'.node && s.key != s'.key && s.allowed != s'.allowed
  {
    if s.node == s'.node {
      OneLink(h.tables, n, s.node, s.link, s'.link);
    }
  }

  /** The view after register_ack, on the hub state it was computed from. */
  lemma ReconciledView(h: Hub, n: NodeId, rows: seq<Link>, d: Device)
    requires Healthy(h) && OwnKeys(h) && IsListing(h.tables, n, rows) && d.phase == Await
    ensures Sound(d, RegisterAck(Expected(h, n, rows)))
    ensures ViewOk(h, n, Handle(d, RegisterAck(Expected(h, n, rows))))
  {
    hide NodesOk;
    var specs := Expected(h, n, rows);
    ExpectedIsCurrent(h, n, rows);
    CurrentIsDistinct(h, n, specs);
    ReconcileIsExact(specs);
    ExitsOfEntries(specs);
    ReconciledPeers(h, n, specs, Handle(d, RegisterAck(specs)));
    forall id <- h.tables.links | Touches(h.tables.links[id], n) && Registered(h, Other(h.tables.links[id], n))
      ensures RowSpec(h, n, h.tables.links[id]) in specs
    {
      RowsExpected(h, n, rows, h.tables.links[id]);
    }
    ReconciledLinks(h, n, specs, Handle(d, RegisterAck(specs)));
  }

  lemma ReconciledPeers(h: Hub, n: NodeId, specs: seq<PeerSpec>, d: Device)
    requires SessionsOk(h) && forall s <- specs :: Current(h, n, s)
    requires d.table == Reconcile(specs) && d.exits == ExitsOf(specs) && LinksOk(h.tables)
    requires forall i | 0 <= i < |specs| :: Holds(d.table, specs[i])
    requires forall p :: p in d.table.nodeKeys <==> Names(specs, p)
    requires forall id <- d.exits :: exists s :: s in specs && s.link == id
    ensures PeersRight(h, n, d) && ExitsBacked(h, n, d)
  {
    forall p <- d.table.nodeKeys ensures Linked(h.tables, n, p) && Knows(h, d.table, p) && p !in h.gcDone {
      var i :| 0 <= i < |specs| && specs[i].node == p;
      assert Current(h, n, specs[i]) && Holds(d.table, specs[i]);
    }
    forall id <- d.exits
      ensures id in h.tables.links && Touches(h.tables.links[id], n) && Other(h.tables.links[id], n) in d.table.nodeKeys
    {
      var s :| s in specs && s.link == id;
      var i :| 0 <= i < |specs| && specs[i] == s;
      assert Current(h, n, s) && Names(specs, s.node);
    }
  }

  lemma ReconciledLinks(h: Hub, n: NodeId, specs: seq<PeerSpec>, d: Device)
    requires IdentsOk(h) && LinksOk(h.tables)
    requires forall p :: p in d.table.nodeKeys <==> Names(specs, p)
    requires forall s <- specs :: Lookup(d.exits, s.link) == s.exit
    requires forall id <- h.tables.links | Touches(h.tables.links[id], n)
        && Registered(h, Other(h.tables.links[id], n)) ::
               Reachable(h, Other(h.tables.links[id], n)) && RowSpec(h, n, h.tables.links[id]) in specs
    ensures LinksPresent(h, n, d)
  {
    forall id <- h.tables.links | Touches(h.tables.links[id], n) && Registered(h, Other(h.tables.links[id], n))
      ensures Other(h.tables.links[id], n) in d.table.nodeKeys
      ensures Lookup(d.exits, id) == ExitWanted(h, h.tables.links[id], Other(h.tables.links[id], n))
    {
      var s := RowSpec(h, n, h.tables.links[id]);
      var i :| 0 <= i < |specs| && specs[i] == s;
      assert Names(specs, s.node);
    }
  }

  /** Registering changes nothing about a node's neighbours, so the view is right afterwards too. */
  lemma OwnRegisterStep(h: Hub, op: Operation, d: Device)
    requires Healthy(h) && OwnKeys(h) && op.Register? && Enabled(h, op) && d.phase == Await
    ensures var ack := RegisterAck(Expected(h, op.node, op.rows));
            && op.node in Mails(h, op) && Mails(h, op)[op.node].frame == ack
            && Sound(d, ack) && Handle(d, ack).phase == Serve && ViewOk(Core(h, op), op.node, Handle(d, ack))
  {
    ReconciledView(h, op.node, op.rows, d);
    CoreKeepsTables(h, op);
    OwnRegisterChange(h, op);
    ViewKept(h, Core(h, op), op.node, Handle(d, RegisterAck(Expected(h, op.node, op.rows))));
  }

  lemma OwnRegisterChange(h: Hub, op: Operation)
    requires LinksOk(h.tables) && op.Register? && Enabled(h, op)
    ensures SameBut(h, Core(h, op), op.node, op.node)
    ensures Mails(h, op)[op.node].frame == RegisterAck(Expected(h, op.node, op.rows))
  {
    var core := Core(h, op);
    assert core.tables.links == h.tables.links;
    NoSelfLink(h.tables, op.node);
    forall q | Linked(h.tables, op.node, q) ensures SamePeer(h, core, q) {
    }
  }
}
