/** What a node's drained view says about the hub, and why every handler keeps it true. */
module HubView {
  import opened Wrappers
  import opened Wire
  import opened PeerTable
  import opened Device
  import opened StoreState
  import opened HubState

  /** A key always belongs to the node that registered it. */
  ghost predicate OwnKeys(h: Hub) {
    forall n <- h.lastWG :: h.lastWG[n].key.owner == n
  }

  /** The device holds p with its last registered key, endpoint and overlay address. */
  ghost predicate Knows(h: Hub, t: Table, p: NodeId) {
    && p in h.lastWG
    && p in t.nodeKeys && t.nodeKeys[p] == h.lastWG[p].key
    && h.lastWG[p].key in t.kernel
    && t.kernel[h.lastWG[p].key] == PeerConf(Endpoint(h.lastWG[p].ip, h.lastWG[p].port), OverlayOf(h.tables, p))
  }

  /** Every peer of the view is the other end of a link, is known correctly and was not collected. */
  ghost predicate PeersRight(h: Hub, x: NodeId, d: Device) {
    forall p <- d.table.nodeKeys :: Linked(h.tables, x, p) && Knows(h, d.table, p) && p !in h.gcDone
  }

  /** The exit entry a link ought to have, when its other end is p. */
  function ExitWanted(h: Hub, l: Link, p: NodeId): Option<ExitAddr> {
    if p in h.lastWG then SpecFor(h.tables, l, p, h.lastWG[p]).exit else None
  }

  function Lookup(m: map<LinkId, ExitAddr>, id: LinkId): Option<ExitAddr> {
    if id in m then Some(m[id]) else None
  }

  /** Every link of x whose other end is registered is in the view, with the exit it designates. */
  ghost predicate LinksPresent(h: Hub, x: NodeId, d: Device) {
    forall id <- h.tables.links :: var l := h.tables.links[id];
      Touches(l, x) && Registered(h, Other(l, x)) ==>
        Other(l, x) in d.table.nodeKeys && Lookup(d.exits, id) == ExitWanted(h, l, Other(l, x))
  }

  /** Exits belong to links of x whose other end is in the view. */
  ghost predicate ExitsBacked(h: Hub, x: NodeId, d: Device) {
    forall id <- d.exits ::
      id in h.tables.links && Touches(h.tables.links[id], x) && Other(h.tables.links[id], x) in d.table.nodeKeys
  }

  ghost predicate ViewOk(h: Hub, x: NodeId, d: Device) {
    PeersRight(h, x, d) && LinksPresent(h, x, d) && ExitsBacked(h, x, d)
  }

  // ---- what the table operations do to a consistent table ----

  /** Every peer but p keeps its key and its kernel entry. */
  ghost predicate OthersKept(t: Table, t': Table, p: NodeId) {
    forall q | q != p ::
      && (q in t'.nodeKeys <==> q in t.nodeKeys)
      && (q in t.nodeKeys && t.nodeKeys[q] in t.kernel ==>
            && t'.nodeKeys[q] == t.nodeKeys[q]
            && t.nodeKeys[q] in t'.kernel && t'.kernel[t.nodeKeys[q]] == t.kernel[t.nodeKeys[q]])
  }

  lemma UpdateEffect(t: Table, spec: PeerSpec)
    requires Consistent(t) && (spec.key in t.peerNodes ==> t.peerNodes[spec.key] == spec.node)
    ensures OthersKept(t, Update(t, spec), spec.node)
    ensures Holds(Update(t, spec), spec)
  {
  }

  lemma AddEffect(t: Table, spec: PeerSpec)
    requires spec.node !in t.nodeKeys
    ensures Add(t, spec) == Update(t, spec)
  {
  }

  lemma RemoveEffect(t: Table, p: NodeId, key: WGKey)
    requires Consistent(t)
    requires if p in t.nodeKeys then t.nodeKeys[p] == key else key !in t.peerNodes
    ensures OthersKept(t, RemoveKey(t, key), p)
    ensures p !in RemoveKey(t, key).nodeKeys
  {
  }

  /** Keys in the view belong to the peers they are filed under. */
  lemma ViewKeysOwned(h: Hub, x: NodeId, d: Device, k: WGKey)
    requires OwnKeys(h) && PeersRight(h, x, d) && Consistent(d.table) && k in d.table.peerNodes
    ensures d.table.peerNodes[k] == k.owner
  {
    assert Knows(h, d.table, d.table.peerNodes[k]);
  }

  /** An up-to-date spec of a linked peer is always sound: its key is not another node's, its address is free. */
  lemma SpecIsSound(h: Hub, x: NodeId, d: Device, spec: PeerSpec)
    requires OwnKeys(h) && TablesOk(h.tables) && PeersRight(h, x, d) && Consistent(d.table)
    requires Live(h.tables, spec.node) && spec.key.owner == spec.node && spec.allowed == OverlayOf(h.tables, spec.node)
    ensures spec.key in d.table.peerNodes ==> d.table.peerNodes[spec.key] == spec.node
    ensures FreeAllowed(d.table, spec)
  {
    if spec.key in d.table.peerNodes {
      ViewKeysOwned(h, x, d, spec.key);
    }
    forall k | k in d.table.kernel && k in d.table.peerNodes && d.table.peerNodes[k] != spec.node
      ensures d.table.kernel[k].allowed != spec.allowed
    {
      var p := d.table.peerNodes[k];
      assert Linked(h.tables, x, p) && Knows(h, d.table, p);
    }
  }

  // ---- moving the view from one hub state to the next ----

  ghost predicate LinkTo(t: Tables, id: LinkId, x: NodeId, q: NodeId) {
    id in t.links && Joins(t.links[id], x, q)
  }

  /** Links of x are the same, except possibly those to p. */
  ghost predicate SameLinks(t: Tables, t': Tables, x: NodeId, p: NodeId) {
    && (forall id, q | q != p && LinkTo(t, id, x, q) :: id in t'.links && t'.links[id] == t.links[id])
    && (forall id, q | q != p && LinkTo(t', id, x, q) :: id in t.links && t.links[id] == t'.links[id])
  }

  ghost predicate SamePeer(g: Hub, h: Hub, q: NodeId) {
    && (q in g.lastWG <==> q in h.lastWG)
    && (q in g.lastWG ==> g.lastWG[q] == h.lastWG[q])
    && OverlayOf(g.tables, q) == OverlayOf(h.tables, q)
    && (Registered(h, q) ==> Registered(g, q))
    && (q in h.gcDone ==> q in g.gcDone)
  }

  /** The peers linked to x are the same, except possibly p. With p == x: no exception. */
  ghost predicate SameBut(g: Hub, h: Hub, x: NodeId, p: NodeId) {
    && SameLinks(g.tables, h.tables, x, p)
    && forall q | q != p && Linked(g.tables, x, q) :: SamePeer(g, h, q)
  }

  lemma LinkedStays(g: Hub, h: Hub, x: NodeId, p: NodeId, q: NodeId)
    requires SameLinks(g.tables, h.tables, x, p) && q != p && Linked(g.tables, x, q)
    ensures Linked(h.tables, x, q)
  {
    var id :| id in g.tables.links && Joins(g.tables.links[id], x, q);
    assert LinkTo(g.tables, id, x, q);
  }

  lemma LinkOfOther(t: Tables, id: LinkId, x: NodeId)
    requires LinksOk(t) && id in t.links && Touches(t.links[id], x)
    ensures Other(t.links[id], x) != x && LinkTo(t, id, x, Other(t.links[id], x))
    ensures Linked(t, x, Other(t.links[id], x)) && LinkOf(t, x, Other(t.links[id], x)) == t.links[id]
  {
    LinkOfIsTheLink(t, id);
  }

  /** Nothing x can see changed. */
  lemma ViewKept(g: Hub, h: Hub, x: NodeId, d: Device)
    requires LinksOk(g.tables) && LinksOk(h.tables) && SameBut(g, h, x, x) && ViewOk(g, x, d)
    ensures ViewOk(h, x, d)
  {
    NoSelfLink(g.tables, x);
    PeersMoved(g, h, x, x, d, d);
    LinksMoved(g, h, x, x, d, d);
    ExitsMoved(g, h, x, x, d, d);
  }

  lemma NoSelfLink(t: Tables, x: NodeId)
    requires LinksOk(t)
    ensures !Linked(t, x, x)
  {
  }

  lemma PeersMoved(g: Hub, h: Hub, x: NodeId, p: NodeId, d: Device, d': Device)
    requires SameBut(g, h, x, p) && PeersRight(g, x, d) && OthersKept(d.table, d'.table, p)
    requires p in d'.table.nodeKeys ==> Linked(h.tables, x, p) && Knows(h, d'.table, p) && p !in h.gcDone
    ensures PeersRight(h, x, d')
  {
    forall q <- d'.table.nodeKeys ensures Linked(h.tables, x, q) && Knows(h, d'.table, q) && q !in h.gcDone {
      if q != p {
        assert Knows(g, d.table, q);
        LinkedStays(g, h, x, p, q);
      }
    }
  }

  /** Exits of links to other peers are untouched. */
  ghost predicate OtherExitsKept(t: Tables, x: NodeId, p: NodeId, d: Device, d': Device) {
    forall id, q | q != p && LinkTo(t, id, x, q) :: Lookup(d'.exits, id) == Lookup(d.exits, id)
  }

  lemma LinksMoved(g: Hub, h: Hub, x: NodeId, p: NodeId, d: Device, d': Device)
    requires LinksOk(h.tables) && SameBut(g, h, x, p) && LinksPresent(g, x, d)
    requires OthersKept(d.table, d'.table, p) && OtherExitsKept(h.tables, x, p, d, d')
    requires forall id | LinkTo(h.tables, id, x, p) && Registered(h, p) ::
               p in d'.table.nodeKeys && Lookup(d'.exits, id) == ExitWanted(h, h.tables.links[id], p)
    ensures LinksPresent(h, x, d')
  {
    forall id <- h.tables.links | Touches(h.tables.links[id], x) && Registered(h, Other(h.tables.links[id], x))
      ensures Other(h.tables.links[id], x) in d'.table.nodeKeys
      ensures Lookup(d'.exits, id) == ExitWanted(h, h.tables.links[id], Other(h.tables.links[id], x))
    {
      LinkOfOther(h.tables, id, x);
      LinkPresentMoved(g, h, x, p, d, d', id, Other(h.tables.links[id], x));
    }
  }

  lemma LinkPresentMoved(g: Hub, h: Hub, x: NodeId, p: NodeId, d: Device, d': Device, id: LinkId, q: NodeId)
    requires SameBut(g, h, x, p) && LinksPresent(g, x, d)
    requires OthersKept(d.table, d'.table, p) && OtherExitsKept(h.tables, x, p, d, d')
    requires LinkTo(h.tables, id, x, q) && q == Other(h.tables.links[id], x) && Registered(h, q)
    requires q == p ==> p in d'.table.nodeKeys && Lookup(d'.exits, id) == ExitWanted(h, h.tables.links[id], p)
    ensures q in d'.table.nodeKeys && Lookup(d'.exits, id) == ExitWanted(h, h.tables.links[id], q)
  {
    if q != p {
      assert LinkTo(g.tables, id, x, q);
      assert SamePeer(g, h, q);
    }
  }

  lemma ExitsMoved(g: Hub, h: Hub, x: NodeId, p: NodeId, d: Device, d': Device)
    requires LinksOk(g.tables) && SameBut(g, h, x, p) && ExitsBacked(g, x, d) && OthersKept(d.table, d'.table, p)
    requires forall id <- d'.exits ::
               (id in d.exits && !LinkTo(g.tables, id, x, p)) || (LinkTo(h.tables, id, x, p) && p in d'.table.nodeKeys)
    requires forall id | LinkTo(h.tables, id, x, p) ::
               Touches(h.tables.links[id], x) && Other(h.tables.links[id], x) == p
    ensures ExitsBacked(h, x, d')
  {
    forall id <- d'.exits
      ensures id in h.tables.links && Touches(h.tables.links[id], x)
          && Other(h.tables.links[id], x) in d'.table.nodeKeys
    {
      if id in d.exits && !LinkTo(g.tables, id, x, p) {
        LinkOfOther(g.tables, id, x);
        assert LinkTo(g.tables, id, x, Other(g.tables.links[id], x));
      }
    }
  }

  lemma JoinsIsOther(t: Tables, x: NodeId, p: NodeId)
    requires LinksOk(t)
    ensures forall id | LinkTo(t, id, x, p) :: Touches(t.links[id], x) && Other(t.links[id], x) == p
  {
  }

  lemma OneLink(t: Tables, x: NodeId, p: NodeId, i: LinkId, j: LinkId)
    requires LinksOk(t) && LinkTo(t, i, x, p) && LinkTo(t, j, x, p)
    ensures i == j
  {
  }

  /** x was sent an up-to-date spec of p, the other end of link l. */
  lemma ViewUpdated(g: Hub, h: Hub, x: NodeId, p: NodeId, d: Device, l: Link)
    requires LinksOk(g.tables) && LinksOk(h.tables) && Consistent(d.table) && ViewOk(g, x, d)
    requires LinkTo(h.tables, l.id, x, p) && h.tables.links[l.id] == l
    requires p in h.lastWG && p !in h.gcDone && SameBut(g, h, x, p)
    requires forall id | LinkTo(g.tables, id, x, p) :: id == l.id
    requires h.lastWG[p].key in d.table.peerNodes ==> d.table.peerNodes[h.lastWG[p].key] == p
    ensures var spec := SpecFor(h.tables, l, p, h.lastWG[p]);
            ViewOk(h, x, d.(table := Update(d.table, spec), exits := SetExit(d.exits, spec)))
  {
    var spec := SpecFor(h.tables, l, p, h.lastWG[p]);
    var d' := d.(table := Update(d.table, spec), exits := SetExit(d.exits, spec));
    UpdateEffect(d.table, spec);
    JoinsIsOther(h.tables, x, p);
    PeersMoved(g, h, x, p, d, d');
    forall id | LinkTo(h.tables, id, x, p) ensures id == l.id {
      OneLink(h.tables, x, p, id, l.id);
    }
    UpdatedExits(h.tables, x, p, d, d', l, spec);
    LinksMoved(g, h, x, p, d, d');
    forall id <- d'.exits
      ensures (id in d.exits && !LinkTo(g.tables, id, x, p)) || (LinkTo(h.tables, id, x, p) && p in d'.table.nodeKeys)
    {
    }
    ExitsMoved(g, h, x, p, d, d');
  }

  lemma UpdatedExits(t: Tables, x: NodeId, p: NodeId, d: Device, d': Device, l: Link, spec: PeerSpec)
    requires LinksOk(t) && LinkTo(t, l.id, x, p) && spec.link == l.id && d'.exits == SetExit(d.exits, spec)
    ensures Lookup(d'.exits, l.id) == spec.exit
    ensures OtherExitsKept(t, x, p, d, d')
  {
    JoinsIsOther(t, x, p);
    forall id, q | q != p && LinkTo(t, id, x, q) ensures id != l.id {
      JoinsIsOther(t, x, q);
    }
  }

  /** x was told to drop p, the other end of link l, which is gone or at least not registered. */
  lemma ViewRemoved(g: Hub, h: Hub, x: NodeId, p: NodeId, d: Device, l: Link, key: WGKey)
    requires LinksOk(g.tables) && LinksOk(h.tables) && Consistent(d.table) && ViewOk(g, x, d)
    requires LinkTo(g.tables, l.id, x, p) && g.tables.links[l.id] == l && SameBut(g, h, x, p)
    requires if p in d.table.nodeKeys then d.table.nodeKeys[p] == key else key !in d.table.peerNodes
    requires Registered(h, p) ==> forall id :: !LinkTo(h.tables, id, x, p)
    ensures ViewOk(h, x, d.(table := RemoveKey(d.table, key), exits := d.exits - {l.id}))
  {
    var d' := d.(table := RemoveKey(d.table, key), exits := d.exits - {l.id});
    RemoveEffect(d.table, p, key);
    JoinsIsOther(h.tables, x, p);
    PeersMoved(g, h, x, p, d, d');
    RemovedExits(g, h, x, p, d, d', l);
    LinksMoved(g, h, x, p, d, d');
    ExitsMoved(g, h, x, p, d, d');
  }

  lemma RemovedExits(g: Hub, h: Hub, x: NodeId, p: NodeId, d: Device, d': Device, l: Link)
    requires LinksOk(g.tables) && LinksOk(h.tables) && SameLinks(g.tables, h.tables, x, p)
    requires LinkTo(g.tables, l.id, x, p) && d'.exits == d.exits - {l.id}
    ensures OtherExitsKept(h.tables, x, p, d, d')
    ensures forall id <- d'.exits :: id in d.exits && !LinkTo(g.tables, id, x, p)
  {
    forall id, q | q != p && LinkTo(h.tables, id, x, q) ensures id != l.id {
      JoinsIsOther(g.tables, x, q);
      JoinsIsOther(g.tables, x, p);
      assert LinkTo(g.tables, id, x, q);
    }
    forall id <- d'.exits ensures !LinkTo(g.tables, id, x, p) {
      if LinkTo(g.tables, id, x, p) {
        OneLink(g.tables, x, p, id, l.id);
      }
    }
  }

  /** x was sent nothing, and the link to p (if there is one) has no registered other end. */
  lemma ViewIdle(g: Hub, h: Hub, x: NodeId, p: NodeId, d: Device)
    requires LinksOk(g.tables) && LinksOk(h.tables) && ViewOk(g, x, d) && SameBut(g, h, x, p)
    requires p in d.table.nodeKeys ==> Linked(h.tables, x, p) && Knows(h, d.table, p) && p !in h.gcDone
    requires Registered(h, p) ==> forall id :: !LinkTo(h.tables, id, x, p)
    requires p in d.table.nodeKeys ==> forall id | LinkTo(g.tables, id, x, p) :: LinkTo(h.tables, id, x, p)
    ensures ViewOk(h, x, d)
  {
    PeersMoved(g, h, x, p, d, d);
    LinksMoved(g, h, x, p, d, d);
    JoinsIsOther(h.tables, x, p);
    JoinsIsOther(g.tables, x, p);
    ExitsMoved(g, h, x, p, d, d);
  }
}
