/** The hub's persistent tables as values: nodes, links and the address cooldown pool. */
module StoreState {
  import opened Wrappers
  import opened Wire

  datatype NodeRow = NodeRow(overlay: Overlay, serial: Serial, lastSeen: int, revoked: bool)

  /** A link stores its ends in ascending order; `exit` names the end that egresses, if any. */
  datatype Link = Link(id: LinkId, a: NodeId, b: NodeId, exit: Option<NodeId>)

  datatype Tables = Tables(nodes: map<NodeId, NodeRow>, links: map<LinkId, Link>, cooldown: map<Overlay, int>)

  const NO_TABLES := Tables(map[], map[], map[])

  predicate Touches(l: Link, n: NodeId) {
    l.a == n || l.b == n
  }

  function Other(l: Link, n: NodeId): NodeId {
    if l.a == n then l.b else l.a
  }

  predicate Joins(l: Link, n: NodeId, m: NodeId) {
    (l.a == n && l.b == m) || (l.a == m && l.b == n)
  }

  predicate Live(t: Tables, n: NodeId) {
    n in t.nodes && !t.nodes[n].revoked
  }

  ghost predicate Linked(t: Tables, n: NodeId, m: NodeId) {
    exists id :: id in t.links && Joins(t.links[id], n, m)
  }

  /** The link between n and m; unique in consistent tables. */
  ghost function LinkOf(t: Tables, n: NodeId, m: NodeId): Link
    requires Linked(t, n, m)
  {
    var id :| id in t.links && Joins(t.links[id], n, m);
    t.links[id]
  }

  /** Some row order of SELECT ... WHERE a=n OR b=n. */
  ghost predicate IsListing(t: Tables, n: NodeId, rows: seq<Link>) {
    && (forall l :: l in rows <==> l.id in t.links && t.links[l.id] == l && Touches(l, n))
    && (forall i, j | 0 <= i < j < |rows| :: rows[i] != rows[j])
  }

  // ---- writes ----

  function CreateNode(t: Tables, n: NodeId, ip: IPv4, serial: Serial): Tables {
    t.(nodes := t.nodes[n := NodeRow(Active(ip), serial, 0, false)])
  }

  function TouchNode(t: Tables, n: NodeId, now: int): Tables {
    if n in t.nodes then t.(nodes := t.nodes[n := t.nodes[n].(lastSeen := now)]) else t
  }

  function InsertLink(t: Tables, id: LinkId, a: NodeId, b: NodeId): Tables {
    t.(links := t.links[id := SortedLink(id, a, b)])
  }

  function SortedLink(id: LinkId, a: NodeId, b: NodeId): Link {
    if a <= b then Link(id, a, b, None) else Link(id, b, a, None)
  }

  function UpdateExit(t: Tables, id: LinkId, exit: Option<NodeId>): Tables
    requires id in t.links
  {
    t.(links := t.links[id := t.links[id].(exit := exit)])
  }

  function RemoveLink(t: Tables, id: LinkId): Tables {
    t.(links := t.links - {id})
  }

  /** DeleteNode's transaction: links go, the row stays as a revoked stub, the address cools down. */
  function RevokeNode(t: Tables, n: NodeId, now: int): Tables
    requires n in t.nodes
  {
    Tables(t.nodes[n := t.nodes[n].(revoked := true, overlay := Freed(n))],
           map id | id in t.links && !Touches(t.links[id], n) :: t.links[id],
           t.cooldown[t.nodes[n].overlay := now])
  }

  function RevokedSerials(t: Tables): set<Serial> {
    set n | n in t.nodes && t.nodes[n].revoked :: t.nodes[n].serial
  }

  // ---- what the tables always satisfy ----

  ghost predicate LinksOk(t: Tables) {
    && (forall id <- t.links :: t.links[id].id == id)
    && (forall id <- t.links :: t.links[id].a < t.links[id].b && Live(t, t.links[id].a) && Live(t, t.links[id].b))
    && (forall id <- t.links :: t.links[id].exit.Some? ==> Touches(t.links[id], t.links[id].exit.value))
    && (forall i, j | i in t.links && j in t.links && t.links[i].a == t.links[j].a && t.links[i].b == t.links[j].b ::
        i == j)
  }

  ghost predicate NodesOk(t: Tables) {
    && (forall n <- t.nodes :: if t.nodes[n].revoked then t.nodes[n].overlay == Freed(n)
        else t.nodes[n].overlay.Active?)
    && (forall n, m | n in t.nodes && m in t.nodes && n != m :: t.nodes[n].overlay != t.nodes[m].overlay)
    && (forall n, m | n in t.nodes && m in t.nodes && n != m :: t.nodes[n].serial != t.nodes[m].serial)
  }

  ghost predicate TablesOk(t: Tables) {
    LinksOk(t) && NodesOk(t)
  }

  lemma LinkOfIsTheLink(t: Tables, id: LinkId)
    requires LinksOk(t) && id in t.links
    ensures Linked(t, t.links[id].a, t.links[id].b) && LinkOf(t, t.links[id].a, t.links[id].b) == t.links[id]
    ensures Linked(t, t.links[id].b, t.links[id].a) && LinkOf(t, t.links[id].b, t.links[id].a) == t.links[id]
  {
    assert Joins(t.links[id], t.links[id].a, t.links[id].b);
    assert Joins(t.links[id], t.links[id].b, t.links[id].a);
  }
}
