/** The link table is the graph the administrator asked for: unordered pairs of
    nodes, each with the exit last set. */
module Topology {
  import opened Wrappers
  import opened Wire
  import opened StoreState
  import opened HubState
  import opened HubInvariants
  import opened Network
  import opened NetworkInvariant
  import opened History
  import Ipam

  /** One requested link: its two ends in no order, and the end that egresses. */
  datatype Pair = Pair(ends: set<NodeId>, exit: Option<NodeId>)

  /** The graph after one more event. Creation is refused for a node with itself, a node that is not live, a
      pair that exists and an id already used; an exit is refused if it is not an end. */
  ghost function Request(s: Sys, e: Event, g: map<LinkId, Pair>): map<LinkId, Pair> {
    if !e.Handler? then g
    else match e.op
    case CreateLink(id, a, b) =>
      if a != b && Live(s.hub.tables, a) && Live(s.hub.tables, b) && FreshLink(s.hub, id)
         && forall k <- g :: g[k].ends != {a, b}
      then g[id := Pair({a, b}, None)] else g
    case SetLinkExit(id, exit) =>
      if id in g && (exit.Some? ==> exit.value in g[id].ends) then g[id := Pair(g[id].ends, exit)] else g
    case DeleteLink(id) => g - {id}
    case DeleteNode(n, _) => map id | id in g && n !in g[id].ends :: g[id]
    case _ => g
  }

  ghost function Requested(run: seq<Event>): map<LinkId, Pair> {
    if run == [] then map[]
    else Request(Exec(INIT, run[..|run| - 1]), run[|run| - 1], Requested(run[..|run| - 1]))
  }

  ghost predicate Holds(t: Tables, g: map<LinkId, Pair>) {
    && t.links.Keys == g.Keys
    && forall id <- t.links ::
         var l := t.links[id];
         l.id == id && l.a < l.b && {l.a, l.b} == g[id].ends && l.exit == g[id].exit
  }

  lemma SamePair(a: NodeId, b: NodeId, l: Link)
    requires l.a != l.b
    ensures {l.a, l.b} == {a, b} <==> Joins(l, a, b)
  {
    if {l.a, l.b} == {a, b} {
      assert a in {l.a, l.b} && b in {l.a, l.b} && l.a in {a, b} && l.b in {a, b};
    }
  }

  lemma LinkedInGraph(t: Tables, g: map<LinkId, Pair>, a: NodeId, b: NodeId)
    requires LinksOk(t) && Holds(t, g)
    ensures Linked(t, a, b) <==> exists k :: k in g && g[k].ends == {a, b}
  {
    forall id <- t.links ensures g[id].ends == {a, b} <==> Joins(t.links[id], a, b) {
      SamePair(a, b, t.links[id]);
    }
  }

  /** What a handler does to the link table. */
  lemma LinksAfter(h: Hub, op: Operation)
    ensures var links, links' := h.tables.links, Apply(h, op).tables.links;
            match op
            case CreateLink(id, a, b) => links' == if Enabled(h, op) then links[id := SortedLink(id, a, b)] else links
            case SetLinkExit(id, exit) =>
              links' == if Enabled(h, op) then links[id := links[id].(exit := exit)] else links
            case DeleteLink(id) => links' == links - {id}
            case DeleteNode(n, _) =>
              n in h.tables.nodes ==> links' == map id | id in links && !Touches(links[id], n) :: links[id]
            case _ => links' == links
    ensures op.DeleteNode? && op.node !in h.tables.nodes ==> Apply(h, op) == h
  {
    hide Mails, RegisterLinks, BeatLinks, PairLinks, FreshLink, IsListing;
  }

  lemma CreateHolds(s: Sys, e: Event, g: map<LinkId, Pair>)
    requires LinksOk(s.hub.tables) && Holds(s.hub.tables, g) && e.Handler? && e.op.CreateLink?
    ensures Holds(Apply(s.hub, e.op).tables, Request(s, e, g))
  {
    hide Apply, FreshLink, LinksOk;
    LinkedInGraph(s.hub.tables, g, e.op.a, e.op.b);
    LinksAfter(s.hub, e.op);
  }

  lemma RequestHolds(s: Sys, e: Event, g: map<LinkId, Pair>)
    requires LinksOk(s.hub.tables) && Holds(s.hub.tables, g) && e.Handler? && !e.op.CreateLink? && Spontaneous(e.op)
    ensures Holds(Apply(s.hub, e.op).tables, Request(s, e, g))
  {
    hide Apply, FreshLink, LinksOk, Touches;
    LinksAfter(s.hub, e.op);
    match e.op
    case DeleteNode(n, _) => EndsAreTouched(s.hub.tables, g, n);
    case SetLinkExit(id, exit) =>
      if exit.Some? {
        EndsAreTouched(s.hub.tables, g, exit.value);
      }
    case _ =>
  }

  lemma EndsAreTouched(t: Tables, g: map<LinkId, Pair>, n: NodeId)
    requires LinksOk(t) && Holds(t, g)
    ensures forall id <- t.links :: Touches(t.links[id], n) ==> Live(t, n)
    ensures forall id <- t.links :: Touches(t.links[id], n) <==> n in g[id].ends
  {
    forall id <- t.links ensures Touches(t.links[id], n) <==> n in g[id].ends {
      assert n in {t.links[id].a, t.links[id].b} <==> Touches(t.links[id], n);
    }
  }

  lemma OthersKeepLinks(s: Sys, e: Event)
    requires !e.Handler?
    ensures Next(s, e).hub.tables.links == s.hub.tables.links
  {
    hide Apply, Next, IsListing, Admitted, Enabled;
    HubNext(s, e);
    if OperationOf(s, e).Some? {
      LinksAfter(s.hub, OperationOf(s, e).value);
    }
  }

  /** In every reachable state the link table is the graph requested by the run. */
  lemma {:induction false} LinksAreRequested(run: seq<Event>)
    ensures Holds(Exec(INIT, run).hub.tables, Requested(run))
  {
    hide Inv, Request, Holds, Apply, Healthy;
    if run == [] {
      NothingRequested();
    } else {
      var init, e := run[..|run| - 1], run[|run| - 1];
      var s := Exec(INIT, init);
      LinksAreRequested(init);
      LastOf(run);
      EveryRunKeepsInv(init);
      RequestNext(s, e, Requested(init));
    }
  }

  lemma NothingRequested()
    ensures Holds(Exec(INIT, []).hub.tables, map[])
  {
  }

  lemma RequestNext(s: Sys, e: Event, g: map<LinkId, Pair>)
    requires Inv(s) && Holds(s.hub.tables, g)
    ensures Holds(Next(s, e).hub.tables, Request(s, e, g))
  {
    hide Inv, Holds, Apply, FreshLink, Live;
    HealthyPart(s);
    if e.Handler? {
      if Spontaneous(e.op) {
        if e.op.CreateLink? {
          CreateHolds(s, e, g);
        } else {
          RequestHolds(s, e, g);
        }
      }
    } else {
      OthersKeepLinks(s, e);
      SameLinkTable(s.hub.tables, Next(s, e).hub.tables, g);
    }
  }

  lemma SameLinkTable(t: Tables, t': Tables, g: map<LinkId, Pair>)
    requires Holds(t, g) && t'.links == t.links
    ensures Holds(t', g)
  {
  }
}
