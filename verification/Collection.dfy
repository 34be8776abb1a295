/** Garbage collection of offline nodes: who is collected, in terms of when the
    hub last heard of them, and what collection achieves. */
module Collection {
  import opened Wrappers
  import opened Wire
  import opened StoreState
  import opened HubState
  import opened HubForms
  import opened Network
  import opened NetworkInvariant
  import opened History
  import opened Guarantees

  /** One sweep of the collector as events. */
  ghost function Sweep(nodes: seq<NodeId>, now: int, after: int): seq<Event> {
    if nodes == [] then []
    else Sweep(nodes[..|nodes| - 1], now, after) + [Handler(Collect(nodes[|nodes| - 1], now, after))]
  }

  lemma {:induction false} SweepIsCollectAll(s: Sys, nodes: seq<NodeId>, now: int, after: int)
    ensures Exec(s, Sweep(nodes, now, after)) == s.(hub := CollectAll(s.hub, nodes, now, after))
  {
    hide Apply;
    if nodes != [] {
      var init := nodes[..|nodes| - 1];
      SweepIsCollectAll(s, init, now, after);
      var run, e := Sweep(init, now, after), Handler(Collect(nodes[|nodes| - 1], now, after));
      assert (run + [e])[..|run|] == run;
    }
  }

  /** The hub last heard of n at time t. */
  ghost predicate LastHeardAt(run: seq<Event>, n: NodeId, t: int) {
    LastContact(run, n) == Some(t)
  }

  /** A sweep at time `now` over the live nodes, in any order: collected afterwards are the nodes collected
      before and exactly the live nodes without a session whose latest drop, register or heartbeat lies at
      least `after` back (a contact at time zero counts as none); and no collected node is in the drained view
      of any serving agent. */
  lemma SweepCollectsTheAbsent(run: seq<Event>, nodes: seq<NodeId>, now: int, after: int, n: NodeId, x: NodeId)
    requires forall m :: m in nodes <==> Live(Exec(INIT, run).hub.tables, m)
    ensures var s, s' := Exec(INIT, run), Exec(INIT, run + Sweep(nodes, now, after));
            && s'.hub == CollectAll(s.hub, nodes, now, after)
            && (n in s'.hub.gcDone <==>
                  || n in s.hub.gcDone
                  || (Live(s.hub.tables, n) && n !in s.hub.sessions
                      && exists t :: LastHeardAt(run, n, t) && t != 0 && now - t >= after))
            && (n in s'.hub.gcDone ==>
                  n !in s'.hub.sessions && (Serving(s', x) ==> n !in DrainedView(s', x).table.nodeKeys))
  {
    hide Next, Apply, Exec, Sweep, LastContact, Serving, CollectAll;
    var s := Exec(INIT, run);
    ExecAppend(INIT, run, Sweep(nodes, now, after));
    SweepIsCollectAll(s, nodes, now, after);
    CollectAllDone(s.hub, nodes, now, after);
    LastSeenIsLastContact(run, n);
    if LastContact(run, n).Some? {
      assert LastHeardAt(run, n, LastContact(run, n).value);
    }
    if n in CollectAll(s.hub, nodes, now, after).gcDone {
      CollectedIsGone(run + Sweep(nodes, now, after), n, x);
    }
  }

  lemma {:induction false} NothingLeftToCollect(h: Hub, nodes: seq<NodeId>, now: int, after: int)
    requires forall n <- nodes :: Overdue(h, n, now, after) ==> n in h.gcDone
    ensures CollectAll(h, nodes, now, after) == h
  {
    hide Overdue, Core, Mails;
    if nodes != [] {
      var init, last := nodes[..|nodes| - 1], nodes[|nodes| - 1];
      assert forall n <- init :: n in nodes;
      NothingLeftToCollect(h, init, now, after);
      assert last in nodes;
    }
  }

  /** Nobody is told twice: a second sweep before anything else has happened does nothing. */
  lemma SecondSweepDoesNothing(h: Hub, nodes: seq<NodeId>, now: int, after: int)
    ensures CollectAll(CollectAll(h, nodes, now, after), nodes, now, after) == CollectAll(h, nodes, now, after)
  {
    hide CollectAll;
    CollectAllDone(h, nodes, now, after);
    NothingLeftToCollect(CollectAll(h, nodes, now, after), nodes, now, after);
  }
}
