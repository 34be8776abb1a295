/** Key rotation: a rotated key is new to everybody, and the old one is gone as
    soon as the system has settled. */
module Rotation {
  import opened Wrappers
  import opened Wire
  import opened PeerTable
  import opened Device
  import opened StoreState
  import opened HubState
  import opened HubForms
  import opened HubInvariants
  import opened HubView
  import ViewSteps
  import opened Network
  import opened NetworkInvariant
  import opened Guarantees
  import opened History

  // ---- keys only get newer ----

  /** No agent is lost, and none goes back to an earlier key. */
  ghost predicate Newer(s: Sys, s': Sys) {
    forall n <- s.agents :: n in s'.agents && s'.agents[n].device.generation >= s.agents[n].device.generation
  }

  lemma NextIsNewer(s: Sys, e: Event)
    requires AgentsOk(s)
    ensures Newer(s, Next(s, e))
  {
    hide Apply, Flush, Add, Update, RemoveKey, Reconcile, Admitted;
    if e.EnrollNode? && Possible(s, e) {
      assert e.enroll.node !in s.agents;
    }
  }

  lemma {:induction false} LaterIsNewer(run: seq<Event>, k: nat)
    requires k <= |run|
    ensures Newer(Exec(INIT, run[..k]), Exec(INIT, run))
  {
    hide Next;
    if k == |run| {
      assert run[..k] == run;
    } else {
      var init := run[..|run| - 1];
      assert init[..k] == run[..k];
      LaterIsNewer(init, k);
      LastOf(run);
      EveryRunKeepsInv(init);
      NextIsNewer(Exec(INIT, init), run[|run| - 1]);
    }
  }

  predicate Past(s: Sys, key: WGKey) {
    key.owner in s.agents && key.generation <= s.agents[key.owner].device.generation
  }

  lemma PastStays(s: Sys, s': Sys, key: WGKey)
    requires Past(s, key) && Newer(s, s')
    ensures Past(s', key)
  {
  }

  /** Every key the hub holds, and every key on its way to the hub, was its owner's at some time. */
  ghost predicate KeysPast(s: Sys) {
    && (forall n <- s.hub.lastWG :: Past(s, s.hub.lastWG[n].key))
    && (forall sid <- s.up :: forall r <- s.up[sid] | r.Register? :: Past(s, r.key))
  }

  lemma ReportsPast(s: Sys, e: Event)
    requires Inv(s) && KeysPast(s)
    ensures var s' := Next(s, e);
            forall sid <- s'.up :: forall r <- s'.up[sid] | r.Register? :: Past(s', r.key)
  {
    hide Apply, Flush, Healthy, OwnKeys, CurrentOk, DevicesOk, OpenSessionsOk, Handle, Past, IsListing;
    var s' := Next(s, e);
    NextIsNewer(s, e);
    forall sid <- s'.up, r | r in s'.up[sid] && r.Register? ensures Past(s', r.key) {
      if sid in s.up && r in s.up[sid] {
        PastStays(s, s', r.key);
      } else {
        NewRegister(s, e, sid, r);
      }
    }
  }

  /** Only dialling in puts a register on a connection, with the agent's current key. */
  lemma NewRegister(s: Sys, e: Event, sid: SessionId, r: Report)
    requires sid in Next(s, e).up && r in Next(s, e).up[sid] && r.Register? && !(sid in s.up && r in s.up[sid])
    ensures Past(Next(s, e), r.key)
  {
    hide Apply, Flush, Handle, IsListing, Admitted, Enabled;
  }

  lemma IdentsPast(s: Sys, e: Event)
    requires Inv(s) && KeysPast(s)
    ensures var s' := Next(s, e); forall n <- s'.hub.lastWG :: Past(s', s'.hub.lastWG[n].key)
  {
    hide Next, Inv, Past;
    var s' := Next(s, e);
    forall n <- s'.hub.lastWG ensures Past(s', s'.hub.lastWG[n].key) {
      IdentNext(s, e, n);
      AgentsPart(s);
      NextIsNewer(s, e);
      assert IdentOf(s'.hub, n) == Some(s'.hub.lastWG[n]);
      if Registers(s, e, n) {
        var said := Heard(s, e).value;
        assert said in s.up[s.hub.sessions[n].sid];
        PastStays(s, s', said.key);
      } else {
        PastStays(s, s', s.hub.lastWG[n].key);
      }
    }
  }

  lemma AgentsPart(s: Sys)
    requires Inv(s)
    ensures AgentsOk(s)
  {
  }

  lemma {:induction false} ReachableKeysPast(run: seq<Event>)
    ensures Inv(Exec(INIT, run)) && KeysPast(Exec(INIT, run))
  {
    hide Next, Inv, Past;
    EveryRunKeepsInv(run);
    if run != [] {
      var init, e := run[..|run| - 1], run[|run| - 1];
      ReachableKeysPast(init);
      LastOf(run);
      ReportsPast(Exec(INIT, init), e);
      IdentsPast(Exec(INIT, init), e);
    }
  }

  // ---- what renews a key ----

  /** n's agent applies a rotate_wg, or its process is started again. */
  ghost predicate Renews(s: Sys, e: Event, n: NodeId) {
    || (&& e == AgentRead(n) && Possible(s, e) && s.agents[n].device.phase == Serve
        && s.wire[s.agents[n].conn.value][0].RotateWG?)
    || (e.AgentRestart? && e.node == n && Possible(s, e))
  }

  lemma RenewedKey(s: Sys, e: Event, n: NodeId)
    requires Renews(s, e, n)
    ensures var s' := Next(s, e);
            && n in s.agents && n in s'.agents
            && s'.agents[n].device.generation > s.agents[n].device.generation
            && s'.agents[n].device.table == EMPTY && s'.agents[n].conn == None
  {
  }

  /** Once n's agent has rotated or restarted, in every later state its key differs from its key in every
      state before, and from every key the hub held before; and whenever the system is quiescent again, every
      neighbour has installed the agent's key and no other key of n. */
  lemma RenewedKeyIsNew(run: seq<Event>, e: Event, more: seq<Event>, n: NodeId, k: nat, x: NodeId)
    requires Renews(Exec(INIT, run), e, n) && k <= |run|
    ensures var before, after := Exec(INIT, run[..k]), Exec(INIT, run + [e] + more);
            && n in after.agents
            && var key := KeyOf(n, after.agents[n]);
               && (n in before.agents ==> KeyOf(n, before.agents[n]) != key)
               && (forall m <- before.hub.lastWG :: before.hub.lastWG[m].key != key)
               && (Quiescent(after) && Linked(after.hub.tables, x, n) ==>
                     && x in after.agents && n in after.agents[x].device.table.nodeKeys
                     && after.agents[x].device.table.nodeKeys[n] == key
                     && forall j <- after.agents[x].device.table.kernel :: j.owner == n ==> j == key)
  {
    hide Next, Inv, Quiescent, Converged, Exec, Renews, Linked;
    var all := run + [e] + more;
    var s, before, after := Exec(INIT, run), Exec(INIT, run[..k]), Exec(INIT, all);
    ReachableKeysPast(run[..k]);
    LaterIsNewer(run, k);
    RenewedKey(s, e, n);
    ExecMore(run, e);
    assert all[..|run| + 1] == run + [e];
    LaterIsNewer(all, |run| + 1);
    if Quiescent(after) && Linked(after.hub.tables, x, n) {
      QuiescentIsConverged(all);
      EveryRunKeepsInv(all);
      HealthyPart(after);
      NeighbourHolds(after, x, n);
    }
  }

  /** In a converged system a neighbour's kernel has the node's key and no other key of the node. */
  lemma NeighbourHolds(s: Sys, x: NodeId, n: NodeId)
    requires Converged(s) && LinksOk(s.hub.tables) && Linked(s.hub.tables, x, n)
    ensures x in s.agents && n in s.agents && n in s.agents[x].device.table.nodeKeys
    ensures s.agents[x].device.table.nodeKeys[n] == KeyOf(n, s.agents[n])
    ensures forall j <- s.agents[x].device.table.kernel :: j.owner == n ==> j == KeyOf(n, s.agents[n])
  {
    hide ConvergedAt, LinksOk, Linked;
    ViewSteps.LinkedIsLive(s.hub.tables, x, n);
    assert ConvergedAt(s, x);
    HeldKeys(s, x, n);
  }

  lemma HeldKeys(s: Sys, x: NodeId, n: NodeId)
    requires ConvergedAt(s, x) && Linked(s.hub.tables, x, n)
    ensures x in s.agents && n in s.agents && n in s.agents[x].device.table.nodeKeys
    ensures s.agents[x].device.table.nodeKeys[n] == KeyOf(n, s.agents[n])
    ensures forall j <- s.agents[x].device.table.kernel :: j.owner == n ==> j == KeyOf(n, s.agents[n])
  {
    hide Linked;
    var t := s.agents[x].device.table;
    assert n in t.nodeKeys && HoldsActual(s, t, n);
    forall j | j in t.kernel.Keys && j.owner == n ensures j == KeyOf(n, s.agents[n]) {
      assert j in (set p | p in t.nodeKeys :: t.nodeKeys[p]);
      var p :| p in t.nodeKeys && t.nodeKeys[p] == j;
      assert HoldsActual(s, t, p);
    }
  }

  // ---- a rotation asked for ----

  /** A rotation asked for at the hub: with room on the queue it is sent, and it renews the key in the drained
      view if and only if it is dispatched; a full queue ends the session instead. */
  lemma RotationIsDelivered(s: Sys, n: NodeId)
    requires Attached(s, n)
    ensures var s', d, q := Next(s, Handler(RotateNode(n))), s.agents[n].device, Queue(s, n);
            if |s.hub.sessions[n].out| < 64 then
              && Attached(s', n)
              && DrainedView(s', n).generation == DrainedView(s, n).generation + (if Dispatches(d, q) then 1 else 0)
              && (Dispatches(d, q) ==> DrainedView(s', n).table == EMPTY)
              && DrainedView(s', n).exits == DrainedView(s, n).exits
            else !Attached(s', n)
  {
    hide Apply, Drain, Dispatches;
    AskForm(s.hub, n);
    var s', d, q := Next(s, Handler(RotateNode(n))), s.agents[n].device, Queue(s, n);
    if |s.hub.sessions[n].out| < 64 {
      var f := RotateWG(EnvId(s.hub.operations, n));
      var w, out := s.wire[s.hub.sessions[n].sid], s.hub.sessions[n].out;
      assert w + (out + [f]) == (w + out) + [f];
      assert Queue(s', n) == q + [f];
      DrainAppend(d, q, f);
      DispatchesIffServing(d, q);
    }
  }
}
