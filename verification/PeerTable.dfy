/** The agent's peer bookkeeping: two maps that must stay inverse to each
    other, and the kernel's own peer set. The kernel-backed manager guards its
    deletions; the in-memory stub does not. */
module PeerTable {
  import opened Wrappers
  import opened Wire

  datatype PeerConf = PeerConf(endpoint: Endpoint, allowed: Overlay)

  datatype Table = Table(kernel: map<WGKey, PeerConf>,
                         peerNodes: map<WGKey, NodeId>,
                         nodeKeys: map<NodeId, WGKey>)

  const EMPTY := Table(map[], map[], map[])

  /** peerNodes and nodeKeys are inverse bijections, and the kernel holds exactly their keys. */
  ghost predicate Consistent(t: Table) {
    && t.kernel.Keys == t.peerNodes.Keys
    && (forall k <- t.peerNodes :: t.peerNodes[k] in t.nodeKeys && t.nodeKeys[t.peerNodes[k]] == k)
    && (forall n <- t.nodeKeys :: t.nodeKeys[n] in t.peerNodes && t.peerNodes[t.nodeKeys[n]] == n)
  }

  /** Cryptokey routing needs every allowed IP to belong to one peer. */
  ghost predicate DisjointAllowed(t: Table) {
    forall k, k' | k in t.kernel && k' in t.kernel && k != k' :: t.kernel[k].allowed != t.kernel[k'].allowed
  }

  // ---- kernel-backed manager ----

  function ConfOf(spec: PeerSpec): PeerConf {
    PeerConf(spec.endpoint, spec.allowed)
  }

  function RemoveKey(t: Table, key: WGKey): Table {
    var kernel := t.kernel - {key};
    if key !in t.peerNodes then
      t.(kernel := kernel)
    else
      var node := t.peerNodes[key];
      var nodeKeys := if node in t.nodeKeys && t.nodeKeys[node] == key then t.nodeKeys - {node} else t.nodeKeys;
      Table(kernel, t.peerNodes - {key}, nodeKeys)
  }

  function Add(t: Table, spec: PeerSpec): Table {
    Table(t.kernel[spec.key := ConfOf(spec)],
          t.peerNodes[spec.key := spec.node],
          t.nodeKeys[spec.node := spec.key])
  }

  function Update(t: Table, spec: PeerSpec): Table {
    if spec.node in t.nodeKeys && t.nodeKeys[spec.node] != spec.key then
      Add(RemoveKey(t, t.nodeKeys[spec.node]), spec)
    else
      Add(t, spec)
  }

  /** ReplacePeers: the list becomes the whole peer set, later entries winning. */
  function Reconcile(specs: seq<PeerSpec>): Table {
    if specs == [] then EMPTY else Add(Reconcile(specs[..|specs| - 1]), specs[|specs| - 1])
  }

  // ---- in-memory stub ----

  datatype StubTable = StubTable(peerNodes: map<WGKey, NodeId>, nodeKeys: map<NodeId, WGKey>)

  /** The part of the kernel-backed table that the stub also keeps. */
  function Maps(t: Table): StubTable {
    StubTable(t.peerNodes, t.nodeKeys)
  }

  function StubAdd(t: StubTable, spec: PeerSpec): StubTable {
    StubTable(t.peerNodes[spec.key := spec.node], t.nodeKeys[spec.node := spec.key])
  }

  function StubUpdate(t: StubTable, spec: PeerSpec): StubTable {
    if spec.node in t.nodeKeys then
      StubAdd(t.(peerNodes := t.peerNodes - {t.nodeKeys[spec.node]}), spec)
    else
      StubAdd(t, spec)
  }

  function StubRemove(t: StubTable, key: WGKey): StubTable {
    if key in t.peerNodes then
      StubTable(t.peerNodes - {key}, t.nodeKeys - {t.peerNodes[key]})
    else
      t
  }

  function StubReconcile(specs: seq<PeerSpec>): StubTable {
    if specs == [] then StubTable(map[], map[])
    else StubAdd(StubReconcile(specs[..|specs| - 1]), specs[|specs| - 1])
  }

  // ---- what the operations keep ----

  /** AddPeer never drops a stale key: it is safe exactly when node and key are both unclaimed
      (or already paired with each other). */
  lemma AddKeepsConsistent(t: Table, spec: PeerSpec)
    requires Consistent(t)
    ensures Consistent(Add(t, spec)) <==>
            && (spec.node in t.nodeKeys ==> t.nodeKeys[spec.node] == spec.key)
            && (spec.key in t.peerNodes ==> t.peerNodes[spec.key] == spec.node)
  {
    var t' := Add(t, spec);
    if spec.node in t.nodeKeys && t.nodeKeys[spec.node] != spec.key {
      var stale := t.nodeKeys[spec.node];
      assert t'.peerNodes[stale] == spec.node && t'.nodeKeys[spec.node] != stale;
    }
    if spec.key in t.peerNodes && t.peerNodes[spec.key] != spec.node {
      var loser := t.peerNodes[spec.key];
      assert t'.nodeKeys[loser] == spec.key && t'.peerNodes[spec.key] != loser;
    }
  }

  /** UpdatePeer drops the node's stale key, so only a key claimed by another node can break the maps. */
  lemma UpdateKeepsConsistent(t: Table, spec: PeerSpec)
    requires Consistent(t)
    ensures Consistent(Update(t, spec)) <==> (spec.key in t.peerNodes ==> t.peerNodes[spec.key] == spec.node)
  {
    if spec.node in t.nodeKeys && t.nodeKeys[spec.node] != spec.key {
      RemoveKeepsConsistent(t, t.nodeKeys[spec.node]);
      AddKeepsConsistent(RemoveKey(t, t.nodeKeys[spec.node]), spec);
    } else {
      AddKeepsConsistent(t, spec);
    }
  }

  lemma RemoveKeepsConsistent(t: Table, key: WGKey)
    requires Consistent(t)
    ensures Consistent(RemoveKey(t, key))
    ensures key !in RemoveKey(t, key).peerNodes
    ensures forall k :: k in RemoveKey(t, key).kernel <==> k in t.kernel && k != key
  {
  }

  /** A reconciliation list names every node, and every key, at most once. */
  ghost predicate Distinct(specs: seq<PeerSpec>) {
    forall i, j | 0 <= i < j < |specs| :: specs[i].node != specs[j].node && specs[i].key != specs[j].key
  }

  ghost predicate Holds(t: Table, spec: PeerSpec) {
    && spec.node in t.nodeKeys && t.nodeKeys[spec.node] == spec.key
    && spec.key in t.kernel && t.kernel[spec.key] == ConfOf(spec)
  }

  ghost predicate Names(specs: seq<PeerSpec>, node: NodeId) {
    exists i :: 0 <= i < |specs| && specs[i].node == node
  }

  lemma AddKeepsOthers(t: Table, spec: PeerSpec, other: PeerSpec)
    requires Holds(t, other) && other.node != spec.node && other.key != spec.key
    ensures Holds(Add(t, spec), other)
  {
  }

  lemma {:induction false} ReconcileNames(specs: seq<PeerSpec>, n: NodeId)
    ensures n in Reconcile(specs).nodeKeys <==> Names(specs, n)
  {
    if specs != [] {
      var init, last := specs[..|specs| - 1], specs[|specs| - 1];
      ReconcileNames(init, n);
      if Names(specs, n) && n != last.node {
        var i :| 0 <= i < |specs| && specs[i].node == n;
        assert init[i].node == n;
      }
      if Names(init, n) {
        var i :| 0 <= i < |init| && init[i].node == n;
        assert specs[i].node == n;
      }
    }
  }

  lemma {:induction false} ReconcileHolds(specs: seq<PeerSpec>, i: nat)
    requires Distinct(specs) && i < |specs|
    ensures Holds(Reconcile(specs), specs[i])
  {
    var init, last := specs[..|specs| - 1], specs[|specs| - 1];
    if i < |init| {
      assert init[i] == specs[i];
      ReconcileHolds(init, i);
      AddKeepsOthers(Reconcile(init), last, specs[i]);
    }
  }

  lemma {:induction false} ReconcileKeys(specs: seq<PeerSpec>, k: WGKey)
    requires k in Reconcile(specs).peerNodes
    ensures exists i :: 0 <= i < |specs| && specs[i].key == k
  {
    var init, last := specs[..|specs| - 1], specs[|specs| - 1];
    if k != last.key {
      ReconcileKeys(init, k);
      var i :| 0 <= i < |init| && init[i].key == k;
      assert specs[i].key == k;
    }
  }

  /** Reconcile installs exactly the listed peers. */
  lemma {:induction false} ReconcileIsExact(specs: seq<PeerSpec>)
    requires Distinct(specs)
    ensures Consistent(Reconcile(specs))
    ensures forall i | 0 <= i < |specs| :: Holds(Reconcile(specs), specs[i])
    ensures forall n :: n in Reconcile(specs).nodeKeys <==> Names(specs, n)
  {
    forall i | 0 <= i < |specs| ensures Holds(Reconcile(specs), specs[i]) {
      ReconcileHolds(specs, i);
    }
    forall n ensures n in Reconcile(specs).nodeKeys <==> Names(specs, n) {
      ReconcileNames(specs, n);
    }
    if specs != [] {
      var init, last := specs[..|specs| - 1], specs[|specs| - 1];
      ReconcileIsExact(init);
      ReconcileNames(init, last.node);
      if last.key in Reconcile(init).peerNodes {
        ReconcileKeys(init, last.key);
      }
      AddKeepsConsistent(Reconcile(init), last);
    }
  }

  // ---- the stub is a faithful fake ----

  /** The stub's unguarded RemovePeer agrees with the guarded one exactly when the key's node
      does not meanwhile own another key. */
  lemma StubRemoveAgrees(t: Table, key: WGKey)
    ensures Maps(RemoveKey(t, key)) == StubRemove(Maps(t), key) <==>
            (key in t.peerNodes && t.peerNodes[key] in t.nodeKeys ==> t.nodeKeys[t.peerNodes[key]] == key)
  {
    if key in t.peerNodes {
      var node := t.peerNodes[key];
      if node in t.nodeKeys && t.nodeKeys[node] != key {
        assert node in Maps(RemoveKey(t, key)).nodeKeys && node !in StubRemove(Maps(t), key).nodeKeys;
      } else if node !in t.nodeKeys {
        assert t.nodeKeys - {node} == t.nodeKeys;
      }
    }
  }

  /** On consistent tables every operation of the stub yields the kernel-backed manager's maps. */
  lemma StubRefines(t: Table, spec: PeerSpec, key: WGKey)
    requires Consistent(t)
    ensures Maps(Add(t, spec)) == StubAdd(Maps(t), spec)
    ensures Maps(Update(t, spec)) == StubUpdate(Maps(t), spec)
    ensures Maps(RemoveKey(t, key)) == StubRemove(Maps(t), key)
  {
    StubRemoveAgrees(t, key);
    if spec.node in t.nodeKeys {
      var u, v := Maps(Update(t, spec)), StubUpdate(Maps(t), spec);
      assert u.peerNodes == v.peerNodes;
      assert u.nodeKeys == v.nodeKeys;
    }
  }

  lemma {:induction false} StubReconcileRefines(specs: seq<PeerSpec>)
    ensures Maps(Reconcile(specs)) == StubReconcile(specs)
  {
    if specs != [] {
      StubReconcileRefines(specs[..|specs| - 1]);
    }
  }
}
