/** The agent as the program has it: the kernel-backed peer manager, its
    in-memory stub, the exit controller, and the session that drives them. */
module AgentServer {
  import opened Wrappers
  import opened Wire
  import opened PeerTable
  import opened Device

  /** linuxWG: the kernel's peer set and the two maps kept beside it. */
  class LinuxWG {
    var kernel: map<WGKey, PeerConf>
    var peerNodes: map<WGKey, NodeId>
    var nodeKeys: map<NodeId, WGKey>
    var generation: nat

    function Contents(): Table
      reads this
    {
      Table(kernel, peerNodes, nodeKeys)
    }

    /** Init: a device created from scratch with a new key. */
    constructor (generation: nat)
      ensures Contents() == EMPTY && this.generation == generation
    {
      kernel, peerNodes, nodeKeys := map[], map[], map[];
      this.generation := generation;
    }

    method Reconcile(specs: seq<PeerSpec>)
      modifies this
      ensures Contents() == PeerTable.Reconcile(specs) && generation == old(generation)
    {
      var peers: map<WGKey, PeerConf>, nodes: map<WGKey, NodeId>, keys: map<NodeId, WGKey> := map[], map[], map[];
      for i := 0 to |specs|
        modifies {}
        invariant Table(peers, nodes, keys) == PeerTable.Reconcile(specs[..i])
      {
        assert specs[..i + 1][..i] == specs[..i];
        var spec := specs[i];
        peers := peers[spec.key := ConfOf(spec)];
        nodes := nodes[spec.key := spec.node];
        keys := keys[spec.node := spec.key];
      }
      assert specs[..|specs|] == specs;
      kernel := peers;
      peerNodes, nodeKeys := nodes, keys;
    }

    method AddPeer(spec: PeerSpec)
      modifies this
      ensures Contents() == Add(old(Contents()), spec) && generation == old(generation)
    {
      kernel := kernel[spec.key := ConfOf(spec)];
      peerNodes := peerNodes[spec.key := spec.node];
      nodeKeys := nodeKeys[spec.node := spec.key];
    }

    /** The node's previous key is dropped first. */
    method UpdatePeer(spec: PeerSpec)
      modifies this
      ensures Contents() == Update(old(Contents()), spec) && generation == old(generation)
    {
      if spec.node in nodeKeys && nodeKeys[spec.node] != spec.key {
        RemovePeer(nodeKeys[spec.node]);
      }
      AddPeer(spec);
    }

    /** The reverse entry goes only if it still names this key. */
    method RemovePeer(key: WGKey)
      modifies this
      ensures Contents() == RemoveKey(old(Contents()), key) && generation == old(generation)
    {
      kernel := kernel - {key};
      if key in peerNodes {
        var node := peerNodes[key];
        peerNodes := peerNodes - {key};
        if node in nodeKeys && nodeKeys[node] == key {
          nodeKeys := nodeKeys - {node};
        }
      }
    }

    method Rotate()
      modifies this
      ensures Contents() == EMPTY && generation == old(generation) + 1
    {
      kernel := map[];
      generation := generation + 1;
      peerNodes, nodeKeys := map[], map[];
    }

    /** The interface is deleted, and its peers with it; the maps stay. */
    method Teardown()
      modifies this
      ensures Contents() == old(Contents()).(kernel := map[]) && generation == old(generation)
    {
      kernel := map[];
    }

    /** The process exits, and its memory with it. */
    method Exit()
      modifies this
      ensures Contents() == old(Contents()).(peerNodes := map[], nodeKeys := map[]) && generation == old(generation)
    {
      peerNodes, nodeKeys := map[], map[];
    }
  }

  /** stubWG: the same maps without guards and without a kernel. */
  class StubWG {
    var peerNodes: map<WGKey, NodeId>
    var nodeKeys: map<NodeId, WGKey>

    function Contents(): StubTable
      reads this
    {
      StubTable(peerNodes, nodeKeys)
    }

    constructor ()
      ensures Contents() == Maps(EMPTY)
    {
      peerNodes, nodeKeys := map[], map[];
    }

    method Reconcile(specs: seq<PeerSpec>)
      modifies this
      ensures Contents() == StubReconcile(specs)
    {
      peerNodes, nodeKeys := map[], map[];
      for i := 0 to |specs|
        invariant Contents() == StubReconcile(specs[..i])
      {
        assert specs[..i + 1][..i] == specs[..i];
        AddPeer(specs[i]);
      }
      assert specs[..|specs|] == specs;
    }

    method AddPeer(spec: PeerSpec)
      modifies this
      ensures Contents() == StubAdd(old(Contents()), spec)
    {
      peerNodes := peerNodes[spec.key := spec.node];
      nodeKeys := nodeKeys[spec.node := spec.key];
    }

    method UpdatePeer(spec: PeerSpec)
      modifies this
      ensures Contents() == StubUpdate(old(Contents()), spec)
    {
      if spec.node in nodeKeys {
        peerNodes := peerNodes - {nodeKeys[spec.node]};
      }
      peerNodes := peerNodes[spec.key := spec.node];
      nodeKeys := nodeKeys[spec.node := spec.key];
    }

    method RemovePeer(key: WGKey)
      modifies this
      ensures Contents() == StubRemove(old(Contents()), key)
    {
      if key in peerNodes {
        var node := peerNodes[key];
        peerNodes := peerNodes - {key};
        nodeKeys := nodeKeys - {node};
      }
    }

    method Rotate()
      modifies this
      ensures Contents() == Maps(EMPTY)
    {
      peerNodes, nodeKeys := map[], map[];
    }
  }

  /** ExitController: `up` is the upstream in force, None meaning direct egress. */
  class ExitController {
    const override: Option<ExitAddr>
    var exits: map<LinkId, ExitAddr>
    var up: Option<ExitAddr>

    /** Unless pinned, egress is direct exactly when no link designates an exit, and otherwise goes
        through one of the designated ones. */
    ghost predicate Valid()
      reads this
    {
      match override
      case Some(addr) => up == Some(addr) && exits == map[]
      case None =>
        && (up == None <==> exits == map[])
        && (up.Some? ==> exists id :: id in exits && exits[id] == up.value)
    }

    /** What the controller makes of an exit set it is asked to hold. */
    ghost function Kept(wanted: map<LinkId, ExitAddr>): map<LinkId, ExitAddr> {
      if override.Some? then map[] else wanted
    }

    constructor (override: Option<ExitAddr>)
      ensures this.override == override && Valid() && exits == map[]
    {
      this.override, exits, up := override, map[], override;
    }

    method SetLinkExit(link: LinkId, addr: Option<ExitAddr>)
      requires Valid()
      modifies this
      ensures Valid()
      ensures exits == Kept(if addr.Some? then old(exits)[link := addr.value] else old(exits) - {link})
    {
      if override.Some? {
        return;
      }
      if addr == None {
        exits := exits - {link};
      } else {
        exits := exits[link := addr.value];
      }
      Recompute();
    }

    /** The upstream is chosen anew only if the link had an exit. */
    method ClearByLink(link: LinkId)
      requires Valid()
      modifies this
      ensures Valid()
      ensures exits == Kept(old(exits) - {link})
      ensures link !in old(exits) ==> up == old(up)
    {
      if override.Some? {
        return;
      }
      if link in exits {
        exits := exits - {link};
        Recompute();
      } else {
        assert exits - {link} == exits;
      }
    }

    method Reconcile(byLink: map<LinkId, ExitAddr>)
      requires Valid()
      modifies this
      ensures Valid()
      ensures exits == Kept(byLink)
    {
      if override.Some? {
        return;
      }
      exits := map[];
      var todo := byLink.Keys;
      while todo != {}
        invariant todo <= byLink.Keys
        invariant exits == map id | id in byLink && id !in todo :: byLink[id]
        decreases todo
      {
        var id :| id in todo;
        todo := todo - {id};
        exits := exits[id := byLink[id]];
      }
      Recompute();
    }

    /** Any entry may be chosen: Go ranges over a map in no particular order. */
    method Recompute()
      requires override == None
      modifies this`up
      ensures Valid()
    {
      if exits.Keys == {} {
        assert exits == map[];
        up := None;
        return;
      }
      var id :| id in exits.Keys;
      up := Some(exits[id]);
    }
  }

  /** The agent process during one session. */
  class Agent {
    const wg: LinuxWG
    const exit: ExitController
    var phase: Phase

    ghost predicate Valid()
      reads exit
    {
      exit.Valid()
    }

    /** The device, as far as the exit controller is allowed to follow the hub. */
    ghost function State(): Device
      reads this, wg, exit
    {
      Device(phase, wg.generation, wg.Contents(), exit.exits)
    }

    /** What Handle makes of the device, with the exits a pinned controller refuses left out. */
    ghost function Follow(d: Device): Device {
      d.(exits := exit.Kept(d.exits))
    }

    constructor (wg: LinuxWG, exit: ExitController)
      requires exit.Valid()
      ensures Valid() && this.wg == wg && this.exit == exit && phase == Await
    {
      this.wg, this.exit, phase := wg, exit, Await;
    }

    /** register: the first frame must be the register_ack. */
    method ReadRegisterAck(f: Frame)
      requires Valid() && phase == Await
      modifies this, wg, exit
      ensures Valid() && State() == Follow(Handle(old(State()), f))
    {
      if !f.RegisterAck? {
        phase := Ended;
        return;
      }
      wg.Reconcile(f.peers);
      var exits := map[];
      for i := 0 to |f.peers|
        modifies {}
        invariant exits == ExitsOf(f.peers[..i])
      {
        assert f.peers[..i + 1][..i] == f.peers[..i];
        if f.peers[i].exit.Some? {
          exits := exits[f.peers[i].link := f.peers[i].exit.value];
        }
      }
      assert f.peers[..|f.peers|] == f.peers;
      exit.Reconcile(exits);
      phase := Serve;
    }

    /** dispatch: one frame of the read loop, and the reports written back. */
    method Dispatch(f: Frame) returns (answers: seq<Report>)
      requires Valid() && phase == Serve
      modifies this, wg, exit
      ensures Valid() && State() == Follow(Handle(old(State()), f))
      ensures answers == Answer(old(State()), f)
    {
      answers := [];
      match f
      case PeerAdd(id, spec) =>
        wg.AddPeer(spec);
        exit.SetLinkExit(spec.link, spec.exit);
        answers := [Ack(id, true)];
      case PeerUpdate(id, spec) =>
        wg.UpdatePeer(spec);
        exit.SetLinkExit(spec.link, spec.exit);
        answers := [Ack(id, true)];
      case PeerRemove(id, link, key) =>
        wg.RemovePeer(key);
        exit.ClearByLink(link);
        answers := [Ack(id, true)];
      case RotateWG(id) =>
        answers := [Ack(id, true)];
        wg.Rotate();
        phase := Ended;
      case Kick =>
        wg.Teardown();
        phase := Ended;
        wg.Exit();
      case Request(id) =>
        answers := [Reply(id)];
      case RegisterAck(_) =>
      case Error =>
    }

    /** The session's read loop over everything the hub sends until the connection breaks. */
    method Session(q: seq<Frame>)
      requires Valid() && phase == Await
      modifies this, wg, exit
      ensures Valid() && State() == Follow(Drain(old(State()), q))
      ensures exit.override == None ==> State() == Drain(old(State()), q)
      ensures exit.override.Some? ==> exit.exits == map[] && exit.up == exit.override
    {
      if q == [] {
        return;
      }
      ReadRegisterAck(q[0]);
      TableIgnoresExits(State(), Handle(old(State()), q[0]), q[1..]);
      var i := 1;
      while i < |q| && phase == Serve
        invariant Valid() && 1 <= i <= |q| && phase != Await
        invariant Follow(State()) == State() && Follow(Drain(old(State()), q)) == Follow(Drain(State(), q[i..]))
      {
        assert q[i..][0] == q[i] && q[i..][1..] == q[i + 1..];
        ghost var before := State();
        var _ := Dispatch(q[i]);
        TableIgnoresExits(State(), Handle(before, q[i]), q[i + 1..]);
        i := i + 1;
      }
      if phase == Ended {
        EndedStays(State(), q[i..]);
      }
    }
  }

  /** A pinned controller changes nothing else: the peers of a drained queue do not depend on the exits. */
  lemma {:induction false} TableIgnoresExits(d: Device, e: Device, q: seq<Frame>)
    requires d.(exits := map[]) == e.(exits := map[])
    ensures Drain(d, q).(exits := map[]) == Drain(e, q).(exits := map[])
    decreases |q|
  {
    if q != [] {
      TableIgnoresExits(Handle(d, q[0]), Handle(e, q[0]), q[1..]);
    }
  }
}
