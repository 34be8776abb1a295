/** The agent's half of the protocol: what each frame does to its device, and
    the drained view, that is, the device after everything already sent to it
    has been applied. */
module Device {
  import opened Wrappers
  import opened Wire
  import opened PeerTable

  /** Await: register was sent, register_ack has not been read yet.
      Serve: the read loop is running. Ended: the agent has left this session. */
  datatype Phase = Await | Serve | Ended

  /** `generation` is that of the current WireGuard key; `exits` maps links to exit SOCKS addresses. */
  datatype Device = Device(phase: Phase, generation: nat, table: Table, exits: map<LinkId, ExitAddr>)

  function SetExit(exits: map<LinkId, ExitAddr>, spec: PeerSpec): map<LinkId, ExitAddr> {
    match spec.exit
    case Some(addr) => exits[spec.link := addr]
    case None => exits - {spec.link}
  }

  /** The exit set carried by a reconciliation list. */
  function ExitsOf(specs: seq<PeerSpec>): map<LinkId, ExitAddr> {
    if specs == [] then map[]
    else
      var init, last := ExitsOf(specs[..|specs| - 1]), specs[|specs| - 1];
      if last.exit.Some? then init[last.link := last.exit.value] else init
  }

  /** One frame, as read by register (Await) or dispatch (Serve). */
  function Handle(d: Device, f: Frame): Device {
    match d.phase
    case Ended => d
    case Await =>
      if f.RegisterAck? then Device(Serve, d.generation, Reconcile(f.peers), ExitsOf(f.peers))
      else d.(phase := Ended)
    case Serve =>
      match f
      case PeerAdd(_, spec) => d.(table := Add(d.table, spec), exits := SetExit(d.exits, spec))
      case PeerUpdate(_, spec) => d.(table := Update(d.table, spec), exits := SetExit(d.exits, spec))
      case PeerRemove(_, link, key) => d.(table := RemoveKey(d.table, key), exits := d.exits - {link})
      case RotateWG(_) => d.(phase := Ended, generation := d.generation + 1, table := EMPTY)
      case Kick => d.(phase := Ended, table := EMPTY)
      case RegisterAck(_) => d
      case Request(_) => d
      case Error => d
  }

  /** What the agent writes back while handling a frame. */
  function Answer(d: Device, f: Frame): seq<Report> {
    if d.phase != Serve then []
    else match f
      case PeerAdd(id, _) => [Ack(id, true)]
      case PeerUpdate(id, _) => [Ack(id, true)]
      case PeerRemove(id, _, _) => [Ack(id, true)]
      case RotateWG(id) => [Ack(id, true)]
      case Request(id) => [Reply(id)]
      case _ => []
  }

  /** The drained view. */
  function Drain(d: Device, q: seq<Frame>): Device
    decreases |q|
  {
    if q == [] then d else Drain(Handle(d, q[0]), q[1..])
  }

  lemma {:induction false} DrainAppend(d: Device, q: seq<Frame>, f: Frame)
    ensures Drain(d, q + [f]) == Handle(Drain(d, q), f)
    decreases |q|
  {
    if q == [] {
      assert (q + [f])[1..] == [];
    } else {
      assert (q + [f])[1..] == q[1..] + [f];
      DrainAppend(Handle(d, q[0]), q[1..], f);
    }
  }

  // ---- safety of every single application ----

  /** Every frame that reaches a serving device finds it in a state where applying it is sound:
      AddPeer only meets an unknown peer, a key never moves between nodes, and no allowed IP is shared. */
  ghost predicate Sound(d: Device, f: Frame) {
    match d.phase
    case Ended => true
    case Await => f.RegisterAck? ==> Distinct(f.peers) && DistinctAllowed(f.peers)
    case Serve =>
      match f
      case PeerAdd(_, spec) =>
        && spec.node !in d.table.nodeKeys && spec.key !in d.table.peerNodes
        && FreeAllowed(d.table, spec)
      case PeerUpdate(_, spec) =>
        && (spec.key in d.table.peerNodes ==> d.table.peerNodes[spec.key] == spec.node)
        && FreeAllowed(d.table, spec)
      case _ => true
  }

  ghost predicate DistinctAllowed(specs: seq<PeerSpec>) {
    forall i, j | 0 <= i < j < |specs| :: specs[i].allowed != specs[j].allowed
  }

  /** No other node's peer uses the spec's allowed IP. */
  ghost predicate FreeAllowed(t: Table, spec: PeerSpec) {
    forall k | k in t.kernel && k in t.peerNodes && t.peerNodes[k] != spec.node :: t.kernel[k].allowed != spec.allowed
  }

  ghost predicate Clean(t: Table) {
    Consistent(t) && DisjointAllowed(t)
  }

  lemma {:induction false} ReconcileDisjoint(specs: seq<PeerSpec>)
    requires Distinct(specs) && DistinctAllowed(specs)
    ensures Clean(Reconcile(specs))
  {
    ReconcileIsExact(specs);
    var t := Reconcile(specs);
    forall k, k' | k in t.kernel && k' in t.kernel && k != k'
      ensures t.kernel[k].allowed != t.kernel[k'].allowed
    {
      ReconcileKeys(specs, k);
      ReconcileKeys(specs, k');
      var i :| 0 <= i < |specs| && specs[i].key == k;
      var j :| 0 <= j < |specs| && specs[j].key == k';
      assert Holds(t, specs[i]) && Holds(t, specs[j]);
    }
  }

  /** A sound application keeps the device healthy. */
  lemma HandleKeepsClean(d: Device, f: Frame)
    requires Clean(d.table) && Sound(d, f)
    ensures Clean(Handle(d, f).table)
  {
    if d.phase == Await && f.RegisterAck? {
      ReconcileDisjoint(f.peers);
    }
    if d.phase == Serve {
      match f
      case PeerAdd(_, spec) => AddKeepsConsistent(d.table, spec);
      case PeerUpdate(_, spec) => UpdateKeepsClean(d.table, spec);
      case PeerRemove(_, _, key) => RemoveKeepsConsistent(d.table, key);
      case _ =>
    }
  }

  lemma UpdateKeepsClean(t: Table, spec: PeerSpec)
    requires Clean(t) && FreeAllowed(t, spec)
    requires spec.key in t.peerNodes ==> t.peerNodes[spec.key] == spec.node
    ensures Clean(Update(t, spec))
  {
    UpdateKeepsConsistent(t, spec);
    var t' := Update(t, spec);
    forall k | k in t'.kernel && k != spec.key
      ensures k in t.kernel && t'.kernel[k] == t.kernel[k] && t.peerNodes[k] != spec.node
    {
    }
  }

  /** Every frame of q is sound at the moment it is applied. */
  ghost predicate AllSound(d: Device, q: seq<Frame>)
    decreases |q|
  {
    q != [] ==> Sound(d, q[0]) && AllSound(Handle(d, q[0]), q[1..])
  }

  lemma {:induction false} AllSoundAppend(d: Device, q: seq<Frame>, f: Frame)
    ensures AllSound(d, q + [f]) <==> AllSound(d, q) && Sound(Drain(d, q), f)
    decreases |q|
  {
    if q == [] {
      assert (q + [f])[1..] == [];
    } else {
      assert (q + [f])[1..] == q[1..] + [f];
      AllSoundAppend(Handle(d, q[0]), q[1..], f);
    }
  }

  /** Losing the tail of a queue loses nothing that was promised about its head. */
  lemma {:induction false} AllSoundPrefix(d: Device, q: seq<Frame>, r: seq<Frame>)
    requires AllSound(d, q + r)
    ensures AllSound(d, q)
    decreases |q|
  {
    if q != [] {
      assert (q + r)[1..] == q[1..] + r;
      AllSoundPrefix(Handle(d, q[0]), q[1..], r);
    }
  }

  /** Clean at the start and sound at every step: healthy after every prefix of the queue. */
  lemma {:induction false} DrainKeepsClean(d: Device, q: seq<Frame>)
    requires Clean(d.table) && AllSound(d, q)
    ensures Clean(Drain(d, q).table)
    decreases |q|
  {
    if q != [] {
      HandleKeepsClean(d, q[0]);
      DrainKeepsClean(Handle(d, q[0]), q[1..]);
    }
  }

  // ---- the same queue, fed to the stub ----

  /** One frame, as an agent running on the in-memory stub handles it. */
  function StubHandle(phase: Phase, t: StubTable, f: Frame): (Phase, StubTable) {
    match phase
    case Ended => (phase, t)
    case Await => if f.RegisterAck? then (Serve, StubReconcile(f.peers)) else (Ended, t)
    case Serve =>
      match f
      case PeerAdd(_, spec) => (Serve, StubAdd(t, spec))
      case PeerUpdate(_, spec) => (Serve, StubUpdate(t, spec))
      case PeerRemove(_, _, key) => (Serve, StubRemove(t, key))
      case RotateWG(_) => (Ended, Maps(EMPTY))
      case Kick => (Ended, Maps(EMPTY))
      case RegisterAck(_) => (Serve, t)
      case Request(_) => (Serve, t)
      case Error => (Serve, t)
  }

  function StubDrain(phase: Phase, t: StubTable, q: seq<Frame>): (Phase, StubTable)
    decreases |q|
  {
    if q == [] then (phase, t)
    else
      var (phase', t') := StubHandle(phase, t, q[0]);
      StubDrain(phase', t', q[1..])
  }

  lemma StubHandleRefines(d: Device, f: Frame)
    requires Clean(d.table)
    ensures StubHandle(d.phase, Maps(d.table), f) == (Handle(d, f).phase, Maps(Handle(d, f).table))
  {
    if d.phase == Await && f.RegisterAck? {
      StubReconcileRefines(f.peers);
    }
    if d.phase == Serve {
      match f
      case PeerAdd(_, spec) => StubRefines(d.table, spec, spec.key);
      case PeerUpdate(_, spec) => StubRefines(d.table, spec, spec.key);
      case PeerRemove(_, _, key) => StubRemoveAgrees(d.table, key);
      case _ =>
    }
  }

  /** Over a whole sound queue the stub, unguarded as it is, ends with the kernel-backed manager's maps. */
  lemma {:induction false} StubDrainRefines(d: Device, q: seq<Frame>)
    requires Clean(d.table) && AllSound(d, q)
    ensures StubDrain(d.phase, Maps(d.table), q) == (Drain(d, q).phase, Maps(Drain(d, q).table))
    decreases |q|
  {
    if q != [] {
      StubHandleRefines(d, q[0]);
      HandleKeepsClean(d, q[0]);
      StubDrainRefines(Handle(d, q[0]), q[1..]);
    }
  }

  // ---- sessions that end early ----

  lemma {:induction false} EndedStays(d: Device, q: seq<Frame>)
    requires d.phase == Ended
    ensures Drain(d, q) == d
    decreases |q|
  {
    if q != [] {
      EndedStays(d, q[1..]);
    }
  }

  /** Frames that end a serving session. */
  predicate Ends(f: Frame) {
    f.RotateWG? || f.Kick?
  }

  lemma {:induction false} ServesUntilEnd(d: Device, q: seq<Frame>)
    requires d.phase == Serve
    ensures Drain(d, q).phase == (if exists i :: 0 <= i < |q| && Ends(q[i]) then Ended else Serve)
    decreases |q|
  {
    if q != [] {
      if Ends(q[0]) {
        EndedStays(Handle(d, q[0]), q[1..]);
      } else {
        ServesUntilEnd(Handle(d, q[0]), q[1..]);
        if i :| 0 <= i < |q| && Ends(q[i]) {
          assert q[1..][i - 1] == q[i];
        }
        if i :| 0 <= i < |q[1..]| && Ends(q[1..][i]) {
          assert q[i + 1] == q[1..][i];
        }
      }
    }
  }

  /** Whether a frame appended now will be dispatched: the first unread frame must be the
      register_ack if none was read yet, and nothing queued may end the session. */
  ghost predicate Dispatches(d: Device, q: seq<Frame>) {
    match d.phase
    case Ended => false
    case Serve => forall i | 0 <= i < |q| :: !Ends(q[i])
    case Await => q != [] && q[0].RegisterAck? && forall i | 0 <= i < |q| :: !Ends(q[i])
  }

  lemma DispatchesIffServing(d: Device, q: seq<Frame>)
    ensures Dispatches(d, q) <==> Drain(d, q).phase == Serve
  {
    match d.phase
    case Ended => EndedStays(d, q);
    case Serve => ServesUntilEnd(d, q);
    case Await =>
      if q != [] {
        if q[0].RegisterAck? {
          ServesUntilEnd(Handle(d, q[0]), q[1..]);
          assert forall i | 0 < i < |q| :: q[i] == q[1..][i - 1];
        } else {
          EndedStays(Handle(d, q[0]), q[1..]);
        }
      }
  }

  /** A kick promises that the deleted node keeps nothing. A kick that was sent keeps the promise
      exactly when it is dispatched, or when what precedes it leaves no peer anyway. */
  lemma KickClearsIffDispatched(d: Device, q: seq<Frame>)
    ensures Drain(d, q + [Kick]).table == EMPTY <==> Dispatches(d, q) || Drain(d, q).table == EMPTY
  {
    DrainAppend(d, q, Kick);
    DispatchesIffServing(d, q);
  }

  /** The failing case: a kick sent before the agent's register was processed is read in place of
      register_ack, and every peer of the previous session stays installed. */
  lemma KickBeforeRegisterLeavesPeers()
    ensures var stale := Reconcile([PeerSpec(0, 1, WGKey(1, 0), Endpoint(1, 1), Active(2), None)]);
            Drain(Device(Await, 0, stale, map[]), [Kick]).table == stale && stale != EMPTY
  {
    var spec := PeerSpec(0, 1, WGKey(1, 0), Endpoint(1, 1), Active(2), None);
    var d := Device(Await, 0, Reconcile([spec]), map[]);
    assert Reconcile([spec]) == Add(EMPTY, spec);
    assert spec.node in Reconcile([spec]).nodeKeys;
    assert Drain(d, [Kick]) == Drain(Handle(d, Kick), []);
  }
}
