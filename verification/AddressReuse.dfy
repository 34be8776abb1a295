/** Overlay addresses over whole runs of the hub: a freed address stays out of
    circulation for the whole cooldown, whatever else the hub does meanwhile. */
module AddressReuse {
  import opened Wrappers
  import opened Wire
  import opened StoreState
  import opened HubState
  import Ipam

  ghost function ApplyAll(h: Hub, ops: seq<Operation>): Hub {
    if ops == [] then h else Apply(ApplyAll(h, ops[..|ops| - 1]), ops[|ops| - 1])
  }

  /** When an operation reads the clock for address bookkeeping. */
  predicate TimedBetween(op: Operation, cooldown: int, from: int, to: int) {
    match op
    case Enroll(_, _, _, c, now) => c == cooldown && from <= now <= to
    case DeleteNode(_, now) => from <= now
    case _ => true
  }

  /** ip is in the cooldown pool, freed no earlier than `since`. */
  ghost predicate Parked(t: Tables, ip: IPv4, since: int) {
    Active(ip) in t.cooldown && t.cooldown[Active(ip)] >= since
  }

  lemma ApplyKeepsParked(h: Hub, op: Operation, ip: IPv4, since: int, cooldown: int, to: int)
    requires Parked(h.tables, ip, since) && TimedBetween(op, cooldown, since, to) && to - since <= cooldown
    ensures Parked(Apply(h, op).tables, ip, since)
  {
    hide Mails, RegisterLinks, BeatLinks, PairLinks, LinksOk, NodesOk;
  }

  lemma {:induction false} RunKeepsParked(h: Hub, ops: seq<Operation>, ip: IPv4, since: int, cooldown: int, to: int)
    requires Parked(h.tables, ip, since) && to - since <= cooldown
    requires forall i | 0 <= i < |ops| :: TimedBetween(ops[i], cooldown, since, to)
    ensures Parked(ApplyAll(h, ops).tables, ip, since)
  {
    hide Apply;
    if ops != [] {
      RunKeepsParked(h, ops[..|ops| - 1], ip, since, cooldown, to);
      ApplyKeepsParked(ApplyAll(h, ops[..|ops| - 1]), ops[|ops| - 1], ip, since, cooldown, to);
    }
  }

  /** Once node n with address ip is deleted at `freed`, no enrollment at a time `now` with
      now - freed <= cooldown is given ip, after any operations in between whose clocks lie in that
      interval. */
  lemma NoReuseWhileCooling(h: Hub, n: NodeId, ip: IPv4, freed: int, between: seq<Operation>,
                            p: Ipam.Prefix, cooldown: int, now: int)
    requires n in h.tables.nodes && h.tables.nodes[n].overlay == Active(ip)
    requires p.bits <= 32 && freed <= now && now - freed <= cooldown
    requires forall i | 0 <= i < |between| :: TimedBetween(between[i], cooldown, freed, now)
    ensures var t := ApplyAll(Apply(h, Operation.DeleteNode(n, freed)), between).tables;
            Ipam.Allocate(t, p, cooldown, now).1 != Some(ip)
  {
    DeletionParks(h, n, ip, freed);
    hide Apply;
    var h' := Apply(h, Operation.DeleteNode(n, freed));
    RunKeepsParked(h', between, ip, freed, cooldown, now);
    Ipam.AllocateIsLeastFree(ApplyAll(h', between).tables, p, cooldown, now);
  }

  lemma DeletionParks(h: Hub, n: NodeId, ip: IPv4, freed: int)
    requires n in h.tables.nodes && h.tables.nodes[n].overlay == Active(ip)
    ensures Parked(Apply(h, Operation.DeleteNode(n, freed)).tables, ip, freed)
  {
  }

  /** The bound is tight: one second past the cooldown the address is free again, if it is a host
      address nobody holds and no later deletion has parked it anew. */
  lemma ReusableAfterCooldown(t: Tables, ip: IPv4, freed: int, p: Ipam.Prefix, cooldown: int, now: int)
    requires p.bits <= 32 && Ipam.IsHost(p, ip) && !Ipam.ActiveIP(t, ip)
    requires Active(ip) in t.cooldown && t.cooldown[Active(ip)] == freed
    ensures Ipam.Free(t, p, cooldown, now, ip) <==> now - freed > cooldown
    ensures now - freed > cooldown ==>
              var r := Ipam.Allocate(t, p, cooldown, now).1; r.Some? && r.value <= ip
  {
    Ipam.AllocateIsLeastFree(t, p, cooldown, now);
  }
}
