/** Who a node is, in terms of the run: the certificate and address it was given
    when it enrolled, until it is deleted. */
module Enrollment {
  import opened Wrappers
  import opened Wire
  import opened StoreState
  import opened HubState
  import opened HubForms
  import opened HubInvariants
  import opened Network
  import opened NetworkInvariant
  import opened History
  import Ipam

  ghost predicate LeastFree(t: Tables, op: Operation, ip: IPv4)
    requires op.Enroll? && op.prefix.bits <= 32
  {
    && Ipam.Free(t, op.prefix, op.cooldown, op.now, ip)
    && forall j | Ipam.Free(t, op.prefix, op.cooldown, op.now, j) :: ip <= j
  }

  /** n was enrolled with this certificate serial and address, the least one free at the time, and has not
      been deleted since. */
  ghost predicate EnrolledAs(run: seq<Event>, n: NodeId, serial: Serial, ip: IPv4) {
    if run == [] then false
    else
      var init, e := run[..|run| - 1], run[|run| - 1];
      var s := Exec(INIT, init);
      if e.EnrollNode? && e.enroll.Enroll? && e.enroll.node == n && Possible(s, e) then
        serial == e.enroll.serial && LeastFree(s.hub.tables, e.enroll, ip)
      else if e.Handler? && e.op.DeleteNode? && e.op.node == n then false
      else EnrolledAs(init, n, serial, ip)
  }

  ghost predicate RowSays(t: Tables, n: NodeId, serial: Serial, ip: IPv4) {
    Live(t, n) && t.nodes[n].serial == serial && t.nodes[n].overlay == Active(ip)
  }

  /** Only enrollment and deletion change a row's certificate, address or standing. */
  lemma RowAfter(h: Hub, op: Operation, n: NodeId)
    requires Enabled(h, op) && !((op.Enroll? || op.DeleteNode?) && op.node == n)
    ensures var t, t' := h.tables, Apply(h, op).tables;
            && (n in t'.nodes <==> n in t.nodes)
            && (n in t.nodes ==>
                  && t'.nodes[n].revoked == t.nodes[n].revoked
                  && t'.nodes[n].serial == t.nodes[n].serial && t'.nodes[n].overlay == t.nodes[n].overlay)
  {
    hide Mails, RegisterLinks, BeatLinks, PairLinks, FreshLink, IsListing;
  }

  lemma RowOfEnrolled(h: Hub, op: Operation, serial: Serial, ip: IPv4)
    requires Enabled(h, op) && op.Enroll?
    ensures RowSays(Apply(h, op).tables, op.node, serial, ip) <==> serial == op.serial && LeastFree(h.tables, op, ip)
  {
    hide Apply, Ipam.Free, Ipam.Allocate;
    EnrollForm(h, op.node, op.serial, op.prefix, op.cooldown, op.now);
    Ipam.AllocateIsLeastFree(h.tables, op.prefix, op.cooldown, op.now);
    AllocateKeepsNodes(h.tables, op);
  }

  lemma AllocateKeepsNodes(t: Tables, op: Operation)
    requires op.Enroll? && op.prefix.bits <= 32
    ensures Ipam.Allocate(t, op.prefix, op.cooldown, op.now).0.nodes == t.nodes
  {
  }

  lemma RowOfDeleted(h: Hub, n: NodeId, now: int)
    ensures !Live(Apply(h, Operation.DeleteNode(n, now)).tables, n)
  {
    hide Mails;
  }

  lemma RowNext(s: Sys, e: Event, n: NodeId, serial: Serial, ip: IPv4)
    ensures RowSays(Next(s, e).hub.tables, n, serial, ip) <==>
              if e.EnrollNode? && e.enroll.Enroll? && e.enroll.node == n && Possible(s, e) then
                serial == e.enroll.serial && LeastFree(s.hub.tables, e.enroll, ip)
              else if e.Handler? && e.op.DeleteNode? && e.op.node == n then false
              else RowSays(s.hub.tables, n, serial, ip)
  {
    hide Next, Apply, LeastFree, IsListing, FreshLink;
    HubNext(s, e);
    var op := OperationOf(s, e);
    if op.Some? {
      if op.value.DeleteNode? && op.value.node == n {
        RowOfDeleted(s.hub, n, op.value.now);
      } else if !Enabled(s.hub, op.value) {
        Unchanged(s.hub, op.value);
      } else if op.value.Enroll? && op.value.node == n {
        RowOfEnrolled(s.hub, op.value, serial, ip);
      } else {
        RowAfter(s.hub, op.value, n);
      }
    }
  }

  /** In every reachable state a node is live with a certificate and an address if and only if it was enrolled
      with them and has not been deleted. */
  lemma {:induction false} RowsAreEnrollments(run: seq<Event>, n: NodeId, serial: Serial, ip: IPv4)
    ensures RowSays(Exec(INIT, run).hub.tables, n, serial, ip) <==> EnrolledAs(run, n, serial, ip)
  {
    hide Next, RowSays, LeastFree;
    if run == [] {
      NobodyEnrolled(n, serial, ip);
    } else {
      RowsAreEnrollments(run[..|run| - 1], n, serial, ip);
      LastOf(run);
      RowNext(Exec(INIT, run[..|run| - 1]), run[|run| - 1], n, serial, ip);
    }
  }

  lemma NobodyEnrolled(n: NodeId, serial: Serial, ip: IPv4)
    ensures !RowSays(Exec(INIT, []).hub.tables, n, serial, ip)
  {
  }

  /** A certificate naming n is admitted exactly if n was enrolled with it and has not been deleted. */
  lemma AdmittedIffEnrolled(run: seq<Event>, n: NodeId, serial: Serial)
    ensures Admitted(Exec(INIT, run).hub, n, serial) <==> exists ip: IPv4 :: EnrolledAs(run, n, serial, ip)
  {
    hide Next, EnrolledAs, Inv, Exec, Healthy, RowSays;
    EveryRunKeepsInv(run);
    var s := Exec(INIT, run);
    HealthyPart(s);
    AdmittedIffRow(s.hub, n, serial);
    if ip: IPv4 :| RowSays(s.hub.tables, n, serial, ip) {
      RowsAreEnrollments(run, n, serial, ip);
      assert EnrolledAs(run, n, serial, ip);
    }
    if ip: IPv4 :| EnrolledAs(run, n, serial, ip) {
      RowsAreEnrollments(run, n, serial, ip);
      assert RowSays(s.hub.tables, n, serial, ip);
    }
  }

  lemma AdmittedIffRow(h: Hub, n: NodeId, serial: Serial)
    requires Healthy(h)
    ensures Admitted(h, n, serial) <==> exists ip: IPv4 :: RowSays(h.tables, n, serial, ip)
  {
    hide LinksOk, SessionsOk, IdentsOk, RuntimeOk, PendingOk;
    if Live(h.tables, n) && h.tables.nodes[n].serial == serial {
      assert h.tables.nodes[n].overlay.Active?;
      assert RowSays(h.tables, n, serial, h.tables.nodes[n].overlay.ip);
      assert forall m <- h.tables.nodes | h.tables.nodes[m].revoked :: h.tables.nodes[m].serial != serial;
    }
  }
}
