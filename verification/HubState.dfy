/** The hub's runtime state and every handler as a function on it.

    A handler does two things: it changes the hub's own maps (Core) and it
    puts at most one envelope on each session's outbound queue (Mails). */
module HubState {
  import opened Wrappers
  import opened Wire
  import opened StoreState
  import Ipam

  const OUT_CAPACITY := 64

  datatype WgIdent = WgIdent(key: WGKey, port: int, ip: IPv4, socksPort: int)

  datatype Side = SideA | SideB

  datatype AckRef = AckRef(link: LinkId, side: Side)

  datatype Session = Session(sid: SessionId, open: bool, registered: bool,
                             out: seq<Frame>, pending: map<EnvId, AckRef>)

  datatype LinkRT = LinkRT(ackA: bool, ackB: bool, lastHS: int)

  const FRESH_RT := LinkRT(false, false, 0)

  /** `operations` counts handlers run so far; it makes envelope ids unique, as ULIDs are. */
  datatype Hub = Hub(tables: Tables,
                     sessions: map<NodeId, Session>,
                     links: map<LinkId, LinkRT>,
                     lastWG: map<NodeId, WgIdent>,
                     gcDone: set<NodeId>,
                     revoked: set<Serial>,
                     operations: nat)

  const NEW_HUB := Hub(NO_TABLES, map[], map[], map[], {}, {}, 0)

  datatype Operation =
    | Enroll(node: NodeId, serial: Serial, prefix: Ipam.Prefix, cooldown: int, now: int)
    | SessionUp(node: NodeId, sid: SessionId)
    | SessionClose(node: NodeId)
    | SessionDrop(node: NodeId, now: int)
    | StaleDrop(node: NodeId, now: int)
    | Register(node: NodeId, ident: WgIdent, rows: seq<Link>, now: int)
    | Acknowledge(node: NodeId, id: EnvId, ok: bool)
    | Beat(node: NodeId, peers: seq<PeerStatus>, now: int)
    | CreateLink(link: LinkId, a: NodeId, b: NodeId)
    | SetLinkExit(link: LinkId, exit: Option<NodeId>)
    | DeleteLink(link: LinkId)
    | DeleteNode(node: NodeId, now: int)
    | RotateNode(node: NodeId)
    | AskNode(node: NodeId)
    | Collect(node: NodeId, now: int, after: int)

  // ---- sessions and mail ----

  /** An envelope and the confirmation it awaits, if it is a push. */
  datatype Mail = Mail(frame: Frame, awaits: map<EnvId, AckRef>)

  /** session.send: a full queue tears the session down instead. */
  function Send(s: Session, f: Frame): Session {
    if |s.out| < OUT_CAPACITY then s.(out := s.out + [f]) else s.(open := false)
  }

  /** The awaited confirmation is recorded before the frame is sent. */
  function Post(s: Session, m: Mail): Session {
    Send(s.(pending := s.pending + m.awaits), m.frame)
  }

  function PostAll(sessions: map<NodeId, Session>, mails: map<NodeId, Mail>): map<NodeId, Session> {
    map n | n in sessions :: if n in mails then Post(sessions[n], mails[n]) else sessions[n]
  }

  predicate Registered(h: Hub, n: NodeId) {
    n in h.sessions && h.sessions[n].registered
  }

  /** A node the hub can introduce to others. */
  predicate Reachable(h: Hub, n: NodeId) {
    Registered(h, n) && n in h.lastWG
  }

  function SideOf(l: Link, n: NodeId): Side {
    if l.a == n then SideA else SideB
  }

  function SetFlag(rt: LinkRT, side: Side): LinkRT {
    if side.SideA? then rt.(ackA := true) else rt.(ackB := true)
  }

  predicate Flag(rt: LinkRT, side: Side) {
    if side.SideA? then rt.ackA else rt.ackB
  }

  /** peerSpecLocked: how `peer` looks to the other end of l. */
  function SpecFor(t: Tables, l: Link, peer: NodeId, w: WgIdent): PeerSpec {
    PeerSpec(l.id, peer, w.key, Endpoint(w.ip, w.port), OverlayOf(t, peer),
             if l.exit == Some(peer) && w.socksPort > 0
             then Some(ExitAddr(OverlayOf(t, peer), w.socksPort)) else None)
  }

  /** Rows are never deleted, so the second case does not arise for the ends of a link. */
  function OverlayOf(t: Tables, n: NodeId): Overlay {
    if n in t.nodes then t.nodes[n].overlay else Freed(n)
  }

  function PushTo(h: Hub, l: Link, update: bool, to: NodeId, w: WgIdent): Mail {
    var id, spec := EnvId(h.operations, to), SpecFor(h.tables, l, Other(l, to), w);
    Mail(if update then PeerUpdate(id, spec) else PeerAdd(id, spec), map[id := AckRef(l.id, SideOf(l, to))])
  }

  function Withdrawal(h: Hub, l: Link, to: NodeId, peer: NodeId): Mail
    requires peer in h.lastWG
  {
    Mail(PeerRemove(EnvId(h.operations, to), l.id, h.lastWG[peer].key), map[])
  }

  // ---- register ----

  /** The reconciliation list: one spec per link whose other end is reachable. */
  function Expected(h: Hub, n: NodeId, rows: seq<Link>): seq<PeerSpec> {
    if rows == [] then []
    else
      var l := rows[|rows| - 1];
      var init := Expected(h, n, rows[..|rows| - 1]);
      var other := Other(l, n);
      if Reachable(h, other) then init + [SpecFor(h.tables, l, other, h.lastWG[other])] else init
  }

  ghost function RegisterLinks(h: Hub, n: NodeId): map<LinkId, LinkRT> {
    map id | id in h.links.Keys + h.tables.links.Keys
             && (id in h.links || Touches(h.tables.links[id], n)) ::
      var rt := if id in h.links then h.links[id] else FRESH_RT;
      if id in h.tables.links && Touches(h.tables.links[id], n) && Reachable(h, Other(h.tables.links[id], n))
      then SetFlag(rt, SideOf(h.tables.links[id], n)) else rt
  }

  ghost function RegisterMails(h: Hub, n: NodeId, ident: WgIdent, rows: seq<Link>): map<NodeId, Mail> {
    map m | m in h.sessions && (m == n || (Linked(h.tables, n, m) && Reachable(h, m))) ::
      if m == n then Mail(RegisterAck(Expected(h, n, rows)), map[])
      else PushTo(h, LinkOf(h.tables, n, m), true, m, ident)
  }

  // ---- pairs ----

  /** pushPairLocked: both ends are introduced to each other, or neither. */
  predicate PairReady(h: Hub, l: Link) {
    Reachable(h, l.a) && Reachable(h, l.b)
  }

  ghost function PairMails(h: Hub, l: Link, update: bool): map<NodeId, Mail> {
    if PairReady(h, l) then
      map[l.a := PushTo(h, l, update, l.a, h.lastWG[l.b]), l.b := PushTo(h, l, update, l.b, h.lastWG[l.a])]
    else map[]
  }

  function PairLinks(h: Hub, l: Link): map<LinkId, LinkRT> {
    var rt := if l.id in h.links then h.links[l.id] else FRESH_RT;
    h.links[l.id := if PairReady(h, l) then rt.(ackA := false, ackB := false) else rt]
  }

  // ---- withdrawals ----

  /** removeSideLocked for both ends. */
  ghost function RemoveMails(h: Hub, l: Link): map<NodeId, Mail> {
    map n | n in {l.a, l.b} && n in h.sessions && Other(l, n) in h.lastWG :: Withdrawal(h, l, n, Other(l, n))
  }

  /** Every other end of n's links is told to drop n. */
  ghost function WithdrawNodeMails(h: Hub, n: NodeId): map<NodeId, Mail> {
    map m | m in h.sessions && n in h.lastWG && Linked(h.tables, n, m) ::
      Withdrawal(h, LinkOf(h.tables, n, m), m, n)
  }

  ghost function DeleteNodeMails(h: Hub, n: NodeId): map<NodeId, Mail> {
    if n in h.sessions then WithdrawNodeMails(h, n)[n := Mail(Kick, map[])] else WithdrawNodeMails(h, n)
  }

  // ---- heartbeats ----

  /** The newest handshake reported for `other`, at least `base`. */
  function NewestHandshake(peers: seq<PeerStatus>, other: NodeId, base: int): int {
    if peers == [] then base
    else
      var init, last := NewestHandshake(peers[..|peers| - 1], other, base), peers[|peers| - 1];
      if last.node == other && last.handshake > init then last.handshake else init
  }

  ghost predicate Reports(peers: seq<PeerStatus>, n: NodeId) {
    exists i :: 0 <= i < |peers| && peers[i].node == n
  }

  ghost function BeatLinks(h: Hub, n: NodeId, peers: seq<PeerStatus>): map<LinkId, LinkRT> {
    map id | id in h.links.Keys + h.tables.links.Keys
             && (id in h.links || (Touches(h.tables.links[id], n) && Reports(peers, Other(h.tables.links[id], n)))) ::
      var rt := if id in h.links then h.links[id] else FRESH_RT;
      if id in h.tables.links && Touches(h.tables.links[id], n)
      then rt.(lastHS := NewestHandshake(peers, Other(h.tables.links[id], n), rt.lastHS)) else rt
  }

  // ---- the handlers ----

  /** handleConn's admission test for a certificate naming node n. */
  predicate Admitted(h: Hub, n: NodeId, serial: Serial) {
    serial !in h.revoked && Live(h.tables, n) && h.tables.nodes[n].serial == serial
  }

  predicate ValidRegister(port: int) {
    0 < port <= 65535
  }

  /** A link id drawn just now: nothing in the hub mentions it. */
  ghost predicate FreshLink(h: Hub, id: LinkId) {
    && id !in h.tables.links && id !in h.links
    && forall n, e | n in h.sessions && e in h.sessions[n].pending :: h.sessions[n].pending[e].link != id
  }

  /** n has been offline for at least `after`: it has no session and was last seen that long ago. */
  predicate Overdue(h: Hub, n: NodeId, now: int, after: int) {
    Live(h.tables, n) && n !in h.sessions && h.tables.nodes[n].lastSeen != 0
    && now - h.tables.nodes[n].lastSeen >= after
  }

  /** When a handler does its work; otherwise it reports an error and changes nothing. */
  ghost predicate Enabled(h: Hub, op: Operation) {
    match op
    case Enroll(n, serial, prefix, _, _) =>
      prefix.bits <= 32 && n !in h.tables.nodes && forall m <- h.tables.nodes :: h.tables.nodes[m].serial != serial
    case SessionUp(n, sid) => n in h.tables.nodes && Admitted(h, n, h.tables.nodes[n].serial) && sid.node == n
    case SessionClose(n) => n in h.sessions
    case SessionDrop(n, _) => n in h.sessions
    case StaleDrop(_, _) => true
    case Register(n, ident, rows, _) =>
      n in h.sessions && ValidRegister(ident.port) && IsListing(h.tables, n, rows)
    case Acknowledge(n, _, _) => n in h.sessions
    case Beat(n, _, _) => n in h.sessions
    case CreateLink(id, a, b) =>
      a != b && Live(h.tables, a) && Live(h.tables, b) && FreshLink(h, id) && !Linked(h.tables, a, b)
    case SetLinkExit(id, exit) => id in h.tables.links && (exit.Some? ==> Touches(h.tables.links[id], exit.value))
    case DeleteLink(id) => id in h.tables.links
    case DeleteNode(n, _) => n in h.tables.nodes
    case RotateNode(n) => n in h.sessions
    case AskNode(n) => n in h.sessions
    case Collect(n, now, after) => n !in h.gcDone && Overdue(h, n, now, after)
  }

  ghost function Mails(h: Hub, op: Operation): map<NodeId, Mail>
    requires Enabled(h, op)
  {
    match op
    case Register(n, ident, rows, _) => RegisterMails(h, n, ident, rows)
    case CreateLink(id, a, b) =>
      var l := SortedLink(id, a, b);
      PairMails(h.(tables := InsertLink(h.tables, id, a, b)), l, false)
    case SetLinkExit(id, exit) =>
      var t := UpdateExit(h.tables, id, exit);
      PairMails(h.(tables := t), t.links[id], true)
    case DeleteLink(id) => RemoveMails(h, h.tables.links[id])
    case DeleteNode(n, _) => DeleteNodeMails(h, n)
    case RotateNode(n) => map[n := Mail(RotateWG(EnvId(h.operations, n)), map[])]
    case AskNode(n) => map[n := Mail(Request(EnvId(h.operations, n)), map[])]
    case Collect(n, _, _) => WithdrawNodeMails(h, n)
    case _ => map[]
  }

  /** Everything a handler changes apart from the outbound queues. */
  ghost function Core(h: Hub, op: Operation): Hub
    requires Enabled(h, op)
  {
    match op
    case Enroll(n, serial, prefix, cooldown, now) =>
      var (t, ip) := Ipam.Allocate(h.tables, prefix, cooldown, now);
      h.(tables := if ip.Some? then CreateNode(t, n, ip.value, serial) else t)
    case SessionUp(n, sid) =>
      h.(sessions := h.sessions[n := Session(sid, true, false, [], map[])], gcDone := h.gcDone - {n})
    case SessionClose(n) => h.(sessions := h.sessions[n := h.sessions[n].(open := false)])
    case SessionDrop(n, now) => h.(sessions := h.sessions - {n}, tables := TouchNode(h.tables, n, now))
    case StaleDrop(n, now) => h.(tables := TouchNode(h.tables, n, now))
    case Register(n, ident, rows, now) =>
      h.(lastWG := h.lastWG[n := ident],
         sessions := h.sessions[n := h.sessions[n].(registered := true)],
         links := RegisterLinks(h, n),
         tables := TouchNode(h.tables, n, now))
    case Acknowledge(n, id, ok) =>
      var s := h.sessions[n];
      h.(sessions := h.sessions[n := s.(pending := s.pending - {id})],
         links := if id in s.pending && ok && s.pending[id].link in h.links
                  then h.links[s.pending[id].link := SetFlag(h.links[s.pending[id].link], s.pending[id].side)]
                  else h.links)
    case Beat(n, peers, now) => h.(links := BeatLinks(h, n, peers), tables := TouchNode(h.tables, n, now))
    case CreateLink(id, a, b) =>
      var h' := h.(tables := InsertLink(h.tables, id, a, b));
      h'.(links := PairLinks(h', SortedLink(id, a, b)))
    case SetLinkExit(id, exit) =>
      var h' := h.(tables := UpdateExit(h.tables, id, exit));
      h'.(links := PairLinks(h', h'.tables.links[id]))
    case DeleteLink(id) => h.(tables := RemoveLink(h.tables, id), links := h.links - {id})
    case DeleteNode(n, now) =>
      h.(tables := RevokeNode(h.tables, n, now),
         links := map id | id in h.links && !(id in h.tables.links && Touches(h.tables.links[id], n)) :: h.links[id],
         lastWG := h.lastWG - {n},
         gcDone := h.gcDone - {n},
         revoked := h.revoked + {h.tables.nodes[n].serial})
    case Collect(n, _, _) => h.(gcDone := h.gcDone + {n})
    case RotateNode(_) => h
    case AskNode(_) => h
  }

  ghost function Apply(h: Hub, op: Operation): Hub {
    if Enabled(h, op) then Commit(Core(h, op), Mails(h, op)) else h
  }

  function Commit(core: Hub, mails: map<NodeId, Mail>): Hub {
    core.(sessions := PostAll(core.sessions, mails), operations := core.operations + 1)
  }

  /** A hub restart: only the tables survive, and the revocation list is rebuilt from them. */
  function Restart(h: Hub): Hub {
    Hub(h.tables, map[], map[], map[], {}, RevokedSerials(h.tables), h.operations)
  }

  /** sessionWriter moves the oldest queued frame to the connection. */
  function Flush(h: Hub, n: NodeId): Hub
    requires n in h.sessions && h.sessions[n].out != []
  {
    h.(sessions := h.sessions[n := h.sessions[n].(out := h.sessions[n].out[1..])])
  }

  // ---- link status ----

  datatype LinkStatus = Pending | ActiveLink | Degraded

  function StatusOf(h: Hub, l: Link, now: int): LinkStatus {
    if l.id !in h.links || !Registered(h, l.a) || !Registered(h, l.b) || !h.links[l.id].ackA || !h.links[l.id].ackB
    then Pending
    else if now - h.links[l.id].lastHS < 180 then ActiveLink
    else Degraded
  }

  // ---- what every handler keeps ----

  ghost predicate SessionsOk(h: Hub) {
    forall n <- h.sessions :: n in h.tables.nodes && h.sessions[n].sid.node == n && n !in h.gcDone
  }

  ghost predicate IdentsOk(h: Hub) {
    && (forall n <- h.lastWG :: n in h.tables.nodes)
    && (forall n <- h.sessions :: h.sessions[n].registered && Live(h.tables, n) ==> n in h.lastWG)
  }

  ghost predicate RuntimeOk(h: Hub) {
    forall id <- h.tables.links ::
      Registered(h, h.tables.links[id].a) || Registered(h, h.tables.links[id].b) ==> id in h.links
  }

  ghost predicate PendingOk(h: Hub) {
    forall n, id | n in h.sessions && id in h.sessions[n].pending :: id.operation < h.operations
  }

  ghost predicate Healthy(h: Hub) {
    && TablesOk(h.tables)
    && h.revoked == RevokedSerials(h.tables)
    && SessionsOk(h) && IdentsOk(h) && RuntimeOk(h) && PendingOk(h)
  }
}
