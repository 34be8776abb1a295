# LightPN in Dafny

LightPN is a hub that introduces agents to each other so that they can build
WireGuard tunnels. This project models the hub, the agents and the connections
between them, and proves what the matchmaking protocol guarantees over every
sequence of events; around it stand the smaller mechanisms the protocol rests
on (address management, tokens, frames, limiters, the metrics ring, sealed
commands, the exit proxy, the configuration collector).

`dafny verify dfyconfig.toml` checks everything.

## How it is built

Three layers describe the protocol.

* Values. `StoreState` holds the tables, `HubState` the hub's memory and every
  handler as a function `Apply` on it, `PeerTable` and `Device` the agent's
  peers and what each frame does to them.
* Objects. `HubServer` has the `Store`, `Session` and `Hub` classes with the
  handlers as the program writes them: fields and session objects updated step
  by step, loops over links, queues that overflow. Each method is proved to end
  in the state `Apply` gives (`HubForms` holds the closed forms and the loop
  arguments in between). `AgentServer` does the same for the kernel-backed peer
  manager, the in-memory stub, the exit controller and the agent's session,
  against `PeerTable` and `Device`.
* The system. `Network` is a state machine: one hub, the agents, one
  first-in-first-out connection per session in each direction. Its events are
  the handlers, connecting, reading and writing one frame, a hub restart, an
  agent leaving, an agent restarting with a new key. `NetworkInvariant` and
  `AckInvariant` are inductive invariants of it, and `Guarantees`, `Recovery`,
  `Deletion`, `Rotation` and `AddressReuse` state what follows.

Beside the invariants stand laws over the history. `History`, `Confirmations`,
`Topology`, `Enrollment` and `Collection` say what the hub's memory and tables
hold in terms of the events of the run alone: which confirmations, handshakes
and registers were read since which reset, who asked for which link, when a node
was last heard of. They pin the handlers down from the outside, without
mentioning how a handler computes what it stores. `Announcements` does the same
for the messages a handler sends.

The central notion is the drained view of a node: its device after everything
already sent to its session has been applied (`Network.DrainedView`).

### Assumptions

* A handler is one event, its store calls included. The program reads links
  before it takes the hub's lock (`internal/hub/control.go:344-350`) and splits
  the store deletion from the push (`internal/hub/hub.go:383-386`); the design
  asks for serialisation per hub (`AGENT.md:389`, the section on risks).
* WireGuard keys, envelope ids, session ids and link ids are never reused. The
  types carry this: a key names its owner and generation, an envelope id the
  operation that made it. A new link has an id that nothing in the hub mentions
  (`HubState.FreshLink`). Enrollment uses node ids and certificate serials that
  are new to the hub.
* Token plaintexts and token ids are random and never minted twice; the schema
  has no uniqueness constraint on the hash (`internal/hub/store.go:45-51`).
* Kernel operations, endpoint resolution and key parsing succeed, so every
  confirmation an agent sends reports success.
* A closed session is not read any more, but may stay in the hub's map until it
  is dropped. An agent's WireGuard listen port is a valid port.
* The database returns rows in any order; handlers carry the order they saw.
* In `Network` the exit controller is not pinned; the pinned case is in
  `AgentServer.ExitController`.

### Where the code differs from its documentation

* The documentation promises that a node deleted while offline is kicked when
  it comes back (`AGENT.md:389`). The code refuses its certificate instead
  (`internal/hub/control.go:129-137`).
* A kick is meant to leave nothing behind. `Deletion.DeletedNodeIsCleared` says
  exactly when it does: the kick was sent and is dispatched, or what the agent
  could read without it leaves no peer anyway. It fails in three ways. The agent
  reads the kick in place of its `register_ack` and leaves the session with its
  old peers (`Deletion.KickCanLeavePeers` reaches such a state). The session's
  queue is full, so that the kick closes the session and is never sent. The node
  is offline, and keeps its peers until its process is restarted
  (`Deletion.OfflineNodeIsCleared`). A kick behind a `rotate_wg` is not
  dispatched either, but the rotation has already removed every peer.
* A truncated stream is not always reported as such: a cut right behind a
  frame's header looks like a clean end (`Framing.TruncationIsDetected`).
* `Range` is meant to give a node's history. It does exactly when no requested
  bucket's slot has been reused and, for a query over time zero, the slots never
  written to do not show (`MetricsRing.RangeIsExactIffComplete`). `Latest` hides
  a heartbeat at time zero (`MetricsRing.LatestIsNewest`), and a heartbeat whose
  timestamp gives a negative slot index makes the program panic
  (`MetricsRing.NodeRing.Ingest`).
* `socksHandshake` never looks at the offered methods, so it also accepts a
  client that does not offer "no authentication" (`Socks.MethodsAreIgnored`).

## Model

| member | source | states |
|---|---|---|
| Guarantees.DrainedViewIsCurrent | internal/hub/control.go:333-398 | in every reachable state, once an open registered session's queue is applied, its agent holds only ends of its links, each with the key, endpoint and address last registered, and holds every registered end |
| Guarantees.OnlyTheHubEndsServing | internal/agent/agent.go:120-161 | a registered session drains to a serving agent if and only if no rotate or kick is queued and register_ack is the first unread frame |
| Guarantees.DrainedExitsAreCurrent | internal/hub/hub.go:259-281 | the drained exit map has an entry for a registered link iff it designates the other end and that end has a SOCKS port, with that end's overlay address and port; nothing outside the node's links |
| Guarantees.DevicesAlwaysClean | internal/agent/wg_linux.go:152-236 | in every reachable state every agent's two maps are inverse, the kernel's peer set equals their keys and no two peers share an allowed IP; likewise after draining |
| Guarantees.EveryPushMeetsItsCase | internal/agent/wg_linux.go:181-236 | peer_add is only ever applied to an absent node, and for every frame read the unguarded stub would end with the same maps |
| Guarantees.StubWouldAgree | internal/agent/wg_stub.go:47-106 | in every reachable state an agent on the stub, fed everything that is on its way, ends with the kernel-backed manager's maps |
| Guarantees.QuiescentIsConverged | internal/hub/control.go:330-398 | after any sequence of crashes, rotations, lost sessions and link changes, once all live nodes are registered and drained, the agents' devices equal the link graph with everybody's actual key, port, address and exit |
| Guarantees.ConvergedIsMutual | internal/hub/hub.go:231-242 | in a converged system x holds p iff p holds x |
| Guarantees.NoConfirmationIsLost | internal/hub/control.go:440-466 | for a link with both ends registered, each open side is confirmed, or a push for it is still queued, or its confirmation is on the way |
| Guarantees.DrainedStatus | internal/hub/hub.go:166-179 | with both ends drained, the link is not pending iff both ends are registered |
| Guarantees.HeartbeatDecidesStatus | internal/hub/hub.go:166-179 | after a heartbeat a link that is not pending is active iff a handshake less than 180 s old is known or reported for its other end, else degraded |
| Confirmations.StatusIsHistory | internal/hub/hub.go:166-179 | over every run: a link is pending iff an end is not registered or has not confirmed it since the pair was last pushed and the hub last restarted, and then active iff an end has since reported a handshake less than 180 s old |
| Confirmations.FlagsAreHistory | internal/hub/control.go:374-381 | over every run: a side's flag is set iff its node has, since the last push of the pair and the last restart, registered with the other end registered or successfully acknowledged a push of the link |
| Confirmations.HandshakesAreHistory | internal/hub/control.go:409-419 | over every run: a link's last handshake is recent iff an end has reported a recent one since the link was created and the hub last restarted |
| Confirmations.AckSetsItsOwnFlag | internal/hub/control.go:446-457 | reading an ack sets the flag of the link and side it was awaited for, only on success, and no other |
| Guarantees.WithdrawnStaysWithdrawn | internal/hub/hub.go:393-420 | after deleting a node, in all later states and across hub restarts, no link and no drained view mentions it, its certificate is never admitted and the revocation list is exactly the serials of revoked rows |
| Guarantees.CollectedIsGone | internal/hub/hub.go:318-344 | a collected node has no session and appears in no serving node's drained view |
| Collection.SweepCollectsTheAbsent | internal/hub/hub.go:318-344 | over every run: a sweep newly collects exactly the live nodes without a session whose latest drop, register or heartbeat lies at least `after` back, and no collected node is in a serving agent's drained view |
| Collection.SecondSweepDoesNothing | internal/hub/hub.go:327-330 | a node is withdrawn once: repeating the sweep changes nothing |
| History.LastSeenIsLastContact | internal/hub/store.go:186-189 | over every run: last_seen is the time of the latest session drop, register or heartbeat of the node, or zero |
| History.IdentIsLastRegister | internal/hub/control.go:339-352 | over every run: the identity handed out for a node is what its latest valid register said, with the address it came from, unless the hub restarted or the node was deleted since |
| History.RegisteredIsHistory | internal/hub/control.go:350-352 | over every run: a node is registered iff its register was read since it last dialled in, was dropped or the hub restarted |
| History.QueuesAreBounded | internal/hub/control.go:38-47 | in every reachable state at most 64 frames are queued for a session, and none closes by being sent to unless 64 are queued |
| History.NothingIsLeftBehind | internal/hub/hub.go:292-298 | in every reachable state the hub keeps no runtime state of a deleted link and no deleted node among the collected ones |
| Topology.LinksAreRequested | internal/hub/store.go:393-446 | over every run: the link table is the graph of unordered pairs and exits the administrator asked for |
| Enrollment.RowsAreEnrollments | internal/hub/control.go:211-230 | over every run: a node is live with a serial and an address iff it was enrolled with that serial and the then least free address, and has not been deleted |
| Enrollment.AdmittedIffEnrolled | internal/hub/control.go:115-139 | over every run: a certificate is admitted for a node iff the node was enrolled with it and has not been deleted |
| Rotation.RenewedKeyIsNew | internal/agent/agent.go:295-305 | over every run: after a rotation or restart the agent's key differs from all its earlier keys and from every key the hub held before, and at every later quiescence each neighbour has installed the new key and no other key of the node |
| Rotation.RotationIsDelivered | internal/hub/hub.go:422-436 | a rotation asked for renews the key in the drained view iff it finds room and is dispatched; a full queue ends the session |
| Announcements.WhatIsSent | internal/hub/hub.go:220-314 | what every handler sends to whom: peer_add to both ends of a new link, peer_update after an exit change, the registered neighbours to the registering node and its identity to each of them, peer_remove with the last known key for every withdrawal, and nothing else |
| Guarantees.AnswersCarryTheId | internal/agent/agent.go:258-364 | a serving agent answers pushes, withdrawals, rotations and requests under their own id, and nothing else |
| Deletion.DeletedNodeIsCleared | internal/hub/hub.go:393-420 | whatever the node's connection, its agent ends without peers iff the kick found room and is dispatched, or what the agent could read without the kick leaves no peer |
| Deletion.AttachedNodeIsCleared | internal/hub/hub.go:407-412 | an attached agent stays attached and drains to no peers iff the queue has room and the kick is dispatched or there is nothing to clear |
| Deletion.OfflineNodeIsCleared | internal/hub/control.go:115-139 | a node deleted while offline keeps its peers in every later state until its process is restarted |
| Deletion.KickCanLeavePeers | internal/agent/agent.go:194-196 | a reachable state in which a kick is sent and the deleted node's peers stay installed |
| Recovery.ConvergenceIsAlwaysPossible | internal/hub/control.go:330-398 | from every reachable state there is a continuation, in which every session is lost and every live node reconnects, that keeps the link graph and ends converged |
| Recovery.Rejoin | internal/agent/agent.go:120-161 | one node can reconnect, register and be drained without disturbing the nodes already settled, and without overflowing a queue |
| Recovery.DeliverRest | internal/hub/control.go:303-316 | one queued frame can be written, applied and confirmed without touching any other session |
| NetworkInvariant.NextKeepsInv | internal/hub/control.go:255-328 | every event keeps the invariant of hub, connections and agents |
| NetworkInvariant.EveryRunKeepsInv | internal/hub/control.go:255-328 | the invariant holds in every state reachable from an empty hub |
| NetworkInvariant.HubRestartEvent | internal/hub/hub.go:80-99 | a restart that keeps only the tables keeps the invariant |
| NetworkInvariant.WrittenKeepsOpen | internal/hub/control.go:303-316 | moving the oldest queued frame onto the connection changes no drained view |
| AckInvariant.NextKeepsAcks | internal/hub/control.go:440-466 | every event keeps the confirmation invariant |
| AckInvariant.AcknowledgeKeepsAcks | internal/hub/control.go:440-466 | reading a confirmation sets the flag it was awaited for and loses no other |
| AckInvariant.RegisterConfirms | internal/hub/control.go:372-384 | register confirms the registering side of every link to a registered node |
| SessionInvariant.HandlerKeepsOpen | internal/hub/control.go:255-301 | every handler keeps what holds of an open session and its agent |
| SessionInvariant.DeliveryKeepsOpen | internal/agent/agent.go:258-364 | applying the oldest frame keeps what holds of an open session, or ends the session |
| ViewSteps.BystanderStep | internal/hub/hub.go:220-344 | for every handler, the frame it sends a node is sound for that node's drained view and leads to the view the new hub state calls for |
| ViewSteps.RegisterStep | internal/hub/control.go:372-384 | the peer_update sent on a neighbour's register brings the receiver's view up to date |
| ViewSteps.WithdrawnStep | internal/hub/hub.go:301-314 | peer_remove withdraws exactly the peer it names from the receiver's view |
| RegisterView.ReconciledView | internal/hub/control.go:355-371 | the reconciliation list, applied, gives a view in which exactly the reachable neighbours appear |
| HubInvariants.ApplyKeepsHealthy | internal/hub/hub.go:346-420 | every handler keeps tables, revocation list, sessions, identities, runtime links and pending confirmations consistent |
| HubInvariants.RestartKeepsHealthy | internal/hub/hub.go:80-99 | a restarted hub is consistent |
| Guarantees.ActiveAddressesDistinct | internal/hub/store.go:313-371 | in every reachable state nodes that are not deleted have different addresses |
| AddressReuse.NoReuseWhileCooling | internal/hub/store.go:193-225 | a freed address is not handed out while now minus freed is within the cooldown, whatever the hub does in between |
| AddressReuse.ReusableAfterCooldown | internal/hub/store.go:334-352 | the bound is tight: one second later an unheld host address is free again and allocation succeeds with it or a lower one |
| Ipam.AllocateIsLeastFree | internal/hub/store.go:313-371 | allocation gives the least host address that is not network, network+1, broadcast, active or cooling, and fails iff none exists |
| Ipam.LastAddr | internal/hub/store.go:373-380 | the bit loop computes network + 2^(32-bits) - 1 |
| Ipam.ContainsRange | internal/hub/store.go:356-369 | an address is in the prefix iff it lies between network and broadcast |
| PeerTable.AddKeepsConsistent | internal/agent/wg_linux.go:187-198 | AddPeer keeps the maps inverse iff node and key are unclaimed or already paired |
| PeerTable.UpdateKeepsConsistent | internal/agent/wg_linux.go:200-210 | UpdatePeer keeps the maps inverse iff the key is not another node's |
| PeerTable.RemoveKeepsConsistent | internal/agent/wg_linux.go:218-236 | removal keeps the maps inverse and takes exactly the key from the kernel |
| PeerTable.ReconcileIsExact | internal/agent/wg_linux.go:152-179 | reconciling a list with distinct nodes and keys installs exactly its peers |
| PeerTable.StubRemoveAgrees | internal/agent/wg_stub.go:78-86 | the unguarded removal agrees with the guarded one iff the key's node does not own another key |
| PeerTable.StubRefines | internal/agent/wg_stub.go:59-86 | on consistent tables the stub's operations give the kernel-backed manager's maps |
| PeerTable.StubReconcileRefines | internal/agent/wg_stub.go:47-57 | the stub's reconciliation gives the same maps |
| Device.HandleKeepsClean | internal/agent/agent.go:258-364 | a sound frame keeps the device's maps inverse and its allowed IPs disjoint |
| Device.StubDrainRefines | internal/agent/wg_stub.go:47-106 | over a whole sound queue, register_ack included, the unguarded stub keeps the same maps as the guarded manager |
| Device.DispatchesIffServing | internal/agent/agent.go:165-215 | a frame sent now will be dispatched iff the queue up to it leaves the agent in its read loop |
| Device.KickClearsIffDispatched | internal/agent/agent.go:341-352 | a kick that was sent leaves no peers iff it is dispatched or nothing was left to clear |
| Device.KickBeforeRegisterLeavesPeers | internal/agent/agent.go:194-196 | a kick read in place of register_ack leaves the old peers installed |
| HubServer.Hub.constructor | internal/hub/hub.go:80-99 | a new hub has only what the tables say: the revocation list |
| HubServer.Hub.SessionUp | internal/hub/control.go:115-139 | a connection is admitted iff its serial is not revoked and is the live row's; it replaces and closes an older session |
| HubServer.Hub.SessionDown | internal/hub/control.go:318-328 | a dropped session leaves the map only if it still is the node's session; last_seen is updated either way |
| HubServer.Hub.HandleRegister | internal/hub/control.go:333-398 | an invalid port changes nothing; otherwise identity, flags, pushes to neighbours and the answer are those of the register operation |
| HubServer.Hub.PushToNeighbours | internal/hub/control.go:358-385 | the loop's list, runtime map and queues, for any order of the rows |
| HubServer.Hub.HandleHeartbeat | internal/hub/control.go:400-438 | each link's handshake becomes the newest one reported for its other end |
| HubServer.Hub.HandleAck | internal/hub/control.go:440-466 | the acknowledge operation: the confirmation is struck off and its side's flag set; `Confirmations` says which flag and what it means |
| HubServer.Hub.Enroll | internal/hub/control.go:209-226 | the least free address goes to the new row, or the tables are only pruned |
| HubServer.Hub.PushPair | internal/hub/hub.go:220-242 | both ends are introduced and their flags reset, or neither |
| HubServer.Hub.CreateLink | internal/hub/hub.go:349-357 | a link is created iff both ends are live, distinct and not linked; the pair is pushed |
| HubServer.Hub.SetLinkExit | internal/hub/hub.go:362-375 | the exit is changed iff it is an end of the link or none; the pair is pushed again |
| HubServer.Hub.DeleteLink | internal/hub/hub.go:378-389 | the link is withdrawn from both ends and forgotten |
| HubServer.Hub.DeleteNode | internal/hub/hub.go:393-420 | the whole cascade: links, withdrawals, revocation, kick, identity |
| HubServer.Hub.RotateWG | internal/hub/hub.go:423-436 | an online node is sent rotate_wg, an offline one nothing |
| HubServer.Hub.GcOfflinePeers | internal/hub/hub.go:318-344 | every live node is considered once; exactly those without a session and last seen at least `after` ago are collected and withdrawn from their peers |
| HubServer.Hub.LinkStatus | internal/hub/hub.go:166-179 | the status function that `Confirmations.StatusIsHistory` ties to the run |
| HubServer.Session.Send | internal/hub/control.go:41-47 | with 64 frames queued the session closes and keeps its contents; otherwise the frame is queued |
| HubServer.Store.LinksOfNode | internal/hub/store.go:465-480 | exactly the node's links, once each, in some order |
| HubServer.Store.AllocateIP | internal/hub/store.go:313-371 | the scan prunes the pool and finds the first free address |
| HubServer.Store.CreateLink | internal/hub/store.go:394-406 | a pair is inserted in ascending order unless it is one node or exists already, either way round |
| HubServer.Store.SetLinkExit | internal/hub/store.go:410-423 | an exit that is not an end of the link is refused |
| HubServer.Store.DeleteNode | internal/hub/store.go:193-225 | the transaction: row revoked, links gone, address cooling |
| HubForms.DeleteNodeForm | internal/hub/hub.go:398-417 | the deletion operation written out as the program's assignments |
| AgentServer.LinuxWG.Reconcile | internal/agent/wg_linux.go:152-179 | the loop installs the list, later entries winning |
| AgentServer.LinuxWG.UpdatePeer | internal/agent/wg_linux.go:200-210 | the node's stale key goes before the new one comes |
| AgentServer.LinuxWG.RemovePeer | internal/agent/wg_linux.go:218-236 | kernel and maps lose the key; the reverse entry goes only if it still names it |
| AgentServer.LinuxWG.Rotate | internal/agent/wg_linux.go:263-281 | a new key, no peers |
| AgentServer.StubWG.Reconcile | internal/agent/wg_stub.go:47-57 | the stub's maps are those of the list, later entries winning |
| AgentServer.StubWG.UpdatePeer | internal/agent/wg_stub.go:67-76 | the node's key is dropped unguarded and the new one filed |
| AgentServer.StubWG.RemovePeer | internal/agent/wg_stub.go:78-86 | the key and its node are dropped unguarded |
| AgentServer.ExitController.SetLinkExit | internal/agent/socks.go:76-88 | the exit set follows the hub unless pinned; the upstream is direct iff the set is empty, else one of its values |
| AgentServer.ExitController.ClearByLink | internal/agent/socks.go:91-102 | the link's exit goes; the upstream is untouched if there was none |
| AgentServer.ExitController.Reconcile | internal/agent/socks.go:106-117 | the exit set is replaced unless pinned |
| AgentServer.Agent.ReadRegisterAck | internal/agent/agent.go:165-215 | anything but register_ack ends the session; register_ack replaces peers and exits |
| AgentServer.Agent.Dispatch | internal/agent/agent.go:258-364 | each frame's effect on peers, exits and session, and the confirmation written back |
| AgentServer.Agent.Session | internal/agent/agent.go:120-161 | the read loop leaves the device exactly drained of what it was sent; a pinned exit controller only ignores the exits |
| AgentServer.TableIgnoresExits | internal/agent/socks.go:76-117 | pinning the exit upstream does not change the peers |
| Tokens.TokensAreOneTime | internal/hub/store.go:528-555 | under every interleaving a token succeeds for at most one call, in time, so enrollments map injectively to minted tokens |
| Tokens.UsedMeansEnrolled | internal/hub/store.go:528-555 | a row is marked used iff some call succeeded with it |
| Tokens.FinishWinsUnlessRaced | internal/hub/store.go:547-553 | a call that looked a token up in time is refused iff another call burnt it first or it was deleted |
| Tokens.LookupOutcome | internal/hub/store.go:528-546 | over every interleaving: a fresh lookup finds a token to burn iff it was minted, not deleted, not yet spent and not past its expiry; otherwise the refusal names the first of these that fails |
| Tokens.UninterruptedSucceedsIff | internal/hub/store.go:528-555 | looked up and burnt without interruption, a token enrolls its caller under exactly that condition |
| Tokens.TokenTable.ConsumeToken | internal/hub/store.go:528-555 | uninterrupted it succeeds iff an unused row has the plaintext and is not past its expiry; unknown, used, expired or burnt, in that order of tests |
| Tokens.TokenTable.MarkUsed | internal/hub/store.go:547-550 | one row is affected iff the token exists unused |
| SvcReplay.AcceptedAtMostOnce | internal/agent/svccmd.go:69-91 | a sealed command is accepted at most once if the clock never falls more than 300 s below an earlier reading |
| SvcReplay.OneSecondMoreAdmitsAReplay | internal/agent/svccmd.go:69-91 | with 301 s a second acceptance is possible |
| SvcReplay.CacheIsExact | internal/agent/svccmd.go:79-90 | with a clock that does not fall, after each accepted command the cache is exactly the accepted commands with ts at least now - 600 |
| SvcReplay.AcceptedIff | internal/agent/svccmd.go:63-91 | under any clock a command is accepted iff it opens to an allowed action stamped within 300 s and no accepted command with its nonce is still held and at most 600 s old |
| SvcReplay.CacheIsHeld | internal/agent/svccmd.go:79-90 | under any clock the cache is exactly the accepted commands that no later timely command has found more than 600 s old |
| SvcReplay.SvcGuard.OpenSvcCmd | internal/agent/svccmd.go:30-92 | the verdict and the cache of the check, in the program's order of tests |
| SvcReplay.SvcGuard.Prune | internal/agent/svccmd.go:79-83 | deleting while ranging leaves exactly the entries inside two windows |
| MetricsRing.RangeIsExactIffComplete | internal/hub/ring.go:50-102 | for every history and every query the answer is that of a store that forgets nothing (the last sample of each bucket, ascending) iff no requested bucket's slot was reused and time zero comes out right |
| MetricsRing.RangeAfterEpoch | internal/hub/ring.go:84-102 | after the epoch the answer is the full history iff no requested bucket's slot was reused by a later heartbeat |
| MetricsRing.RangeIsHistory | internal/hub/ring.go:84-102 | for heartbeats in order a query from after the epoch reaching back less than a day is answered as the full history |
| MetricsRing.LastDayIsHistory | internal/hub/ring.go:84-102 | in particular every query for the last 86400 s |
| MetricsRing.OverwrittenIsLost | internal/hub/ring.go:80 | a bucket is missing from every answer as soon as its slot is reused, at whatever distance |
| MetricsRing.EpochQueryIsSpurious | internal/hub/ring.go:92-97 | a query over time zero reports every slot never written to |
| MetricsRing.HistoryIsExact | internal/hub/ring.go:84-102 | that full-history answer is strictly ascending and holds exactly the buckets' last samples |
| MetricsRing.LatestIsNewest | internal/hub/ring.go:105-113 | Latest is the most recent heartbeat unless its time is zero |
| MetricsRing.RatesAreNonNegative | internal/hub/ring.go:71-77 | recorded rates are never negative |
| MetricsRing.RatesTelescope | internal/hub/ring.go:71-78 | over a reset-free sequence the rates add up to exactly the counters' growth |
| MetricsRing.SampleSays | internal/hub/ring.go:58-70 | a sample has the heartbeat's load figures, memory and disk in percent, and its time rounded to 30 s |
| MetricsRing.RatesAreGrowth | internal/hub/ring.go:71-78 | a sample's rates are the counters' growth over the time since the heartbeat before, or zero for the first, after a reset or when time did not advance |
| MetricsRing.SortSamples | internal/hub/ring.go:122-129 | the in-place insertion sort orders by time and permutes |
| MetricsRing.NodeRing.Range | internal/hub/ring.go:84-102 | the selected slots, sorted |
| MetricsRing.NodeRing.Ingest | internal/hub/ring.go:58-80 | a heartbeat is stored iff its slot index is not negative, for any timestamp, with rates only when time advanced and no counter was reset |
| MetricsRing.Metrics.Ingest | internal/hub/ring.go:50-81 | one node's ring advances by one heartbeat, or the program panics; no other node's ring changes |
| RateLimit.LimiterRefinesHistory | internal/hub/control.go:151-170 | under a clock that does not fall, an attempt is allowed iff fewer than 5 allowed ones are less than a minute old; at most 5 are stored |
| RateLimit.AllowedIff | internal/hub/control.go:151-170 | an attempt is allowed iff fewer than five were allowed before or the fifth last of them is at least a minute old |
| RateLimit.NoSixWithinAMinute | internal/hub/control.go:151-170 | no six allowed attempts lie within less than a minute |
| RateLimit.Limiter.Allowed | internal/hub/api.go:179-195 | the in-place limiter's verdict and list for one address, no other address affected |
| RateLimit.Slice.Compact | internal/hub/control.go:158-163 | compaction into the same backing array keeps exactly the recent attempts in order |
| Rendezvous.SendsNeverBlock | internal/hub/hub.go:495-507 | a channel is sent to at most once, the send never blocks, and at most one is due |
| Rendezvous.AnswersAreGenuine | internal/hub/hub.go:445-476 | what a call returns was said by the node it asked under its envelope id; a returned call leaves no waiter |
| Rendezvous.NoAnswerIsLost | internal/hub/hub.go:445-507 | in every later state of every interleaving, a genuine reply heard while its waiter was parked is due or in the call's channel as long as the call waits, and is the only answer the call can end with |
| Rendezvous.GenuineReplyArrives | internal/hub/hub.go:445-507 | read, sent and received without interruption, the reply decides the call |
| Rendezvous.Waiters.Claim | internal/hub/hub.go:495-503 | a reply claims its waiter iff it comes from the node that was asked |
| Framing.LengthsRoundTrip | internal/proto/proto.go:77-93 | the big-endian length coding is inverse in both directions |
| Framing.StreamsRoundTrip | internal/proto/proto.go:69-105 | frames with bodies of 1 to 2^20 bytes are read back in order, then the stream ends cleanly |
| Framing.ReadsBackIffNonEmpty | internal/proto/proto.go:92-95 | a frame WriteFrame accepts is read back iff its body is not empty |
| Framing.LengthDecides | internal/proto/proto.go:92-105 | an announced length is refused iff it is zero or above 2^20, and then nothing behind the header is consumed |
| Framing.TruncationIsDetected | internal/proto/proto.go:87-105 | any cut yields exactly the complete frames and then an error, which is that of a clean end iff the cut falls between frames or behind a header |
| Framing.WriteFrame | internal/proto/proto.go:69-84 | a body over the limit writes nothing; otherwise the whole frame is written, or as much as the failing connection takes and an error |
| Framing.ReadFrame | internal/proto/proto.go:87-105 | the outcome depends on the stream's bytes only, not on how they are chunked |
| ByteStream.Reader.ReadFull | internal/proto/proto.go:87-100 | n bytes across any chunks, or everything consumed and the right kind of end |
| Socks.WellFormedIsAccepted | internal/agent/socks.go:222-279 | every well-formed greeting and CONNECT request yields the encoded address and port and leaves the payload unread |
| Socks.AcceptedIsWellFormed | internal/agent/socks.go:222-279 | nothing else is accepted |
| Socks.MethodsAreIgnored | internal/agent/socks.go:231-238 | for any offered methods, the client is accepted iff a well-formed request follows |
| Socks.RefusalsAreAnswered | internal/agent/socks.go:227-269 | which request is refused for what, and that only an unsupported command is answered, with code 7 |
| Socks.SocksHandshake | internal/agent/socks.go:222-279 | the handshake over the reused buffer, every access in bounds |
| ToolConf.CollectToolConf | internal/agent/toolconf.go:48-123 | each path once, in candidate order, under the alias of the first registry entry with it or else the tool of the first built-in with it; every readable file with exactly the longest prefix that 256 KiB each and 768 KiB in all still allow, truncation marked iff bytes are missing; every reportable candidate present unless the total cap was reached |
| ToolConf.Scan | internal/agent/toolconf.go:81-123 | the scan stops early only when the total is exactly the cap |
| ToolConf.ReadConf | internal/agent/toolconf.go:99-117 | a file's content is its prefix, cut by the file cap and by what is left of the total |

## Left out

- TLS, X.509, CSR signing and PEM files; a certificate is its serial and node id.
- AES-GCM, Argon2, gzip, base64 and JSON internals; opening a sealed command and marshalling an envelope are parameters.
- SQLite itself: a table is a map, a statement is atomic, database errors do not occur.
- wgctrl, iproute2 and systemctl; the kernel is a set of peers and its operations succeed.
- Sockets, deadlines, tickers, back-off and jitter: delivery, loss and time are events the model may take at any moment.
- Names, versions, keepalive intervals and multi-entry AllowedIPs of a peer; a peer has one /32.
- HubServer.Hub.HandleHeartbeat: keeps handshakes only; link rates share one set of counters for both ends (`internal/hub/control.go:425-430`) and are not well defined, so they are not modelled, and the metrics ingest is in MetricsRing.
- HubServer.Hub.DeleteNode: closing the kicked session two seconds later is a separate SessionClose event; dropping the node's metrics is MetricsRing.Metrics.Drop.
- HubServer.Hub.Enroll: begins after the token was burnt; the token's interleavings are in Tokens.
- Network: error frames the hub writes past the queue (bad register, unknown type, unsupported version) are not modelled; agents send none of what causes them.
- Network: a StaleDrop, the end of a session that was already replaced, may happen at any moment and for any node; it only updates last_seen.
- Ipam.LastAddr: IPv4 prefixes only; the program panics on others.
- AgentServer.ExitController.Recompute: building a SOCKS5 dialer for an address does not fail.
- ToolConf.CollectToolConf: a file does not change between the stat and the read; the WireGuard summary is not modelled.
- Socks.SocksHandshake: the textual form of the address (`net.JoinHostPort`) and a failing write of a reply are not modelled.
- Guarantees.DevicesAlwaysClean: a kick is dispatched together with the end of the process; in between the program has deleted the interface but still has both maps (`AgentServer.LinuxWG.Teardown`).
- AgentServer.Agent.Dispatch: rotate_cert, which the hub never sends, and operations that fail are not modelled; a push is always confirmed with success.
- AgentServer.Agent.Session: the heartbeat loop runs beside it and only adds reports.
- IPv6 overlay addresses, certificate rotation, service display names, the panel, its HTTP handlers (other than the login limiter and the revoked-node guard), password hashing and system metrics.
