# Verification of the wisp real-time slot protocol and its neighbours

A Dafny model of the parts of the repository where many steps have to fit together:

- **The RT-slot protocol.** The wisp server hands one real-time rendering slot to one client at
  a time. `Sessions` is the session table (a fixed array of slots, of any size), `ControlPlane`
  the control plane over it: a class whose methods are the message handlers, the admin SWITCH,
  and the liveness and grace-period branches of the poll loop. Each method is proved against
  a function of `ControlSpec`; theorems are about those functions and hold for every run of
  poll-loop events. `Outcomes` says what each message, connection, admin request and timer
  brings about, in terms of the table alone; `RtSafety` has the invariant, `QueueOrder` the derived
  queue, `Fairness` work conservation and bounded bypass, `Switching` the admin switch, `Liveness`
  the heartbeat rule, `Generations` the discipline of the ring generation, `Timespecs` the clock
  arithmetic with C's truncating division.
- **The protocol end to end.** `ClientSdk` is the client half, `Handshake` the composition of
  one server, any number of clients coming and going, and a FIFO byte stream each way between
  each of them. One invariant (per connection: `Links`) is kept by every interleaving.
  `Promises` draws the conclusions about the handshake, `Service` those about who is served
  when, `Served` gives runs from every reachable state in which a newcomer or a switch is
  served, `Publishers` says who passes the generation check at any moment.
- **The shared-memory ring.** `Ring` is the ring's critical sections, `FrameRegister` proves that it
  refines one atomic register holding the latest frame although pixels are drawn and read
  a byte at a time outside the lock and evicted producers go on drawing, `Evictions` at which
  moments an eviction breaks that, `WakeUp` that no frame-ready signal is lost.
- **Framing.** `Bytes` and `Framing` are the length-prefixed messages over streams that split and
  interrupt calls at will; `FdOwnership` says who closes the descriptors passed along.
- **Two smaller algorithms.** `TokenMatch` is the kernel-doc `CMatch` search and substitution by
  nesting level, `SnapshotRing` the file sink's ring of the last snapshots.

Conventions. The 32-bit generation word is the number of bumps so far, `epoch`, taken modulo
2^32 where a program compares it (`Sessions.Word`). An EVICT_PENDING and the STOPPED answering it
carry the number of the eviction, a READY_FOR_RT the epoch of its GRANT; these numbers are not
on the wire and no branch reads them, they let theorems say which request an answer
belongs to. `Received(idx, Other, now)` stands for a message of an unexpected kind, an oversized
one, and a DMABUF_ANNOUNCE of the wrong length. Connections are numbered in order of accept.

Where a promise does not hold of the code, the code is kept and the exact condition is proved:

- CONNECT has no state guard: it keeps the invariant if and only if the slot is neither active
  nor being evicted (`RtSafety.ConnectKeepsSafetyExactly`). SDK clients never break this
  (`Promises.ConnectComesFirst`).
- A freed RT slot is not always offered to the queue: `Fairness.WorkConservedExactly` gives the two
  events after which somebody may wait for an idle slot, `SwitchThenHangupStrands` a run into it.
  With SDK clients only one of them is left (`Service.StepConservesExactly`).
- A switch made during somebody's warm-up is meant to apply when the warm-up resolves
  (docs/design/RT_CLIENT_LIFECYCLE.md:472-487). It is ignored on READY_FOR_RT, honoured on
  GRANT_DECLINE exactly if its target heads the queue anyway, and honoured when the holder is
  lost exactly if its target is still NEGOTIATED or QUEUED (`Switching.ReadyForgetsSwitch`,
  `DeclineHonoursSwitchExactly`, `LossHonoursSwitchExactly`).
- An evicted client is meant to be unable to publish, but a grace period that runs out with nobody
  to grant leaves the generation alone. `Publishers.PublisherExactly` says who passes the check.
- A slot in warm-up waits for its client without a deadline; it is answered exactly when the client
  can attach the ring (`Promises.WarmupAnsweredExactly`, `Fairness.OnlyItsClientEndsWarmup`).
- Both timer checks truncate: `Timespecs.HeartbeatExpiredExactly` and `GraceElapsedExactly` say when
  they fire. A grace period can end up to a millisecond early.
- Descriptors that come with any message but a well-sized DMABUF_ANNOUNCE are never closed by the
  server (`FdOwnership.ServerLeaksExactly`), and those that come with anything but a GRANT never by
  the client (`ClientSdk.Session`).
- A claim outlives a refused publish. `FrameRegister.ClaimSucceedsExactly` says when write_slot()
  returns and when it aborts, `JamsAnywhere` how a client is aborted by another's leftover claim.
- An eviction clears both ring locks whoever holds them. `Evictions.EvictionHarmlessExactly`
  says when it goes unnoticed, by who is drawing, who is reading and who is granted next; the frame under
  a reader survives, after any run, exactly as `Evictions.FrameSurvivesExactly` says; two runs show
  the two kinds of damage.
- `CMatch` is documented to return paired occurrences only; it also reports bare names, and
  `TokenMatch.NameReportedExactly` says which accepted names it does not report,
  `NameReportedByInput` says it of the input alone.
- The snapshot files on disk are the last k exactly when no file name comes back within k and no
  failed write leaves a file behind (`SnapshotRing.FilesAreTheLastExactly`).

## Model

| member | source | states |
|---|---|---|
| `RtSafety.RtSlotSafety` | wisp/server/src/control/control_plane.c:296-408 | after every legal run from an empty table of any size: at most one slot holds an RT state, `active_slot` and `evicting_slot` name exactly the ACTIVE_RT and EVICTING_COOPERATIVE slot, nobody is left EVICTING_FORCED or REJECTED, the pending target is in use, the holder's generation is the ring's and no two clients were granted under the same one |
| `RtSafety.NextSafe` | wisp/server/src/control/control_plane.c:630-852 | every event the poll loop handles keeps that invariant |
| `RtSafety.FinishSafe` | wisp/server/src/control/control_plane.c:489-502 | granting the pending target without checking the RT slot is sound wherever the slot was just freed, as in all its callers |
| `RtSafety.DoGrantSafe` | wisp/server/src/control/control_plane.c:454-469 | a grant with the RT slot free keeps the invariant |
| `RtSafety.ConnectKeepsSafetyExactly` | wisp/server/src/control/control_plane.c:663-708 | CONNECT, which checks no state, keeps the invariant if and only if its slot is neither ACTIVE_RT nor EVICTING_COOPERATIVE |
| `RtSafety.DropSafe` | wisp/server/src/control/control_plane.c:630-656 | dropping a client keeps the invariant, frees the RT slot if that client held it, and otherwise leaves it as taken or free as it was |
| `RtSafety.TimeOutSafe` | wisp/server/src/control/control_plane.c:370-385 | a liveness timeout leaves the RT slot free and the invariant intact |
| `RtSafety.ForceOutSafe` | wisp/server/src/control/control_plane.c:387-401 | forcing an eviction through has the same effect on the table as a STOPPED, and frees the RT slot |
| `ControlPlane.Plane.Run` | wisp/server/src/control/control_plane.c:296-408 | the object, updated in place by any legal sequence of events, ends in the state its specification gives, and safe |
| `ControlPlane.Plane.Handle` | wisp/server/src/control/control_plane.c:780-852 | one event in place is one step of the specification, whose outcome the lemmas of `Outcomes` give event by event |
| `ControlPlane.Plane.DoGrant` | wisp/server/src/control/control_plane.c:454-469 | evicts the ring, marks the slot, sends GRANT with the new generation; nothing else changes |
| `ControlPlane.Plane.EvictInFavourOf` | wisp/server/src/control/control_plane.c:471-487 | begins the eviction, tells the client, remembers the target, sets the deadline |
| `ControlPlane.Plane.FinishPendingGrant` | wisp/server/src/control/control_plane.c:489-502 | clears the target and grants it if it is still NEGOTIATED or QUEUED |
| `ControlPlane.Plane.GrantSlot` | wisp/server/src/control/control_plane.c:515-533 | evicts the active client, or remembers the target, or grants |
| `ControlPlane.Plane.HandleDisconnect` | wisp/server/src/control/control_plane.c:630-661 | frees the slot in place; a holder's RT slot goes to the pending target, then to the queue |
| `ControlPlane.Plane.HandleConnect` | wisp/server/src/control/control_plane.c:663-708 | the three outcomes of CONNECT |
| `ControlPlane.Plane.HandleActivateRequest` | wisp/server/src/control/control_plane.c:710-727 | is that step of the specification: grants a free RT slot, else queues the client and reports the position the derived queue gives it (`Outcomes.RequestGranted`, `RequestQueued`, `RequestIgnored`) |
| `ControlPlane.Plane.HandleReadyForRt` | wisp/server/src/control/control_plane.c:729-735 | activates a slot in warm-up, ignores any other |
| `ControlPlane.Plane.HandleGrantDecline` | wisp/server/src/control/control_plane.c:737-744 | gives a declined warm-up back and offers it to the queue (`Outcomes.DeclineOutcome`) |
| `ControlPlane.Plane.HandleStopped` | wisp/server/src/control/control_plane.c:504-513 | ends a cooperative eviction and grants the pending target, without offering to the queue |
| `ControlPlane.Plane.HandleSwitchQuery` | wisp/server/src/control/control_plane.c:582-614 | answers ok if and only if the first slot with that id is ACTIVE_RT, NEGOTIATED or QUEUED, and changes the state as `Outcomes` says of SWITCH |
| `ControlPlane.Plane.HeartbeatBranch` | wisp/server/src/control/control_plane.c:367-385 | a timed-out client loses the slot, the ring is evicted, both notices are sent in order, the queue is served |
| `ControlPlane.Plane.GraceBranch` | wisp/server/src/control/control_plane.c:387-404 | an eviction past its deadline is forced through |
| `Outcomes.AcceptTakesLowestSlot` | wisp/server/src/control/control_plane.c:343-353 | a new connection is given the lowest free slot, wiped clean and CONNECTED, and an empty channel; no other slot changes |
| `Outcomes.AcceptOnFullTable` | wisp/server/src/session/session_table.c:15-29 | with every slot in use it is given none |
| `Outcomes.ConnectOutcome` | wisp/server/src/control/control_plane.c:663-708 | a newcomer is sent exactly one answer; taken on it is named and NEGOTIATED, turned away its slot is free again, and nothing else changes |
| `Outcomes.RequestGranted` | wisp/server/src/control/control_plane.c:710-719 | a NEGOTIATED client asking while the RT slot is free is in warm-up under the next generation and is sent that GRANT and no more; nothing else changes |
| `Outcomes.RequestQueued` | wisp/server/src/control/control_plane.c:720-726 | asking while it is taken, it is queued as of then and is told one more than the number served before it; nothing else changes |
| `Outcomes.RequestIgnored` | wisp/server/src/control/control_plane.c:710-713 | a request in any other state changes nothing |
| `Outcomes.ReadyOutcome` | wisp/server/src/control/control_plane.c:729-735 | READY_FOR_RT makes exactly a client in warm-up the active one, alive as of then |
| `Outcomes.HeartbeatOutcome` | wisp/server/src/control/control_plane.c:755-761 | a HEARTBEAT renews the active client only |
| `Outcomes.DeclineOutcome` | wisp/server/src/control/control_plane.c:737-744 | a client in warm-up that declines is NEGOTIATED, and the head of the queue, if any, is in warm-up under the next generation and has its GRANT |
| `Outcomes.StoppedOutcome` | wisp/server/src/control/control_plane.c:504-513 | STOPPED from the client being evicted makes it NEGOTIATED and puts the pending target, and nobody but it, in warm-up; from any other it changes nothing |
| `Outcomes.DisconnectOutcome` | wisp/server/src/control/control_plane.c:630-661 | a client that leaves frees its slot; if it held the RT slot the heir is the pending target if still NEGOTIATED or QUEUED, else the head of the queue: its slot, its GRANT and the generation, which moves once more if the lost client was active |
| `Outcomes.AnnounceOutcome` | wisp/server/src/control/control_plane.c:763-778 | DMABUF_ANNOUNCE is acknowledged and changes nothing else |
| `Outcomes.SwitchGrantsFreeSlot` | wisp/server/src/control/control_plane.c:515-533 | a switch to a NEGOTIATED or QUEUED client with the RT slot free grants it, as a request would |
| `Outcomes.SwitchEvicts` | wisp/server/src/control/control_plane.c:471-487 | with a client active it is EVICTING_COOPERATIVE, told so and no one else is, and target and deadline are set |
| `Outcomes.SwitchRetargets` | wisp/server/src/control/control_plane.c:523-530 | with a client in warm-up or being evicted only the target changes |
| `Outcomes.SwitchIgnored` | wisp/server/src/control/control_plane.c:582-607 | a switch to anybody else changes nothing |
| `Outcomes.SwitchAnswer` | wisp/server/src/control/control_plane.c:582-614 | the answer is ok if and only if the first connected client with that id is ACTIVE_RT, NEGOTIATED or QUEUED |
| `Outcomes.GraceOutcome` | wisp/server/src/control/control_plane.c:387-404 | the grace check does nothing before its time; then the client being evicted is NEGOTIATED and the heir, chosen as for a lost client, has the slot |
| `Outcomes.HeartbeatCheckIdle` | wisp/server/src/control/control_plane.c:367-370 | with nobody active or overdue the heartbeat check changes nothing |
| `Outcomes.ActivateDisplaces` | wisp/server/src/session/session_table.c:55-71 | activating a slot makes whichever other one was active NEGOTIATED |
| `Outcomes.RemoveOutcome` | wisp/server/src/session/session_table.c:107-117 | removing a slot frees it, clears the cache if it was the active one, and does nothing to a free slot |
| `Outcomes.EvictionOperations` | wisp/server/src/session/session_table.c:73-93 | an eviction is begun only of an active slot, forced only once begun, reclaimed either way |
| `Promises.StoppedIsNeverStale` | wisp/server/src/control/control_plane.c:504-513 | in every run of server, FIFO channels and SDK clients, a STOPPED the server acts on answers the eviction now in flight; any other is ignored |
| `Promises.ReadyIsNeverStray` | wisp/server/src/control/control_plane.c:729-735 | in every such run a READY_FOR_RT finds its slot in warm-up under the very grant it answers |
| `Promises.ConnectComesFirst` | docs/design/RT_CLIENT_LIFECYCLE.md:278-283 | in every such run CONNECT reaches only a CONNECTED slot |
| `Promises.HandshakeConservation` | wisp/client_sdk/src/client_control.c:36-59 | a slot is in GRANTED_WARMUP exactly when one GRANT or READY_FOR_RT of its connection is in flight; during an eviction exactly one EVICT_PENDING or STOPPED is; never more than one of either pair |
| `Promises.WarmupAnsweredExactly` | wisp/client_sdk/src/client_control.c:36-59 | when a client reads its GRANT its slot is in warm-up, and exactly one answer is in flight if it can attach, none if it cannot |
| `Fairness.OnlyItsClientEndsWarmup` | wisp/server/src/control/control_plane.c:367-404 | no timer, admin or other client touches a slot in warm-up |
| `Promises.QuiescentAgreement` | wisp/client_sdk/src/client_control.c:121-154 | once both channels of a live client are empty, it believes itself active exactly when the server has it ACTIVE_RT, and no handshake is pending |
| `Promises.FlagConverges` | wisp/client_sdk/src/client_control.c:121-154 | at any moment, reading what is in flight will leave the flag saying exactly whether the server has fielded the client |
| `Promises.RivalPublishersAreAgesApart` | wisp/client_sdk/src/client_control.c:340-347 | two clients pass the generation check together only if their grants are a full turn of the 32-bit word apart |
| `Promises.AtMostOnePublisher` | wisp/client_sdk/src/client_control.c:340-347 | before the generation word wraps, at most one client can pass the check, dropped connections and grants in flight included |
| `Promises.ActiveClientIsThePublisher` | wisp/client_sdk/src/client_control.c:340-347 | before the generation reaches 2^32, the live ACTIVE_RT client can pass it, and nobody else |
| `Publishers.PublisherExactly` | wisp/client_sdk/src/client_control.c:340-347 | in every run whose generation has not reached 2^32, whatever its state, a connected client passes the check if and only if it was granted the current generation and, in warm-up or active, has read its GRANT or, otherwise, has not read its EVICT_PENDING |
| `Publishers.ForcedOutMayPublish` | wisp/server/src/control/control_plane.c:387-404 | before the generation reaches 2^32: a grace period running out with no target and an empty queue leaves the RT slot free and the client NEGOTIATED, and able to publish exactly until it reads its EVICT_PENDING |
| `Handshake.StepKeepsInv` | wisp/client_sdk/src/client_control.c:78-154 | every step of server or client, in any order, keeps the system invariant |
| `Links.TakeStopped` | wisp/server/src/control/control_plane.c:504-513 | the ordering argument: an older acknowledgement lies ahead of any newer grant, so one accepted during an eviction is that eviction's |
| `Links.ReceiveLink` | wisp/client_sdk/src/client_control.c:121-154 | reading a message turns the first token of one channel into the last of the other and keeps the link's invariant |
| `Links.PublishLink` | wisp/client_sdk/src/client_control.c:340-347 | the self-deactivation in publish never stands down a client the server has fielded |
| `ClientSdk.Context.HandleGrant` | wisp/client_sdk/src/client_control.c:36-59 | adopts the generation and the descriptor, closes the descriptor held before, becomes active, answers READY_FOR_RT; without a ring or a descriptor closes what came, returns -1 and sends nothing; a ring once attached stays |
| `ClientSdk.FrameFd.Granted` | wisp/client_sdk/src/client_control.c:41-49 | of the descriptor held and the one that came exactly one is closed, and the books stay balanced |
| `ClientSdk.Context.Disconnect` | wisp/client_sdk/src/client_control.c:363-373 | says DISCONNECT and closes the descriptor held |
| `ClientSdk.Session` | wisp/client_sdk/src/client_control.c:108-154 | over a whole session, whatever the server sends: the client closes, once each, exactly the descriptors that came with GRANTs; so all that came are closed if and only if none came with another message |
| `ClientSdk.Context.OnMessage` | wisp/client_sdk/src/client_control.c:121-154 | the control thread's message switch, in place, and the handshake phases before it |
| `ClientSdk.Context.CheckGeneration` | wisp/client_sdk/src/client_control.c:340-347 | lets a frame through exactly for an active client of the current generation; the client is active afterwards exactly if it did |
| `ClientSdk.PublishStandsDown` | wisp/client_sdk/src/client_control.c:340-347 | publish leaves active exactly a client that passes the check, so a stale one is stood down; what it was granted and its phase stay |
| `ClientSdk.ConnectingOutcome` | wisp/client_sdk/src/client_control.c:229-288 | a client turned away gives up; after any other answer, or none, it requests, and after the next message, or none, it is in the control loop |
| `ClientSdk.GrantOutcome` | wisp/client_sdk/src/client_control.c:36-59 | a GRANT it can attach makes it active under that generation and is answered by READY_FOR_RT; one it cannot is lost, and the first one so lost ends the session |
| `ClientSdk.ControlOutcome` | wisp/client_sdk/src/client_control.c:121-154 | DEACTIVATE stands the client down, EVICT_PENDING too and is answered by STOPPED, nothing else changes it |
| `Fairness.WorkConservedExactly` | wisp/server/src/control/control_plane.c:489-753 | after any event somebody queued means the RT slot is taken, if and only if the event is not a STOPPED without a pending target or a CONNECT repeated in warm-up while somebody waits |
| `Fairness.WorkConservation` | wisp/server/src/control/control_plane.c:746-753 | over every run without those two events the RT slot is never idle while a client is queued |
| `Fairness.StoppedConservesExactly` | wisp/server/src/control/control_plane.c:504-513 | ending an eviction leaves nobody stranded exactly when a target is pending or nobody waits |
| `Fairness.ConnectConservesExactly` | wisp/server/src/control/control_plane.c:663-708 | a CONNECT strands somebody exactly when it comes from the slot in warm-up and somebody waits |
| `Fairness.SwitchThenHangupStrands` | wisp/server/src/control/control_plane.c:647-658 | from any state with a client active and another queued: switch to a third, let it hang up, let the active one stop; the RT slot is idle and the queued client waits |
| `Fairness.OfferEffect` | wisp/server/src/control/control_plane.c:746-753 | under the invariant an offer is a grant to the head of the queue or nothing |
| `Fairness.OrderlyStepIsFair` | wisp/server/src/control/control_plane.c:710-753 | without SWITCH, a step grants only to the client at position 1, and everyone else's position falls by at least the number of grants |
| `Fairness.BoundedBypass` | wisp/server/src/session/session_table.c:149-183 | while a client waits, at most position minus one grants go to others, and its position never rises |
| `Fairness.BoundedBypassFromInit` | wisp/server/src/session/session_table.c:149-183 | the same from any moment of any run without SWITCH that starts with an empty table |
| `Service.StepConservesExactly` | wisp/server/src/control/control_plane.c:504-513 | with SDK clients the only step after which somebody waits for an idle RT slot is a STOPPED that finds its target gone |
| `Service.WorkConservation` | wisp/server/src/control/control_plane.c:746-753 | in every run of server and SDK clients without such a step the RT slot is never idle while a client is queued |
| `Service.BoundedBypass` | wisp/server/src/session/session_table.c:149-183 | in every run of server and SDK clients without SWITCH, from any moment a client waits, at most its position minus one grants go to others before its own |
| `Served.NewcomerIsServed` | wisp/client_sdk/src/client_control.c:229-288 | from every reachable state of server and clients with the RT slot and a slot free there is a run of seven steps, from connecting on, after which the newcomer is ACTIVE_RT under the next generation, believes so, passes the generation check, and has nothing in flight; no other slot has changed |
| `Served.FirstClientIsServed` | wisp/server/src/control/control_plane.c:296-408 | so the first client of a server with any slots at all is served, under generation 1 |
| `Served.NewcomerIsQueued` | wisp/server/src/control/control_plane.c:720-726 | with the RT slot taken it is queued after five steps and has its position coming |
| `Served.SwitchIsServed` | docs/design/RT_CLIENT_LIFECYCLE.md:437-470 | from every reachable state, a switch from an idle active client to an idle grantable one is over after five steps through both ends: the one NEGOTIATED and stood down, the other ACTIVE_RT, active and of the next generation, nobody else changed |
| `Switching.SwitchThenStopped` | docs/design/RT_CLIENT_LIFECYCLE.md:437-470 | a switch away from the active client is honoured along every run with no other switch, neither client lost and the named one not reconnecting: the eviction stays under way and the generation stands until the active client's STOPPED, which puts the named one in warm-up under the next generation and the old one in NEGOTIATED and changes nobody else |
| `Switching.SwitchThenGrace` | wisp/server/src/control/control_plane.c:387-404 | along the same runs, if it never stops, the first check at or after the grace period does that |
| `Switching.SwitchLeavesTheQueueAlone` | docs/design/RT_CLIENT_LIFECYCLE.md:463-470 | every other queued client keeps slot, state and request time, and its position but for the named client leaving the queue ahead of it |
| `Switching.SwitchDuringWarmup` | wisp/server/src/control/control_plane.c:523-530 | a switch during somebody's warm-up changes the pending target and nothing else |
| `Switching.ReadyForgetsSwitch` | wisp/server/src/control/control_plane.c:729-735 | READY_FOR_RT leaves the target pending and begins no eviction |
| `Switching.DeclineHonoursSwitchExactly` | wisp/server/src/control/control_plane.c:737-744 | a decline gives the slot to the pending target if and only if it heads the queue |
| `Switching.LossHonoursSwitchExactly` | wisp/server/src/control/control_plane.c:630-661 | losing the connection of the holder, in warm-up or any other RT state, grants the pending target if and only if it is still NEGOTIATED or QUEUED |
| `Switching.TimeoutHonoursSwitchExactly` | wisp/server/src/control/control_plane.c:370-385 | timing the holder out grants the pending target if and only if it heads the queue, and keeps it pending |
| `Liveness.SignOfLifeCovers` | wisp/server/src/session/session_table.c:55-62 | a READY_FOR_RT or HEARTBEAT protects from every check in the following 1000 ms |
| `Liveness.SilenceIsNoticed` | wisp/server/src/control/control_plane.c:370-385 | a client silent for 1001 ms is NEGOTIATED after the next check, its generation is stale, and the head of the queue is in warm-up under a newer one |
| `Liveness.SilenceIsAnswered` | wisp/server/src/control/control_plane.c:370-385 | in every run of server and SDK clients, the check that times a client out sends it LIVENESS_TIMEOUT and then DEACTIVATE, the head of the queue its GRANT, and nobody else anything |
| `Generations.NextDisciplined` | wisp/server/src/control/control_plane.c:454-464 | a step makes at most one grant, under a generation above all before it; without one the generation moves only when the active client is lost, by one |
| `Generations.GrantsIncrease` | wisp/server/src/control/control_plane.c:454-464 | along every run grants carry strictly increasing generations |
| `Generations.EvictingIsQuiet` | wisp/server/src/control/control_plane.c:471-487 | during an eviction nobody is in warm-up or active |
| `Generations.EpochAcrossEviction` | wisp/server/src/control/control_plane.c:471-513 | from then on the generation stands still until the next grant, which raises it by exactly one |
| `QueueOrder.PositionReflectsOrder` | wisp/server/src/session/session_table.c:164-183 | positions order queued clients exactly as (request time, index) does, without ties |
| `QueueOrder.PositionsAreExactlyOneToK` | wisp/server/src/session/session_table.c:164-183 | the positions in use are exactly 1 to the number of queued clients, for every table |
| `QueueOrder.ZeroMeansNotQueued` | wisp/server/src/session/session_table.c:164-167 | position 0 is reported exactly of a slot that is not queued |
| `QueueOrder.NextIsPositionOne` | wisp/server/src/session/session_table.c:149-162 | the scan finds exactly the client at position 1, and none exactly when nobody is queued |
| `QueueOrder.LeavingMovesUp` | wisp/server/src/session/session_table.c:164-183 | a client leaving the queue moves up those behind it by one and nobody else |
| `QueueOrder.GrantingTheHeadMovesAllUp` | wisp/server/src/session/session_table.c:49-53 | granting the head lowers every other position by exactly one |
| `QueueOrder.LatecomerIsLast` | wisp/server/src/control/control_plane.c:720-726 | a request later than all waiting ones is told the last position and moves nobody |
| `Sessions.SessionTable.Add` | wisp/server/src/session/session_table.c:15-29 | the first free slot is wiped and claimed, or -1 and no change if there is none |
| `Sessions.SessionTable.LookupClientId` | wisp/server/src/session/session_table.c:39-47 | the first occupied slot whose id is the same as far as strncmp() looks, -1 if none; `SameIdExactly` says what that means |
| `Sessions.StoredIdIsFound` | wisp/server/src/control/control_plane.c:695-696 | an id cut to the stored length is still found under the full one |
| `Sessions.SameIdExactly` | wisp/server/src/session/session_table.c:39-47 | ids short enough to be stored whole are the same only if they are equal |
| `Sessions.LongIdsAreCut` | wisp/server/src/control/control_plane.c:695-696 | longer ones keep exactly their first 31 characters |
| `Sessions.SessionTable.Taken` | wisp/server/src/session/session_table.c:95-105 | true exactly when some occupied slot is in GRANTED_WARMUP, ACTIVE_RT or either EVICTING state |
| `Sessions.SessionTable.NextInLine` | wisp/server/src/session/session_table.c:149-162 | the scan returns the slot QueueOrder proves to be the head |
| `Sessions.SessionTable.PositionOf` | wisp/server/src/session/session_table.c:164-183 | the count is one more than the number of queued clients served before this one, 0 if not queued |
| `Sessions.NextQueued` | wisp/server/src/session/session_table.c:149-162 | the slot found is queued and before every other queued one; none only if nobody is |
| `Sessions.SessionTable.ActivateAt` | wisp/server/src/session/session_table.c:55-62 | the new ACTIVE_RT slot, its heartbeat, the cache, and the slot it displaces |
| `Sessions.SessionTable.BeginEvictionAt` | wisp/server/src/session/session_table.c:73-80 | the whole table afterwards |
| `Sessions.SessionTable.ReclaimAt` | wisp/server/src/session/session_table.c:87-93 | the whole table afterwards |
| `Sessions.SessionTable.RemoveAt` | wisp/server/src/session/session_table.c:107-117 | the whole table afterwards |
| `Sessions.SessionTable.CheckHeartbeats` | wisp/server/src/session/session_table.c:119-136 | demotes and returns the active slot exactly when its heartbeat is overdue |
| `Timespecs.HeartbeatExpiredExactly` | wisp/server/src/session/session_table.c:125-131 | when the truncating check fires, in terms of the true gap, for all normalised times |
| `Timespecs.HeartbeatWindow` | wisp/protocol/include/wisp/wire.h:181-188 | never for a gap up to 1000 ms, always from 1001 ms |
| `Timespecs.GraceElapsedExactly` | wisp/server/src/control/control_plane.c:387-392 | the grace check fires from the deadline on, and up to a millisecond before it only if the nanoseconds are behind the deadline's |
| `Timespecs.GraceWindow` | wisp/protocol/include/wisp/wire.h:195-202 | with the deadline as computed: always from 1000 ms after the start, never up to 999 ms |
| `Timespecs.DeadlineExact` | wisp/server/src/control/control_plane.c:480-486 | the deadline is normalised and exactly that much later |
| `Timespecs.EarlierIsByInstant` | wisp/server/src/session/session_table.c:143-147 | the comparison orders normalised times by instant |
| `FrameRegister.RingIsALatestFrameRegister` | wisp/protocol/include/wisp/wire.h:110-161 | every interleaving of claim, byte writes, stamps, publish, checkout, byte reads and release, with evictions at harmless moments, is a run of one atomic register: all read between checkout and release is the latest frame published before the checkout, and that frame is what its producer drew |
| `FrameRegister.StepRefines` | wisp/server/src/shm/server_shm.c:75-88 | each step of the ring is the register's step with the same values seen |
| `FrameRegister.ClaimSucceedsExactly` | wisp/protocol/include/wisp/wire.h:110-139 | with three buffers or more, after any run with evictions at any time, write_slot() returns a buffer if and only if none has been claimed since the last publish or eviction, and aborts otherwise; a claim by an evicted producer, or one whose publish was refused, counts |
| `FrameRegister.JamsAnywhere` | wisp/client_sdk/src/client_control.c:61 | wherever the holder of the grant may claim and a producer that had it before is idle, that one's claim and refused publish make the holder's next claim abort |
| `FrameRegister.JammedRun` | wisp/client_sdk/src/client_control.c:340-347 | it can come to that with the second client granted the slot: a run from the start |
| `Publishers.TimedOutStillActive` | wisp/server/src/control/control_plane.c:370-385 | a live client timed out still believes itself active while its publish is refused, in every run whose generation has not come within two of 2^32 |
| `Evictions.EvictionHarmlessExactly` | wisp/server/src/shm/server_shm.c:90-97 | after any run with only harmless evictions, the next one goes unnoticed on every continuation up to the one after it if and only if it is harmless: leaving nobody with the grant, unless buffer 0 is being read and a producer remains that had the grant; leaving somebody, if no other producer is drawing, buffers 0 and 1 are not being read, and the one granted is not drawing or the only one |
| `Evictions.FrameSurvivesExactly` | wisp/server/src/shm/server_shm.c:90-97 | at any point of any run with evictions at any time: the frame being read survives every continuation to its release if and only if no producer is in its buffer and the buffer is 2 or above, or no further eviction comes and it is still locked, or out of reach: a claim stands that nobody may publish, or nobody holds the grant and the one claim still possible gets another buffer |
| `Evictions.TornReadRun` | wisp/server/src/shm/server_shm.c:90-97 | a run from the start in which the reader of buffer 1 sees the stamp of the second claim after an eviction; no register could show it |
| `Evictions.MixedFrameRun` | wisp/server/src/shm/server_shm.c:90-97 | a run from the start in which a producer evicted while drawing spoils a pixel of the frame its successor publishes |
| `Ring.ThreeBuffersSuffice` | wisp/protocol/include/wisp/wire.h:123-129 | one of any three buffers is neither published nor being read |
| `Ring.ShmRing.ClaimWriteSlot` | wisp/protocol/include/wisp/wire.h:110-139 | claims the first free buffer, or aborts with nothing changed exactly when a claim is held or none is free |
| `Ring.ShmRing.PublishSlot` | wisp/protocol/include/wisp/wire.h:153-161 | stamps this buffer alone, makes it the latest, drops the claim |
| `Ring.ShmRing.CheckoutLatest` | wisp/server/src/shm/server_shm.c:75-82 | returns the latest buffer and locks it if there is one |
| `Ring.ShmRing.EvictClient` | wisp/server/src/shm/server_shm.c:90-97 | bumps the generation and clears all three indices |
| `WakeUp.NoLostWakeUp` | wisp/server/src/dataplane/data_plane.c:58-95 | in every interleaving, if the latest frame has not been checked out then the eventfd is positive, or a publisher is between publish and post, or the loop is between wake-up and checkout |
| `WakeUp.PublishedFrameIsReached` | wisp/server/src/dataplane/data_plane.c:58-95 | so once publishers have posted, the loop alone checks the frame out within five of its steps |
| `WakeUp.WakesAreAccountedFor` | wisp/server/src/dataplane/data_plane.c:89-122 | every wake with a frame signal is counted once, as rendered, dropped or failed |
| `WakeUp.PassOutcome` | wisp/server/src/dataplane/data_plane.c:70-123 | a pass from wake-up to the end of the blit clears the signal, has seen the latest frame if there is one, and counts one rendered, dropped or failed |
| `WakeUp.DataPlane.OnWake` | wisp/server/src/dataplane/data_plane.c:70-123 | one pass of the loop, the one `PassOutcome` describes: counter emptied, no buffer left locked by it, one statistic up by one, latency modulo 2^64 |
| `Framing.Exchange` | wisp/protocol/src/socket_message.c:92-128 | any list of messages, sent and received in any order in which nothing is received before it is sent, over any split of the stream and any placement of EINTR, is received as exactly that list |
| `Framing.DecodeEncode` | wisp/protocol/src/socket_message.c:92-128 | decoding inverts encoding whatever follows; an oversized payload is refused and left on the stream |
| `Framing.DecodeIsExact` | wisp/protocol/src/socket_message.c:108-128 | a stream that yields a message begins with that message's encoding and no other |
| `Framing.EncodingLayout` | wisp/protocol/src/socket_message.c:92-101 | on the wire a message is its kind, its length in four bytes of network order, and its payload |
| `Framing.RefusalOutcome` | wisp/protocol/src/socket_message.c:108-128 | a message is refused exactly when the length in its header exceeds the buffer, with nothing behind the header taken |
| `Framing.Socket.SendAll` | wisp/protocol/src/socket_message.c:38-51 | everything is sent, or a proper prefix and an error; no error without a failing call |
| `Framing.Socket.RecvAll` | wisp/protocol/src/socket_message.c:61-76 | the next bytes exactly, or an error exactly when the stream ends first, barring failing calls |
| `Framing.Socket.Recv` | wisp/protocol/src/socket_message.c:108-128 | the return code and what is left on the stream are those of decoding it |
| `Bytes.BigEndianRoundTrip` | wisp/protocol/src/socket_message.c:94-97 | the length word survives the network byte order |
| `Bytes.MostSignificantFirst` | wisp/protocol/src/socket_message.c:94-97 | in the bytes of two different numbers the first difference is smaller in the smaller number |
| `FdOwnership.RecvFds` | wisp/protocol/src/socket_message.c:184-261 | decodes what the plain receive decodes, even from a partial first header read; descriptors are delivered only with a message, the first `max_fds` of them; all others that arrived, arrived meaning that the receive took at least one byte, are closed on every way out, those of a stream that ends inside a message included |
| `FdOwnership.RecvFdsOnce` | wisp/protocol/src/socket_message.c:220-260 | so on every return each valid descriptor that arrived is delivered or closed, exactly once |
| `FdOwnership.Harvest` | wisp/protocol/src/socket_message.c:220-235 | over all control messages, the first ones are stored and the others closed, in order |
| `FdOwnership.PassedOfMany` | wisp/protocol/src/socket_message.c:220-235 | the descriptors passed are those of every SCM_RIGHTS control message, in order |
| `FdOwnership.RoomForFirst` | wisp/protocol/src/socket_message.c:220-235 | there is room for the first `max_fds`, and the others are in excess |
| `FdOwnership.SendFds` | wisp/protocol/src/socket_message.c:130-180 | writes the bytes of a plain send, from any partial first write; the descriptors ride on the first byte of the header, all of them, once, and not at all if nothing was written or there are more than three |
| `FdOwnership.PassFds` | wisp/protocol/src/socket_message.c:130-261 | sent and received over any split and any placement of EINTR, the message and its descriptors arrive as they were and none is closed on the way |
| `FdOwnership.FdLog.CloseFds` | wisp/protocol/src/socket_message.c:86-90 | closes the valid descriptors, in order |
| `FdOwnership.DmabufSet.FromAnnounce` | wisp/server/src/shm/server_shm.c:99-134 | adopts all three descriptors exactly when there are three, all are valid, and every description has width, height and a stride no smaller than the width; closes all of them otherwise |
| `FdOwnership.DmabufSet.CloseSet` | wisp/server/src/shm/server_shm.c:136-145 | closes each adopted descriptor and leaves nothing to close again |
| `FdOwnership.HandleReadable` | wisp/server/src/control/control_plane.c:763-846 | which descriptors the server closes after one message, for every count and content |
| `FdOwnership.ServerLeaksExactly` | wisp/server/src/control/control_plane.c:799-851 | all are closed exactly when the message is a DMABUF_ANNOUNCE of the right length or brought none |
| `TokenMatch.Tokenize` | docs/kerneldoc-src/tools/lib/python/kdoc/c_lex.py:229-257 | every token carries the level after it, by the three counters |
| `TokenMatch.StrayCloses` | docs/kerneldoc-src/tools/lib/python/kdoc/c_lex.py:248-254 | a `)` or `]` with none of its kind open counts as a `}`, and a `}` with none open as nothing |
| `TokenMatch.LevelsCountTheStack` | docs/kerneldoc-src/tools/lib/python/kdoc/c_lex.py:229-257 | on properly nested input the counters count the open brackets of each kind |
| `TokenMatch.MatchingCloseMatches` | docs/kerneldoc-src/tools/lib/python/kdoc/c_lex.py:480-501 | every open bracket has a close of its kind with a properly nested stretch between |
| `TokenMatch.LevelReturnsAtClose` | docs/kerneldoc-src/tools/lib/python/kdoc/c_lex.py:558-562 | after an open bracket the level returns to what it was first at the matching close |
| `TokenMatch.Search` | docs/kerneldoc-src/tools/lib/python/kdoc/c_lex.py:508-574 | on properly nested input the search yields exactly the specified spans, although its stack keeps stale entries; on any input, what its turns add up to |
| `TokenMatch.SearchFindsMatchingSpans` | docs/kerneldoc-src/tools/lib/python/kdoc/c_lex.py:508-574 | each span starts at an accepted name and ends at the matching close of the delimiter after it; spans are disjoint and increasing |
| `TokenMatch.NameReportedExactly` | docs/kerneldoc-src/tools/lib/python/kdoc/c_lex.py:535-574 | on properly nested input an accepted name is reported if and only if it is not inside an earlier span, not right behind a bare name's, and not the first token with only spaces after it |
| `TokenMatch.NameReportedByInput` | docs/kerneldoc-src/tools/lib/python/kdoc/c_lex.py:535-574 | where no accepted name is followed by another: an accepted name is reported if and only if it is not between the brackets of another, reported or not, and not that lone first token |
| `TokenMatch.NameAfterBareNameIsMissed` | docs/kerneldoc-src/tools/lib/python/kdoc/c_lex.py:552-556 | the miss is real: a concrete token list |
| `TokenMatch.Substitute` | docs/kerneldoc-src/tools/lib/python/kdoc/c_lex.py:599-655 | the result is the list with every span replaced if `count` is 0, and else the first `count` of them, or all if there are fewer |
| `TokenMatch.SubKeepsTheRest` | docs/kerneldoc-src/tools/lib/python/kdoc/c_lex.py:623-651 | erasing the spans leaves exactly the tokens outside them, in order; putting each back restores the list |
| `SnapshotRing.FileSink.Record` | wisp/server/src/dataplane/fb_sink_file.c:193-206 | the ring read from its head is the last k paths in order; every older one was removed, from the list and the disk, and freed, exactly once |
| `SnapshotRing.FileSink.Blit` | wisp/server/src/dataplane/fb_sink_file.c:83-102 | a path is recorded on every interval-th successful frame whose snapshot was written; the files on disk are then those the log of writes accounts for, a file cut short by a failed write included |
| `SnapshotRing.FileSink.Close` | wisp/server/src/dataplane/fb_sink_file.c:104-115 | every path ever duplicated has then been freed exactly once |
| `SnapshotRing.EachFreedOnce` | wisp/server/src/dataplane/fb_sink_file.c:104-115 | the strings freed on the way and those still held are all the strings, each once |
| `SnapshotRing.FilesAreTheLastExactly` | wisp/server/src/dataplane/fb_sink_file.c:97-201 | after every write the files on disk are those of the last k paths recorded, if and only if no path returns while its earlier entry is among the last k or just being dropped, and no failed write leaves a file under a name not among them |

## Left out

- Promises.AtMostOnePublisher: stops at the wrap of the 32-bit generation word; RivalPublishersAreAgesApart says what is true after it.
- Promises.HandshakeConservation: for clients that can attach the ring and get the frame descriptor, with no failed sends; WarmupAnsweredExactly says what one that cannot does. GRANT_DECLINE, which the SDK never sends, is handled by the server model but absent from these runs.
- Promises.QuiescentAgreement: in wispc_connect() with the first receive failing, the message kind tested next is uninitialised; the model takes it not to be VERSION_MISMATCH.
- FrameRegister.RingIsALatestFrameRegister: only with evictions at harmless moments; Evictions.EvictionHarmlessExactly shows why.
- Publishers.PublisherExactly: about clients the server still has a connection to; one it has dropped passes the check if it is active and nobody has been granted or lost since its grant.
- Evictions.FrameSurvivesExactly: a producer that passes the generation check and is evicted before it stamps or takes the lock is not modelled; an evicted producer stamps and publishes only once granted anew. Exactness assumes buffers of at least one pixel byte.
- FrameRegister.ClaimSucceedsExactly: the abort ends the process; what its descriptors and mapping then do is left out.
- ClientSdk.Context.CheckGeneration: one step together with reading the generation; an eviction between the check and the publish is not modelled.
- Framing.Socket.Recv: makes no claim about the stream after an oversized message; the payload stays on it, as in the program.
- Framing.Exchange: one direction of the connection, one whole message at a time at each end; a receive that begins before its message is complete would block, not fail.
- TokenMatch.Search: no claim about input that is not properly nested beyond not failing.
- TokenMatch.Substitute: the replacement is any function of the span's tokens; CTokenArgs, the regular expressions and rendering back to text are not modelled.
- SnapshotRing.FileSink.Record: a failing strdup() or remove() is not modelled; a file already there when the sink starts is not counted.
- Bounded bypass assumes later requests carry later times; equal times go by slot index, so a later request can then overtake.
- Sockets, poll and epoll set-up, signals, `main`, threads and locks as such: events are atomic steps, as each runs on one thread or under the ring's lock.
- Which ready descriptor one poll wake-up serves first: every order of events is allowed.
- Sessions.SessionTable.RemoveAt: does not close a valid dmabuf set, because the server never adopts one.
- Admin LIST, the query rendezvous and the reason strings.
- Mode negotiation: its outcome is part of the CONNECT message. A switch of rendering mode on a grant and kicks of the data plane are not modelled.
- The client's heartbeat and retry timers and the race between them: it may beat and request at any time.
- Failed sends on the server: a message to a closed connection is simply never read.
- Accepted dmabufs (the server never adopts one), real scheduling promotion, and `wisps_session_table_find_by_fd`, which no handler calls.
- Saturation of an eventfd, overflow of 64-bit statistics and of clock differences.
- DENY on a busy slot, a 2000 ms timeout and DEACTIVATE on a switch: older protocol rules the C code no longer follows.
