# Verified models of defguard's concurrent cores

Dafny models of the parts of defguard where state outlives a call or several tasks meet, with proofs
of what they keep. `dafny verify dfyconfig.toml` checks everything.

| part of the system | files |
|---|---|
| VPN session manager: batches of peer statistics, the per-batch cache, the sweep of stale sessions | `SessionDomain`, `SessionRows`, `SessionCache`, `SessionSweep`, `SessionLaws`, `SessionTraces`, `TransferLaws`, `SessionBatches`, `SessionSilence`, `SessionDecisions`, `SessionExamples` |
| update stream from broadcast commands to one gateway | `UpdateStream`, `PeerTable`, `StreamDecisions`, and `Revocation`, which joins it to the sweep |
| disconnect and reconnect notifications of a gateway | `Notifications`, `NotificationLaws`, `NotificationCounts`, `GatewayHandler` |
| manager of the gateway handlers | `GatewayManager`, `ManagerLaws` |
| polling timers, expiry mails, renewal of self-signed certificates | `CertTimers`, `CertRenewal` |
| registry of incompatible components | `ComponentRegistry` |
| address splitting, hexadecimal text, PEM | `Text`, `AddressSplit`, `AddressReading`, `Hex`, `Pem` |

## How the models are built

What the source does with mutable objects is written with classes and loops, each method proved
against functions on values; the laws are lemmas about those functions and about runs of them.
Protocols with several tasks are state machines whose steps any scheduler may interleave. For the
notifications the stretches of code between two awaits are methods of objects as well, and each is
proved to take its step of the state machine. The database is a state of rows with its constraints
(the primary keys, and the partial unique index on active sessions); channels are the sequences of
what was sent; clocks, query answers that the source leaves open, channel failures and failing writes
are inputs.

What an operation decides is proved a second time by the rows, commands or characters it is given
alone, without the functions of the model (`SessionDecisions`, `StreamDecisions`,
`NotificationCounts`, and the lemmas named `...Exactly` elsewhere).

## What the proofs found

Where a property one would expect does not hold, the code is modelled as it is, and the exact
condition is proved, unless it says otherwise here.

- The query for the latest statistics orders by collection time alone. If two rows of a session and a
  gateway were collected at the same time, either may be returned, so a batch that ends after them can
  count traffic twice (`SessionExamples.TieCountsTwice`). An update has one outcome exactly when the newest
  rows report the same figures (`TransferLaws.StepDeterministicExactly`). For whole streams the condition
  is shown one way only: without contradicting updates of one time the batches do not matter
  (`SessionBatches.BatchingIrrelevant`). The comment on the validation says that a new update was collected
  after the previous one; the code accepts equal times.
- A session that an update connects while the event channel is closed is never reported; this is the
  only way in which events and rows come apart (`SessionTraces.RunExplained`).
- A connected session without statistics has no handshake to compare, so the sweep does not find it
  inactive (`SessionSilence.SweepLeavesRecentExactly`). There are two ways to get one, and no others
  (`SessionSilence.RunSilent`): the session that is not reported has no statistics either, until another
  update of its device comes (`SessionExamples.ClosedChannelHides`); and deleting a gateway deletes its
  statistics, which the schema cascades, so a session heard from that gateway only is left with none
  (`SessionExamples.DeletedGatewayHides`).
- Connection events of a handler can repeat (`NotificationLaws.EventsRepeat`): after a failed write the
  in-memory times have moved but nothing was reported. They alternate exactly when an even number of
  writes failed between neighbouring ones (`NotificationLaws.EventsAlternateExactly`).
- An abort does not stop a delayed task that has read the location's row, so a reconnect at that moment
  can still be followed by a disconnect notification (`NotificationLaws.SilentExactly`).
- The branch for a notification already pending is dead if the clock moves forward between connecting
  and disconnecting, and reachable if it stands still (`NotificationLaws.TiedClockFindsPending`).
- An Insert for a gateway already handled leaves its old handler running without a handle
  (`ManagerLaws.ReinsertBreaks`).
- A session row that the sweep could not close for a missing user or device, or a closed channel, rolls
  back the whole sweep, but not the deauthorizations sent before (`SessionSweep.UpdateInactiveSessionStatus`).
- A posture look-up that fails counts as none, so until the location's next change the handler sends
  peers without keys where the sweep still goes by the posture check (`Revocation.RulesAgreeExactly`).
- The mail for day 0 covers a day on either side of the expiry, says before it too that the certificate
  has expired (`CertTimers.ExpiryCheck`), and can be sent twice; and a warning can be
  skipped exactly if two checks are more than a day apart (`CertTimers.WarningSkippedExactly`), as they
  are in the polling loop (`CertTimers.LoopSkipsWarning`).
- A late write of a proxy's entry can replace the time stamp of an equal one
  (`ComponentRegistry.LateWriteIsAtomic`).

## Model

| member | source | states |
|---|---|---|
| `SessionCache.ProcessMessageBatch` | crates/defguard_session_manager/src/lib.rs:127-154 | Cache transparency: one shared cache leaves the rows, the log, the events and the errors of processing the messages one by one against the database, for every database, every batch and messages that fail midway; where the query leaves open which row is the latest, the batch takes the last row it stored itself |
| `SessionCache.ProcessSingleMessage` | crates/defguard_session_manager/src/lib.rs:157-200 | One message against the cache is one such step, partial effects of an error included, and leaves every cache entry what the database, or the batch's own last row, gives |
| `SessionCache.ProcessFirstMessage` | crates/defguard_session_manager/src/lib.rs:176-196 | The same for a message whose device has no active session: the session is opened and its first statistics stored, or nothing happens |
| `SessionCache.UpdateCached` | crates/defguard_session_manager/src/lib.rs:191-196 | Updating one cached session changes the rows as the uncached functions say and keeps all other cache entries right |
| `SessionCache.SessionState.UpdateStats` | crates/defguard_session_manager/src/session_state.rs:125-202 | New becomes Connected and is reported before the update is compared with the last one; a refused update stores nothing but leaves the connection; the cached state moves on even if the event cannot be sent |
| `SessionCache.ActiveSessionsMap.TryGetPeerSession` | crates/defguard_session_manager/src/session_state.rs:264-336 | From the cache or the database, the result is the database's active session for the device, with the event context a new session needs; the lookup that the code expects to succeed succeeds |
| `SessionCache.ActiveSessionsMap.FetchPeerSession` | crates/defguard_session_manager/src/session_state.rs:290-335 | A miss in the cache: the row is loaded with its latest statistics, the errors of a missing user or location come in the order of the lookups |
| `SessionCache.ActiveSessionsMap.PutSession` | crates/defguard_session_manager/src/session_state.rs:326-331 | Both insertions into a location's map find no earlier entry (the precondition every caller is proved to meet), so the assertions cannot fail |
| `SessionCache.ActiveSessionsMap.TryAddNewSession` | crates/defguard_session_manager/src/session_state.rs:345-433 | Opens, caches and reports a session as the uncached functions say; if the event cannot be sent the row and the cache entry stay |
| `SessionCache.ActiveSessionsMap.TryAdmit` | crates/defguard_session_manager/src/session_state.rs:353-389 | The checks in the code's order: location, multi-factor mode, age of the handshake, user |
| `SessionCache.ActiveSessionsMap.InsertSession` | crates/defguard_session_manager/src/session_state.rs:393-418 | The new row is stored and cached, and no other cache entry goes stale |
| `SessionCache.ActiveSessionsMap.GetUser` | crates/defguard_session_manager/src/session_state.rs:449-469 | A cached user is the one in the table |
| `SessionCache.ActiveSessionsMap.GetDevice` | crates/defguard_session_manager/src/session_state.rs:473-497 | A cached device is the one the table holds for the key |
| `SessionCache.ActiveSessionsMap.GetLocation` | crates/defguard_session_manager/src/session_state.rs:501-523 | A cached location is the one in the table |
| `SessionCache.Transaction.FindActiveSession` | crates/defguard_common/src/db/models/vpn_client_session.rs:82-100 | A New or Connected row of the location and device, if there is one |
| `SessionCache.Transaction.FindLatestStats` | crates/defguard_common/src/db/models/vpn_client_session.rs:103-118 | One row for every gateway that reported, none collected later; among rows collected at the same time any may be returned |
| `SessionRows.AcceptedIsLatest` | crates/defguard_session_manager/src/session_state.rs:169-199 | An accepted update is the latest of its gateway, whichever of several rows of equal time it was compared with, so the cached totals stay an answer of the database |
| `SessionRows.CreateKeepsValid` | crates/defguard_session_manager/src/session_state.rs:393-401 | Opening a session cannot violate the unique index on active sessions |
| `SessionRows.RememberAccepted` | crates/defguard_session_manager/src/session_state.rs:195-199 | Replacing the totals of one gateway by those of an accepted update keeps the cached totals of all gateways what they should be |
| `SessionRows.RememberOthers` | crates/defguard_session_manager/src/session_state.rs:235-241 | What is cached about one session is not touched by updates of another |
| `SessionLaws.StepKeepsValid` | crates/defguard_session_manager/src/session_state.rs:134-152 | Every update keeps at most one active session per location and device, and never meets the two errors for a missing event context and a missing session row |
| `SessionLaws.SweepCompletes` | crates/defguard_session_manager/src/lib.rs:207-282 | After a sweep at t nothing is due at t, the constraints hold, and all sessions not due are untouched |
| `SessionLaws.SweepIdempotent` | crates/defguard_session_manager/src/lib.rs:207-282 | A second sweep at t changes nothing and sends nothing |
| `SessionLaws.SweepDeauthorizes` | crates/defguard_session_manager/src/lib.rs:311-343 | Every session closed in a location that authorizes peers has exactly one deauthorize command, and every command belongs to such a session |
| `SessionLaws.BatchIsTrail` | crates/defguard_session_manager/src/session_state.rs:235-241 | Every batch is a run of the uncached process: what the cache has at hand is an answer the database may give |
| `SessionLaws.TrailKeepsValid` | crates/defguard_session_manager/src/lib.rs:139-149 | The constraints hold after any number of updates, failing ones among them |
| `SessionBatches.BatchingIrrelevant` | crates/defguard_session_manager/src/lib.rs:89-95 | However a stream is cut into batches, each with its own cache, all outcomes, events and the final database are the same, if no update contradicts a stored row or another update collected at the very same time (one way for whole streams) |
| `SessionBatches.ClashlessAlong` | crates/defguard_session_manager/src/session_state.rs:62-78 | That condition, which can be told from the database and the stream beforehand, holds of every update with the log it meets |
| `TransferLaws.StepDeterministic` | crates/defguard_session_manager/src/session_state.rs:319-324 | Where the newest rows agree, an update has one outcome only |
| `TransferLaws.TrailDeterministic` | crates/defguard_session_manager/src/session_state.rs:235-241 | A stream whose updates do not clash with the log they meet has one run of the uncached process only, so a batch has exactly its outcomes, update by update |
| `TransferLaws.Conservation` | crates/defguard_session_manager/src/session_state.rs:167-193 | Along the log of a session and a gateway no difference is negative, the differences add up to the last total minus the first, and times and totals never decrease |
| `TransferLaws.CastExact` | crates/defguard_session_manager/src/session_state.rs:71-79 | The casts and the subtraction are exact for counters below 2^63 and only for them; a larger counter comes out smaller than any stored total, and so is refused |
| `TransferLaws.AcceptedContinues` | crates/defguard_session_manager/src/session_state.rs:62-78 | An update that the validation accepts continues the log |
| `TransferLaws.TiesAgreeExactly` | crates/defguard_common/src/db/models/vpn_client_session.rs:108-113 | The choice the query makes among rows of equal time is harmless exactly when those rows report the same figures |
| `TransferLaws.StepAppends` | crates/defguard_session_manager/src/session_state.rs:183-199 | An update adds at most one statistics row, compared with an answer to the query for the latest |
| `TransferLaws.StepDeterministicExactly` | crates/defguard_common/src/db/models/vpn_client_session.rs:108-113 | The updates of a connected session have one outcome each exactly if its newest rows report the same figures |
| `TransferLaws.RunConserves` | crates/defguard_session_manager/src/session_state.rs:167-199 | Every log stays such a chain over any run of batches, sweeps and deletions whose counters are below 2^63 and whose updates do not contradict one collected at the very same time |
| `TransferLaws.SurvivingLog` | crates/defguard_vpn_stats_purge/src/lib.rs:94-101 | A deletion takes the log of a session and a gateway as a whole or not at all |
| `SessionTraces.ReceiveExplained` | crates/defguard_session_manager/src/session_state.rs:154-164 | One update keeps the events explained exactly if the event channel has a receiver or there is no session the update would connect |
| `SessionTraces.RunExplained` | crates/defguard_session_manager/src/events.rs:18-43 | The events of every session are none, one Connected, or one Connected and one Disconnected, of one kind, dated as in its row, with Connected sent exactly for sessions with a connection time: this holds exactly as long as no update of the run connected a session while the event channel had no receiver |
| `SessionTraces.BatchIsRun` | crates/defguard_session_manager/src/lib.rs:127-154 | A batch is a run of single updates with the events in their order, so the laws of runs hold of batches |
| `SessionTraces.SweepExplained` | crates/defguard_session_manager/src/lib.rs:311-327 | A sweep keeps the events explained: a Disconnected event follows for each closed session that had connected, and none for the others |
| `SessionTraces.StepConnects` | crates/defguard_session_manager/src/session_state.rs:131-165 | An update connects exactly the session that a look at the rows beforehand says it would, and fails for a closed event channel exactly if there is one |
| `SessionTraces.UnreportedStays` | crates/defguard_session_manager/src/session_state.rs:158-164 | A connection that was not reported never is |
| `SessionTraces.RunEvolves` | crates/defguard_session_manager/src/lib.rs:284-330 | Over every run of updates, sweeps, logins, revocations and deletions the constraints hold, and a session only goes New, Connected, Disconnected or New, Disconnected, with no other field changed, until it is removed |
| `SessionTraces.RemovalEvolves` | crates/defguard_vpn_stats_purge/src/lib.rs:94-101 | A deletion of sessions, by the purge or with their device, user or location, or of a gateway keeps the constraints and leaves every session as it was, on record or as it was when removed |
| `SessionSweep.UpdateInactiveSessionStatus` | crates/defguard_session_manager/src/lib.rs:207-282 | A sweep commits exactly when every session due can be closed, and then it closes those and sends their events and commands; otherwise the database is as it was, and what was sent by then belongs to the sessions closed before the one that failed, but for a command for that one |
| `SessionSweep.SweepRun.DisconnectAll` | crates/defguard_session_manager/src/lib.rs:235-247 | A list of sessions is closed one by one, up to the first that cannot be |
| `SessionSweep.SweepRun.SweepLocation` | crates/defguard_session_manager/src/lib.rs:217-274 | One location: the inactive sessions, and where peers are authorized at runtime the never connected ones |
| `SessionSweep.SweepRun.SweepAll` | crates/defguard_session_manager/src/lib.rs:217-274 | All locations: together they are the sessions due, each in exactly one location |
| `SessionSweep.SweepRun.GetAllInactive` | crates/defguard_common/src/db/models/vpn_client_session.rs:121-142 | Connected sessions of the location whose latest handshake is older than the threshold, as they were before the sweep; those without statistics are not among them |
| `SessionSweep.SweepRun.GetNeverConnected` | crates/defguard_common/src/db/models/vpn_client_session.rs:145-159 | New sessions of the location created longer ago than the threshold |
| `SessionSweep.OnePeer` | crates/defguard_session_manager/src/lib.rs:332-343 | No two sessions that are due have the same peer, so no peer is deauthorized twice |
| `SessionSweep.SweepRun.DisconnectSession` | crates/defguard_session_manager/src/lib.rs:285-330 | The row is closed in any case; the gateway is told before the event is sent, and the event is sent for a session that had connected; which error is met, and what was sent before it |
| `SessionSilence.SilentIsNeverDue` | crates/defguard_common/src/db/models/vpn_client_session.rs:130-138 | A connected session without statistics is due at no time |
| `SessionSilence.SweepLeavesRecentExactly` | crates/defguard_session_manager/src/lib.rs:207-282 | After a sweep every connected session has a handshake within its threshold, exactly if none was without statistics before |
| `SessionSilence.RunSilent` | crates/defguard_session_manager/src/session_state.rs:154-199 | Over a run a connected session has no statistics exactly if an update connected it while the event channel had no receiver, or the only gateway it was heard from was deleted, and since then neither an update of its device came nor its end or removal |
| `SessionSilence.NextSilent` | crates/defguard_session_manager/src/session_state.rs:154-199 | The same for one update, sweep, login, revocation or deletion |
| `SessionDecisions.StepOpensExactly` | crates/defguard_session_manager/src/session_state.rs:345-433 | An update stores a session exactly if its device is known and has no active session there, the location is known and without multi-factor authentication, the handshake is not older than its threshold, and the user is there |
| `SessionDecisions.OpenedSession` | crates/defguard_session_manager/src/session_state.rs:391-432 | Every field of the session then stored, of its event and of its first statistics; with a closed event channel the session alone |
| `SessionDecisions.RefusedUpdate` | crates/defguard_session_manager/src/session_state.rs:353-389 | An update that finds no session and opens none does nothing, with the error of the first check that failed, or with none |
| `SessionDecisions.NewUpdate` | crates/defguard_session_manager/src/session_state.rs:131-199 | An update of a new session connects it at the handshake, reports it by how it was authorized, and then compares the figures; a missing user or location, or a closed event channel, stops it there |
| `SessionDecisions.ConnectedUpdate` | crates/defguard_session_manager/src/session_state.rs:167-199 | An update of a connected session changes no session and sends nothing; its figures are compared with a row collected last, and it is refused if it is behind in any of four respects, or stored with the wrapped differences |
| `SessionDecisions.CastsWrap` | crates/defguard_session_manager/src/session_state.rs:71-79 | Every cast gives the one signed 64-bit number congruent to the counter, and every subtraction wraps so |
| `SessionDecisions.SessionOrigin` | crates/defguard_session_manager/src/session_state.rs:345-433 | Every session of a run was there at its start, or was stored by a login or by an update that could open one |
| `SessionDecisions.MfaSessionsAreAuthorized` | crates/defguard_session_manager/src/session_state.rs:358-367 | So every session marked as using multi-factor authentication, and every session of a location that always asks for it, was there at the start or comes from a login |
| `SessionDecisions.DueExactly` | crates/defguard_common/src/db/models/vpn_client_session.rs:121-159 | A session is due exactly if it is connected, has statistics and no handshake within the threshold, or is new, older than the threshold, and peers are authorized at runtime in its location |
| `SessionDecisions.OverdueIsClosed` | crates/defguard_session_manager/src/lib.rs:285-343 | Such a session is closed, reported by how it was authorized if it had connected, and its peer deauthorized once exactly where that is done at runtime |
| `SessionDecisions.OthersAreLeft` | crates/defguard_session_manager/src/lib.rs:207-282 | Every other session is left as it was; nothing is sent about it or, while it is active, about its peer |
| `SessionDecisions.RunCutsExactly` | crates/defguard_session_manager/src/lib.rs:311-343 | Over a run a deauthorization is sent exactly once for each sweep that finds a session with that peer overdue where peers are authorized at runtime, and never otherwise |
| `SessionDecisions.CloseFailsExactly` | crates/defguard_session_manager/src/lib.rs:285-330 | Closing a session fails for the first of four reasons: no user, no device, a closed command channel where one is used, a closed event channel where one is used |
| `SessionDecisions.KindsTell` | crates/defguard_session_manager/src/events.rs:18-43 | Where events are explained, each tells by its kind whether its session used multi-factor authentication, and the first is a connection, the second a disconnection, dated as in the row |
| `SessionExamples.TieCountsTwice` | crates/defguard_common/src/db/models/vpn_client_session.rs:108-113 | Three reports from an empty database, two of them of equal time: in one batch the stored differences add up to the growth of the counter, but cut before the third the query may take the older row and 50 bytes are counted twice |
| `SessionExamples.ClosedChannelHides` | crates/defguard_session_manager/src/session_state.rs:154-164 | An update that meets a closed event channel: a connected session without an event and without statistics, due at no time |
| `SessionExamples.DeletedGatewayHides` | crates/defguard_core/src/handlers/gateway.rs:255-287 | A session connected and reported, and then its gateway deleted: connected without statistics, due at no time |
| `UpdateStream.UpdatesHandler.Run` | crates/defguard_gateway_manager/src/handler.rs:914-1055 | The handler sends the responses to the commands in order, up to the first that cannot be delivered, and nothing else |
| `UpdateStream.UpdatesHandler.Handle` | crates/defguard_gateway_manager/src/handler.rs:922-1053 | One command: at most one update, and the remembered network and authorization flag, which are replaced even if the update about them failed |
| `PeerTable.ReplayGivesVerdict` | crates/defguard_gateway_manager/src/handler.rs:920-1054 | Refinement: replaying what was sent gives, key by key, the last effect the commands have on the key, and the firewall last asked for |
| `PeerTable.VerdictIsLast` | crates/defguard_gateway_manager/src/handler.rs:920-1054 | That effect is the one of a command after which no other concerned the key, and conversely |
| `PeerTable.RespondEffect` | crates/defguard_gateway_manager/src/handler.rs:922-1046 | The update for one command changes the gateway as the command means, whatever it held before |
| `PeerTable.AbsentUntilGranted` | crates/defguard_gateway_manager/src/handler.rs:995-1026 | A key removed by a deletion or a deauthorization stays absent until a later command sets it |
| `PeerTable.RuntimePeersKeyed` | crates/defguard_gateway_manager/src/handler.rs:843-882 | A runtime peer update carries a preshared key exactly when the flag in force requires it, and then that of an authorized session |
| `PeerTable.PeersAreAuthorized` | crates/defguard_gateway_manager/src/handler.rs:851-881 | Where authorization is required throughout, every peer came from a command authorizing it, a full network update or the initial table |
| `PeerTable.OthersDropped` | crates/defguard_gateway_manager/src/handler.rs:910-913 | Dropping all commands for other locations changes neither what is sent nor what is remembered |
| `PeerTable.FoundIsOwn` | crates/defguard_gateway_manager/src/handler.rs:965-968 | The entry found for a location is one of the list and its own; none is found exactly if there is none |
| `StreamDecisions.HeldExactly` | crates/defguard_gateway_manager/src/handler.rs:816-841 | The handler goes by the last network data of its location and the look-up that came with them, a failed one counting as none, or by those it started with |
| `StreamDecisions.RuntimePeersExactly` | crates/defguard_gateway_manager/src/handler.rs:843-911 | For a device offered by a command: where the data in force need a session, the peer with the key of an authorized session or none; elsewhere always one, without a key; with the addresses of the entry and the keep-alive time in force as an unsigned number |
| `StreamDecisions.PeersAreOffered` | crates/defguard_gateway_manager/src/handler.rs:955-1030 | No other command sends a peer |
| `StreamDecisions.PeersNeedSessions` | crates/defguard_gateway_manager/src/handler.rs:851-881 | Where the data at the start and at every change need sessions, every peer at the gateway came from a command authorizing it, with its key, a full network update or the initial table |
| `StreamDecisions.UpdatesTell` | crates/defguard_gateway_manager/src/handler.rs:922-1046 | An update tells by its kind which command of its own location it answers, and repeats what that says |
| `StreamDecisions.AnsweredExactly` | crates/defguard_gateway_manager/src/handler.rs:922-1053 | A command is answered once, unless it is for another location or offers a device that may not be sent |
| `Revocation.SweepRevokesExactly` | crates/defguard_session_manager/src/lib.rs:332-343 | End to end: once the handler has passed on the commands of a sweep, the gateway of a location has lost exactly the peers of the sessions closed there, and every other peer is as it was |
| `Revocation.RulesAgreeExactly` | crates/defguard_gateway_manager/src/handler.rs:816-835 | With the location's mode in force, the handler needs sessions where the sweep deauthorizes, exactly if there is multi-factor authentication or the look-up of postures was right |
| `Revocation.SweepCutsWhereKeyed` | crates/defguard_session_manager/src/lib.rs:311-343 | Then the sweep deauthorizes the peer of a session it closes exactly if the handler gives peers to authorized sessions only |
| `NotificationLaws.ShortOutageIsSilent` | crates/defguard_gateway_manager/src/handler.rs:453-472 | A gateway that is back before the deadline is never reported as down for that outage, even if its row cannot be written |
| `NotificationLaws.RunKeepsPaired` | crates/defguard_gateway_manager/src/handler.rs:377-419 | In every interleaving: reconnect notifications and an outstanding flag never outnumber the disconnect notifications recorded; exactly, each of those is outstanding, answered, swallowed or a repetition |
| `NotificationLaws.OutstandingSurvives` | crates/defguard_gateway_manager/src/lib.rs:351-375 | An outstanding flag survives every step, rebuilds among them, except a reconnect that consumes it and the deletion of the gateway |
| `NotificationLaws.RebuildKeepsFlag` | crates/defguard_gateway_manager/src/lib.rs:368-375 | A rebuilt handler gets the flag on record |
| `NotificationLaws.StampDecides` | crates/defguard_common/src/db/models/gateway.rs:61-69 | After marking itself disconnected a handler is so exactly if its clock has moved on since it connected |
| `NotificationLaws.RunKeepsOwned` | crates/defguard_gateway_manager/src/handler.rs:421-484 | With such clocks, a pending notification implies that the gateway is not connected, and every task not aborted is the pending one of its handler |
| `NotificationLaws.OnePendingTask` | crates/defguard_gateway_manager/src/handler.rs:288-295 | So there is one such task per handler at most, and the branch for a notification already pending is dead |
| `NotificationLaws.TiedClockFindsPending` | crates/defguard_gateway_manager/src/handler.rs:288-295 | With a clock that stands still that branch is taken |
| `NotificationLaws.RunKeepsHistory` | crates/defguard_gateway_manager/src/handler.rs:432-484 | The changes of a handler's connection alternate, and its events are those whose write succeeded |
| `NotificationLaws.EventsAlternateExactly` | crates/defguard_gateway_manager/src/handler.rs:441-481 | The events alternate exactly when between neighbouring ones an even number of writes failed |
| `NotificationLaws.WrittenEventsAlternate` | crates/defguard_gateway_manager/src/handler.rs:474-481 | In particular they alternate if no write fails |
| `NotificationLaws.SilentExactly` | crates/defguard_gateway_manager/src/handler.rs:353-362 | When the gateway is back, no continuation records its outage exactly if the pending task does not have the location's row yet; from then on it sets the flag before the abort can stop it |
| `NotificationLaws.EventsRepeat` | crates/defguard_gateway_manager/src/handler.rs:466-472 | A run with a clock that moves on in which a handler reports two disconnections in a row, because the connection in between could not be written |
| `NotificationCounts.StepCountsExactly` | crates/defguard_gateway_manager/src/handler.rs:377-399 | A reconnect notification is sent at exactly those reconnects that could be written and find the flag set while they are turned on, and kept back at those while they are off; only recording sets the flag |
| `NotificationCounts.RunCountsExactly` | crates/defguard_gateway_manager/src/handler.rs:377-399 | Over any stretch of a run the numbers sent, kept back and recorded grow by exactly those steps |
| `NotificationCounts.SettingDecides` | crates/defguard_gateway_manager/src/handler.rs:391-396 | So while the setting is off none is sent, and while it is on none is kept back |
| `NotificationCounts.ScheduledProperly` | crates/defguard_gateway_manager/src/handler.rs:282-373 | A delayed task can be woken after the configured minutes, a negative number counting as none, and not before; its notification is recorded only after it woke, then read the gateway as down, and then found its location |
| `NotificationCounts.HandlersStay` | crates/defguard_gateway_manager/src/handler.rs:677-686 | A handler that is not aborted stays, with its flag |
| `GatewayHandler.Runtime.LoseGateway` | crates/defguard_gateway_manager/src/handler.rs:432-441 | The handler object's stretch up to the write of the disconnection takes the step of the state machine that the laws of notifications are about |
| `GatewayHandler.Runtime.WroteDisconnection` | crates/defguard_gateway_manager/src/handler.rs:441-450 | So does the stretch after that write, which reports and spawns the delayed task |
| `GatewayHandler.Runtime.RegainGateway` | crates/defguard_gateway_manager/src/handler.rs:453-466 | So does the stretch up to the write of the connection, which aborts the pending task |
| `GatewayHandler.Runtime.WroteConnection` | crates/defguard_gateway_manager/src/handler.rs:466-484 | So does the stretch after it, which reports and consumes the flag |
| `GatewayHandler.Runtime.GatewayRead` | crates/defguard_gateway_manager/src/handler.rs:326-351 | So does the delayed task's stretch after the gateway's row has arrived |
| `GatewayHandler.Runtime.LocationRead` | crates/defguard_gateway_manager/src/handler.rs:353-356 | So does the one after the location's row has arrived |
| `GatewayHandler.Runtime.RecordNotification` | crates/defguard_gateway_manager/src/handler.rs:358-362 | So does the setting of the flag |
| `GatewayHandler.Runtime.BuildHandler` | crates/defguard_gateway_manager/src/lib.rs:351-375 | So does building a handler, with the flag on record or a new one |
| `GatewayHandler.Runtime.DropConnection` | crates/defguard_gateway_manager/src/handler.rs:677-686 | So does dropping a handler, with its pending task |
| `GatewayManager.Manager.HandleNotification` | crates/defguard_gateway_manager/src/lib.rs:461-611 | One notification: Insert, Update with its restart decision, or Delete, with the rows that are missing or cannot be read |
| `GatewayManager.Manager.Run` | crates/defguard_gateway_manager/src/lib.rs:434-615 | The enabled gateways are started, then the notifications followed; a handler that cannot be built ends the run, and in which state |
| `ManagerLaws.ProcessAgreesExactly` | crates/defguard_gateway_manager/src/lib.rs:461-611 | A notification keeps the agreement of handlers and rows exactly when it does not insert a gateway already handled |
| `ManagerLaws.ReinsertBreaks` | crates/defguard_gateway_manager/src/lib.rs:462-497 | Such an insertion leaves two live handlers, or one for a gateway read disabled |
| `ManagerLaws.RunAgrees` | crates/defguard_gateway_manager/src/lib.rs:455-615 | Over a whole run: exactly the gateways last read enabled have a live handler, built from a row with the connection last read |
| `ManagerLaws.OneLiveHandler` | crates/defguard_gateway_manager/src/lib.rs:432-434 | No gateway ever has two live handlers |
| `ManagerLaws.StartupAgrees` | crates/defguard_gateway_manager/src/lib.rs:435-446 | The agreement holds after start-up |
| `ManagerLaws.OwnWritesNeverRestart` | crates/defguard_gateway_manager/src/lib.rs:648-661 | What a handler writes to its own row never restarts it |
| `ManagerLaws.OtherConnectionRestarts` | crates/defguard_gateway_manager/src/lib.rs:517-557 | A change of the connection stops the old handler and starts another from the row just read, if it is enabled |
| `ManagerLaws.RestartMeansOtherConnection` | crates/defguard_gateway_manager/src/lib.rs:648-661 | A handler is restarted exactly for a row that differs in one of the five compared fields, whatever the other ten columns say |
| `ManagerLaws.StopsExactly` | crates/defguard_gateway_manager/src/lib.rs:461-611 | The manager goes on after every notification but one that calls for a handler whose address makes no URL |
| `ManagerLaws.HandlerBuiltExactly` | crates/defguard_gateway_manager/src/lib.rs:462-575 | A handler is built exactly for an inserted row that is enabled, or an updated one that is enabled and has no handler or another connection; from that row, marked disconnected by an update if it was left connected |
| `ManagerLaws.OtherGatewaysAreLeft` | crates/defguard_gateway_manager/src/lib.rs:461-611 | The handlers of other gateways are left alone |
| `CertTimers.PollLoop` | crates/defguard_core/src/utility_thread.rs:132-200 | A job of the loop runs at exactly those polls at which its interval has passed since it was done; from one run to the next at least the interval passes, and less than the interval and one gap between polls; the same from the start |
| `CertTimers.PolledChecksAreDayApart` | crates/defguard_core/src/utility_thread.rs:194-199 | Certificate checks after the first are at least as many days apart as there are checks between them |
| `CertTimers.ExpiryCheck` | crates/defguard_core/src/utility_thread.rs:334-378 | Every administrator is mailed once if 14, 7, 3 or 1 whole days are left, with the warning, or less than a day on either side of the expiry, with the mail that it has expired; nobody otherwise |
| `CertTimers.WarnsOnce` | crates/defguard_core/src/utility_thread.rs:335-348 | Among such checks each warning before the expiry fires at most once and the one for day 0 at most twice |
| `CertTimers.DayZeroFiresTwice` | crates/defguard_core/src/utility_thread.rs:346-348 | Day 0 can fire twice, once on either side of the expiry |
| `CertTimers.WarningSkippedExactly` | crates/defguard_core/src/utility_thread.rs:345-346 | Two checks can pass over a warning exactly when they are more than a day apart |
| `CertTimers.LoopSkipsWarning` | crates/defguard_core/src/utility_thread.rs:132-200 | With polls every five seconds the loop's first two checks are a day and five seconds apart, and for some expiry the mail for seven days before it is skipped |
| `CertTimers.LoopWarnsOnce` | crates/defguard_core/src/utility_thread.rs:132-200 | Over the checks of the polling loop each warning before the expiry is sent once at most |
| `CertTimers.ListedDays` | crates/defguard_core/src/utility_thread.rs:335-346 | The days on the list are those with 14, 7, 3 or 1 whole days left, and the two days around the expiry |
| `CertRenewal.Certificates.CheckCertificates` | crates/defguard_core/src/utility_thread.rs:416-468 | Both certificates are refreshed exactly if they are self-signed and expire within 14 days, by the rows read at the start; any other is left alone; reloads and broadcasts follow successful refreshes only, and the new ones last 100 days |
| `CertRenewal.NeverExpires` | crates/defguard_core/src/utility_thread.rs:416-468 | Starting from a certificate that outlasts the first check, with checks at most 14 days apart whose refreshes succeed, the certificate in force is unexpired at every instant |
| `CertRenewal.RefreshesAreFarApart` | crates/defguard_core/src/utility_thread.rs:416-468 | Two refreshes are more than 86 days less a second apart |
| `CertRenewal.ExpiryAdvances` | crates/defguard_core/src/cert_settings.rs:386-391 | The stored expiry never moves back |
| `CertRenewal.ThresholdExactly` | crates/defguard_core/src/utility_thread.rs:419-423 | A certificate left alone by a check lasts to the next exactly if that is at most 14 days away: the threshold cannot be smaller |
| `CertRenewal.RefreshLasts` | crates/defguard_core/src/cert_settings.rs:365-430 | A refreshed certificate is left alone for 86 days less a second and lasts until a second before its hundredth day is over |
| `CertRenewal.ThreadChecksAreRegular` | crates/defguard_core/src/utility_thread.rs:124-200 | The checks of a thread that starts up, polls and does its jobs fast enough, the one at start-up included, are at most 14 days apart |
| `CertRenewal.ThreadNeverExpires` | crates/defguard_core/src/utility_thread.rs:124-200 | In such a thread a certificate that outlasts the check at start-up never expires while refreshes succeed |
| `CertRenewal.OthersAreKept` | crates/defguard_core/src/utility_thread.rs:419-423 | A certificate that is not self-signed, or has no expiry, is the same after any number of checks, and the source of a certificate never changes |
| `CertRenewal.RefreshedExactly` | crates/defguard_core/src/utility_thread.rs:416-468 | One check replaces exactly a self-signed certificate that has at most 14 days left, if the signing succeeds, by one for 100 days |
| `CertRenewal.SignedCovers` | crates/defguard_certs/src/lib.rs:127-150 | A signed certificate is valid from five minutes before it is signed until its days are over, at no other time |
| `ComponentRegistry.SharedRegistry.AddGateway` | crates/defguard_core/src/version.rs:247-261 | Undisturbed, a gateway is added exactly if none of its version and network is there |
| `ComponentRegistry.SharedRegistry.AddProxy` | crates/defguard_core/src/version.rs:286-301 | Undisturbed, a proxy is stored exactly if its version differs |
| `ComponentRegistry.SharedRegistry.DropGateway` | crates/defguard_core/src/version.rs:139-156 | Undisturbed, all entries of the network go |
| `ComponentRegistry.SharedRegistry.DropProxy` | crates/defguard_core/src/version.rs:121-136 | Undisturbed, the proxy goes |
| `ComponentRegistry.SharedRegistry.DropExpired` | crates/defguard_core/src/version.rs:160-204 | Undisturbed, the entries older than an hour go, and true is returned exactly if there was one |
| `ComponentRegistry.LateWriteIsAtomic` | crates/defguard_core/src/version.rs:247-301 | A write that no longer knows whether it is needed does what the whole operation would do then, up to the time stamp of a proxy; exactly that unless it overwrites an entry of the same version |
| `ComponentRegistry.RunKeepsDistinct` | crates/defguard_core/src/version.rs:215-228 | No two gateway entries ever share version and network |
| `ComponentRegistry.WriteAchieves` | crates/defguard_core/src/version.rs:166-178 | Whatever came in between, a write leaves nothing older than an hour, a removed component gone and an added one on record |
| `ComponentRegistry.ReachedAtomically` | crates/defguard_core/src/version.rs:119-204 | Whatever threads do, the registry is what the operations that got as far as writing make of it without interruption, in the order of their writes, time stamps included, if a proxy written over counts as removed and inserted anew |
| `ComponentRegistry.WritesExactlyIfNeeded` | crates/defguard_core/src/version.rs:119-204 | A thread goes for the write lock exactly if its change would make a difference at the time of the look, other than to a time stamp |
| `AddressSplit.SplitIp` | crates/defguard_common/src/utils.rs:90-155 | For every address and network, also of different families: the two parts; for matching families together they are the address in full, with one delimiter more if the prefix is maximal |
| `AddressSplit.CutIsPrefix` | crates/defguard_common/src/utils.rs:128-138 | The cut falls at segment prefix/8 (IPv4) or prefix/16 (IPv6) |
| `AddressSplit.CutIsTight` | crates/defguard_common/src/utils.rs:80-88 | The segments before the cut are exactly those in which no two addresses of the network differ |
| `AddressSplit.NetworkPartConstant` | crates/defguard_common/src/utils.rs:80-82 | The network part is the same for all addresses of a network |
| `AddressSplit.NetworkPartSays` | crates/defguard_common/src/utils.rs:142-145 | Two addresses have the same network part exactly if they agree in the segments the prefix covers |
| `AddressSplit.ModifiablePartDetermines` | crates/defguard_common/src/utils.rs:80-82 | Within a network the modifiable part is the same exactly for the same address |
| `AddressSplit.PartsDetermine` | crates/defguard_common/src/utils.rs:148-154 | The two parts together determine the address |
| `AddressSplit.SegmentFixedExactly` | crates/defguard_common/src/utils.rs:99-116 | Network and last address agree in a segment exactly if the prefix covers it |
| `AddressSplit.FormattedRoundTrip` | crates/defguard_common/src/utils.rs:120-126 | A formatted segment is free of delimiters and can be read back, decimal or four hexadecimal digits |
| `AddressReading.RenderingReads` | crates/defguard_common/src/utils.rs:118-126 | The address in full is read back by cutting it at its dots, or its colons: four decimal numerals without leading zeros, or eight of four hexadecimal digits |
| `AddressReading.ValueExactly` | crates/defguard_common/src/utils.rs:94-97 | A segment is the number whose binary digits are its bits, the most significant first |
| `AddressReading.MixedFamilies` | crates/defguard_common/src/utils.rs:128-146 | With a network of the other family: where the cut falls among the first four segments, and what the parts are then |
| `Hex.HexDecode` | crates/defguard_common/src/hex.rs:22-52 | The loop gives what the independent description of decoding gives: the pairs of digits, or the error for the length or the first invalid character |
| `Hex.ToLowerHex` | crates/defguard_common/src/hex.rs:55-67 | The loop gives two lower-case digits for each byte, the high one first |
| `Hex.DecodeUndoesEncode` | crates/defguard_common/src/hex.rs:22-67 | Round trip: encoded bytes are decoded, bare or with 0x or 0X in front (section 8 of RFC 4648) |
| `Hex.EncodeUndoesDecode` | crates/defguard_common/src/hex.rs:29-67 | Every accepted text is encoded again as it was, without prefix and in lower case |
| `Hex.SameBytesExactly` | crates/defguard_common/src/hex.rs:29-51 | Two accepted texts mean the same bytes exactly if they differ in no more than prefix and case |
| `Hex.RefusedExactly` | crates/defguard_common/src/hex.rs:24-51 | A text is accepted exactly if it is non-empty, of even length and of digits after the prefix; which error is given otherwise; a bare 0x is refused for its x |
| `Hex.DigitsExactly` | crates/defguard_common/src/hex.rs:34-41 | A digit is read in either case, nothing else is, and digits are written in lower case |
| `Hex.AcceptedExactly` | crates/defguard_common/src/hex.rs:22-52 | Which texts are accepted, by their characters |
| `Hex.DecodedAt` | crates/defguard_common/src/hex.rs:43-48 | Each byte decoded is what the two digits at its place stand for, the high one first |
| `Hex.EncodedAt` | crates/defguard_common/src/hex.rs:62-65 | The two digits of each byte in the encoded text |
| `Pem.PemRoundTrip` | crates/defguard_certs/src/lib.rs:364-378 | For all bytes and labels, dropping the dashed lines, joining the rest and decoding gives the bytes back |
| `Pem.PemLines` | crates/defguard_certs/src/lib.rs:366-376 | Line by line, the text is the begin line, the body and the end line, with the label of its kind |
| `Pem.BodyIsWrapped` | crates/defguard_certs/src/lib.rs:369-374 | Every line of the body but the last has 64 characters, the last at most 64 and none only if there is nothing to write (section 2 of RFC 7468) |
| `Pem.DecodeUndoesEncode` | crates/defguard_certs/src/lib.rs:365-365 | Base64 round trip (section 4 of RFC 4648) |
| `Pem.EncodeUndoesDecode` | crates/defguard_certs/src/lib.rs:365-365 | The decoder accepts canonical text only, so different texts never mean the same bytes |
| `Pem.EncodedIsText` | crates/defguard_certs/src/lib.rs:371-373 | Base64 text is of ASCII letters, digits, +, / and =, so the conversion of a chunk to a string cannot fail |
| `Pem.SymbolExactly` | crates/defguard_certs/src/lib.rs:365-365 | The alphabet (table 1 of RFC 4648) |
| `Pem.GroupExactly` | crates/defguard_certs/src/lib.rs:365-365 | The four characters of a group are those for the 24 bits of its three bytes, the highest six first |
| `Pem.LastGroupExactly` | crates/defguard_certs/src/lib.rs:365-365 | A last group of two bytes or one has zero bits and padding for the rest |
| `Pem.EncodedGroup` | crates/defguard_certs/src/lib.rs:365-365 | Each group of three bytes is encoded at its place |

## Left out

- Database errors and aborted batches, among them the violated foreign key of an update whose gateway was deleted meanwhile: the laws are about transactions that commit, or that the sweep itself rolls back; a fatal error ends a run of the session manager and is not continued.
- Writers other than the manager within one batch or one sweep: tables are fixed during an action. Between actions the tables of locations, users, devices and postures may change freely, and sessions and statistics as `SessionTraces.Action` says: by a login, a revocation, the deletion of a gateway with its statistics, and the deletion of sessions with theirs, by the purge or with their device, user or location. Other edits of these two tables are not part of the runs.
- The columns `mfa_method` and `preshared_key` of a session: only whether a session used multi-factor authentication is kept.
- Resolution of time: session times are microseconds throughout, as stored. The totals that a batch keeps have the nanoseconds of the update, and a later batch reads them back without. So an update whose collection time or handshake is before the last one's but within the same microsecond is refused in the batch that stored the last one and accepted in a later batch; all others are treated alike.
- Sweeps between batches: the law about cutting a stream into batches is about the batches alone; the sweep that follows each batch is an action of the runs.
- The session an event is about is written into the modelled event, which in the source only names device, user and location.
- Mails, their templates and failures to send them: a notification counts as sent when it is recorded or when the flag is consumed for it.
- Aborting a handler: it is dropped at some later step, with its pending task, and may go on until then; a handler parked at an await is in fact not polled again, so the laws cover more runs than there are.
- The map of gRPC clients and the purge request of a Delete: the map can be filled again while the purge waits, so nothing is claimed about it.
- A receiver of the broadcast that lagged behind: the stream ends as if no more commands came.
- PeerTable.ReplayGivesVerdict: the gateway's side (a network update replaces the table, a peer update concerns one key) is a model of the gateway, which is not part of this repository.
- Computation of allowed peers and firewall rules, and the conversion of messages to and from protobuf: inputs.
- The jobs of the utility thread other than the certificate check: the timer is proved for any job with a fixed interval that is stamped when it is done; the enterprise status check is stamped before it runs, and directory and LDAP synchronisation read their intervals anew each time.
- CertRenewal.NeverExpires: holds while refreshes succeed; settings without a usable host name, a missing certificate authority and a failing save make a refresh fail, and then the old certificate stays.
- Contents of certificates other than validity and expiry; the signing itself; ACME.
- Which versions are compatible, and the interceptors that call the registry.
- The fields `ip` and `network_prefix` of a split address: the library's renderings, passed through.
- HTTP routing, configuration parsing, event descriptions, the proxy manager and the web client: no state or arithmetic of the kind studied here.
