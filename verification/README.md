# Crew Link: a verified model

Crew Link keeps a convoy of vehicles together: a gateway passes frames between the members' apps and replays
the convoy's state to late joiners, the apps keep and watch each other's positions, a database holds who
belongs to which convoy, and a voice channel frames audio. This project models that behaviour in Dafny and
proves what the parts promise, for every input and every run.

Check everything with `dafny verify dfyconfig.toml`.

## The parts

* **Realtime backplane.** `Wire` and `SnapshotStore` hold the frames and the replayed world. `Backplane` is the
  gateway as a step system, in which a frame handler may be suspended at its authorisation check, and a replay
  at its promise, while anything else happens; `ConvoyGateway` proves that the gateway's objects take exactly
  these steps, and `Acceptance` says frame by frame what they do for an honest client. On top: `ConvoyView` and
  `Agreement` (what an app shows), `ReplicaAgreement` with the two runs of `ReplicaRuns`, `Provenance`.
  `RedisSnapshotStore` refines the in-memory store; `RedisFanout` is one instance's fan-out and any number of
  instances together.
* **Client connection.** `ConvoySocketClient` splits every method at its awaits into events;
  `OutboundFrameQueue` is its offline buffer and `Backoff` its delay arithmetic.
* **Stream processors.** `GpsProducer`, `LocationPublisher`, `ConvoySession`, `Hysteresis` (with
  `ProximityWarningService` and `DistanceWatcherService`), `ConvoySplitWatcher`, `ConvoyStandings`.
* **Membership.** `Tables` is the schema with its constraints and cascades, `Membership` the services as
  transitions, `ConvoyRoster` the payload query, `Database` the object with its transactions.
* **Voice.** `PttAudio` is the raw PCM path of both platforms.

Where the source updates fields, loops or fills arrays, the model has a class or method that does the same and
is proved against a function; the laws are proved about that function. Haversine distance is an uninterpreted
non-negative function. Identifiers, invite codes, clock readings, random draws and the answers of foreign
services are parameters.

## Main results

* An app shows what the server holds, exactly when: `ReplicasAgree`, `QuietReturnIsSafeExactlyWhen`.
* Who caused what, in every interleaving: `CommitsAreGenuine`, `DeliveredFramesWereCommitted`,
  `RemovalIsForeignExactlyWhen`.
* What honest clients get: `CheckedFramesArrive`, `OwnReportsArrive`, `ReplayIsPlain`.
* Delivery over any number of instances: `DeliveredAtMostOnce`, `LocalDeliveryIsExact`, `BroadcastArrives`,
  `RegisteredMeansOpen`.
* The two snapshot stores: `StoresAnswerAlike`, `LateSnapshotAgreesExactlyWhen`, `OverlapIsHarmlessExactlyWhen`.
* The client's connection: `SingleControlToken`, `DisconnectIsFinal`, `LossIsNoticed`,
  `OfflineFramesAreQueued`, `ReopeningLosesTheOldest`, `CriticalFramesBalance`, `DoublingBeatsJitter`.
* Streams: `ConstantIntervalThrottles`, `OrderedExactlyWhenConstant`, `BucketIsForLastFreeSpeed`,
  `SessionsConvergeExactlyWhen`, `FlaggedMeansEnteredLast`, the two `Ingest` methods,
  `SplitNeedsSustainedBreach`, `SplitInTime`, `OrdinalsAreABijection`, `ComputeConvoyStandings`.
* Membership: `HistoryKeepsSound`, `RosterAfterAnyHistory`, `NobodyTwiceExactlyWhen`, `AccountDeletionIsExact`,
  `SetUserVehicleIsExact`.
* Voice: `CaptureRawPcm`, `FramingIsUnique`, `PacketsCarryTheStream`, `PlayedSampleSurvives`.

## Where the code and its documentation differ

* `location_publisher.dart` promises that the most recent position is always the one that gets through. That
  holds for a constant interval (`ConstantIntervalThrottles`), and for no interval that depends on speed
  (`OrderedExactlyWhenConstant`). With the adaptive interval the app uses, an update sent at once leaves an
  older pending fix armed, which is then sent after it (`AdaptiveIntervalOvertakes`); `StepTidyExactlyWhen` says
  which step does it.
* A replay that is still loading while a hazard, route or waypoint it carries changes overwrites the change at
  the client (`JoinIsSafeExactlyWhen`; `StaleReplayWins` is a run, possible with either store: a leader-checked
  route waits for nothing but its turn).
* `hazard_providers.dart` keeps its list when it is bound to a new socket. After a reconnect the replay repairs
  it exactly unless something it shows was withdrawn in between (`QuietReturnIsSafeExactlyWhen`;
  `RemovedHazardStaysShown` is a run).
* Only the reporter may remove a hazard, but the check comes before an await. A removal deletes another
  member's hazard exactly when that member reported it between check and removal
  (`RemovalIsForeignExactlyWhen`). With the in-memory store nothing is read from another socket in between
  (`PromptRemovalIsOwn`); behind the Redis store it happens (`ForeignRemovalHappens`). The gateway model holds
  its worlds directly; for the Redis store they stand for what the hashes represent (`StoresAnswerAlike`).
* The Redis snapshot deletes expired fields after reading them, one by one. That is harmless unless a report
  made meanwhile is hit (`OverlapIsHarmlessExactlyWhen`).
* `redis_snapshot_store.ts` says that the lifetime is refreshed on every recorded frame; transient frames
  return before that (`TransientsDoNotRefresh`).

## Model

| member | source | states |
|---|---|---|
| `SnapshotStore.SweepHazards` | backend/src/realtime/snapshot_store.ts:88-94 | the sweep answers exactly one frame for each hazard not expired at this instant and leaves exactly those hazards, whatever the iteration order |
| `SnapshotStore.InMemorySnapshotStore.Record` | backend/src/realtime/snapshot_store.ts:60-81 | the new state of every convoy: the recorded one folded with the frame, all others untouched; a gps, check-in or status frame still creates an empty entry |
| `SnapshotStore.InMemorySnapshotStore.Snapshot` | backend/src/realtime/snapshot_store.ts:83-102 | the answer is, as a multiset, the live hazards, the route and the waypoint; the only side effect is dropping expired hazards |
| `SnapshotStore.InMemorySnapshotStore.Clear` | backend/src/realtime/snapshot_store.ts:104-106 | forgets one convoy and no other |
| `SnapshotStore.InMemorySnapshotStore.HazardReporter` | backend/src/realtime/snapshot_store.ts:108-110 | the reporter of a tracked hazard, expired or not; nothing for an unknown one |
| `SnapshotStore.ReplayIsPlain` | backend/src/realtime/snapshot_store.ts:83-102 | a replay carries every stored hazard whose expiry has not been reached, the route and the waypoint, each once, and nothing else |
| `SnapshotStore.PruneIsPlain` | backend/src/realtime/snapshot_store.ts:88-94 | a prune leaves exactly the hazards whose expiry has not been reached, unchanged, and route and waypoint as they are |
| `ConvoyView.ClientFoldIsServerFold` | app/lib/features/convoy/application/hazard_providers.dart:39-51 | for every frame the list kept by the app and the map kept by the server stay the same replicated object, and no id is listed twice |
| `ConvoyView.ClientFoldsAreServerFolds` | app/lib/features/convoy/application/hazard_providers.dart:39-51 | the same for every sequence of frames, route and waypoint included |
| `ConvoyView.ClientPruneIsServerPrune` | app/lib/core/models/hazard_report.dart:93-97 | a view pruned at an instant shows the world the server would have pruned at that instant: both treat the expiry instant as expired |
| `ConvoyView.HazardPingsNotifier.BindToSocket` | app/lib/features/convoy/application/hazard_providers.dart:32-52 | a new socket keeps the list, losing the socket empties it |
| `ConvoyView.HazardPingsNotifier.OnHazardAdded` | app/lib/features/convoy/application/hazard_providers.dart:41-47 | replaces an entry with the same id and appends |
| `ConvoyView.HazardPingsNotifier.OnHazardRemoved` | app/lib/features/convoy/application/hazard_providers.dart:48-49 | drops the id |
| `ConvoyView.HazardPingsNotifier.Report` | app/lib/features/convoy/application/hazard_providers.dart:56-80 | applied to the own list at once and published only when bound |
| `ConvoyView.HazardPingsNotifier.Remove` | app/lib/features/convoy/application/hazard_providers.dart:84-87 | removed from the own list at once, whether or not the server will accept the removal |
| `ConvoyView.HazardPingsNotifier.PruneExpired` | app/lib/features/convoy/application/hazard_providers.dart:89-93 | keeps exactly the hazards active now, in order |
| `ConvoyView.TourNotifier.BindToSocket` | app/lib/features/convoy/application/waypoint_providers.dart:26-36 | a new socket keeps the plan, losing the socket empties it |
| `ConvoyView.TourNotifier.OnTour` | app/lib/features/convoy/application/waypoint_providers.dart:33-35 | an inbound plan replaces the state and is not published again |
| `ConvoyView.TourNotifier.Push` | app/lib/features/convoy/application/waypoint_providers.dart:38-41 | a local plan replaces the state and is published when bound |
| `Agreement.ViewAgreement` | app/lib/features/convoy/application/hazard_providers.dart:39-51 | showing exactly what the server would replay now, each hazard once, is the same as holding an agreeing world |
| `Agreement.RecordKeepsMeanwhile` | backend/src/realtime/snapshot_store.ts:60-81 | while a replay is under way each live frame keeps a client right about everything committed meanwhile, and otherwise where it was |
| `Agreement.ReplayOverwrites` | backend/src/realtime/convoy_gateway.ts:124-131 | applying a snapshot, in any order, overwrites exactly the things it carries |
| `Agreement.AfterReplay` | backend/src/realtime/convoy_gateway.ts:124-131 | after the replay the listener has the replay's word on everything it carries and its own on everything else |
| `Agreement.JoinAgreement` | backend/src/realtime/convoy_gateway.ts:121-135 | whatever the client showed before: after the replay it agrees with the server if and only if nothing the replay carries was changed meanwhile and nothing it showed before is left over |
| `Agreement.ReconnectAgreement` | app/lib/features/convoy/application/hazard_providers.dart:32-39 | at a single instant, an old view is repaired by a replay if and only if nothing it still shows was withdrawn; ReplicaAgreement.QuietReturnIsSafeExactlyWhen is the statement about runs |
| `Backplane.StepKeepsSane` | backend/src/realtime/frame_handler.ts:24-113 | every step keeps worlds keyed by hazard id and without empty routes, and suspended handlers waiting only for frames that need a check and claim no foreign originator |
| `Backplane.RunStaysSane` | backend/src/realtime/frame_handler.ts:24-113 | so does every run from the start |
| `Backplane.WorldStep` | backend/src/realtime/frame_handler.ts:95-112 | a step changes a convoy's world only by its own commit, or by a prune |
| `Backplane.InboxStep` | backend/src/realtime/fanout.ts:21-29 | a step sends a connection its convoy's commit unless it is the sender's member, or its replay, and nothing else |
| `ConvoyGateway.InProcessFanout.Publish` | backend/src/realtime/fanout.ts:21-29 | every open connection of the convoy but the sender's member gets one copy, no other connection anything |
| `ConvoyGateway.InProcessFanout.AddLocalConnection` | backend/src/realtime/fanout.ts:31-37 | registers without disturbing anybody, and no pool is empty |
| `ConvoyGateway.InProcessFanout.Unregister` | backend/src/realtime/fanout.ts:38-43 | removes this connection only; calling it again changes nothing |
| `ConvoyGateway.Gateway.OnConnection` | backend/src/realtime/convoy_gateway.ts:96-131 | the opening callback is exactly the Connect step |
| `ConvoyGateway.Gateway.OnSnapshotLoaded` | backend/src/realtime/convoy_gateway.ts:124-131 | the promise continuation is exactly the Replay step, or nothing when the socket has closed |
| `ConvoyGateway.Gateway.OnClose` | backend/src/realtime/convoy_gateway.ts:149-152 | the close callback is exactly the Close step |
| `ConvoyGateway.Gateway.OnMessage` | backend/src/realtime/frame_handler.ts:24-95 | a handler up to its first await is exactly the Message step, of which OwnReportsGoOutAtOnce, UngatedPlansGoOutAtOnce, CheckedFramesWait and OthersAreDropped say, frame by frame, what it does |
| `ConvoyGateway.Gateway.OnReporterAsked` | backend/src/realtime/frame_handler.ts:65-77 | the reporter check is exactly the Answer step |
| `ConvoyGateway.Gateway.OnLeaderResolved` | backend/src/realtime/frame_handler.ts:81-93 | the leader check is exactly the Answer step |
| `ConvoyGateway.Gateway.OnResume` | backend/src/realtime/frame_handler.ts:95-112 | a handler after its await is exactly the Resume step: dropped, or published and recorded with nothing in between |
| `Acceptance.CheckedFramesArrive` | backend/src/realtime/frame_handler.ts:65-112 | main result: in every run, whatever happens while a route, waypoint or removal waits, its last step publishes it to every connection of the convoy but the sender's and stores it if the sender was entitled to it at the check, and otherwise leaves no trace |
| `Acceptance.OwnReportsArrive` | backend/src/realtime/frame_handler.ts:49-112 | in every run a position, hazard, check-in or status naming its sender is appended to every other member's inbox and stored in the very step that reads it; no handler waits |
| `Acceptance.OwnReportsGoOutAtOnce` | backend/src/realtime/frame_handler.ts:81-112 | the same for one step |
| `Acceptance.UngatedPlansGoOutAtOnce` | backend/src/realtime/frame_handler.ts:81-95 | without a leader check a route, a cleared waypoint or a waypoint set by the sender goes out at once as well |
| `Acceptance.OthersAreDropped` | backend/src/realtime/frame_handler.ts:24-60 | what does not parse, or names somebody else, changes nothing at all |
| `Acceptance.CheckedFramesWait` | backend/src/realtime/frame_handler.ts:65-93 | a route or waypoint under a leader check, and a removal, suspend one handler and change nothing else |
| `Acceptance.ChecksAnswerTheTruth` | backend/src/realtime/frame_handler.ts:65-93 | a leader check passes exactly for the convoy's leader; a removal passes exactly for the reporter or when no such hazard is held |
| `Acceptance.PassedFramesGoOut` | backend/src/realtime/frame_handler.ts:65-112 | a handler that passed publishes and records its frame, one that did not only ends |
| `Acceptance.HandlersKeepWaiting` | backend/src/realtime/frame_handler.ts:65-93 | no other step touches a waiting handler |
| `Acceptance.PublishAccepts` | backend/src/realtime/fanout.ts:21-29 | publishing, frame by frame: who gets it, and what a report, a removal, an empty or non-empty route and a set or cleared waypoint do to the stored world |
| `Acceptance.ConnectionsComeAndGo` | backend/src/realtime/convoy_gateway.ts:96-152 | a new connection has the convoy's current replay loading, gets it once and in one piece, and is gone when closed; nothing else moves |
| `ReplicaAgreement.ReplicasAgree` | backend/src/realtime/convoy_gateway.ts:96-135 | main result: in every run a listener that never sends, newcomer or coming back with an old list, shows in every state after its replay exactly the active hazards, route and waypoint the server holds if and only if nothing the replay carries changed on the way and nothing shown before is left over |
| `ReplicaAgreement.JoinIsSafeExactlyWhen` | backend/src/realtime/convoy_gateway.ts:121-135 | the same condition decides agreement right after the replay, with any commits in between |
| `ReplicaAgreement.NewcomerIsSafeExactlyWhen` | backend/src/realtime/convoy_gateway.ts:121-135 | for a newcomer the condition is that nothing the replay carries was changed between registration and replay |
| `ReplicaAgreement.QuietReturnIsSafeExactlyWhen` | app/lib/features/convoy/application/hazard_providers.dart:32-39 | a member that comes back with its old list, without commits in the window, is repaired if and only if every shown hazard the replay does not carry has expired and the server still has a route and a waypoint where it shows them |
| `ReplicaAgreement.QuietJoinIsSafe` | backend/src/realtime/convoy_gateway.ts:121-135 | a join during which nobody commits to the convoy always meets that condition, in particular one where registration and replay are one step |
| `ReplicaAgreement.WindowInvariant` | backend/src/realtime/convoy_gateway.ts:96-131 | while the replay is under way the client has, of everything the replay is silent about, exactly what was committed meanwhile and what it showed before |
| `ReplicaAgreement.ConnectionStays` | backend/src/realtime/convoy_gateway.ts:96-131 | registration is remembered, and the replay sent is the one loaded at registration |
| `ReplicaAgreement.ViewStep` | app/lib/features/convoy/application/hazard_providers.dart:39-51 | the app's view moves by its own prune and then by exactly the convoy's commit or the replay |
| `ReplicaAgreement.AgreementLasts` | backend/src/realtime/frame_handler.ts:95-112 | agreement, once reached, survives every later step |
| `ReplicaRuns.StaleReplayWins` | backend/src/realtime/convoy_gateway.ts:124-131 | the condition is needed: a run, possible with either store, in which a route checked earlier is committed between registration and replay and the newcomer ends with the old one |
| `ReplicaRuns.RemovedHazardStaysShown` | app/lib/features/convoy/application/hazard_providers.dart:32-39 | and for members that come back: a run in which a hazard removed while its viewer was away stays on the viewer's map |
| `Provenance.CommitsAreGenuine` | backend/src/realtime/frame_handler.ts:49-93 | in every interleaving each published and recorded frame was sent on a connection authenticated as its origin and claims nobody else; a route or waypoint passed its own leader check, a removal its own reporter check |
| `Provenance.NobodySpeaksForAnother` | backend/src/realtime/wire.ts:157-167 | frame by frame: positions, reports, check-ins, statuses and set waypoints name their sender; routes and waypoints were leader-checked, removals reporter-checked |
| `Provenance.HandlersGenuine` | backend/src/realtime/frame_handler.ts:65-93 | the same for every suspended handler |
| `Provenance.RecordedFramesWereCommitted` | backend/src/realtime/frame_handler.ts:107-112 | whatever a world holds was committed in that convoy |
| `Provenance.LoadingFramesWereCommitted` | backend/src/realtime/convoy_gateway.ts:123-126 | so was every frame of a replay under way |
| `Provenance.DeliveredFramesWereCommitted` | backend/src/realtime/fanout.ts:21-29 | so was every frame any connection was ever sent, live or replayed |
| `Provenance.StoredReporter` | backend/src/realtime/snapshot_store.ts:108-110 | if ids determine reporters, the stored reporter is the real one |
| `Provenance.RemovalIsForeignExactlyWhen` | backend/src/realtime/frame_handler.ts:62-77 | if ids determine reporters, a removal deletes another member's hazard if and only if that member reported it after the removal's own check and nothing replaced, removed or pruned it since |
| `Provenance.PromptRemovalIsOwn` | backend/src/realtime/snapshot_store.ts:108-110 | so a removal is its sender's own when no other member reports between check and removal, as with the in-memory store, which answers at once |
| `Provenance.EveryRemovalWasChecked` | backend/src/realtime/frame_handler.ts:65-77 | every removal has such a check behind it |
| `Provenance.ForeignRemovalMeansUnknownAtCheck` | backend/src/realtime/frame_handler.ts:62-77 | in particular its check found no hazard with that id |
| `Provenance.ForeignRemovalHappens` | backend/src/realtime/frame_handler.ts:62-77 | the gap exists on a gateway with the Redis store: a run in which a removal checked before the report arrives deletes it |
| `RedisFanout.PoolsHoldTheRegistered` | backend/src/realtime/redis_fanout.ts:85-108 | for every sequence of registrations and closure calls, repeated ones included, the pools hold exactly the connections not removed since they were added, and no pool is empty |
| `RedisFanout.SubscriptionsMatchConnections` | backend/src/realtime/redis_fanout.ts:93-107 | so a convoy has a stored pool exactly when it has a registered local connection |
| `RedisFanout.RedisFanout.AddLocalConnection` | backend/src/realtime/redis_fanout.ts:85-97 | one subscribe command for a convoy without local connections, none otherwise |
| `RedisFanout.RedisFanout.Unregister` | backend/src/realtime/redis_fanout.ts:98-108 | one unsubscribe command when the last local connection goes, none otherwise; nobody else is evicted |
| `RedisFanout.RedisFanout.Publish` | backend/src/realtime/redis_fanout.ts:66-83 | local connections of other members get one copy each, and the message is broadcast once with this instance's id |
| `RedisFanout.RedisFanout.OnMessage` | backend/src/realtime/redis_fanout.ts:45-63 | own messages are skipped, others go once to each local connection of another member |
| `RedisFanout.RedisFanout.DeliverLocally` | backend/src/realtime/redis_fanout.ts:67-75 | one copy for each registered connection of another member |
| `RedisFanout.CopyStep` | backend/src/realtime/redis_fanout.ts:43-83 | a step hands over a message once to exactly those it is due to |
| `RedisFanout.StepKeepsAtMostOnce` | backend/src/realtime/redis_fanout.ts:43-83 | a copy delivered and a copy still under way never add up to more than one |
| `RedisFanout.RunStaysSound` | backend/src/realtime/redis_fanout.ts:43-108 | this holds in every reachable state of any number of instances with distinct ids |
| `RedisFanout.DeliveredAtMostOnce` | backend/src/realtime/redis_fanout.ts:54-63 | in every reachable state no connection has more than one copy of a message, none goes to a connection of the origin member or of another convoy |
| `RedisFanout.CopiesNeverLost` | backend/src/realtime/redis_fanout.ts:58-62 | what was handed over stays handed over |
| `RedisFanout.HandedMeansExactlyOnce` | backend/src/realtime/redis_fanout.ts:45-63 | whoever is registered when its instance handles the message has exactly one copy for good |
| `RedisFanout.LocalDeliveryIsExact` | backend/src/realtime/redis_fanout.ts:66-75 | on the publishing instance: exactly one copy for each connection of another member registered at that moment, none ever for any other connection there |
| `RedisFanout.RemoteDeliveryIsExact` | backend/src/realtime/redis_fanout.ts:45-63 | on any other instance: who is registered when the message is taken from the channel, and is not of the origin member, has exactly one copy from then on |
| `RedisFanout.BroadcastArrives` | backend/src/realtime/redis_fanout.ts:45-83 | from publisher to listener: a message that Redis gets to another instance is there exactly once with each connection of another member that stays open, as soon as the instance has emptied its channel, whatever else happens in between |
| `RedisFanout.RegisteredMeansOpen` | backend/src/realtime/redis_fanout.ts:85-108 | in every run a connection is in its instance's pool if and only if it was opened there and has not been closed since |
| `RedisSnapshotStore.FieldNames` | backend/src/realtime/redis_snapshot_store.ts:13-16 | field names are injective in the hazard id and never collide with the route or the waypoint field |
| `RedisSnapshotStore.WriteRepresents` | backend/src/realtime/redis_snapshot_store.ts:65-101 | the hash write stands for the in-memory fold |
| `RedisSnapshotStore.FramesRepresent` | backend/src/realtime/redis_snapshot_store.ts:105-123 | the frames read from the hash are those of the world it stands for |
| `RedisSnapshotStore.CallRefines` | backend/src/realtime/redis_snapshot_store.ts:65-139 | one call in time: the same answer, and the hash still stands for the same world |
| `RedisSnapshotStore.RunRefines` | backend/src/realtime/redis_snapshot_store.ts:65-139 | every sequence of calls in time keeps that |
| `RedisSnapshotStore.StoresAnswerAlike` | backend/src/realtime/redis_snapshot_store.ts:65-139 | main result: the two stores give the same answer to every call of every sequence in which no call comes 24 h or more after the last non-transient record |
| `RedisSnapshotStore.LateSnapshotAgreesExactlyWhen` | backend/src/realtime/redis_snapshot_store.ts:18-20 | a snapshot that may be late is answered alike if and only if it is in time or nothing is left to replay |
| `RedisSnapshotStore.LateReporterAgreesExactlyWhen` | backend/src/realtime/redis_snapshot_store.ts:130-139 | a late question for a reporter is answered alike if and only if it is in time or the hazard is unknown anyway |
| `RedisSnapshotStore.TransientsDoNotRefresh` | backend/src/realtime/redis_snapshot_store.ts:98-102 | however many transient frames are recorded, they do not extend the lifetime |
| `RedisSnapshotStore.OverlapIsHarmlessExactlyWhen` | backend/src/realtime/redis_snapshot_store.ts:105-124 | for every interleaving of a snapshot's deletes with frames recorded by others: the hash ends up standing for what the in-memory store would hold if and only if no report made since the read was hit by a delete and left at that |
| `RedisSnapshotStore.OverlapBeforeDeletes` | backend/src/realtime/redis_snapshot_store.ts:107-118 | with all records before the first delete: if and only if no expired hazard was reported anew |
| `RedisSnapshotStore.OverlappingPruneLosesReport` | backend/src/realtime/redis_snapshot_store.ts:105-121 | the shortest harmful overlap |
| `RedisSnapshotStore.RecordKeepsWellKept` | backend/src/realtime/redis_snapshot_store.ts:65-103 | no empty hash is left, and hazards sit under their own ids |
| `RedisSnapshotStore.SweepFields` | backend/src/realtime/redis_snapshot_store.ts:110-122 | the loop over the fields, with one delete command per expired hazard |
| `RedisSnapshotStore.RedisSnapshotStore.Record` | backend/src/realtime/redis_snapshot_store.ts:65-103 | the whole new database |
| `RedisSnapshotStore.RedisSnapshotStore.Snapshot` | backend/src/realtime/redis_snapshot_store.ts:105-124 | the answer and the whole new database |
| `RedisSnapshotStore.RedisSnapshotStore.Clear` | backend/src/realtime/redis_snapshot_store.ts:126-128 | one key is dropped |
| `RedisSnapshotStore.RedisSnapshotStore.HazardReporter` | backend/src/realtime/redis_snapshot_store.ts:130-139 | the reporter, read from a live key only |
| `ConvoySocketClient.SingleControlToken` | app/lib/core/realtime/convoy_socket_client.dart:132-222 | in every reachable state between connect() and disconnect() exactly one of attempt in flight, open channel with subscription, pending timer; the status says which |
| `ConvoySocketClient.StepKeepsSound` | app/lib/core/realtime/convoy_socket_client.dart:132-325 | every event, at every await, keeps that together with what shutting down guarantees |
| `ConvoySocketClient.RunStaysSound` | app/lib/core/realtime/convoy_socket_client.dart:132-325 | so does every run |
| `ConvoySocketClient.WatchdogNeedsAFrame` | app/lib/core/realtime/convoy_socket_client.dart:210-222 | an armed watchdog sits on an open channel that has stayed open since it delivered a frame |
| `ConvoySocketClient.DisconnectIsFinal` | app/lib/core/realtime/convoy_socket_client.dart:305-325 | once disconnect() is through, no timer, channel, subscription or other status ever comes back, even with an attempt in flight |
| `ConvoySocketClient.SentIsDue` | app/lib/core/realtime/convoy_socket_client.dart:162-178 | what sinks were handed is every frame published while open plus what the buffer kept of every offline gap, and an open channel has an empty queue; that it keeps the newest is QueueIsNewest and ReopeningLosesTheOldest |
| `ConvoySocketClient.CriticalFramesInOrder` | app/lib/core/realtime/convoy_socket_client.dart:295-303 | handed-over frames followed by the queue are an in-order, duplicate-free selection of the published ones |
| `ConvoySocketClient.CriticalFramesBalance` | app/lib/core/realtime/convoy_socket_client.dart:295-303 | published = handed over + waiting + lost, where a gap loses only what exceeds the buffer; without such a gap nothing is lost |
| `ConvoySocketClient.ReopeningLosesTheOldest` | app/lib/core/realtime/convoy_socket_client.dart:174-178 | when the channel is back, the gap splits into lost frames followed by handed-over ones: every frame lost is older than every frame kept, and only what the gap has beyond the buffer is lost |
| `ConvoySocketClient.QueueIsNewest` | app/lib/core/realtime/outbound_frame_queue.dart:32-37 | in every run the queue is a suffix of the gap, and of everything published |
| `ConvoySocketClient.NewestFrameIsQueued` | app/lib/core/realtime/convoy_socket_client.dart:295-303 | a critical frame published without a channel is the last of the queue, and at most the oldest makes room for it |
| `ConvoySocketClient.NewestFrameIsSent` | app/lib/core/realtime/convoy_socket_client.dart:295-303 | with a channel it is handed over at once |
| `ConvoySocketClient.LossIsNoticed` | app/lib/core/realtime/convoy_socket_client.dart:165-207 | in every run a broken or silent line leaves no channel, subscription or watchdog, an armed reconnect timer, status reconnecting and one more failure counted |
| `ConvoySocketClient.OfflineFramesAreQueued` | app/lib/core/realtime/convoy_socket_client.dart:165-207 | from then until a channel is ready again nothing is handed over, and whatever is published ends the queue |
| `ConvoySocketClient.FailureIsRetried` | app/lib/core/realtime/convoy_socket_client.dart:143-207 | so does an attempt that fails at its token, its dial or its channel schedule the next one |
| `ConvoySocketClient.AttemptGoesOn` | app/lib/core/realtime/convoy_socket_client.dart:137-178 | the timer starts an attempt, its token leads to a dial, a channel that is ready becomes the open one, resets the count and is handed the whole queue, and a frame arms the watchdog |
| `ConvoySocketClient.ConnectStarts` | app/lib/core/realtime/convoy_socket_client.dart:132-142 | connect() starts the first attempt |
| `ConvoySocketClient.DisconnectGoesThrough` | app/lib/core/realtime/convoy_socket_client.dart:305-315 | disconnect() disarms the timers at once, is offline after one await and without a channel after the next |
| `OutboundFrameQueue.KeepLastStep` | app/lib/core/realtime/outbound_frame_queue.dart:32-37 | dropping the oldest at each overflow keeps what dropping once at the end would |
| `OutboundFrameQueue.KeptIsNewest` | app/lib/core/realtime/outbound_frame_queue.dart:32-37 | what is dropped comes before what is kept |
| `OutboundFrameQueue.OutboundFrameQueue.Enqueue` | app/lib/core/realtime/outbound_frame_queue.dart:32-37 | the new frame goes behind all others, and a full buffer loses its oldest frame for it |
| `OutboundFrameQueue.OutboundFrameQueue.Drain` | app/lib/core/realtime/outbound_frame_queue.dart:42-46 | everything, oldest first, and the queue is empty |
| `ConvoySocketClient.ConvoySocketClient.AttemptConnect` | app/lib/core/realtime/convoy_socket_client.dart:137-142 | an attempt up to its first await |
| `ConvoySocketClient.ConvoySocketClient.OnChannelLost` | app/lib/core/realtime/convoy_socket_client.dart:184-207 | drops channel, subscription and watchdog and, unless disposed, arms the timer |
| `ConvoySocketClient.ConvoySocketClient.OnConnect` | app/lib/core/realtime/convoy_socket_client.dart:132-135 | connect() up to its first await |
| `ConvoySocketClient.ConvoySocketClient.OnDialError` | app/lib/core/realtime/convoy_socket_client.dart:155-181 | a dial that throws counts as a lost channel |
| `ConvoySocketClient.ConvoySocketClient.OnChannelBroken` | app/lib/core/realtime/convoy_socket_client.dart:165-173 | an error or the end of the stream is the event of which LossIsNoticed says what is left |
| `ConvoySocketClient.ConvoySocketClient.OnToken` | app/lib/core/realtime/convoy_socket_client.dart:150-157 | the attempt goes on to dial, or ends when disposed |
| `ConvoySocketClient.ConvoySocketClient.OnTokenError` | app/lib/core/realtime/convoy_socket_client.dart:143-149 | a failed token counts as a lost channel |
| `ConvoySocketClient.ConvoySocketClient.OnReady` | app/lib/core/realtime/convoy_socket_client.dart:157-178 | publishes the channel, resets the counter, listens, and flushes the queue in order; when disposed it closes the channel instead |
| `ConvoySocketClient.ConvoySocketClient.OnReadyError` | app/lib/core/realtime/convoy_socket_client.dart:179-181 | a channel that never opens counts as a lost one |
| `ConvoySocketClient.ConvoySocketClient.OnFrame` | app/lib/core/realtime/convoy_socket_client.dart:334-337 | any inbound frame arms the watchdog |
| `ConvoySocketClient.ConvoySocketClient.OnInboundSilence` | app/lib/core/realtime/convoy_socket_client.dart:218-222 | silence on a connected channel loses it |
| `ConvoySocketClient.ConvoySocketClient.OnReconnectTimer` | app/lib/core/realtime/convoy_socket_client.dart:205-207 | the timer starts an attempt |
| `ConvoySocketClient.ConvoySocketClient.SendCritical` | app/lib/core/realtime/convoy_socket_client.dart:295-303 | handed over at once, or queued while there is no channel |
| `ConvoySocketClient.ConvoySocketClient.BeginDisconnect` | app/lib/core/realtime/convoy_socket_client.dart:305-311 | disconnect() up to its first await |
| `ConvoySocketClient.ConvoySocketClient.OnSubCancelled` | app/lib/core/realtime/convoy_socket_client.dart:312-314 | disconnect() up to its second await |
| `ConvoySocketClient.ConvoySocketClient.OnSinkClosed` | app/lib/core/realtime/convoy_socket_client.dart:314-315 | disconnect() once the sink is closed |
| `Backoff.DelayWithinQuarter` | app/lib/core/realtime/convoy_socket_client.dart:194-203 | for every draw the n-th consecutive failure waits within a quarter, rounded, of the capped doubling, and never a negative time |
| `Backoff.LadderIsPlain` | app/lib/core/realtime/convoy_socket_client.dart:194-198 | the ladder rung by rung: doubling from the first to the sixth failure, then staying, and never above the cap |
| `Backoff.DoublingBeatsJitter` | app/lib/core/realtime/convoy_socket_client.dart:196-203 | an uncapped doubling waits strictly longer than the one before for all pairs of draws if and only if the shorter delay is not 0, 1 or 3 ms; so for every base of at least 5 ms |
| `Backoff.RetryAttemptCountsFailures` | app/lib/core/realtime/convoy_socket_client.dart:163-195 | in every run the counter is the number of failures since the channel last opened |
| `GpsProducer.IntervalInRange` | app/lib/features/convoy/data/adaptive_interval.dart:20-29 | the interval lies between one and five seconds at every speed |
| `GpsProducer.IntervalIsTheRamp` | app/lib/features/convoy/data/adaptive_interval.dart:10-29 | five seconds up to 5 km/h, one second from 30 km/h on, in between the straight line to within the rounding |
| `GpsProducer.IntervalNeverGrowsWithSpeed` | app/lib/features/convoy/data/adaptive_interval.dart:20-29 | faster never means a longer interval, over all three branches and the rounding |
| `GpsProducer.BucketNeverSlowerWithSpeed` | app/lib/features/convoy/data/gps_producer.dart:27-31 | nor a slower bucket |
| `GpsProducer.BucketBySpeed` | app/lib/features/convoy/data/gps_producer.dart:17-31 | in speeds: one second from about 28.7 km/h on, two from about 14.4, five below |
| `GpsProducer.RunKeepsOneStream` | app/lib/features/convoy/data/gps_producer.dart:76-147 | for every order of events exactly one stream is open between start and dispose, at the current bucket's interval, and an override means the slow bucket |
| `GpsProducer.FlagsFollow` | app/lib/features/convoy/data/gps_producer.dart:76-88 | the overrides are as the last setters left them, although unchanged settings return early |
| `GpsProducer.BucketIsForLastFreeSpeed` | app/lib/features/convoy/data/gps_producer.dart:90-99 | the bucket is the one for the last speed seen without an override, and the slow one if there was none |
| `GpsProducer.GpsProducer.Begin` | app/lib/features/convoy/data/gps_producer.dart:101-106 | refused after dispose, without effect when started |
| `GpsProducer.GpsProducer.OnPosition` | app/lib/features/convoy/data/gps_producer.dart:128-146 | relays every position and reopens the stream only for a new bucket |
| `GpsProducer.GpsProducer.SetBackground` | app/lib/features/convoy/data/gps_producer.dart:76-80 | only a change has an effect |
| `GpsProducer.GpsProducer.SetLowBattery` | app/lib/features/convoy/data/gps_producer.dart:84-88 | only a change has an effect |
| `GpsProducer.GpsProducer.Dispose` | app/lib/features/convoy/data/gps_producer.dart:108-114 | closes the stream for good |
| `LocationPublisher.ConstantIntervalThrottles` | app/lib/features/convoy/data/location_publisher.dart:88-122 | for a constant interval and prompt timers, also when the sink throws: offers in order of arrival, successful ones at least an interval apart, a fix pending exactly while the timer is armed, due one interval after the last send, otherwise the last offered is the last received |
| `LocationPublisher.StepTidyExactlyWhen` | app/lib/features/convoy/data/location_publisher.dart:88-108 | for any strategy, a step keeps the order and leaves nothing stale if and only if it does not send past an armed fix |
| `LocationPublisher.OrderedExactlyWhenConstant` | app/lib/features/convoy/data/location_publisher.dart:88-108 | for an interval that is any function of speed, with prompt timers and a clock that never runs back: order holds in every run if and only if the interval is constant |
| `LocationPublisher.StepKeepsTidy` | app/lib/features/convoy/data/location_publisher.dart:88-108 | a step that does not send past an armed fix keeps the order and leaves nothing stale |
| `LocationPublisher.OvertakingGoesBackwards` | app/lib/features/convoy/data/location_publisher.dart:92-95 | a step that does send past an armed fix always leaves it to be sent after the newer one |
| `LocationPublisher.OrderWithoutOvertaking` | app/lib/features/convoy/data/location_publisher.dart:88-108 | so with any strategy the order holds in every run without such a step |
| `LocationPublisher.StepKeepsSpaced` | app/lib/features/convoy/data/location_publisher.dart:92-121 | successful sends stay an interval apart |
| `LocationPublisher.AdaptiveIntervalOvertakes` | app/lib/features/convoy/data/adaptive_interval.dart:20-29 | with the adaptive strategy it does occur: after a stop, an older fix is sent after a newer one |
| `LocationPublisher.UpdatesAreOfferedOrPending` | app/lib/features/convoy/data/location_publisher.dart:88-98 | with any strategy: offered at once when nothing was sent yet or the update's own interval has passed, otherwise pending in place of an older one, with the timer armed for the rest unless it runs |
| `LocationPublisher.TimerOffersPending` | app/lib/features/convoy/data/location_publisher.dart:100-108 | the timer offers what is pending, once, unless disposed |
| `LocationPublisher.SessionsStartAndEnd` | app/lib/features/convoy/data/location_publisher.dart:60-86 | starting begins an empty session, stopping ends it, disposing lasts |
| `LocationPublisher.DisposedIsSilent` | app/lib/features/convoy/data/location_publisher.dart:60-86 | in every run, once disposed or stopped nothing is offered any more |
| `LocationPublisher.LocationPublisher.OnUpdate` | app/lib/features/convoy/data/location_publisher.dart:88-98 | one update: sent, or pending with the timer armed once |
| `LocationPublisher.LocationPublisher.FlushPending` | app/lib/features/convoy/data/location_publisher.dart:100-108 | the timer sends what is pending unless stopped |
| `LocationPublisher.LocationPublisher.EmitFix` | app/lib/features/convoy/data/location_publisher.dart:110-121 | a throwing sink does not use up the window |
| `LocationPublisher.LocationPublisher.Begin` | app/lib/features/convoy/data/location_publisher.dart:60-72 | refused after dispose, without effect when running |
| `LocationPublisher.LocationPublisher.StopUntilCancelled` | app/lib/features/convoy/data/location_publisher.dart:74-86 | stop() or dispose() up to the await |
| `LocationPublisher.LocationPublisher.StopAfterCancelled` | app/lib/features/convoy/data/location_publisher.dart:76-80 | and after it |
| `ConvoySession.StoredIsNewest` | app/lib/features/convoy/domain/convoy_session.dart:69-84 | after any updates the map holds exactly the members heard of, each with its newest update, the later arrival among equals |
| `ConvoySession.SessionsConvergeExactlyWhen` | app/lib/features/convoy/domain/convoy_session.dart:69-84 | every session that receives the same updates, in any order and with any duplication, ends with the same map if and only if no member's newest timestamp is shared by two different updates |
| `ConvoySession.SessionsConverge` | app/lib/features/convoy/domain/convoy_session.dart:69-84 | in particular when no member reports two positions at one instant |
| `ConvoySession.TiesDependOnOrder` | app/lib/features/convoy/domain/convoy_session.dart:72-74 | the shortest case of two orders ending differently |
| `ConvoySession.TimestampsNeverGoBack` | app/lib/features/convoy/domain/convoy_session.dart:71-74 | a member's stored timestamp never decreases |
| `ConvoySession.ConvoySession.OnUpdate` | app/lib/features/convoy/domain/convoy_session.dart:69-84 | every update feeds the warnings and is relayed, the map and its relay move only for a winning one |
| `Hysteresis.FlaggedMeansEnteredLast` | app/lib/features/convoy/domain/proximity_warning_service.dart:66-90 | for every stream a peer is flagged if and only if its most recent fresh evaluation outside the dead band was on the entering side |
| `Hysteresis.ReleaseBetweenWarnings` | app/lib/features/convoy/domain/proximity_warning_service.dart:78-89 | two warnings about one peer always have a release between them |
| `Hysteresis.StaleChangesNothing` | app/lib/features/convoy/domain/proximity_warning_service.dart:67-69 | a sample that is not evaluated changes nothing; FreshPositionsAreCompared says which those are |
| `Hysteresis.FreshPositionsAreCompared` | app/lib/features/convoy/domain/proximity_warning_service.dart:66-76 | on the raw samples: with an update from self or the peer, the last position received from each is compared by distance if and only if neither is older than the limit |
| `Hysteresis.OthersAreNotCompared` | app/lib/features/convoy/domain/proximity_warning_service.dart:47-55 | without a position of both, or after an update from a third member, the peer is not compared |
| `Hysteresis.ComparisonDecides` | app/lib/features/convoy/domain/proximity_warning_service.dart:78-89 | one ingest for one compared peer: at or past the entering distance it is flagged, with exactly one warning if it was not; past the releasing one it is not; in between nothing changes |
| `Hysteresis.WarnedAboutAll` | app/lib/features/convoy/domain/proximity_warning_service.dart:78-86 | one ingest raises exactly one warning for each newly flagged peer, with its distance, and no other |
| `ProximityWarningService.WarnedMeansLastSeenNear` | app/lib/features/convoy/domain/proximity_warning_service.dart:78-89 | warned exactly when last seen outside (threshold, 1.2 × threshold] at or below the threshold |
| `ProximityWarningService.BandIsProper` | app/lib/features/convoy/domain/proximity_warning_service.dart:40 | the dead band is (threshold, 1.2 × threshold] |
| `ProximityWarningService.IngestIsPlain` | app/lib/features/convoy/domain/proximity_warning_service.dart:44-93 | the history with its dead band says the same as the raw positions do |
| `ProximityWarningService.ProximityWarningService.Ingest` | app/lib/features/convoy/domain/proximity_warning_service.dart:44-55 | for every update, told by the last positions received from self and peer: compared when the update is one of theirs and neither is older than maxPositionAge; at or below the threshold the peer is warned, with exactly one new warning at that distance if it was not; beyond 1.2 times the threshold it is released; otherwise its flag stays and no warning is added |
| `ProximityWarningService.ProximityWarningService.EvaluateAllAgainstSelf` | app/lib/features/convoy/domain/proximity_warning_service.dart:57-64 | the loop over all peers, whatever its order |
| `ProximityWarningService.ProximityWarningService.EvaluateAgainstSelf` | app/lib/features/convoy/domain/proximity_warning_service.dart:66-90 | one evaluation, skipped when either position is older than maxPositionAge |
| `DistanceWatcherService.BreachedMeansLastSeenFar` | app/lib/features/convoy/domain/distance_watcher_service.dart:73-84 | breached exactly when last seen outside (0.8 × threshold, threshold] above the threshold |
| `DistanceWatcherService.BandIsProper` | app/lib/features/convoy/domain/distance_watcher_service.dart:31-41 | the dead band is (0.8 × threshold, threshold] |
| `DistanceWatcherService.IngestIsPlain` | app/lib/features/convoy/domain/distance_watcher_service.dart:45-88 | the history with its dead band says the same as the raw positions do |
| `DistanceWatcherService.DistanceWatcherService.Ingest` | app/lib/features/convoy/domain/distance_watcher_service.dart:45-54 | the dual: beyond the threshold breached, with exactly one new warning at that distance if it was not; at most 0.8 times the threshold away released; otherwise, and when either position is older than maxPositionAge, the flag stays and no warning is added |
| `DistanceWatcherService.DistanceWatcherService.EvaluateAll` | app/lib/features/convoy/domain/distance_watcher_service.dart:56-61 | the loop over all peers, whatever its order |
| `DistanceWatcherService.DistanceWatcherService.Evaluate` | app/lib/features/convoy/domain/distance_watcher_service.dart:63-85 | one evaluation, skipped when either position is older than maxPositionAge |
| `ConvoySplitWatcher.SplitNeedsSustainedBreach` | app/lib/features/convoy/application/convoy_split_watcher.dart:66-75 | every declared split ends a run of evaluations, all beyond the threshold, spanning at least 30 s |
| `ConvoySplitWatcher.SplitsApart` | app/lib/features/convoy/application/convoy_split_watcher.dart:70-85 | splits of one member are at least 300 s apart |
| `ConvoySplitWatcher.SplitInTime` | app/lib/features/convoy/application/convoy_split_watcher.dart:66-88 | for a member with any past, under unbroken separation with evaluations at most g apart: a split less than g after it is due, which is 30 s after the breach timer started, or 330 s after the last split if the cooldown still runs then |
| `ConvoySplitWatcher.BreachIsReportedInTime` | app/lib/features/convoy/application/convoy_split_watcher.dart:66-88 | so a member that split, came back and is separated again is reported within 30 s + g, or 330 s + g of its last split |
| `ConvoySplitWatcher.FirstSplitInTime` | app/lib/features/convoy/application/convoy_split_watcher.dart:66-75 | the first split of a member comes within 30 s + g |
| `ConvoySplitWatcher.NextSplitInTime` | app/lib/features/convoy/application/convoy_split_watcher.dart:70-88 | and each further one within 330 s + g of the one before, the breach timer being restarted during the cooldown |
| `ConvoySplitWatcher.RoundIsHistory` | app/lib/features/convoy/application/convoy_split_watcher.dart:57-93 | one pass over the positions moves every member along its own history, and no member along another's |
| `ConvoySplitWatcher.ConvoySplitWatcher.OnPositions` | app/lib/features/convoy/application/convoy_split_watcher.dart:51-95 | with an own position exactly the other members with a position are evaluated, each at this instant by whether its distance exceeds the threshold, and nobody without one; one event for each member that declares a split, with its distance and the instant |
| `ConvoySplitWatcher.ConvoySplitWatcher.Evaluate` | app/lib/features/convoy/application/convoy_split_watcher.dart:66-92 | one member's evaluation leaves all other timers alone |
| `ConvoyStandings.OrdinalsAreABijection` | app/lib/features/convoy/domain/convoy_standings.dart:76-85 | every place from 1 to n is held by exactly one member |
| `ConvoyStandings.LeaderIsFirst` | app/lib/features/convoy/domain/convoy_standings.dart:59-70 | a leader with a position is number one and green |
| `ConvoyStandings.GapsAndTiersFollowOrdinals` | app/lib/features/convoy/domain/convoy_standings.dart:59-74 | with the leader's position known, gaps never shrink and tiers never improve down the ranking |
| `ConvoyStandings.AheadIsTotal` | app/lib/features/convoy/domain/convoy_standings.dart:60-67 | the comparator orders any two different members one way |
| `ConvoyStandings.AheadIsTransitive` | app/lib/features/convoy/domain/convoy_standings.dart:60-67 | and is transitive, also with missing gaps and equal ones |
| `ConvoyStandings.PlaceIsOrdinal` | app/lib/features/convoy/domain/convoy_standings.dart:59-67 | in any list sorted by it the place is the ordinal counted without sorting, so neither sort nor map order shows |
| `ConvoyStandings.TiesFollowIds` | app/lib/features/convoy/domain/convoy_standings.dart:59-67 | equally far from the leader, or without a known leader position: the smaller id comes first |
| `ConvoyStandings.FirstLeaderIsFirst` | app/lib/features/convoy/domain/convoy_standings.dart:38-44 | the leader is the first member of the list flagged as one, if there is any |
| `ConvoyStandings.StandingsArePlain` | app/lib/features/convoy/domain/convoy_standings.dart:45-85 | gap and tier of each standing in numbers: the distance to the leader, green below half the threshold, yellow below it, red from it on; the leader, and everybody while its position is unknown, has no gap and is green |
| `ConvoyStandings.StringLessIsLexicographic` | app/lib/features/convoy/domain/convoy_standings.dart:67 | ids are compared at the first place where they differ, a prefix being smaller |
| `ConvoyStandings.SortIds` | app/lib/features/convoy/domain/convoy_standings.dart:59-67 | a sorted list of exactly the members with a position |
| `ConvoyStandings.Number` | app/lib/features/convoy/domain/convoy_standings.dart:76-85 | each member gets the counted ordinal, its tier and its gap |
| `ConvoyStandings.ComputeConvoyStandings` | app/lib/features/convoy/domain/convoy_standings.dart:33-87 | exactly the members with a position get a standing, with its counted ordinal and with gap and tier as numbers of distance and threshold |
| `Membership.HistoryKeepsSound` | backend/src/services/convoys.ts:60-191 | from empty tables every history of service calls, failed ones included, keeps the keys, the references, one vehicle a user, and the owner rows |
| `Membership.StepKeepsSound` | backend/src/services/convoys.ts:60-191 | each call keeps them |
| `Membership.ExactlyOneOwnerRow` | backend/src/services/convoys.ts:79-83 | each convoy has exactly one owner-role row, and it is its owner's |
| `Membership.JoinConvoyKeepsSound` | backend/src/services/convoys.ts:93-133 | joining never makes a second owner row, because the owner is always enrolled |
| `Membership.CreateConvoyKeepsSound` | backend/src/services/convoys.ts:60-86 | a new convoy comes with its owner's row |
| `Membership.CreatorLeads` | backend/src/services/convoys.ts:60-86 | a new convoy is found by its code and its creator passes the leader check |
| `Membership.WhatCreationAdds` | backend/src/services/convoys.ts:60-86 | creating adds one convoy row, in the lobby and without a destination, and one owner row, and nothing else |
| `Membership.CreationFailsExactlyWhen` | backend/src/services/convoys.ts:64-84 | creating fails if and only if a key or the code is taken or the owner is unknown |
| `Membership.SignInIsAnUpsert` | backend/src/services/auth.ts:88-115 | one row for an external id, refreshed, under its old key if there was one; no other user changes |
| `Membership.SetUserVehicleKeepsSound` | backend/src/services/vehicles.ts:48-97 | replacing a vehicle keeps one vehicle a user |
| `Membership.SetUserVehicleIsExact` | backend/src/services/vehicles.ts:48-97 | afterwards the user has exactly the new vehicle with exactly the new mods, and no other row has changed |
| `Membership.LeaveThenJoin` | backend/src/services/convoys.ts:110-154 | leaving and coming back with the code restores exactly the state before: same row, same role |
| `Membership.LeavingTouchesOneRow` | backend/src/services/convoys.ts:140-154 | leaving marks that one row and nothing else |
| `Membership.RejoiningRestoresOneRow` | backend/src/services/convoys.ts:117-123 | joining again clears the mark on that one row and nothing else |
| `Membership.FirstJoinAddsOneRow` | backend/src/services/convoys.ts:93-133 | joining for the first time adds one row, of an ordinary current member without a vehicle, and nothing else |
| `Membership.LeavingAgainChangesNothing` | backend/src/services/convoys.ts:140-154 | who is not a current member has nothing to leave |
| `Membership.DestinationTouchesOneRow` | backend/src/services/convoys.ts:162-191 | setting or clearing a destination writes three columns of one row, for the owner only; an unknown convoy and a foreign one fail differently |
| `Membership.DroppingAVehicleIsExact` | backend/src/services/vehicles.ts:124-130 | dropping a vehicle removes exactly the user's vehicles and their mods |
| `Membership.LeavingRevokesMembership` | backend/src/services/convoys.ts:140-154 | after leaving the gateway no longer accepts the user |
| `Membership.JoinAdmitsExactlyWithACode` | backend/src/services/convoys.ts:93-133 | a known user is admitted, for the first time or again, if and only if the code belongs to a convoy |
| `Membership.OneConvoyByCode` | backend/src/services/convoys.ts:97-101 | the query limited to one row has nothing to choose from |
| `Membership.LeaderIsTheCurrentOwner` | backend/src/services/auth.ts:186-204 | the leader check accepts exactly the convoy's owner, and only while that owner has not left |
| `Membership.DeletionOrderMatters` | backend/src/services/users.ts:8-23 | deleting the user row first is blocked exactly for owners of a convoy; in the order used it never is |
| `Membership.AccountDeletionIsExact` | backend/src/services/users.ts:16-24 | account deletion removes every row of the account and of the convoys it owns, and no other row |
| `Tables.InsertConvoyKeepsSchema` | backend/src/db/schema/convoys.ts:23-35 | an accepted insert keeps codes unique and owners resolving |
| `Tables.InsertMemberKeepsSchema` | backend/src/db/schema/convoys.ts:46-68 | an accepted insert keeps one row for a convoy and a user |
| `Tables.DeleteConvoysKeepsSchema` | backend/src/db/schema/convoys.ts:50-52 | deleting convoys takes their members along |
| `Tables.DeleteVehiclesKeepsSchema` | backend/src/db/schema/vehicles.ts:29-36 | deleting vehicles takes their mods along and clears pointers to them |
| `Tables.DeleteUserKeepsSchema` | backend/src/db/schema/convoys.ts:25-58 | an accepted user delete leaves no dangling reference |
| `ConvoyRoster.RosterAfterAnyHistory` | backend/src/services/convoys.ts:193-283 | main result: after any history, in whatever order rows come back, and told straight from the tables: each current member is listed exactly once and nobody else; an entry shows its user's name, whether the user owns the convoy, and the user's vehicle with its specification and exactly its mods, if and only if there is one; listed and leader are the gateway's own answers; code, name, status, proximity and destination are the convoy's |
| `ConvoyRoster.NobodyTwiceExactlyWhen` | backend/src/services/convoys.ts:206-210 | the comment's assumption, exactly: the schema alone makes the roster free of duplicates if and only if no current member has two vehicles |
| `ConvoyRoster.RosterIsTheMembership` | backend/src/services/convoys.ts:211-237 | listed means accepted by the gateway, and the other way round |
| `ConvoyRoster.FlagIsTheLeaderCheck` | backend/src/services/convoys.ts:280 | an entry's leader flag is the gateway's answer |
| `ConvoyRoster.LoadModsByVehicleId` | backend/src/services/vehicles.ts:134-155 | each requested vehicle with mods is mapped to all of them, once each; nothing else is in the map |
| `Database.Describe` | backend/src/services/convoys.ts:259-281 | the member list describes the joined rows one for one |
| `Database.Database.LoadConvoyPayload` | backend/src/services/convoys.ts:193-283 | the payload, of which RosterAfterAnyHistory says what it shows, or none for an unknown convoy |
| `Database.Database.GetConvoyForMember` | backend/src/services/convoys.ts:296-315 | answered exactly for current members |
| `Database.Database.CreateConvoy` | backend/src/services/convoys.ts:60-86 | both inserts or neither |
| `Database.Database.JoinConvoy` | backend/src/services/convoys.ts:93-133 | the new tables and the payload of the convoy with that code |
| `Database.Database.LeaveConvoy` | backend/src/services/convoys.ts:140-154 | marks the current row only; leaving twice changes nothing |
| `Database.Database.SetConvoyDestination` | backend/src/services/convoys.ts:162-191 | the new tables, of which DestinationTouchesOneRow says what they are, and a payload that carries the new destination |
| `Database.Database.SetUserVehicle` | backend/src/services/vehicles.ts:48-97 | delete and inserts, or nothing |
| `Database.Database.DeleteUserVehicle` | backend/src/services/vehicles.ts:124-130 | the vehicle and its mods |
| `Database.Database.DeleteUserAccount` | backend/src/services/users.ts:16-24 | both deletes or neither |
| `Database.Database.GetOrCreateUser` | backend/src/services/auth.ts:88-115 | one row for an external id, refreshed on every call |
| `Database.MathRound` | backend/src/services/convoys.ts:72 | the nearest whole number, halves going up |
| `PttAudio.CaptureRawPcm` | app/android/app/src/main/kotlin/com/crewlink/crew_link/PttAudioChannel.kt:244-271 | whatever the sizes of the reads, failed ones included, the packets are those of the concatenated stream and the accumulator holds the rest |
| `PttAudio.HeardInOrder` | app/android/app/src/main/kotlin/com/crewlink/crew_link/PttAudioChannel.kt:250-252 | the stream is the reads one after the other, failed ones left out |
| `PttAudio.Pour` | app/android/app/src/main/kotlin/com/crewlink/crew_link/PttAudioChannel.kt:252-266 | one read poured through the accumulator in place |
| `PttAudio.PttAudioChannel.ProcessTap` | app/ios/Runner/PttAudioChannel.swift:304-314 | the accumulator and the chunks emitted so far are the cut of everything heard since recording began |
| `PttAudio.PttAudioChannel.StopRecording` | app/ios/Runner/PttAudioChannel.swift:269-273 | starts over with nothing |
| `PttAudio.Cut` | app/ios/Runner/PttAudioChannel.swift:308-311 | the loop that empties the accumulator |
| `PttAudio.FramesKeepEverything` | app/android/app/src/main/kotlin/com/crewlink/crew_link/PttAudioChannel.kt:253-266 | nothing is lost, repeated or reordered, and every frame holds exactly 960 samples |
| `PttAudio.FramingIsUnique` | app/ios/Runner/PttAudioChannel.swift:308-311 | there is only one such cut, so both platforms frame a stream alike |
| `PttAudio.FramesResume` | app/ios/Runner/PttAudioChannel.swift:305-311 | framing can be resumed from the leftovers of any earlier part |
| `PttAudio.PacketsCarryTheStream` | app/android/app/src/main/kotlin/com/crewlink/crew_link/PttAudioChannel.kt:259-264 | decoding every packet and appending the leftovers gives back the microphone's stream |
| `PttAudio.PcmToBytes` | app/android/app/src/main/kotlin/com/crewlink/crew_link/PttAudioChannel.kt:472-476 | the little-endian bytes of the samples |
| `PttAudio.DecodeEncode` | app/ios/Runner/PttAudioChannel.swift:458-471 | decoding gives back the samples, an odd trailing byte being ignored |
| `PttAudio.EncodeDecode` | app/android/app/src/main/kotlin/com/crewlink/crew_link/PttAudioChannel.kt:472-476 | and encoding gives back an even payload |
| `PttAudio.BytesRoundTrip` | app/android/app/src/main/kotlin/com/crewlink/crew_link/PttAudioChannel.kt:473-474 | both ways for one sample, negative ones included |
| `PttAudio.SendPcm` | app/ios/Runner/PttAudioChannel.swift:358-365 | the packet is the raw-PCM tag 0 followed by two bytes a sample, low byte first, and decodes to the converted samples |
| `PttAudio.PlayFrame` | app/ios/Runner/PttAudioChannel.swift:458-472 | a buffer exactly when there is a whole sample, holding the decoded samples |
| `PttAudio.PlayedSampleSurvives` | app/ios/Runner/PttAudioChannel.swift:359-361 | every 16-bit sample survives being played and sent again, -32768 included |
| `PttAudio.SentSampleIsNearest` | app/ios/Runner/PttAudioChannel.swift:359-361 | from -32768/32767 to 1 a sample moves by at most half a step; outside it saturates |
| `PttAudio.HeardAsSpoken` | app/ios/Runner/PttAudioChannel.swift:358-365 | from microphone to speaker every sample in range arrives within half a step |

## Left out

* The time a frame or a response spends on the network: what the gateway sends arrives in the same step. One
  clock is assumed for both sides, so an app prunes by the server's time.
* The position store and its replay of last positions; heartbeats; the window between a socket starting to
  close and its close event.
* Running without a snapshot store, where removals are not checked and nothing is replayed. Running without a
  leader check is modelled.
* JSON and schema validation: a message is a frame or it does not parse. `accuracy` on positions and `convoyId`
  on hazards, which no modelled code reads.
* Overlapping calls on the Redis store other than a snapshot with records; a key that runs out between its write
  and its refresh; corrupt fields and their logging; a subscribe or unsubscribe command that fails; the stores' and fan-outs' close.
* Redis delivery order between publishers: a channel hands an instance any messages in the order they reached
  it.
* Calling `connect()` a second time, or again after `disconnect()`: no caller does.
* Frames that are not critical (positions, check-ins, quick actions) in the client's outbox: they are dropped
  when there is no channel. A sink that throws.
* The route editing operations and derived waypoint values; the client's waypoint is the last value of its
  stream, as there is no notifier for it.
* Floating point: speeds, distances, thresholds and iOS audio samples are reals.
* Filtering with a clock that moves during one call: each modelled call reads the clock once.
* Starting, relaying errors and disposing in `ConvoySession`, the two distance services and the split watcher; notifications and the member names in them.
* Transactions that overlap: services run one after the other, each committed or rolled back.
* Columns nothing decides on: timestamps of creation and update, photos, last known positions; the tokens and
  their display names, which arrive derived.
* `getUserVehicle` and the vehicle returned by a PUT: `SetUserVehicleIsExact` says what the tables hold.
* Opus encoding and decoding, sample-rate conversion, audio focus, threads and locks of the voice channel; a
  sample's 32-bit float representation.
* User interface, routing, CarPlay, onboarding, LiveKit tokens, JWT verification, environment handling.
- SnapshotStore.InMemorySnapshotStore.Snapshot: leaves the order of the hazards open, where the code follows insertion order, because it shows only in the order of the list an app keeps.
- ConvoyGateway.Gateway.OnConnection: leaves out the heartbeat and the replay of last positions, which touch neither the fan-out nor the snapshot.
- ReplicaAgreement.ReplicasAgree: speaks of members that never send, because senders apply their own reports before the server has accepted them.
- RedisSnapshotStore.StoresAnswerAlike: compares snapshots as sets of frames, because hash fields have no order.
