# echomux: verified models of the loopback router and the satellite sync

echomux plays one audio stream on many Bluetooth speakers. A node keeps one `pw-loopback` process per
speaker and reconciles these processes with what PipeWire reports. A master node also caches the speakers of
its satellites, which push device lists and numbered events to it over one WebSocket per session. This project
models both, and the smaller mechanisms they rely on, in Dafny, and proves what they keep over every run.

| file | what it models |
|---|---|
| `Lanes.dfy` | the router seen from one speaker: every operation on its map entries and on the processes ever spawned for it |
| `Router.dfy` | the server's maps and the methods that change them; every speaker's state is shown to be a run of its lane |
| `Records.dfy` | what the master keeps of one satellite, the rules for pushes and numbered deltas, and lost deltas |
| `Registry.dfy` | the registry of satellites as objects and arrays updated in place, and its copying reads |
| `SyncProtocol.dfy` | one sync session: handlers, the one-slot push channel, two pushers, the hub buffer, the link, the master |
| `Sessions.dfy` | registrations, sessions and RTP sink ids on the master, step by step and as one handler |
| `Rtp.dfy` | the audio controller's tracking of `pw-cli` processes |
| `Persistence.dfy` | the debounced, possibly overlapping saves of the state file, and loading it |
| `Heartbeat.dfy` | ping, pong and the watchdog timer, with time |
| `Backoff.dfy` | the reconnect delay and the client loop |
| `Listing.dfy` | the two-phase device listings |
| `Hub.dfy` | the event hub's bounded subscriber channels |
| `Stores.dfy`, `PipeWire.dfy`, `Options.dfy` | settings maps, PipeWire nodes and links, optional values |

How to read the main results:

- **Router.** A process has three flags: killed, exited, and reaped (its `dead` channel is closed, which is all
  the code can see). Deaths take no lock, so a tick may find a speaker alive and then dead; the clock may
  advance at every read; whether a process starts is not the router's choice; maps are walked in an order that
  nothing fixes. Ticks that passed their pause check and have not been applied yet are kept by name in
  `Router.gate`. `Router.trace` is a history of what happened to each speaker, and `Valid()` says that each
  speaker's state is the run of its history. What is proved about runs in `Lanes` therefore holds of every
  reachable state of the class, and each method's contract says which operations it adds to which history.
- **Sync.** The states are those between two atomic steps of the goroutines. A push takes its snapshot in one
  step and is written in another. The master's steps use the same rules as the registry's methods.
- **False as first stated.** Some obvious statements fail in the code. Each comes with a run or an input that
  shows it, named first, and with the exact condition under which the code does meet it, in all runs:
  - No settings change is lost by the push trigger: `SyncProtocol.OverlapLosesAChange`, `SyncProtocol.CacheCurrent`.
  - The file at rest holds what memory holds: `Persistence.OverlapLosesAChange`, `Persistence.DurableExactly` (the
    comment at `service/internal/api/handlers.go:250` promises otherwise, the code is followed).
  - One live session per id: `Sessions.InterleavedRegistrations`, `Sessions.TwoLiveExactly`.
  - A live session has its RTP sink: `Sessions.ReconnectLosesSink` and `Sessions.SecondSatelliteTakesSink`,
    `Sessions.SinkLostExactly`. The real controller uses the port as the sink id, so that all satellites share one.
  - Subscribers get the broadcasts in one order: `Hubs.Overtake`, `Hubs.GivenInOrder`.
  - Paused means nothing is spawned: `Lanes.TickAfterPause`, `Lanes.AfterPause`.
  - No loopback has an empty target: `Lanes.NamelessRestart`, `Lanes.NamelessExactly`.
  - A lost delta is noticed: `Records.BlindAfterPush`, `Records.LossNoticed`.
  - The two device listings agree: `Listings.ListingsDiffer`, `Listings.ListingsAgree`.
- **Documentation.** The system document says that a gap makes the master request a sync. On an in-order
  lossless link that branch is never taken (`SyncProtocol.GapUnreachable`).

Durations are integer nanoseconds. Integers are unbounded except in the backoff shift, which is written out in
64 bits.

## Model

| member | source | states |
|---|---|---|
| Lanes.Conservation | service/internal/api/autorouter.go:204-324 | Over every run of ticks, handler steps and deaths: at most one process of a MAC is neither killed nor exited, it is the tracked one and the newest, and the tracked process was spawned with the delay now stored and the node name of its entry |
| Lanes.StepKeepsInv | service/internal/api/autorouter.go:117-174 | Every single operation on a speaker, with any outcome of its spawn, keeps conservation and delay agreement |
| Lanes.AfterPause | service/internal/api/autorouter.go:74-103 | In every legal history, from a pause to the next unpause: a process is spawned if and only if a delay change hits a tracked speaker, or a tick whose check preceded the pause fires its guard, and the process starts; whatever is alive was spawned since the pause |
| Lanes.PauseHolds | service/internal/api/handlers.go:621-627 | If no tick was in flight at the pause and no delay is changed, nothing is spawned or alive until the next unpause |
| Lanes.GateClosed | service/internal/api/autorouter.go:74-79 | While paused no check passes: every tick applied was in flight at the pause |
| Lanes.TickAfterPause | service/internal/api/autorouter.go:74-135 | For any speaker and name, a run in which a tick past its check begins after the pause and starts a loopback |
| Lanes.NamelessRestart | service/internal/api/autorouter.go:157-174 | For any speaker, a run of two whole ticks in which the sink loses its name between them and the watchdog leaves a live loopback for the empty name |
| Lanes.NamelessExactly | service/internal/api/autorouter.go:157-174 | In every history a loopback is ever spawned for the empty name if and only if the watchdog restarts one for a sink without a name |
| Lanes.TickConverges | service/internal/api/autorouter.go:103-176 | One tick, with any deaths in between, leaves an absent MAC without entry and without live process, a present one known and, if named and startable, bound to the snapshot's node by an entry that was not seen dead when the start loop looked at it |
| Lanes.TickIdempotent | service/internal/api/autorouter.go:106-176 | A tick whose spawns succeed, repeated at the same instant on the same snapshot with nothing dying, after its own check and begin and whatever else happens at the gate, changes nothing; nor does a tick for which the MAC is absent |
| Lanes.QuietForever | service/internal/api/autorouter.go:71-176 | Once the speaker is settled, no history of ticks with all links active and the sink named, at any times, however their checks and begins interleave and whatever old processes die, spawns or kills again |
| Lanes.TickIsQuiet | service/internal/api/autorouter.go:106-176 | What a tick logs of such a speaker consists of the operations that this result allows, and deaths |
| Lanes.TickSettles | service/internal/api/autorouter.go:106-141 | The first tick of such a run settles the speaker |
| Lanes.WatchdogRate | service/internal/api/autorouter.go:157-174 | In any stretch of a run without connect, forget or manual restart, the i-th and j-th watchdog restarts are at least 30(j-i) seconds apart, and each hits a loopback at least 5 seconds old |
| Lanes.WatchdogStep | service/internal/api/autorouter.go:159-173 | One operation keeps that spacing and the agreement of the recorded restart time with the last restart |
| Lanes.WatchdogExactly | service/internal/api/autorouter.go:157-174 | The watchdog kills, records and restarts if and only if a link of the sink is not active, the process was not seen dead, it started 5 seconds ago or earlier, and no restart was recorded in the last 30 seconds |
| Lanes.WatchdogMustFire | service/internal/api/autorouter.go:143-176 | In every history each look at a speaker whose link is not active restarts its loopback, unless it has none, it was seen dead, it was spawned less than 5 seconds before, or the watchdog itself restarted it in the last 30 seconds with no connect, forget or manual restart since |
| Lanes.ReconcileExactly | service/internal/api/autorouter.go:127-140 | The start loop starts if and only if the sink is named and the speaker has no entry, was seen dead or is bound to another node, whose process it kills; else nothing changes |
| Lanes.SpawnedProcess | service/internal/api/autorouter.go:204-218 | Whatever spawns gives the process the node asked for and the delay now stored and makes it the entry, started at the instant of the spawn |
| Lanes.DelayExactly | service/internal/api/handlers.go:856-871 | A delay change stores the delay, kills the tracked process and starts a new one for a tracked speaker, and changes nothing else |
| Lanes.StopsExactly | service/internal/api/autorouter.go:295-316 | Which process and which entry, settings and cooldown a disconnect, an absence, a forget, a pause and a manual restart remove, and that they touch nothing else |
| Lanes.ConnectExactly | service/internal/api/handlers.go:593-598 | A connect clears the cooldown and an entry seen dead, and touches neither a live entry nor any process |
| Lanes.DeathExactly | service/internal/api/autorouter.go:219-221 | An exit and a closing channel change one flag of one process, and the channel closes only after the exit |
| Routers.IndexNodes | service/internal/api/autorouter.go:88-93 | The two maps bind each MAC to the name and id of the last node listed for it |
| Routers.NonActive | service/internal/api/autorouter.go:149-156 | A node id is in the map exactly if some link into it is not active |
| Routers.SuspectExactly | service/internal/api/autorouter.go:90-93 | A speaker is suspect if and only if the last node listed for it is not 0 and some link into it is in a state other than "active" |
| Routers.Router.constructor | service/internal/api/handlers.go:111-165 | A new server holds what was loaded, no process, no history |
| Routers.Router.Reachable | service/internal/api/autorouter.go:293-336 | Conservation and delay agreement in every reachable state of the server |
| Routers.Router.RestartRate | service/internal/api/autorouter.go:148-174 | The watchdog bound for every stretch of every speaker's history in the server |
| Routers.Router.ZombieRestarted | service/internal/api/autorouter.go:143-176 | When the watchdog must act, for every look in every speaker's history in the server |
| Routers.Router.QuietStretch | service/internal/api/autorouter.go:71-176 | Any stretch of a speaker's history in the server that starts settled and holds only such ticks and old deaths spawns and kills nothing and leaves entry and settings |
| Routers.Router.RepeatedTick | service/internal/api/autorouter.go:106-176 | A successful tick repeated at its instant in a speaker's history in the server changes nothing the second time |
| Routers.Router.SpawnedWhilePaused | service/internal/api/autorouter.go:74-103 | What can spawn between a pause and the next unpause, for every speaker's history in the server |
| Routers.Router.SpeakerDead | service/internal/api/autorouter.go:326-336 | A speaker is dead exactly if it has no entry or its channel is closed |
| Routers.Router.SetExited | service/internal/api/autorouter.go:219-221 | A process may exit at any time, without a trace the code can see |
| Routers.Router.CloseDead | service/internal/api/autorouter.go:219-221 | The channel of a process closes only after it exited |
| Routers.Router.StartLoopback | service/internal/api/autorouter.go:206-218 | A started process gets the given node and the stored delay and becomes the entry, started now; a failed start changes nothing |
| Routers.Router.StopLoopback | service/internal/api/autorouter.go:295-305 | The entry goes and its process is killed; no other speaker is touched |
| Routers.Router.RegisterSeen | service/internal/api/autorouter.go:106-114 | Every present MAC becomes known; a save is needed exactly if one was not |
| Routers.Router.StopGone | service/internal/api/autorouter.go:116-122 | Exactly the absent MACs lose their loopback, whatever the walk order |
| Routers.Router.ReconcileEntry | service/internal/api/autorouter.go:127-140 | One named sink: start if dead, restart if bound to another node, else nothing |
| Routers.Router.StartNamed | service/internal/api/autorouter.go:124-141 | Every present MAC is reconciled once, whatever the walk order and the deaths in between |
| Routers.Router.WatchEntry | service/internal/api/autorouter.go:157-174 | One speaker under the watchdog: age, node id, cooldown and link tests in that order, each clock read later than the one before and none before the call |
| Routers.Router.Watchdog | service/internal/api/autorouter.go:143-176 | Every present MAC is watched once; it is suspect exactly if its node id is not 0 and a link into it is not active |
| Routers.Router.TickApply | service/internal/api/autorouter.go:81-181 | The whole locked tick, for a tick that passed its pause check earlier: what it does to each speaker is fixed by that speaker and the snapshot, whatever the walk order; absent MACs end without entry, present ones known and bound by an entry not seen dead at the start loop's look; a save is scheduled exactly if a MAC was new |
| Routers.Router.Connected | service/internal/api/handlers.go:589-598 | A dead entry and the cooldown are cleared; a live loopback stays |
| Routers.Router.HandleDisconnect | service/internal/api/handlers.go:660-665 | The loopback is stopped and nothing else changes |
| Routers.Router.HandleForget | service/internal/api/handlers.go:717-730 | The loopback is stopped, every setting of the MAC is gone, a save is scheduled and a push triggered |
| Routers.Router.HandleVolume | service/internal/api/handlers.go:748-795 | The status for each failure; the volume is stored, saved and pushed exactly on success, else nothing changes |
| Routers.Router.HandleMute | service/internal/api/handlers.go:797-840 | Likewise for mute |
| Routers.Router.HandleDelay | service/internal/api/handlers.go:842-876 | Out-of-range delays change nothing; else exactly this delay is stored, a tracked loopback respawned for its node with it, paused or not, an untracked speaker left untracked, saved and pushed |
| Routers.Router.PauseAllLoopbacks | service/internal/api/autorouter.go:307-316 | Every tracked process is killed and every entry kept |
| Routers.Router.Pause | service/internal/api/handlers.go:621-627 | Paused, everything killed, entries and ticks in flight kept; also the first section of a scan, which lists exactly the tracked MACs |
| Routers.Router.HandleRestart | service/internal/api/handlers.go:639-651 | Every tracked process is killed, every cooldown cleared |
| Routers.Router.KillAllLoopbacks | service/internal/api/autorouter.go:318-324 | No entry is left and no process of any speaker is alive |
| Routers.Router.TriggerSatellitePush | service/internal/api/handlers.go:273-281 | On a satellite the slot is full afterwards; elsewhere it is unchanged |
| Routers.Router.CopyState | service/internal/api/handlers.go:227-243 | The copied settings are those in memory, and connected are exactly the speakers not seen dead |
| Records.MarkExact | service/internal/api/noderegistry.go:119-126 | Applying a delta sets the flag of the first device with that MAC and changes nothing else |
| Records.DeltaExactly | service/internal/api/noderegistry.go:110-126 | A delta is applied if and only if any number is accepted or its own is expected: the first device of the MAC gets the flag the event names and the next number is expected; else nothing changes and a sync is asked for |
| Records.PushReopens | service/internal/api/noderegistry.go:97-98 | A push replaces the list, and after it a delta of any number is applied, even to a record frozen by a loss |
| Records.Frozen | service/internal/api/noderegistry.go:110-113 | Behind its expected number the record never changes and every arriving delta asks for a sync |
| Records.NoDeltaPastALoss | service/internal/api/noderegistry.go:110-118 | Once a delta was accepted, exactly the deltas before the first loss are applied, and exactly the arrivals after it ask for a sync |
| Records.BlindAfterPush | service/internal/api/noderegistry.go:98-118 | After a push the record takes over at the first delta that arrives, whatever was lost before it |
| Records.LossNoticed | service/internal/api/noderegistry.go:110-118 | A loss leads to a sync request if and only if a delta arrives after it and one was accepted before it |
| Registries.NodeInfo.Begin | service/internal/api/noderegistry.go:67-75 | A commit starts an online record with an empty cache expecting number 0 |
| Registries.NodeInfo.Accept | service/internal/api/noderegistry.go:110-126 | A delta on one record in place: gap test, next number, flag |
| Registries.MarkInPlace | service/internal/api/noderegistry.go:119-126 | The loop over the live array does what `Mark` says |
| Registries.NodeRegistry.PrepareRegistration | service/internal/api/noderegistry.go:30-56 | Accepted exactly if no online record exists; a stale record loses cache and sink id, which is returned |
| Registries.NodeRegistry.Commit | service/internal/api/noderegistry.go:58-76 | The record is the fresh one of this session, created if needed; no other record changes |
| Registries.NodeRegistry.SetOffline | service/internal/api/noderegistry.go:78-86 | The record is offline and empty; no other record changes |
| Registries.NodeRegistry.SetDevices | service/internal/api/noderegistry.go:88-99 | The record holds the pushed list and accepts any number; the array is taken over from the caller |
| Registries.NodeRegistry.ApplyDeltaEvent | service/internal/api/noderegistry.go:101-127 | The delta rule on the record in place, and a gap reported exactly if the number is not the expected one |
| Registries.NodeRegistry.GetNode | service/internal/api/noderegistry.go:147-161 | A fresh copy of the record that shares no writable element with the registry |
| Registries.NodeRegistry.List | service/internal/api/noderegistry.go:129-145 | Such a copy of every record, each once |
| Registries.PerformAll | service/internal/api/noderegistry.go:30-127 | Any sequence of changes leaves the registry as the pure rules say, with exactly their sync requests |
| Registries.GetThenChange | service/internal/api/noderegistry.go:147-161 | A record returned by `getNode` never changes, whatever happens to the registry afterwards |
| Registries.ListThenChange | service/internal/api/noderegistry.go:129-145 | Nor does any record of a returned list |
| SyncProtocol.CacheIsReplay | service/internal/api/satellite_client.go:181-239 | At every moment of a session, under any interleaving of the two pushers, the cached list is the last received push with every later delta applied in order |
| SyncProtocol.GapUnreachable | service/internal/api/noderegistry.go:110-113 | No delivered message ever asks for a sync on an in-order lossless link, although the hub may drop events |
| SyncProtocol.NextInStep | service/internal/api/satellite_client.go:181-216 | Every step keeps: events on the link are numbered without holes, and the expected number is "any" or that of the oldest undelivered one |
| SyncProtocol.CacheCurrent | service/internal/api/satellite_client.go:127-216 | Whatever overlaps, once the link is drained every cached device carries the settings now stored if and only if the push written last took its snapshot when the settings of the devices it lists were the present ones |
| SyncProtocol.NoChangeLostInOrder | service/internal/api/handlers.go:273-281 | If no push is written after one with a later snapshot, overlapping or not, then at rest every cached device is known to the satellite and carries its stored delay and mute, and its volume where one is stored |
| SyncProtocol.NoChangeLost | service/internal/api/handlers.go:273-281 | The same in particular if no two pushes overlap between snapshot and write |
| SyncProtocol.LatestTraced | service/internal/api/satellite_client.go:127-239 | At every moment of every run the list the cache will be built on is the push written last, up to connected flags |
| SyncProtocol.ChangeSnapped | service/internal/api/handlers.go:273-281 | After every change, and every start or stop of a loopback, the forwarder takes a later snapshot, or one is still to come |
| SyncProtocol.OverlapLosesAChange | service/internal/api/satellite_client.go:133-174 | A run in which a sync answer overtaken by a triggered push leaves the old delay in the cache at rest |
| SyncProtocol.ForwardEvents | service/internal/api/satellite_client.go:181-208 | The forwarded messages are exactly the connected and disconnected Bluetooth events among the hub's, in order, numbered from 0 without holes |
| SyncProtocol.EventsReceived | service/internal/api/satellite_client.go:181-208 | In every run, once the link is drained, exactly the connected and disconnected events that the forwarder took from the buffer have been received, in order, each once, numbered from 0 |
| SyncProtocol.BufferKept | service/internal/api/events.go:68-75 | What entered the hub buffer was taken from it in order or is still there |
| SyncProtocol.WireStep | service/internal/api/satellite_client.go:174-239 | What was received and what is on the link are together what was written, step by step: an event, a push, a pong, or nothing |
| SyncProtocol.SyncAnswered | service/internal/api/satellite_client.go:218-239 | Every sync request that the satellite took is answered by a push with a later snapshot, or that push is under way |
| SyncProtocol.SyncsCounted | service/internal/api/satellite_server.go:213-224 | Every sync request comes from the timer, and each is taken once or still on its way |
| Sessions.SessionOwnership | service/internal/api/satellite_server.go:132-181 | If registrations of this id have not interleaved so far, whatever those of other ids did: at most one active session of the id, its online record names the live one, its offline record is empty, and its cache changes only by a message of that session or a registration step of that id |
| Sessions.OneActiveExactly | service/internal/api/satellite_server.go:132-153 | Up to any moment of a run there were never two sessions of the id between prepare and set-offline if and only if no two of its registrations interleaved |
| Sessions.TwoLiveExactly | service/internal/api/satellite_server.go:132-181 | Two sessions of one id are ever live together if and only if one was accepted before the other committed, and committed after it but before that other went offline |
| Sessions.NextOneActive | service/internal/api/satellite_server.go:132-153 | No step creates a second active session of an id |
| Sessions.InterleavedRegistrations | service/internal/api/satellite_server.go:132-153 | A run in which two connections of one name both go live |
| Sessions.SinksConserved | service/internal/api/satellite_server.go:137-181 | Counted per sink id, whatever interleaves: hand-outs plus removals queued for a remembered id equal the sessions not ended that hold it plus the removals waiting plus those run |
| Sessions.RemovalsAreSafe | service/internal/api/satellite_server.go:137-181 | With a controller that never hands an id out twice, and if registrations of this id do not interleave, no session of the id loses its sink before it is set offline, whatever sessions of other ids do |
| Sessions.SinkLostExactly | service/internal/audio/rtp.go:187-219 | For any controller and any run: a session has lost its sink if and only if since its own provision a removal of its id has run or the id was provisioned again |
| Sessions.DrainedIsSafe | service/internal/api/satellite_server.go:137-159 | A session keeps its sink as long as no removal of its id was waiting at its provision, none is queued and nobody else is given the id |
| Sessions.ReconnectLosesSink | service/internal/api/satellite_server.go:138-153 | With the port as id, a run of one satellite that reconnects and loses its new sink to the removal its own handler queued |
| Sessions.SecondSatelliteTakesSink | service/internal/audio/rtp.go:192-203 | With the port as id, a run in which a second satellite takes the sink of the first while no removal has run |
| Sessions.HandleSatelliteConn | service/internal/api/satellite_server.go:131-181 | One undisturbed handler takes exactly the steps of the session machine: a rejected connection changes nothing; an accepted one leaves the registry as these steps do, queues each id once for a stale session that held it and once for its own sink, and asks for one sync per gap |
| Sessions.HandlerQueues | service/internal/api/satellite_server.go:137-181 | The steps of an accepted handler lead to the record its messages leave, offline, and to one waiting removal for the stale id and one for its own |
| Sessions.AskedExactly | service/internal/api/satellite_server.go:238-243 | One sync is asked for at each event that does not carry the number then expected |
| Sessions.ReadLoop | service/internal/api/satellite_server.go:226-253 | The session's record runs through the messages; no other record changes |
| RtpController.Controller.Spawn | service/internal/audio/rtp.go:57-114 | A process whose module does not load is killed; a loaded one is held by the caller |
| RtpController.Controller.Track | service/internal/audio/rtp.go:192-202 | The process is tracked for its port and the one it replaces is killed |
| RtpController.Controller.AddRTPSink | service/internal/audio/rtp.go:187-204 | On success the port is the id and exactly the replaced sink is killed; on failure no sink changes |
| RtpController.Controller.RemoveRTPSink | service/internal/audio/rtp.go:206-219 | Exactly the sink tracked under the id is untracked and killed |
| RtpController.Controller.ReloadRTPSource | service/internal/audio/rtp.go:229-243 | The old source is killed before a new one starts; a failed start leaves none |
| RtpController.Serve | service/internal/audio/rtp.go:187-243 | After any calls with any outcomes, every process ever started is the tracked one or has been killed |
| Persistence.DurableExactly | service/internal/api/handlers.go:223-271 | Whatever overlaps and fails, at rest after a change the file holds the settings in memory if and only if the copy written last has the settings of the newest copy |
| Persistence.DurableInOrder | service/internal/api/handlers.go:223-271 | If saves are written in the order of their copies and succeed, overlapping or not, then at rest after a change the file holds the settings in memory |
| Persistence.DurableAtRest | service/internal/api/handlers.go:223-271 | The same in particular if no two saves overlap between copy and write |
| Persistence.NewestIsCurrent | service/internal/api/handlers.go:223-271 | Unless a save is owed, the newest copy was taken of the settings now in memory |
| Persistence.FileIsOneCopy | service/internal/api/handlers.go:227-257 | Whatever overlaps and fails, the file is exactly what memory and the live loopbacks were at one copy, or the start-up file as long as no write succeeded |
| Persistence.ChangesGetWritten | service/internal/api/handlers.go:227-271 | For every single change: a copy taken after it was written or waits to be, or a save is still to come; a successful write puts that copy into the file |
| Persistence.LoadState | service/internal/api/handlers.go:197-221 | A missing file or field leaves the default; a saved file gives back exactly what was saved |
| Persistence.RestartAtRest | service/internal/api/handlers.go:197-258 | A restart from rest gives back one save's copy with the speakers alive at it; these are the settings that were in memory if and only if they are those of the newest copy |
| Persistence.OverlapLosesAChange | service/internal/api/handlers.go:243-257 | For any settings, a run of two overlapping saves that leaves the older ones in the file at rest |
| Heartbeat.Deadline | service/internal/api/satellite_server.go:184-211 | If no pong arrives from some moment on, the connection is cut at most two intervals and a pong timeout later |
| Heartbeat.CutOnlyIfLate | service/internal/api/satellite_server.go:190-208 | A connection is cut only for a ping whose pong timeout has passed, with no pong arriving in between before it had passed |
| Heartbeat.PingTimes | service/internal/api/satellite_server.go:185-192 | The n-th tick fires n intervals after the start, neither earlier nor later, and each ping takes one tick |
| Heartbeat.CutDoesNotRecede | service/internal/api/satellite_server.go:184-211 | While the satellite is silent no step moves the latest possible cut back |
| Heartbeat.AlwaysOnTime | service/internal/api/satellite_server.go:185-204 | Ticks and the watchdog timer are never overdue |
| Heartbeat.PongsMatchPings | service/internal/api/satellite_server.go:233-237 | If each ping is answered once, exactly the current ping is outstanding, so the slot is empty whenever a ping is sent |
| Backoff.ShiftFits | service/internal/api/satellite_client.go:26-32 | The shift never overflows 64 bits |
| Backoff.BaseExact | service/internal/api/satellite_client.go:26-32 | The base is min(2^attempt, 30) seconds |
| Backoff.BaseGrows | service/internal/api/satellite_client.go:26-32 | The base never decreases with the attempt |
| Backoff.DelayWithin | service/internal/api/satellite_client.go:33-39 | The delay is within 15% of the base |
| Backoff.DelayExactly | service/internal/api/satellite_client.go:33-39 | To the nanosecond, the delay is the base shifted by the random factor times 15% of it |
| Backoff.RunSatelliteClient | service/internal/api/satellite_client.go:44-75 | The loop's waits are those of its rounds |
| Backoff.WaitAt | service/internal/api/satellite_client.go:62-67 | After k failures in a row the client waits on base(k) |
| Backoff.FailuresExactly | service/internal/api/satellite_client.go:46-67 | The attempt counter is the number of rounds since the last session that registered, or since the start |
| Backoff.WaitAfterSession | service/internal/api/satellite_client.go:62-67 | After a session that registered the client waits on base(0) |
| Backoff.TotalWait | service/internal/api/satellite_client.go:46-73 | n failures in a row wait in total within 15% of base(1) + ... + base(n) |
| Backoff.SumOfBasesExact | service/internal/api/satellite_client.go:25-40 | That sum is 30(n-4)+30 seconds from n = 4 on |
| PipeWire.NodesByMac | service/internal/api/satellite_client.go:157-160 | The map binds each MAC to the id of the last node listed for it |
| PipeWire.NodeForExactly | service/internal/api/autorouter.go:90-93 | The node of a MAC is the last one listed for it, and there is none only if none is listed |
| Listings.Collect | service/internal/api/handlers.go:388-419 | Phase one lists the known devices in order; the pending indices are exactly those without a stored volume |
| Listings.Resolve | service/internal/api/satellite_client.go:156-170 | Phase two sets exactly the pending volumes, to the mixer's or to -1 |
| Listings.Patched | service/internal/api/handlers.go:389-428 | Patching the unresolved volumes gives what choosing them in the first place gives |
| Listings.GetDevices | service/internal/api/handlers.go:382-441 | The local listing equals the one-pass list |
| Listings.SendDevices | service/internal/api/satellite_client.go:127-174 | The push equals its one-pass list, with volume 0 where the nodes could not be listed |
| Listings.PushCarries | service/internal/api/satellite_client.go:133-150 | Every pushed device is known and carries the settings stored at the snapshot |
| Listings.LocalExactly | service/internal/api/handlers.go:388-428 | GET /devices lists exactly the known devices, in order, with name, flags, delay and mute as manager and settings have them, the stored volume, or the mixer's, or -1 |
| Listings.PushExactly | service/internal/api/satellite_client.go:133-171 | So does the push, but for volume 0 where the nodes could not be listed |
| Listings.MixerVolumeExactly | service/internal/api/handlers.go:409-426 | The mixer's volume is that of the last node listed for the speaker, if it was read and is not negative, else -1 |
| Listings.ListingsAgree | service/internal/api/satellite_client.go:154-171 | The two listings agree if and only if the nodes could be listed or every listed known device has a stored volume |
| Listings.ListingsDiffer | service/internal/api/satellite_client.go:154-156 | If the nodes cannot be listed, a known speaker without a stored volume makes the two listings differ |
| Hubs.Sub.Offer | service/internal/api/events.go:71-75 | A message goes to the channel's end if there is room, else it is dropped and counted |
| Hubs.Hub.Subscribe | service/internal/api/events.go:41-46 | The subscriber is added with an empty channel and owes nothing of the past, nor of broadcasts under way |
| Hubs.Hub.Cancel | service/internal/api/events.go:46-56 | Exactly this subscriber goes, each other stays once; a second call changes nothing |
| Hubs.Hub.Copy | service/internal/api/events.go:60-67 | The lock section: the list is copied, and every subscriber on it is owed the message |
| Hubs.Hub.Send | service/internal/api/events.go:71-76 | One send: the next subscriber on the list gets the message or drops it, once, whatever other broadcasts did in between |
| Hubs.Hub.Broadcast | service/internal/api/events.go:59-77 | A broadcast that no other overlaps: every subscriber is offered the message once, whoever had got the history in order still has, and nobody else is touched |
| Hubs.NothingDropped | service/internal/api/events.go:38-76 | A subscriber whose channel was never full was given exactly the broadcasts of its time, each once, in some order |
| Hubs.GivenInOrder | service/internal/api/events.go:59-76 | It was given the history of its time position by position if and only if nothing was dropped and no broadcast reached it after one that copied the list later |
| Hubs.Serve | service/internal/api/events.go:38-77 | In a hub whose broadcasts never overlap, after any subscriptions, cancellations and broadcasts, a subscriber that dropped nothing holds the history of its time in order |
| Hubs.Overtake | service/internal/api/events.go:59-76 | Two overlapping broadcasts, nothing dropped, after which two subscribers disagree on the history |

## Left out

- Real processes, `pkill`, `pw-cli` input and output, `pw-link` and `wpctl`: a spawn succeeds or fails, and a process may exit at any time; this covers the orphan killers, too.
- BlueZ, HTTP, WebSocket framing, JSON and `pw-dump` parsing: their results are parameters; the link is in order. An empty device list and a missing one are the same.
- The two lock sections of a tick are the methods `PauseCheck` and `TickApply`, and a tick whose snapshot fails ends in `AbandonTick`; that other handlers run in between is not one method, but histories contain every order.
- Deaths inside a tick are possible before each look at the tracked process; elsewhere they commute with the tick.
- The delayed re-application of volume and mute by `startLoopback`, the polling after a connect, the reconnect at start-up and the periodic ticker: more ticks and controller calls, no new router state.
- `ensureMainMixLink` and the debug log: no state of the router.
- The node id stamped on listed devices and the satellite devices appended on the master: a concatenation in map order.
- `LastSeen` is written and never read in the modelled code; the cancel function of a record is represented by the number of its session.
- `SyncProtocol`, `Sessions`, `Persistence` and `Heartbeat` model goroutines as steps on values; the in-place form of the same rules is in `Registry.dfy`, `Router.dfy` and the methods of `Sessions.dfy`, `Listing.dfy` and `SyncProtocol.dfy`. Errors of `bt.Devices` and of writes end a session and are not steps of it.
- The read loop of the satellite is the actions `AnswerPing`, `TakeSync`, `Snap` and `Write` of `SyncProtocol`, one goroutine in sequence.
- The heartbeat's sends take no time and do not fail; `Deadline` counts from the last pong that arrives.
- WebSocket clients of the hub: only the subscriber channels are modelled.
- In `Sessions` a sink process is known from the moment it is tracked, and dies only when its id is removed or provisioned again; processes started but not yet tracked are in `Rtp.dfy`.
- The jitter's floating-point rounding: reals, truncated to a duration as the conversion does.
- The reverse proxy, mode parsing, slugs, addresses, pairing, input discovery and the user interface.
