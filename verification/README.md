# Verified model of the opentunnel server

A Dafny model of the stateful core of `crates/opentunnel-server`: machines that share one MySQL database and a mesh
of links, carry visitors of public hostnames over WebSocket bridges to tunnel clients, and issue and renew the
tunnels' certificates. `dafny verify dfyconfig.toml` checks all of it.

Each component is modelled in the form its code has. Objects that are updated in place are classes whose methods are
proved against specification functions; protocols between machines, tasks and the database are step systems over
those same functions, and the theorems hold for every list of steps, so for every interleaving: a step that cannot
happen in a state leaves it as it is. A statement on the database is one step. A request that may fail, an answer that
may be lost and a task that may be cancelled are steps or nondeterministic choices too.

| files | component |
|---|---|
| `MeshTable`, `MeshLocal`, `MeshLinks`, `MeshReplication`, `MeshReceiver`, `MeshCatchUp`, `MeshLeaving`, `Order` | replication of the bridge tables between machines |
| `Gcra` | shared rate limits |
| `Leases`, `Scheduler`, `WakeUp`, `Retry`, `Classify`, `Reconcile` | certificate jobs: leases, the runner, the retry policy |
| `Records`, `EntryCache`, `Alarms`, `Reads` | tunnel records under per-machine caches, alarms, batched reads |
| `Certificates` | a tunnel's certificate through binding, issuance and renewal |
| `Acme` | one issuance attempt and its cleanup |
| `WebSocket`, `WebSocketCodec`, `WebSocketAccept`, `WebSocketWriter`, `Bytes` | reading and writing WebSocket frames |
| `Sni`, `SniWire` | reading the server name from a TLS ClientHello |
| `Budgets`, `Reservation` | budgets for bytes held in memory |
| `Routing`, `EntryState` | a tunnel's routes, visitors and connection IDs on one machine |
| `Replay`, `Nonces`, `NonceRuns` | signed requests between machines |
| `Common` | what several of them need |

Where a promise does not hold of the code as it stands, the model keeps the code, shows an input or a run that breaks
the promise, and proves exactly when it holds:

- The rate limit's bound fails when a request's statements run with a clock behind a prune, even under a clock that
  never goes back: for every rate, the bound holds of all runs iff no statement runs more than one millisecond behind
  a prune (`Gcra.LateRunExceedsBudget`, `Gcra.BudgetHoldsIff`).
- A signed request can be accepted twice while it is fresh. cluster.rs:171-182 reads the clock and checks freshness
  before it takes the table's lock, so a request may come to the table after a sweep with a later clock; and a table
  full of fresh nonces forgets its oldest half. Under a clock that never goes back no request is accepted twice in any
  run iff neither happens (`NonceRuns.LateRunAcceptsReplay`, `NonceRuns.OverflowAcceptsReplay`,
  `NonceRuns.NoReplayIff`); for one table and request, `Nonces.AcceptedAgainIff`.
- The runner's next look can come after a job that waits: store.rs:1478-1481 says the jobs that are not due are listed
  soonest first, the query lists renewals before first issuance among those too, and cuts the list. With a waiting job
  listed, the next look is the earliest of all waiting jobs iff no first issuance waits for less time than every
  waiting renewal (`WakeUp.NextSkipsIssue`, `WakeUp.NextIsEarliestIff`). With only due jobs on a list that was cut, the
  runner looks again after a second, in time iff no job waits for less than that (`WakeUp.LooksInTimeIff`).
- A job is queued again at most once for a cut-off iff failed jobs are never queued again by a clock before it
  (`Leases.RequeuedTwiceRuns`, `Leases.RequeuedOnceIff`); the code says it happens once (store.rs:1427-1429).
- The reconcile queues a job again more than once, against service.rs:1309-1312, when the text recorded for an error
  reads as transient though the error was classified otherwise: an ACME problem of an unlisted type with status 403 is
  unknown, and its text is transient if its detail says "connection reset". For every set of errors that attempts may
  end in, a job is queued again at most once over all lives iff none of them is misread (`Reconcile.PromiseFails`,
  `Reconcile.RequeuedAtMostOnceIff`).
- Chains of retries end iff there is a base delay (`Retry.NoBaseNeverEnds`, `Retry.ChainsAreBoundedIff`).
- The tunnel index stays exact over a snapshot iff no bridge ID comes with two tunnels
  (`MeshTable.TwoTunnelsBreakIndex`, `MeshTable.LoadKeepsIndexExactIff`), which a sender's table guarantees.
- Signed messages are injective iff every part is shorter than 4 GiB (`Replay.OversizedPartCollides`,
  `Replay.MessageIsInjectiveIff`).

## Model

| member | source | states |
|---|---|---|
| `MeshTable.RemovalStaysExact` | crates/opentunnel-server/src/mesh.rs:256-268 | taking a bridge out of a peer's table and the index keeps the index exact |
| `MeshTable.AdditionStaysExact` | crates/opentunnel-server/src/mesh.rs:245-255 | adding an entry for a bridge not held to both keeps the index exact |
| `MeshTable.ExactIndexIsUnique` | crates/opentunnel-server/src/mesh.rs:217-279 | the peers' tables determine the exact index: two exact indexes are the same map |
| `MeshTable.LoadKeepsIndexExactIff` | crates/opentunnel-server/src/mesh.rs:1190-1229 | loading the entries of a snapshot keeps the index exact iff no bridge ID names two tunnels |
| `MeshTable.TwoTunnelsBreakIndex` | crates/opentunnel-server/src/mesh.rs:1190-1229 | two entries for one bridge and two tunnels leave the index inexact, whatever it held |
| `MeshTable.Remote.IndexAdd` | crates/opentunnel-server/src/mesh.rs:245-255 | the index gains exactly this machine and bridge under the tunnel |
| `MeshTable.Remote.IndexRemove` | crates/opentunnel-server/src/mesh.rs:256-268 | the index loses exactly this machine and bridge, and a tunnel left empty loses its key |
| `MeshTable.Remote.Clear` | crates/opentunnel-server/src/mesh.rs:270-279 | a peer's table becomes empty, its index entries go, other peers' stay |
| `MeshTable.TakenLinkKeepsWhatIsRight` | crates/opentunnel-server/src/mesh.rs:1109-1134 | a link of the same life that is taken leaves everything served as it was, and every lookup while the machine says the same of its leaving; one of another life leaves nothing of its machine served and all of the others |
| `MeshTable.Remote.Register` | crates/opentunnel-server/src/mesh.rs:1096-1153 | a link is taken iff it wins over the one registered; what is served before the snapshot is what was right, said of the tables alone; the index stays exact |
| `MeshTable.Remote.LinkDown` | crates/opentunnel-server/src/mesh.rs:1155-1177 | the end of the current link drops the peer, the end of a replaced one changes nothing; the index stays exact |
| `MeshTable.Remote.Apply` | crates/opentunnel-server/src/mesh.rs:1180-1292 | each frame's effect on the tables and when it ends the link; frames of a replaced link change nothing; the index stays exact on consistent frames |
| `MeshTable.Remote.Locate` | crates/opentunnel-server/src/mesh.rs:612-632 | None iff a scan of all peers finds no non-draining, non-excluded peer that claims the route, otherwise a newest attach |
| `MeshTable.Remote.Holders` | crates/opentunnel-server/src/mesh.rs:634-659 | exactly the non-draining peers of which a scan finds a bridge that claims one of the routes |
| `MeshLinks.BestLinkSurvives` | crates/opentunnel-server/src/mesh.rs:1096-1153 | over any order of links to one machine, the one with the newest life and then the lowest dialer survives |
| `MeshLinks.SurvivorIsOrderIndependent` | crates/opentunnel-server/src/mesh.rs:1096-1153 | two orders of the same links end with the same link, dialer and hello |
| `MeshLinks.LastOfBestSurvives` | crates/opentunnel-server/src/mesh.rs:1096-1153 | of any links to one machine none is better than the survivor, and of those as good it is the last: a machine that dials again takes its own place |
| `MeshLinks.LifeNeverGoesBack` | crates/opentunnel-server/src/mesh.rs:1096-1125 | over any registrations a machine's life never goes backwards |
| `MeshLinks.BothEndsKeepTheSameLink` | crates/opentunnel-server/src/mesh.rs:1096-1125 | both ends, each seeing the links in its own order and also ones to earlier lives, keep the same connection |
| `MeshLocal.ChunkTable` | crates/opentunnel-server/src/mesh.rs:563-599 | the chunks of a snapshot hold each entry of the table once, within the size limit unless one entry is larger, and none ends while the next entry would fit |
| `MeshLocal.Local.Attached` | crates/opentunnel-server/src/mesh.rs:506-526 | is the replication's attach step of this machine, once the connections with full queues have ended, so the replication theorems cover it |
| `MeshLocal.Local.Detached` | crates/opentunnel-server/src/mesh.rs:528-545 | is the replication's detach step after the full connections ended; for a bridge never announced nothing is sent |
| `MeshLocal.Local.PublishEvent` | crates/opentunnel-server/src/mesh.rs:547-553 | is the replication's event step after the full connections ended; the table stays the one of the current sequence number |
| `MeshLocal.Local.WriteNext` | crates/opentunnel-server/src/mesh.rs:1061-1092 | taking a frame off a link's queue leaves it in flight: the link's queue stays the end of what its connection carries |
| `MeshLocal.Local.Unsubscribe` | crates/opentunnel-server/src/mesh.rs:601-607 | is a run that ends the link's connection to the receiver, if it has one; the link and no other is gone |
| `MeshLocal.Local.StartLeaving` | crates/opentunnel-server/src/mesh.rs:556-558 | is the replication's drain step, before the lock is taken: the hellos of this machine say it leaves, its links carry what they did |
| `MeshLocal.Local.Leave` | crates/opentunnel-server/src/mesh.rs:556-560 | is the drain step, then the losses of the full connections, then the leaving event |
| `MeshLocal.Local.Subscribe` | crates/opentunnel-server/src/mesh.rs:563-599 | is the replication's connect step with a snapshot of the whole current table in well-sized chunks, as far as the queue holds it |
| `MeshLocal.SentIsBroadcast` | crates/opentunnel-server/src/mesh.rs:495-504 | sending on every link with room keeps links and live connections one for one, each queue the end of what its connection carries |
| `MeshLocal.EndedIsARun` | crates/opentunnel-server/src/mesh.rs:495-504 | giving up any set of links is a run of losses that changes nothing else |
| `MeshReplication.ClampOfIsSaneTime` | crates/opentunnel-server/src/mesh.rs:364-370 | what a receiver keeps of an entry differs at most in an attach time ahead of its clock, clamped by sane_time |
| `MeshReplication.SnapshotFollows` | crates/opentunnel-server/src/mesh.rs:563-599 | a chunked snapshot, whole or cut short, is a queue that leads a receiver to the sender's table |
| `MeshReplication.FrameKeepsMatch` | crates/opentunnel-server/src/mesh.rs:1180-1292 | applying the next frame of a queue keeps the receiver's table what the queue's history says |
| `MeshReplication.RunKeepsInv` | crates/opentunnel-server/src/mesh.rs:495-599 | in every run of starts, attaches, detaches, events, links, registrations, deliveries and losses, queues follow the senders' histories and peers match them |
| `MeshReplication.ReplicationRefinesHistory` | crates/opentunnel-server/src/mesh.rs:1180-1292 | in every run, what is held for a peer is that life's table at some sequence number: part of it while a snapshot is open, nothing once it is leaving, else exactly it, attach times clamped |
| `MeshReplication.QueuedFramesCatchUp` | crates/opentunnel-server/src/mesh.rs:495-599 | applying the frames still queued on a live link yields exactly the sender's current table, unless the snapshot did not fit the queue, which the receiver can tell |
| `MeshReplication.DeliveredFramesAreConsistent` | crates/opentunnel-server/src/mesh.rs:1180-1292 | in every run, the frames a link delivers keep the receiver's index exact |
| `MeshReplication.AllAppliedIff` | crates/opentunnel-server/src/mesh.rs:1180-1292 | whatever frames arrive, all are applied iff snapshots are of the peer's epoch, parts come inside one and attaches outside, deltas follow in sequence, and no second hello comes: anything else ends the link |
| `MeshCatchUp.NewLinkBringsTable` | crates/opentunnel-server/src/mesh.rs:563-599 | in every run, a new link that registers, with a snapshot that fits its queue, gives the receiver exactly the sender's current table at its sequence number once its frames are delivered, under whatever clocks |
| `MeshCatchUp.ReplacementSurvives` | crates/opentunnel-server/src/mesh.rs:1096-1177 | the end of a link that was replaced, however late, leaves its replacement's table alone; the end of the current one drops it |
| `MeshCatchUp.RestartBeginsAnew` | crates/opentunnel-server/src/mesh.rs:425-449 | a machine that starts again has an empty table and is not leaving, and its earlier links carry nothing new |
| `MeshCatchUp.DeliveriesApply` | crates/opentunnel-server/src/mesh.rs:1180-1292 | delivering all that a link carries is applying its frames one after the other to the peer |
| `MeshLeaving.RunKeepsTold` | crates/opentunnel-server/src/mesh.rs:555-599 | in every run after leaving, each live link said so in its hello, still carries the event, or its peer knows |
| `MeshLeaving.LeavingReachesPeers` | crates/opentunnel-server/src/mesh.rs:555-561 | whatever steps come before, between setting the flag and the event, and after, and until the machine starts again: a peer that has applied what its live link carries knows that it leaves and holds none of its bridges |
| `MeshLeaving.OnlyLeavingDrains` | crates/opentunnel-server/src/mesh.rs:1266-1285 | in every run, a machine that neither said so in a hello nor sent the leaving event is never taken to be leaving, whatever other events it sends |
| `MeshReceiver.Follow` | crates/opentunnel-server/src/mesh.rs:1096-1292 | each step of a run, acted on by the receiver, gives the run's peers and keeps the index exact |
| `MeshReceiver.Receive` | crates/opentunnel-server/src/mesh.rs:1096-1292 | after every run of the replication the receiver's tables are the run's and its index is exact |
| `Gcra.RateLimits.TakeRate` | crates/opentunnel-server/src/store.rs:1163-1212 | alone: allowed iff the request conforms; a refusal changes nothing and its retry time is the exact earliest time a retry succeeds |
| `Gcra.RateLimits.Update` | crates/opentunnel-server/src/store.rs:1177-1191 | the row moves on by an interval iff the request is within the budget |
| `Gcra.RateLimits.Insert` | crates/opentunnel-server/src/store.rs:1192-1202 | a key not seen before gets a row, and one that has a row keeps it |
| `Gcra.RateLimits.PruneRateLimits` | crates/opentunnel-server/src/store.rs:1214-1226 | only rows whose time has passed go, and the count is theirs |
| `Gcra.PruningIsInvisible` | crates/opentunnel-server/src/store.rs:1214-1226 | over any run of requests and prunes, the verdicts are those without the prunes |
| `Gcra.PruneIsInvisibleIff` | crates/opentunnel-server/src/store.rs:1214-1226 | a prune is invisible to a request, whatever it pruned, iff the request's clock is at most a millisecond behind it |
| `Gcra.RunKeepsInv` | crates/opentunnel-server/src/store.rs:1163-1226 | in every interleaving of update, insert, select and prune, a key's row or the latest prune is as many intervals ahead as requests were allowed |
| `Gcra.AllAllowedIff` | crates/opentunnel-server/src/limits.rs:174-183 | a key not seen before: all requests of any list, with prunes between, are allowed iff from each to each later one all but the burst fit the time between at period / count (at least a millisecond) each; a count of 0 is no limit |
| `Gcra.SteadyClientIsAllowed` | crates/opentunnel-server/src/limits.rs:174-183 | whoever asks every period / count milliseconds is always allowed |
| `Gcra.BurstIsAllowedIff` | crates/opentunnel-server/src/limits.rs:174-183 | so many requests at one instant are all allowed iff they are at most the burst, or one |
| `Gcra.StatementsDoSo` | crates/opentunnel-server/src/store.rs:1177-1226 | the update, the insert and the prune do to a row what one request alone and a prune do; a refused request leaves it |
| `Gcra.RefusedDoesNotConform` | crates/opentunnel-server/src/store.rs:1175-1212 | in every interleaving without a prune of its key, a request is only refused if it does not conform: losing the insert to another is tried again |
| `Gcra.AnsweredAfterFive` | crates/opentunnel-server/src/store.rs:1175-1212 | whatever others do, a request has its answer after five statements at most |
| `Gcra.AllowedWithinBudget` | crates/opentunnel-server/src/limits.rs:174-183 | in every interleaving, requests allowed for a key in any window are at most the burst and one for each whole period / count milliseconds of it |
| `Gcra.AllowedPerPeriod` | crates/opentunnel-server/src/limits.rs:174-183 | in any window of the period: at most the burst and the count, and what rounding period / count down adds |
| `Gcra.LateRunExceedsBudget` | crates/opentunnel-server/src/store.rs:1163-1226 | for every rate, a run with statements two milliseconds behind a prune allows twice the burst in less than as many intervals |
| `Gcra.BudgetHoldsIff` | crates/opentunnel-server/src/store.rs:1163-1226 | under a clock that never goes back, the bound holds of all runs iff statements run at most one millisecond behind a prune |
| `Leases.LeasesAreOnPendingJobs` | crates/opentunnel-server/src/store.rs:1250-1386 | in every interleaving a lease has an owner and an end, and is on a pending job |
| `Leases.FinalIsFinal` | crates/opentunnel-server/src/store.rs:1332-1356 | a job that is done or abandoned never changes again in any field |
| `Leases.KindNeverChanges` | crates/opentunnel-server/src/store.rs:1026-1052 | over every run a job keeps its kind |
| `Leases.LeaseIsLostIff` | crates/opentunnel-server/src/store.rs:1250-1455 | a lease is lost iff its holder gives it up, or another claims or requeues the job with a clock past its end |
| `Leases.ClaimUnderLease` | crates/opentunnel-server/src/store.rs:1250-1270 | at or before a lease's end a claim succeeds iff it is the holder's and the job is due |
| `Leases.HolderKeepsLease` | crates/opentunnel-server/src/store.rs:1250-1330 | over every run that does not end its lease the holder keeps it, and no other owner's claim wins |
| `Leases.LeaseLasts` | crates/opentunnel-server/src/store.rs:1250-1314 | from a claim and from each extension on, over every run in which no other clock is more than 120000 ms ahead of it and the holder gives nothing up, it holds the job, no other server gets it and nothing queues it again |
| `Leases.HolderActsIff` | crates/opentunnel-server/src/store.rs:1300-1386 | in every run the holder of a job and no one else may extend, finish or retry it, and a job is added iff there is none |
| `Leases.ClaimedIff` | crates/opentunnel-server/src/store.rs:1250-1476 | from the statement that last changed a job on, whoever may claim it and when is what that statement says: two minutes after a claim or an extension for others, at the time a retry set, at once after a requeue or a release, never once finished |
| `Leases.StandsAs` | crates/opentunnel-server/src/store.rs:1332-1476 | a job's attempts, when it was queued and when it last changed are what the last statement says: leases leave them alone, a retry counts attempts, queueing again starts afresh |
| `Leases.FinishedIsOverIff` | crates/opentunnel-server/src/store.rs:1332-1476 | a finished job can be queued again iff it failed |
| `Leases.RequeuedIsAsNew` | crates/opentunnel-server/src/store.rs:1457-1476 | a failed job queued again is the job added then for the first time |
| `Leases.TakenOverIsLockedOut` | crates/opentunnel-server/src/store.rs:1300-1386 | until it claims again, an owner without the lease can neither extend, finish nor retry: the table does not change |
| `Leases.OneOutcomePerClaim` | crates/opentunnel-server/src/store.rs:1332-1386 | over every run, finishes and retries recorded are at most the claims |
| `Leases.RequeuedTwiceRuns` | crates/opentunnel-server/src/store.rs:1427-1476 | a job failed and queued again by a clock before the cut-off is queued again for it a second time |
| `Leases.RequeuedOnceIff` | crates/opentunnel-server/src/store.rs:1427-1476 | a job is queued again at most once for a cut-off in all runs iff failed jobs are only queued again by clocks from the cut-off on |
| `Leases.ReadyIffClaimable` | crates/opentunnel-server/src/store.rs:1482-1509 | the schedule counts a pending job as ready at a time iff a claim then would take it |
| `Leases.RenewalsComeFirst` | crates/opentunnel-server/src/store.rs:1478-1509 | whatever the limit, a first issuance is only listed after every renewal that could be claimed |
| `Leases.JobStore.AddJob` | crates/opentunnel-server/src/store.rs:1026-1052 | a job is added iff there is none for the ID |
| `Leases.JobStore.ClaimJob` | crates/opentunnel-server/src/store.rs:1250-1286 | with any statements of others between its update and its read, it returns the job iff the claim won and the owner still holds it when it is read, and then as it is there |
| `Leases.JobStore.ExtendLease` | crates/opentunnel-server/src/store.rs:1300-1314 | extends iff the owner holds the pending job |
| `Leases.JobStore.ReleaseLeases` | crates/opentunnel-server/src/store.rs:1317-1329 | frees every job of the owner and no other |
| `Leases.JobStore.FinishJob` | crates/opentunnel-server/src/store.rs:1332-1356 | records the status and frees the job iff the owner holds it |
| `Leases.JobStore.RetryJob` | crates/opentunnel-server/src/store.rs:1359-1386 | reschedules and frees the job iff the owner holds it |
| `Leases.JobStore.RequeueJobQueuedBefore` | crates/opentunnel-server/src/store.rs:1430-1455 | queues the job again iff it was queued before the cut-off, is not final and not leased |
| `Leases.JobStore.RequeueFailedJob` | crates/opentunnel-server/src/store.rs:1459-1476 | queues the job again iff it failed |
| `Scheduler.Runner.Reserve` | crates/opentunnel-server/src/jobs.rs:213-239 | a slot is given iff the job may start: not running here, first issuance only while the CA works and one slot is left, renewals while it works or one at a time |
| `Scheduler.Runner.TryStart` | crates/opentunnel-server/src/jobs.rs:213-256 | a job is claimed iff it may start, started iff the claim is ours, and its slot given back otherwise; other jobs only end meanwhile |
| `Scheduler.DueJobs` | crates/opentunnel-server/src/jobs.rs:210-213 | the due jobs are the first of the list, all of them |
| `Scheduler.Runner.StartListed` | crates/opentunnel-server/src/jobs.rs:209-268 | each due job in turn, with what runs at that moment: its fate is the one the limits and its claim call for; the pass only stops early when full or unanswered |
| `Scheduler.Runner.StartDue` | crates/opentunnel-server/src/jobs.rs:186-270 | with jobs ending at every wait: the first due job is started, or found to be another's, if it may start; no first issuance is started before every due renewal listed had its turn; the next look is later than now and no later than the cool-down's end |
| `Scheduler.RenewalFindsSlot` | crates/opentunnel-server/src/jobs.rs:213-233 | with two slots or more, a renewal may start whenever no other renewal runs, even while the CA cools down |
| `Scheduler.IssuanceFillsSlots` | crates/opentunnel-server/src/jobs.rs:320-328 | while no renewal runs and the CA works, first issuance fills all slots but one, or the only one |
| `Scheduler.RenewalsWentFirst` | crates/opentunnel-server/src/jobs.rs:209-236 | in the schedule's order, a first issuance that started came after every due renewal, each of which had its turn |
| `WakeUp.NextIsEarliestIff` | crates/opentunnel-server/src/jobs.rs:198-204 | with a waiting job listed, the next look is the earliest time any pending job may be taken, listed or cut off, iff no first issuance waits for less time than every renewal that waits |
| `WakeUp.LooksInTimeIff` | crates/opentunnel-server/src/jobs.rs:198-204 | for every schedule: no next look iff the list is not cut and holds no waiting job, and then nothing waits; with a waiting job listed, in time iff no issuance waits less than every renewal; with only due jobs on a cut list, in time iff no job waits for less than a second, and never more than a second late |
| `WakeUp.NothingWaits` | crates/opentunnel-server/src/jobs.rs:198-204 | a list that is not cut and has no waiting job leaves none out |
| `WakeUp.NextSkipsIssue` | crates/opentunnel-server/src/store.rs:1489-1495 | for every limit and all times, an issuance ready before a renewal: the runner is told of the renewal's time |
| `Retry.WaitIsBounded` | crates/opentunnel-server/src/retry.rs:148-155 | a wait is between half the capped delay and all of it, at most an hour |
| `Retry.FirstDelay` | crates/opentunnel-server/src/retry.rs:148-155 | the first delay is the base, from a millisecond to an hour |
| `Retry.JitterSpreads` | crates/opentunnel-server/src/retry.rs:148-155 | the jitter spreads waits over the second half: none of it at 0, all at 1, and more the larger it is |
| `Retry.RetryIsEarliest` | crates/opentunnel-server/src/retry.rs:159-181 | a retry is at the earliest time that keeps the backoff and the server's Retry-After up to an hour; there is none for a permanent error, for an unknown one after three attempts, and for a transient one iff that time is over a day after the job was queued |
| `Retry.DelayDoubles` | crates/opentunnel-server/src/retry.rs:148-155 | from one attempt to the next the delay doubles up to an hour, with saturation and at any attempt count |
| `Retry.ChainFitsWindow` | crates/opentunnel-server/src/retry.rs:159-181 | the waits of a chain of failures of any classes that is longer than two fit the one-day window |
| `Retry.ChainEnds` | crates/opentunnel-server/src/retry.rs:159-181 | with a base delay every chain of attempts ends after at most 70 retries |
| `Retry.NoBaseNeverEnds` | crates/opentunnel-server/src/retry.rs:148-181 | without a base delay, failures at one instant chain to any length |
| `Retry.ChainsAreBoundedIff` | crates/opentunnel-server/src/retry.rs:148-181 | chains are bounded iff the base delay is not zero |
| `Retry.TransientGivesUpLate` | crates/opentunnel-server/src/service.rs:1327-1329 | a transient failure only gives up more than 23 hours after the job was queued, so never early |
| `Retry.RequeuedWasNotTransient` | crates/opentunnel-server/src/service.rs:1327-1336 | a job that gave up and is requeued for it had failed as permanent, or as unknown after three attempts |
| `Classify.AnsweredRequestIsRetried` | crates/opentunnel-server/src/retry.rs:44-89 | a request answered with 408, 429 or 5xx is tried again for a day, any other status three times |
| `Classify.UntypedErrorIsItsText` | crates/opentunnel-server/src/retry.rs:44-68 | without a deciding cause an error is what its text says; a cause that says it passes decides at once |
| `Classify.ListedProblemIsPermanent` | crates/opentunnel-server/src/retry.rs:70-145 | an ACME problem of a listed permanent type is permanent by its type and by its recorded text, whatever its status, detail and body |
| `Classify.ListedProblemPasses` | crates/opentunnel-server/src/retry.rs:44-81 | an ACME problem of a listed transient type is transient with what the server asked for, and a request that failed on the way is, whatever their texts say |
| `Classify.StatusIsRead` | crates/opentunnel-server/src/retry.rs:129-143 | a recorded text without a listed part is classified by the three digits after its mark |
| `Classify.OnlyTypedErrorsAreMisread` | crates/opentunnel-server/src/retry.rs:44-145 | an error read as transient though it was not has a typed cause that decided before any other and did not say transient |
| `Classify.UnknownIsMisread` | crates/opentunnel-server/src/acme.rs:649-668 | an ACME problem of an unlisted type and a status that says nothing, whose detail speaks of a connection reset, is unknown by its type and transient by its recorded text |
| `Reconcile.PassRequeuesIff` | crates/opentunnel-server/src/service.rs:1327-1336 | a pass queues a job again iff it gave up within half a day on what its recorded text calls transient, and changes no other |
| `Reconcile.RequeuedAtMostOnce` | crates/opentunnel-server/src/service.rs:1309-1312 | over the whole life of a job left in any state, the reconcile queues it again at most once, if no error of that life is misread |
| `Reconcile.RoundRequeues` | crates/opentunnel-server/src/service.rs:1313-1336 | a misread error, met until the job gives up (at once if permanent, after three attempts if unknown), is queued again from the start |
| `Reconcile.MisreadIsRequeuedTwice` | crates/opentunnel-server/src/service.rs:1327-1336 | every misread error, permanent or unknown, has a life in which the reconcile queues the job again twice |
| `Reconcile.RequeuedAtMostOnceIff` | crates/opentunnel-server/src/service.rs:1309-1336 | for every set of errors attempts may end in, at most once over all lives iff none of them is misread |
| `Reconcile.PromiseFails` | crates/opentunnel-server/src/service.rs:1309-1336 | the two classifiers as they are: a problem of type x answered with 403 and the detail connection reset is unknown, is misread, and is queued again twice |
| `Records.RunKeepsInv` | crates/opentunnel-server/src/service.rs:764-784 | in every run of reads, writes, late applications, answers, imports and invalidations, copies are true and the history is a chain of changes |
| `Records.NoLostUpdate` | crates/opentunnel-server/src/store.rs:744-786 | whatever machines cached and however late reads and writes arrive, the stored record is all updates and imports in turn |
| `Records.CachedCopiesAreTrue` | crates/opentunnel-server/src/service.rs:515-537 | a cached record and revision always equal what was stored at that revision |
| `Records.SavesReplaceWhatWasRead` | crates/opentunnel-server/src/service.rs:764-784 | a save that succeeded, answered or timed out, replaced exactly the record its writer had read with the writer's change of it |
| `Records.SavesAreExclusive` | crates/opentunnel-server/src/store.rs:744-786 | no two saves succeed on one revision and none applies twice |
| `Records.ImportsKeepLocalRecords` | crates/opentunnel-server/src/store.rs:935-996 | an import that is not forced never replaced a record written here |
| `Records.UpdateTakesEffect` | crates/opentunnel-server/src/service.rs:764-784 | a change made on the latest record, with nothing put into the row before the write arrives, takes effect and the writer has it, whatever others read and write meanwhile |
| `Records.ConflictReadsAgain` | crates/opentunnel-server/src/service.rs:764-784 | after a conflict the row is as it was and the machine cannot write until it has read again |
| `Records.UnreadWritesNothing` | crates/opentunnel-server/src/service.rs:515-537 | a machine that has not read the row, or was told to forget it, writes nothing |
| `Records.ImportTakesEffectIff` | crates/opentunnel-server/src/store.rs:935-996 | an import's record is the row's afterwards iff there was none, it was not written here, the import is forced, or it is the same |
| `EntryCache.Row.SaveTunnel` | crates/opentunnel-server/src/store.rs:744-786 | a save succeeds iff the revision is the row's, adds exactly its record, and otherwise changes nothing |
| `EntryCache.Row.TryImport` | crates/opentunnel-server/src/store.rs:935-996 | each outcome of an import, exactly when it occurs and what it leaves in the row |
| `EntryCache.Entry.Lock` | crates/opentunnel-server/src/service.rs:515-537 | the first use reads the row, later ones keep the copy |
| `EntryCache.Entry.Refresh` | crates/opentunnel-server/src/service.rs:668-694 | the copy becomes the current row, or stays when the database does not answer |
| `EntryCache.Entry.Invalidate` | crates/opentunnel-server/src/service.rs:745-751 | the copy is forgotten |
| `EntryCache.Entry.Save` | crates/opentunnel-server/src/service.rs:764-784 | an answered write succeeds iff the copy's revision is the row's, and otherwise unloads the entry; one that times out leaves the copy as it was and still true, and is in the row iff it was applied at its revision |
| `Alarms.Rows.SetAlarm` | crates/opentunnel-server/src/store.rs:827-838 | a row's alarm is set or unset, no other row's; without a row nothing happens |
| `Alarms.Rows.Clear` | crates/opentunnel-server/src/store.rs:865-876 | an alarm is cleared iff it has the time that was read |
| `Alarms.Rows.TakeDueAlarmsAndNext` | crates/opentunnel-server/src/store.rs:847-880 | takes only due alarms and all of them unless more than 500, each once, and returns exactly when the earliest left is due |
| `Alarms.AlarmsAreConserved` | crates/opentunnel-server/src/store.rs:827-880 | however callers interleave, each alarm set is taken by one caller, unset, set anew or still there |
| `Alarms.TakenWasDue` | crates/opentunnel-server/src/store.rs:847-880 | in every run a caller only takes an alarm that is due by the clock it read, and nothing else |
| `Alarms.DueAlarmIsTaken` | crates/opentunnel-server/src/store.rs:847-880 | an alarm read as due is gone once its reader clears it, whoever took it |
| `Alarms.NewAlarmIsKept` | crates/opentunnel-server/src/store.rs:865-876 | an alarm set for later after a caller read the row is not cleared |
| `Reads.Queue.Ask` | crates/opentunnel-server/src/store.rs:634-650 | a caller is queued, and a worker starts unless eight run, so a waiter always has one |
| `Reads.Queue.NextBatch` | crates/opentunnel-server/src/store.rs:653-664 | a worker takes the longest waiting up to 200, and ends only when none waits |
| `Reads.WaitersHaveWorkers` | crates/opentunnel-server/src/store.rs:634-686 | in every run the count is the live workers, at most eight, and a waiting read has one |
| `Reads.EachCallerIsAnsweredOnce` | crates/opentunnel-server/src/store.rs:634-740 | in every run each caller is in exactly one place, and an answer is its own row as it was at some moment after it asked, also when rows of one batch are read at different moments |
| `Reads.AnswersStay` | crates/opentunnel-server/src/store.rs:653-686 | an answer once given never changes, over every run |
| `Reads.WaiterIsServed` | crates/opentunnel-server/src/store.rs:653-740 | in every run, a worker between batches answers each of the 200 that waited longest with its own row, as the table is when it is read |
| `Reads.WorkerEndsOrTells` | crates/opentunnel-server/src/store.rs:653-686 | a worker that finds nothing waiting ends; one whose batch could not be read tells each of its callers |
| `Certificates.IdNamesCertificate` | crates/opentunnel-server/src/service.rs:923-956 | in every record reached, the certificate ID names the stored certificate and the renewal is for another |
| `Certificates.UnwantedUpdateVanishes` | crates/opentunnel-server/src/service.rs:1035-1107 | wherever in a run an update comes for an ID that is neither current nor the renewal, the run ends as without it |
| `Certificates.SupersededUpdatesVanish` | crates/opentunnel-server/src/service.rs:1035-1107 | once an ID was used and is neither, all its updates may be left out of every run to come, whatever else happens and whatever is undone |
| `Certificates.RenewalSwapsWhenReady` | crates/opentunnel-server/src/service.rs:1047-1096 | an update of the renewal leaves the serving certificate until Ready swaps certificate and ID at once and clears the renewal |
| `Certificates.BindsIff` | crates/opentunnel-server/src/service.rs:894-936 | a key is bound iff the tunnel has no certificate or finished one for another key, and then issuance is under way and no renewal is; otherwise nothing changes |
| `Certificates.NewsIsShown` | crates/opentunnel-server/src/service.rs:1038-1107 | news of the current certificate is what the tunnel shows; an update is wanted iff it is of that one or of the renewal |
| `Certificates.IssuanceServes` | crates/opentunnel-server/src/service.rs:867-1107 | a key bound to a tunnel without a certificate is what it serves with once issued, whatever else clients bind or hear meanwhile |
| `Certificates.RenewalStartsIff` | crates/opentunnel-server/src/service.rs:1182-1215 | in every run, a renewal of a serving tunnel starts iff its certificate ends within 30 days and none was started in the last day |
| `Certificates.RenewalReplaces` | crates/opentunnel-server/src/service.rs:1047-1234 | a renewal that is due and that nothing ends replaces the certificate when ready, and for a day no other takes its place |
| `Certificates.UndoIsExact` | crates/opentunnel-server/src/service.rs:1225-1232 | undoing a renewal whose job could not be queued restores the record |
| `Certificates.RequeuedIff` | crates/opentunnel-server/src/service.rs:1355-1375 | a failed certificate is shown as issuing again iff it is the current one |
| `Certificates.RemovedIsGone` | crates/opentunnel-server/src/service.rs:960-985 | a removed tunnel stays gone whatever comes for it; created anew it has nothing of what it was |
| `Certificates.ServesThroughoutIff` | crates/opentunnel-server/src/service.rs:867-1234 | a tunnel serves at every point of a run iff no operation of it removes the tunnel, binds another key or brings other news than ready for the current certificate; renewals that start, stall, fail, are undone or succeed never interrupt it |
| `Certificates.ReplacedOnlyByRenewal` | crates/opentunnel-server/src/service.rs:1047-1074 | over such a run the certificate that serves at the end is the first one or one that was the renewal when it became ready |
| `Acme.Wanted` | crates/opentunnel-server/src/acme.rs:282-295 | exactly the records the authorizations ask for, each name and value once |
| `Acme.WildcardSharesRecord` | crates/opentunnel-server/src/acme.rs:282-288 | a hostname and its wildcard have one record name |
| `Acme.PlaceOrder` | crates/opentunnel-server/src/acme.rs:449-528 | within two orders: each authorization of the order returned was heard to be valid or to wait for the answer returned for its identifier; whatever was found stuck is final by then |
| `Acme.ReadOrder` | crates/opentunnel-server/src/acme.rs:466-521 | an order is usable iff each authorization heard is valid or waits for an answer; the stuck ones are exactly those whose challenge somebody answered |
| `Acme.Deactivate` | crates/opentunnel-server/src/acme.rs:532-551 | success means a final state; failure that the request failed and the authorization was then heard to be pending, or not heard |
| `Acme.DeactivateAll` | crates/opentunnel-server/src/acme.rs:522-525 | success means all are in a final state, failure that a request failed |
| `Acme.Attempt.CreateRecords` | crates/opentunnel-server/src/acme.rs:301-308 | the records created are known, in order, up to the first that fails |
| `Acme.Attempt.AnswerAll` | crates/opentunnel-server/src/acme.rs:310-315 | at whichever answer it stops, every authorization that may have been answered is unsettled |
| `Acme.Attempt.Sweep` | crates/opentunnel-server/src/acme.rs:318-350 | succeeds iff every request was answered and no authorization was heard to have failed; those taken off were heard to be valid |
| `Acme.Attempt.Poll` | crates/opentunnel-server/src/acme.rs:316-368 | success means each was heard to be valid and none to have failed; failure that it was stopped, a request or an authorization failed, or one was still pending at the 61st look |
| `Acme.Attempt.RunAttempt` | crates/opentunnel-server/src/acme.rs:296-415 | no challenge is answered before every record is published; success means each authorization was answered and then heard to be valid, and the order issued; every failure has its reason; wherever it ends, what was answered is unsettled or final |
| `Acme.AwaitOrder` | crates/opentunnel-server/src/acme.rs:369-396 | reads the order until it leaves a state, 30 times more at most |
| `Acme.FinishOrder` | crates/opentunnel-server/src/acme.rs:369-409 | the order is finalized once if heard to be ready and not otherwise; with every request answered it succeeds iff the order ends up issued with a certificate for the right key |
| `Acme.Dns.DeleteTxt` | crates/opentunnel-server/src/dns.rs:255-295 | a deletion is asked for, and fails or not; it may only be asked for when every authorization answered is final |
| `Acme.Attempt.CleanUp` | crates/opentunnel-server/src/acme.rs:416-437 | deletion is asked for of each record, and of no other, only when every authorization answered is final; it is not asked for only when a deactivation failed |
| `Acme.Issue` | crates/opentunnel-server/src/acme.rs:267-442 | success means each authorization of the order, and each one answered, was heard to be valid; challenge records are asked to be deleted only when nothing answered can still be checked, and always on success |
| `Bytes.BigEndianRoundTrip` | crates/opentunnel-server/src/websocket.rs:176-191 | numbers written in network order are read back |
| `Bytes.NetworkOrder` | crates/opentunnel-server/src/websocket.rs:177-194 | the most significant byte comes first |
| `Bytes.WideXorIsBytewise` | crates/opentunnel-server/src/websocket.rs:219-226 | exclusive or of eight bytes as one word, in either byte order, is that of each byte |
| `WebSocket.MaskIsItsOwnInverse` | crates/opentunnel-server/src/websocket.rs:219-230 | masking twice with one mask gives the data back |
| `WebSocket.Unmask` | crates/opentunnel-server/src/websocket.rs:219-230 | the in-place, eight bytes wide unmasking equals bytewise exclusive or with the mask byte of each place |
| `WebSocket.FrameIsStable` | crates/opentunnel-server/src/websocket.rs:164-216 | a frame or error once found is the same whatever follows |
| `WebSocket.AssemblyStaysWithinLimit` | crates/opentunnel-server/src/websocket.rs:109-161 | a partial message never exceeds the limit |
| `WebSocket.ParseIsStable` | crates/opentunnel-server/src/websocket.rs:109-216 | bytes that come later continue where the earlier ones left off |
| `WebSocket.Reader.NextFrame` | crates/opentunnel-server/src/websocket.rs:164-216 | the first frame of what is buffered, taken off it, or how many bytes are wanted |
| `WebSocket.Reader.Next` | crates/opentunnel-server/src/websocket.rs:94-106 | the next message of the whole stream, however it arrives |
| `WebSocket.Reader.SetMaxMessage` | crates/opentunnel-server/src/websocket.rs:73-76 | only the limit changes: what was read and is not yet parsed stays |
| `WebSocket.Reader.ReadAll` | crates/opentunnel-server/src/websocket.rs:73-106 | all messages and the end or error are those of the joined bytes, under a limit that may change before each message |
| `WebSocket.OneLimit` | crates/opentunnel-server/src/websocket.rs:73-106 | a limit that is the same before each message is the plain reading under it |
| `WebSocket.ReadingIsChunkingIndependent` | crates/opentunnel-server/src/websocket.rs:73-216 | two ways of splitting one stream give the same messages and the same end, whatever the limit is before each message |
| `WebSocketCodec.FrameRoundTrip` | crates/opentunnel-server/src/websocket.rs:164-216 | a client's frame is read back, with any mask, any length form that fits and anything after it |
| `WebSocketCodec.ControlRoundTrip` | crates/opentunnel-server/src/websocket.rs:114-134 | a ping, pong or close is read as it was sent and leaves a message in progress alone |
| `WebSocketCodec.BytesDecodeAsFrames` | crates/opentunnel-server/src/websocket.rs:94-216 | reading the bytes of frames gives the messages those frames make |
| `WebSocketCodec.FragmentsRoundTrip` | crates/opentunnel-server/src/websocket.rs:109-161 | a message in any fragments with control frames between them is assembled, after those control messages |
| `WebSocketCodec.ConversationRoundTrip` | crates/opentunnel-server/src/websocket.rs:94-230 | every list of messages in every legal fragmentation, split into any reads, is heard in order |
| `WebSocketAccept.AcceptedFrameIsWire` | crates/opentunnel-server/src/websocket.rs:164-216 | a frame that is accepted is one a client may send: masked, without reserved bits, within the limit, with the length it says |
| `WebSocketAccept.TooLargeIff` | crates/opentunnel-server/src/websocket.rs:164-200 | a frame is refused as too large iff a larger limit takes it; other errors no limit cures |
| `WebSocketAccept.AcceptedControl` | crates/opentunnel-server/src/websocket.rs:113-132 | a control frame that is accepted is whole, short, of a known kind, and closes with a code and UTF-8 or with nothing |
| `WebSocketAccept.AcceptedData` | crates/opentunnel-server/src/websocket.rs:134-160 | a data frame is accepted iff it begins a message when none is in progress or continues one, within the limit, text as UTF-8 |
| `WebSocketAccept.ReadToTheEndIff` | crates/opentunnel-server/src/websocket.rs:94-216 | a stream is read to its end without an error and with nothing unfinished iff a client may send it: everything else is refused |
| `WebSocketWriter.ServerFrameRoundTrip` | crates/opentunnel-server/src/websocket.rs:274-289 | a frame the server writes is one final unmasked frame with the shortest length, read back whatever follows |
| `WebSocketWriter.ShortestIsShortest` | crates/opentunnel-server/src/websocket.rs:274-289 | no other form of a length that fits is as short as the one written |
| `WebSocketWriter.BoundaryIff` | crates/opentunnel-server/src/websocket.rs:255-263 | a place in UTF-8 text counts as a boundary iff it is between two of its characters or at an end |
| `WebSocketWriter.Writer.WriteFrame` | crates/opentunnel-server/src/websocket.rs:274-305 | however few bytes each write takes, the stream gets exactly the frame, or a part of it and an error |
| `WebSocketWriter.Writer.SendText` | crates/opentunnel-server/src/websocket.rs:242-244 | a text message is one text frame |
| `WebSocketWriter.Writer.SendBinary` | crates/opentunnel-server/src/websocket.rs:246-248 | a binary message is one binary frame |
| `WebSocketWriter.Writer.SendClose` | crates/opentunnel-server/src/websocket.rs:255-267 | a close frame carries the code and the longest cut of the reason that fits and ends between characters |
| `Sni.ParseHelloBody` | crates/opentunnel-server/src/sni.rs:76-152 | walking offsets finds what the nested lists of the hello say, with each error case; every index is in bounds |
| `Sni.FindHostName` | crates/opentunnel-server/src/sni.rs:117-133 | the loop over the name list finds its first host name |
| `Sni.OneExtension` | crates/opentunnel-server/src/sni.rs:115-140 | one extension changes the server name or the protocol as its list says, and nothing else does |
| `Sni.WalkExtensions` | crates/opentunnel-server/src/sni.rs:104-152 | the loop over the extensions finds what they say one after the other, or that one is cut short |
| `Sni.HelloParser.Parse` | crates/opentunnel-server/src/sni.rs:40-73 | fed growing prefixes that were incomplete, the parser says what a fresh look at all bytes says |
| `SniWire.ReadingIsStable` | crates/opentunnel-server/src/sni.rs:24-73 | Complete and Invalid are unchanged by more bytes |
| `SniWire.Feed` | crates/opentunnel-server/src/sni.rs:28-73 | a hello that trickles in, in any pieces, is read as all its bytes at once |
| `SniWire.BoundariesDoNotMatter` | crates/opentunnel-server/src/sni.rs:40-73 | the result depends on the joined handshake bytes, not on where records end |
| `SniWire.HelloBodyIsRead` | crates/opentunnel-server/src/sni.rs:76-152 | a hello says what its extensions say, whatever its other fields hold |
| `SniWire.HelloRoundTrip` | crates/opentunnel-server/src/sni.rs:24-152 | a hello in any records and pieces gives the first host name of its last server name list with one, and the first protocol of its last protocol list |
| `Budgets.BudgetsAreConserved` | crates/opentunnel-server/src/bridge.rs:56-105 | in every run, free permits and permits held make up the budget at every level |
| `Budgets.EndedHoldsNothing` | crates/opentunnel-server/src/bridge.rs:467-585 | a reservation that ends gives every level exactly what it had of it, and others keep theirs |
| `Budgets.VisitorsDataIsGone` | crates/opentunnel-server/src/bridge.rs:467-639 | once a visitor's task ended, after a reset or on its own, no data is held for its connection in any run until it opens again: a reservation the reader still waits with gives all back as soon as it is complete |
| `Budgets.SilentStaysFree` | crates/opentunnel-server/src/bridge.rs:467-639 | once no reservation waits for it either, the connection's whole budget is free and stays so until it opens again |
| `Budgets.TriedIsAllOrNone` | crates/opentunnel-server/src/bridge.rs:506-519 | alone, the three tries of a reservation take a share of all three levels iff all have room, and otherwise of none |
| `Budgets.PortionsAddUp` | crates/opentunnel-server/src/bridge.rs:519-562 | permits that come to a waiting reservation in portions are those that come at once |
| `Budgets.WaitedIsTried` | crates/opentunnel-server/src/bridge.rs:506-562 | all a reservation needs of a level, given while it waits, is what a try takes |
| `Budgets.OpenUntilClosed` | crates/opentunnel-server/src/bridge.rs:467-497 | data may ask for a share from when its connection opens until it is reset or its visitor's task ends |
| `Reservation.TryHold` | crates/opentunnel-server/src/bridge.rs:506-519 | all three budgets or none, and exactly when all have room |
| `Reservation.TryHoldInRun` | crates/opentunnel-server/src/bridge.rs:506-519 | on the levels of a run of the budgets it does what the run's three tries do |
| `Reservation.WaitToHold` | crates/opentunnel-server/src/bridge.rs:527-543 | a wait that is abandoned gives back the levels it had and the part it was assigned, and was offered too little of one |
| `Reservation.HoldInbound` | crates/opentunnel-server/src/bridge.rs:498-562 | whatever others do, success holds a share of all three budgets and failure of none; it succeeds if all have room at first, and fails only if its wait was short of a budget and then the bridge ended, the connection was reset, or a budget has no room at last |
| `Routing.AllocateId` | crates/opentunnel-server/src/service.rs:1790-1804 | the search ends with the first nonzero free ID from the sequence on, across wraparound |
| `Routing.ConnLimitIsNearest` | crates/opentunnel-server/src/service.rs:278-284 | a bridge's visitor limit is the number from 1 to the limit nearest to what its client advertised |
| `EntryState.Entry.RegisterBridge` | crates/opentunnel-server/src/service.rs:1439-1470 | a bridge that has not attached joins the list and claims nothing |
| `EntryState.Entry.Touch` | crates/opentunnel-server/src/service.rs:245-247 | hearing from a client changes only when its bridge was last seen |
| `EntryState.Entry.RetireStale` | crates/opentunnel-server/src/service.rs:1696-1722 | exactly the attached bridges not heard from for too long are retired, without their connections |
| `EntryState.Entry.AttachBridge` | crates/opentunnel-server/src/service.rs:1472-1533 | refused exactly for the first reason that holds; once attached the bridge claims exactly the routes asked for under its own visitor limit, and no other's claims change but by retirement after a minute |
| `EntryState.Entry.BridgeClosed` | crates/opentunnel-server/src/service.rs:1664-1685 | the bridge leaves the list and the rest keeps its limits |
| `EntryState.Entry.Route` | crates/opentunnel-server/src/service.rs:1738-1830 | a connection goes to the live bridge that claims its route, within both visitor limits, under the first free ID, or is rejected for the first reason that holds, beginning with a tunnel without a record |
| `EntryState.ChosenGoesWhereClaimed` | crates/opentunnel-server/src/service.rs:1738-1788 | a connection goes to the bridge that claims its route while both limits have room, and finds none iff no bridge heard from in the last minute claims it |
| `EntryState.AttachThenRoute` | crates/opentunnel-server/src/service.rs:1472-1830 | a route a bridge was just attached for reaches that bridge |
| `EntryState.Entry.VisitorEnded` | crates/opentunnel-server/src/service.rs:199-206 | the visitor's place is given back |
| `EntryState.Entry.ChannelEnded` | crates/opentunnel-server/src/bridge.rs:626-639 | the connection leaves its bridge, its ID becomes free |
| `Replay.BuildMessage` | crates/opentunnel-server/src/peer_auth.rs:31-38 | the loop writes each part after its length |
| `Replay.MessageIsInjective` | crates/opentunnel-server/src/peer_auth.rs:31-38 | lists of parts that give one message are one list, for parts below 4 GiB |
| `Replay.OversizedPartCollides` | crates/opentunnel-server/src/peer_auth.rs:31-38 | a part of 4 GiB of zeros signs like a list of empty parts |
| `Replay.MessageIsInjectiveIff` | crates/opentunnel-server/src/peer_auth.rs:31-38 | lists of parts below a length are told apart iff that length fits 32 bits |
| `Nonces.MedianIsUnique` | crates/opentunnel-server/src/peer_auth.rs:91-94 | a table has one median: at most half before it and more than half not after it |
| `Nonces.Table.SortedTimes` | crates/opentunnel-server/src/peer_auth.rs:91-92 | the times in order, as many at or before any time as there are nonces |
| `Nonces.Table.ForgetOldest` | crates/opentunnel-server/src/peer_auth.rs:91-94 | exactly what is at or before the median goes |
| `Nonces.Table.Trim` | crates/opentunnel-server/src/peer_auth.rs:86-96 | a full table forgets the stale, and only if that is not enough what is at or before the median of the rest; then there is room |
| `Nonces.Table.FirstUse` | crates/opentunnel-server/src/peer_auth.rs:84-102 | true iff the nonce is not remembered after trimming; the table never exceeds 100000 |
| `Nonces.AcceptedAgainIff` | crates/opentunnel-server/src/peer_auth.rs:84-102 | a remembered, fresh request is accepted again iff the table is full of fresh nonces and at most half of them are older |
| `Nonces.RunKeepsInv` | crates/opentunnel-server/src/cluster.rs:162-186 | in every run, with requests coming to the table in any order, what was accepted is remembered, went with the oldest half, or was stale at the latest sweep |
| `Nonces.AcceptedAgainWasForgotten` | crates/opentunnel-server/src/cluster.rs:162-186 | in every run, a request that comes to the table with a clock not behind a sweep is accepted twice only if it went with the oldest half |
| `Nonces.NoReplay` | crates/opentunnel-server/src/cluster.rs:162-186 | in every run in which requests come in time and a full table has fewer fresh nonces than places, no nonce with its timestamp is accepted twice, whatever was evicted |
| `Nonces.FirstUseIsAccepted` | crates/opentunnel-server/src/cluster.rs:162-186 | in every run, a request comes to the table iff its timestamp is within 30 seconds of the clock, and one whose nonce was never accepted is accepted |
| `NonceRuns.OverflowAcceptsReplay` | crates/opentunnel-server/src/peer_auth.rs:86-96 | a run from an empty table: with 100000 fresh nonces in it, a request is accepted again |
| `NonceRuns.LateRunAcceptsReplay` | crates/opentunnel-server/src/cluster.rs:171-182 | a run under a clock that never goes back and with room: a request whose check was a millisecond before another's sweep is accepted again |
| `NonceRuns.NoReplayIff` | crates/opentunnel-server/src/cluster.rs:162-186 | under a clock that never goes back, no request is accepted twice in any run iff none comes to the table with a clock behind a sweep and a full table never holds as many fresh nonces as it has places |

## Left out

- Sockets, TLS, HTTP, DNS queries, the SQL text, JSON encoding and timeouts as such: what they decide is a step, a parameter or a nondeterministic choice.
- Cryptography: HMAC, certificates and CSRs; a request in `Nonces` is one whose proof was right, and token and CSR checks are parameters.
- Sweeping challenge records that were left published, after a deletion that failed or a deactivation that did.
- Clocks and random values: every clock reading, jitter, nonce and certificate ID is an input; certificate IDs are taken to be new.
- Progress: that timers fire, that workers are scheduled, that a waiting reservation is served in turn.
- Integers are unbounded except connection IDs (32 bits), the length prefixes of frames and signed parts, and the saturating product of the backoff; jitter is a real number.
- Text: which bytes are UTF-8 is a parameter of the WebSocket reader, and server names stay bytes.
- Sni.ParseHelloBody: gives the name's bytes, without the lossy decoding and lower-casing of sni.rs:129-150.
- Sni.WalkExtensions: gives the name's bytes in the same way.
- WebSocket: `discard`, and releasing the read buffer between messages.
- Mesh: the handshake that authenticates a link, the mesh dialer, discovery, the partition and silence test hooks, and the summary views; one receiver and any number of senders are modelled, as machines do not act on each other's copies.
- Routes across machines: two machines may both accept one route at the same instant, as service.rs:1514-1516 says.
- Jobs: what an attempt does with its certificate, the CA cool-down's own bookkeeping (its end is an input of a pass), and where an error's causes and text come from (an error is any causes with any text).
- Bridges: which connections count as stalled (`drained_at`), keep-alive pings and draining; a reset is a step that closes a connection, and its data is dropped in a later one.
- Replay.MessageIsInjective: asks for parts shorter than 4 GiB; `Replay.MessageIsInjectiveIff` shows that this is exact.
- PROXY headers, the API handlers, metrics, analytics, configuration, the command line and the clients.
