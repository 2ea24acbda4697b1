# Hoptrail: models and proofs

Hoptrail measures network paths continuously: probes send ICMP echoes hop by hop, keep a picture of each
path, and ship what they see to a central daemon that stores it, alerts on it and serves it. Its parts are
small protocols and state machines, and most of what they guarantee is written down only in comments. This
project models ten of them and proves the guarantees.

Each module has up to three layers.

- **Objects.** Where the program changes state in place (sinks, tables, the ring buffers, the path state, the
  alert engine, the update table, the prober, the resolver) there is a class, or a loop with its invariants.
- **A specification on values.** Each object has a `View()`, and its methods are proved to do exactly what a
  function on values says, including on every failure they can meet: a failing statement is a parameter
  (how many statements work, which ones do, or what a reply was).
- **Runs.** Goroutines, hosts and lost messages interleave as sequences of events over those values. The main
  results hold for every sequence. Ghost histories record what happened, and predicates over them (for
  instance "this probe heartbeated on its target since its last command") say what a state alone cannot.

Times are integers in the unit the code uses; clocks do not run backwards, except that nothing is assumed
about a probe's clock unless a result says so. A transaction is one step that happens or does not.

| module | program part |
|---|---|
| `Wire`, `SpillBuffer`, `Ingest`, `Delivery`, `DeliveryRuns`, `DeliveryReplies` | probe-to-central delivery, spill buffer, dedup and its pruning, what each reply does |
| `Quiesce` | the WAL checkpoint's gate and pool exhaustion |
| `Ring`, `Routing`, `Path`, `PathTarget` | ring buffer, route-change detection, path state, target and snapshot |
| `Alert`, `AlertRuns`, `AlertPairing`, `AlertWhen`, `AlertTick`, `AlertBuffer` | the alert engine |
| `Schedule`, `Baseline` | bandwidth-test scheduler and baseline statistics |
| `Rollout`, `RolloutTiming` | probe updates, the stop-the-line rollout and their deadlines |
| `BatchedSink` | central's buffered writer |
| `Prober` | ICMP sequence numbers and reply matching |
| `Rdns` | the incremental reverse-DNS scan |
| `LogRing`, `Bands` | the log ring with its polling clients; outage bands on the charts |

`Wrappers` holds the two usual option and result types. `dafny verify dfyconfig.toml` checks everything.

## What turned out false, and exactly when it holds

- **Exactly-once storage** rests on 24 hours in the dedup pruning and 24 hours in the clock-skew check. A batch
  can be stored twice exactly when every one of its rows is stamped later than its first arrival
  (`Ingest.ReplayIffAllAfter`); it never is while the probe's clock is not ahead (`DeliveryRuns.AtMostOnce`).
- **A retryable failure keeps the batch** exactly when every statement of the spill works and the batch fits the
  buffer together with the pending rows it sorts before (`Delivery.RetryKeepsIff`, `DeliveryRuns.SpilledIff`).
  The order is by the probe's wall clock, so after that clock is set back a new batch can evict itself
  (`Delivery.SteppedBackClockEvictsNewest`). The POST and the spill share one context, so a flush cancelled in
  the middle loses its batch, although the comment on `Run` expects a clean shutdown to spill it.
- **Alerts and recoveries alternate** as long as the statements an evaluation depends on work: a raise must be
  written down, a waiting row whose condition clears must go, and a recovered row must go exactly when its
  recovery is handed over. That is what keeps tables and deliveries in step, in both directions
  (`AlertPairing.StepPairsIff`, `PairsIff`), and wherever it fails at most two further evaluations, in which nothing
  fails, unpair the notifications (`AlertPairing.BrokenShows`).
- **Every accepted notification is told**: those accepted outside quiet hours are in the queue, those in quiet hours
  in the summary or in a queued digest (`AlertBuffer.PromptAreQueued`, `QuietAreKept`), as long as none is accepted
  while the summary holds others and cannot be read. Exactly then the summary is overwritten (`AlertBuffer.SummaryIff`),
  and an alert is lost for good (`AlertBuffer.OverwrittenIsLost`).
- **The quiet-hours digest is chronological**, says the comment on the sort, because lines start with HH:MM. To the
  minute, and for any local clock, it is exactly when from each line to each later one there are as many whole days
  as midnights (`Alert.ChronologicalIff`). Within 24 hours that means: exactly when no local midnight separates two
  lines (`Alert.ChronologicalUnlessMidnight`). So quiet hours over midnight reverse it (`Alert.OvernightIsReversed`),
  and so does a clock set back (`Alert.SetBackIsReversed`). Within a minute the messages decide (`Alert.TextOrder`).
- **A pending command rides at most two replies**, unless a newer command takes its row between a heartbeat's read
  and its count: the count names only the probe. A reply of the old command is then charged to the new one, and the
  step that does so is exactly the one that lets a command ride a third time (`Rollout.PastTwoIff`,
  `Rollout.CommandRidesTwiceIff`, `Rollout.ReplacedRidesThrice`). The new command can then be failed as never
  acknowledged although no reply carried it (`Rollout.GivenUpAfterTwoIff`, `Rollout.NeverSentGivenUp`). What the
  count does bound is replies, not commands: at most two between one command and the next
  (`Rollout.TwoRepliesPerCommand`).
- **An applied update is a confirmed one**, unless a command replaces the row between a heartbeat's read and its
  write and no other heartbeat vouches for the new one: that write, too, names only the probe. Applied means confirmed
  throughout exactly the runs without such a write (`Rollout.SuccessIsGenuineIff`, `Rollout.AppliedIsConfirmedIff`,
  `Rollout.OvertakenIsMarkedApplied`).
- **Stop the line** fails for the same reason. While no success misfires, the rollout commands the next candidate only
  after the last one confirmed (`Rollout.NextOnlyAfterConfirmed`); exactly the polls that take a misfired success for
  the candidate's own let the line move on (`Rollout.StopTheLineIff`), and there is such a run
  (`Rollout.LinePassesUnconfirmed`).
- **The rollout's wait ends by its deadline** only while the row exists and can be read: a missing row skips the
  deadline test (`Rollout.WaitsIff`, `Rollout.ClearedRowNeverTimesOut`).
- **The reverse-DNS watermark is safe** until the newest rows are deleted and their row ids handed out again: under
  the watermark, or under the top of a scan that is about to pass them without a lookup to come
  (`Rdns.InsertBreaksIff`, `Rdns.BooksRightIff`). Both happen (`Rdns.WipedRowsAreReused`, `Rdns.WipedMidCycle`).
- **Route detection** reports changes at all exactly when the threshold is at most the candidates buffer
  (`Routing.DetectsIff`); the configuration check sets no upper bound.

One guarantee holds of the code, with a boundary worth knowing. **The checkpoint's protocol always converges**,
leaving aside the sixty seconds an attempt allows itself to collect the connections (a straggler that holds rows
longer makes that attempt fail, and everything is given back). It converges (`Quiesce.Converges`) because no caller in
`internal/` or `cmd/` makes a gated call while it holds rows or a transaction. Progress is impossible exactly when
nothing is free and every connection out is held by a client blocked in a further gated call (`Quiesce.StuckIff`). One
such caller would be enough (`Quiesce.NestedCallSticks`): the sixty-second timeout covers only the second stage, and
`gate.Lock()` has none, so the checkpoint would wait until a client inside the gate gives up (`Quiesce.StuckOutcome`,
`Quiesce.StuckForever`).

Other places where code and comments differ, modelled as coded: an update row marked applied is not final, since a
late status report moves it from any state; a drain is cut short not only by a retryable failure but by a failing read
or delete and by a token turned away (`DeliveryReplies.DrainTakes`); the buffered writer's final flush preserves
everything only if it commits; a test under the baseline's floor in either direction is left out, not only one under
it in both (`Baseline.OneMoreRow`).

## Model

| member | source | states |
|---|---|---|
| Wire.WireRoundTrip | internal/server/ingest.go:296-303 | however the probe's division rounds, within half a microsecond, central stores the RTT the probe measured, under the typed identifier |
| Wire.RoundAbsorbs | internal/server/ingest.go:301-302 | standing alone, since stored rows take the product as exact: the rounding would also absorb what an inexact product adds |
| Wire.BuildPayload | internal/agent/sink.go:306-340 | the rows central will store for a built batch are the queued observations, row for row |
| Wire.BuiltRows | internal/agent/sink.go:306-340 | the same as a fact about all queues |
| SpillBuffer.DrainOrderSorted | internal/agent/buffer.go:121-131 | repeated Oldest/Delete visits every pending batch exactly once, strictly by (created_at, batch_id) |
| SpillBuffer.EvictDownIsSuffix | internal/agent/buffer.go:92-111 | evicting one oldest row at a time removes exactly the shortest prefix, in that order, that restores the byte bound |
| SpillBuffer.EvictOldest | internal/agent/buffer.go:92-111 | the eviction loop ends, reports how many rows it removed, and fails exactly when one of its statements does |
| SpillBuffer.SurvivesIff | internal/agent/buffer.go:76-117 | a batch outlives its own Add if and only if it fits the buffer together with the rows it sorts before |
| SpillBuffer.NewestSurvives | internal/agent/buffer.go:76-117 | so a batch that fits the buffer and sorts last is never evicted to make room for itself |
| SpillBuffer.DeleteOldestDrains | internal/agent/buffer.go:134-140 | deleting the oldest leaves the rest of the drain order as it was |
| SpillBuffer.Buffer.Add | internal/agent/buffer.go:76-117 | all or nothing at every failing statement; the total stays within the bound; reports the length of the evicted prefix |
| SpillBuffer.Buffer.Oldest | internal/agent/buffer.go:121-131 | the head of the drain order, none exactly when empty, failure exactly when the read fails |
| SpillBuffer.Buffer.Delete | internal/agent/buffer.go:134-140 | removes that id and keeps the bound; a missing id is no error |
| Ingest.CentralStore.IngestBatch | internal/storage/probes.go:249-318 | dedup record and rows are one unit: a repeated id stores nothing, a failure at any statement changes nothing |
| Ingest.CentralStore.HandleIngestSamples | internal/server/ingest.go:250-345 | method, authentication, body, ids, binding and row checks decide the reply class; only an acceptable batch reaches the store |
| Ingest.CentralStore.DeleteIngestLogOlderThan | internal/storage/probes.go:325-336 | forgets exactly the ids received before the cutoff and counts them |
| Ingest.AcceptableTimes | internal/server/ingest.go:355-368 | no accepted batch has a row outside the 24-hour skew |
| Ingest.ReplayIffAllAfter | internal/storage/probes.go:320-336 | after a 24-hour prune a batch can be stored a second time if and only if all its rows are later than its first arrival |
| Delivery.HTTPSink.WriteSample | internal/agent/sink.go:133-145 | the sample joins the queue and the accepted history; the flush signal at the threshold |
| Delivery.HTTPSink.WriteRouteChange | internal/agent/sink.go:148-153 | the change joins the queue and the accepted history |
| Delivery.HTTPSink.FlushOnce | internal/agent/sink.go:182-226 | every outcome of one flush: nothing queued, id or marshal failure, delivered, spilled with what that evicts, dropped, unauthorized |
| Delivery.HTTPSink.DrainBuffer | internal/agent/sink.go:260-295 | posts oldest first until empty or a turn goes wrong, under any sequence of replies, read and delete failures |
| Delivery.RetryKeepsIff | internal/agent/sink.go:205-215 | after a retryable failure, whatever the probe's clock: kept if and only if the Add goes through and the batch fits with the rows it sorts before; else named evicted or lost to the spill |
| Delivery.SteppedBackClockEvictsNewest | internal/agent/sink.go:210 | with the clock set back a one-byte batch, every statement working, evicts itself |
| Delivery.HealthyMeansEmpty | internal/agent/sink.go:257-269 | a drain that reports healthy has left nothing pending |
| Delivery.SmoothDrainDeliversAll | internal/agent/sink.go:260-295 | on a working link one drain posts every pending batch once, in order, and gives none up |
| DeliveryRuns.InvAlways | internal/agent/sink.go:133-295 | every interleaving of both probe loops, link, central and sweep keeps: ids distinct, every built batch placed, acknowledgements honest, tables equal to the batches written, dedup window |
| DeliveryRuns.NoSilentLoss | internal/agent/sink.go:133-295 | each accepted row is queued, in a built batch, or in the batch-id/marshal loss class; each built batch is in flight, spilled, stored or named lost; the tables hold nothing else |
| DeliveryRuns.FlushingIsAlwaysNew | internal/agent/sink.go:182-226 | over every run the batch being flushed is not in the spill buffer |
| DeliveryRuns.SpilledIff | internal/agent/sink.go:205-215 | in every reachable state a retryable failure spills the batch if and only if the statements work and it fits with the rows it sorts before |
| DeliveryRuns.WrittenAgainOnlyIfNewer | internal/storage/probes.go:249-336 | over any run a batch is written twice only if all its rows are later than the first write |
| DeliveryRuns.AtMostOnce | internal/storage/probes.go:249-336 | with the probe's clock not ahead, no run of lost requests, lost replies, repeats, drains and sweeps stores a batch twice |
| DeliveryRuns.FullDrainIsExact | internal/agent/sink.go:133-295 | with no loss and the probe drained, central holds exactly the accepted observations, each once, as measured |
| DeliveryReplies.RefusalIgnoresStore | internal/server/ingest.go:250-345 | a refusal is about the request: no luck with the store changes it |
| DeliveryReplies.ErrorIsTransient | internal/server/ingest.go:329-334 | a server error past the gate is about the store: one that works would have stored the batch |
| DeliveryReplies.AcknowledgedIffKept | internal/storage/probes.go:249-318 | an acknowledged batch is remembered, any other answer changes nothing |
| DeliveryReplies.BuiltAcceptableIff | internal/server/ingest.go:261-327 | which batches a probe builds central finds acceptable, told from the observations themselves |
| DeliveryReplies.LossesWereAnswered | internal/agent/client.go:86-104 | in every reachable state a batch is named rejected or revoked, and the probe stopped, only after central gave that answer |
| DeliveryReplies.UnansweredIsSpilledIff | internal/agent/sink.go:205-215 | in every reachable state no reply, or a server error, leaves the batch spilled if and only if the statements work and it fits with the rows it sorts before |
| DeliveryReplies.AnsweredFlush | internal/agent/sink.go:202-226 | what each final answer costs: nothing, the batch, or the batch and the probe's run; never anything spilled |
| DeliveryReplies.UnansweredStaysPending | internal/agent/sink.go:281-282 | no reply, or a server error, leaves a drained batch pending with nothing against it |
| DeliveryReplies.AnsweredDrain | internal/agent/sink.go:272-293 | a final answer takes the batch off the buffer unless the delete fails or the token was turned away; only a refusal is held against it |
| DeliveryReplies.NoRefusalIff | internal/server/ingest.go:250-345 | over a run central refuses nothing if and only if every request passes the gate, or meets a failing lookup, with an acceptable batch |
| DeliveryReplies.WelcomeIsNeverRejected | internal/agent/sink.go:182-295 | and then no batch is ever named rejected or revoked and the probe never stops, however often the store fails |
| DeliveryReplies.RevokedTokenStops | internal/agent/sink.go:223-225 | the answer to a revoked token is the one that stops the probe |
| DeliveryReplies.DrainTakes | internal/agent/sink.go:260-295 | under any schedule a drain posts oldest first, takes one batch off with every turn that goes on, and is healthy exactly when it sees the buffer empty |
| Quiesce.StepKeeps | internal/storage/storage.go:63-114 | connections are conserved and no client is inside the gate while the worker holds it |
| Quiesce.RunKeeps | internal/storage/storage.go:63-114 | the same over every run |
| Quiesce.QuietAtCheckpoint | internal/storage/storage.go:262-290 | when the PRAGMA runs no client holds a connection or is inside a gated call |
| Quiesce.ReleaseReturnsAll | internal/storage/storage.go:271-281 | every exit gives back the gate and every connection taken |
| Quiesce.StepDecreases | internal/storage/storage.go:44-56 | from the pending lock on, every step of any client strictly decreases one measure |
| Quiesce.StuckIff | internal/storage/storage.go:58-62 | exactly when the quiesce can make no progress |
| Quiesce.StuckOutcome | internal/storage/storage.go:270-274 | stuck with the gate held, the timeout releases it; stuck before the gate, nothing but a client giving up can |
| Quiesce.StuckForever | internal/storage/storage.go:270-271 | before the gate it stays stuck through every run in which no client gives up |
| Quiesce.NestedCallSticks | internal/storage/storage.go:58-62 | one connection and one gated call made with rows open reach that state |
| Quiesce.UnnestedIsNotStuck | internal/storage/storage.go:44-62 | without gated calls made while holding a connection some step is always possible |
| Quiesce.Converges | internal/storage/storage.go:44-62 | every schedule ends within the measure, with all connections in the worker's hands |
| Quiesce.Store.CheckpointWAL | internal/storage/storage.go:249-298 | with clients at work throughout, and each acquisition failing for want of a connection or on its own account: success means that at the PRAGMA all connections were held and no client had one or was in a call; every exit gives back the gate and what was held |
| Ring.RingBuffer.Push | internal/analysis/ringbuf.go:37-43 | the modular buffer always holds the newest values of the whole push history |
| Ring.RingBuffer.Newest | internal/analysis/ringbuf.go:53-61 | the last value pushed |
| Ring.RingBuffer.Oldest | internal/analysis/ringbuf.go:65-77 | the oldest value still held |
| Ring.RingBuffer.NewestFirst | internal/analysis/ringbuf.go:85-97 | the newest `capacity` values of the history, in order |
| Ring.RingBuffer.OldestFirst | internal/analysis/ringbuf.go:102-109 | the same in chronological order |
| Ring.ReverseInPlace | internal/analysis/ringbuf.go:104-107 | the two-index swap loop reverses |
| Routing.DetectRouteChange | internal/analysis/routing.go:40-86 | reports if and only if the last `threshold` answers agree on an address that is not the current one, and reports that address |
| Routing.ModalIP | internal/analysis/routing.go:95-119 | the first address reaching the highest count |
| Routing.CountSightings | internal/analysis/routing.go:96-101 | each address's multiplicity among the observations |
| Routing.ModalMeaning | internal/analysis/routing.go:88-119 | the tentative identity is the most frequent answer, ties to the most recent, none exactly when nothing answered |
| Routing.ModalUnique | internal/analysis/routing.go:88-119 | that description leaves one address |
| Routing.WindowedIff | internal/analysis/routing.go:40-86 | the windowed detector fires exactly when the unbounded one does and the answers it needs lie within the window |
| Routing.ObserveQuiesces | internal/probe/path.go:185-212 | after every result the detector has nothing more to report on the same buffer |
| Routing.MissIsSilent | internal/probe/path.go:151-155 | so a miss never reports a change |
| Routing.ReportedIff | internal/probe/path.go:185-212 | a change is reported on a result if and only if the hop's entire history says so within the window, with that old and new address |
| Routing.ChangesAreRare | internal/probe/path.go:185-212 | changes times threshold is at most the answers; each change starts where the last ended and ends elsewhere; with threshold 2 or more the old address is known |
| Routing.ThresholdBeyondWindow | internal/config/validate.go:79 | a threshold above the buffer's capacity means no change is ever reported |
| Routing.DetectsIff | internal/config/validate.go:79 | some history reports a change if and only if the threshold is at most the capacity |
| Path.Hop.Record | internal/probe/path.go:151-212 | one result's effect on buffers, identity and last response, and the change it reports |
| Path.SummarizeRtts | internal/probe/path.go:322-342 | one pass yields count, sum, last and minimum of the answered results |
| Path.CountLost | internal/probe/path.go:344-352 | counts the missed results |
| Path.PathState.GetOrCreateHop | internal/probe/path.go:228-238 | creates at most the hop asked for, shared with no other |
| Path.PathState.ApplyProbeResult | internal/probe/path.go:127-225 | updates the hop at the result's TTL, `maxSeen` and target TTL, and nothing else; returns the sample and change of that hop |
| Path.PathState.TakeSnapshot | internal/probe/path.go:292-312 | the summaries of the seen hops up to the target |
| Path.HopsAreIndependent | internal/probe/path.go:127-225 | a hop is a function of the results at its own TTL |
| Path.HopIsTrack | internal/probe/path.go:185-212 | what a hop displays and reports is the detector over its observations, so every fact about tracks holds of hops |
| Path.HopBuffers | internal/probe/path.go:151-183 | the hop's windows are its results, newest first |
| Path.PathAlways | internal/probe/path.go:127-183 | over well-formed results a known target TTL is a hop seen and at most `maxSeen` |
| Path.SnapshotSound | internal/probe/path.go:286-312 | hops in strictly ascending TTL, each the summary of its own results, and a known target is the last hop |
| Path.SummaryBounds | internal/probe/path.go:315-357 | min, average and current are over exactly the answered results among the last `samplesCap`; min is one of them, at most the average and at most the current |
| Path.LossIsShare | internal/probe/path.go:344-354 | the loss is the percentage of missed results among the last `samplesCap` |
| PathTarget.TargetFromResults | internal/probe/path.go:166-183 | the target TTL told from the results: an echo reply from it that no router's answer at it and no nearer echo has followed; none when every echo was so followed |
| PathTarget.NearestEchoIsTarget | internal/probe/path.go:166-183 | with no router answering at or under the nearest TTL that echoes, that TTL is the target |
| PathTarget.TargetIsLeastSinceCleared | internal/probe/path.go:166-183 | the target is the least TTL to echo since it was last cleared |
| PathTarget.MaxSeenIsGreatest | internal/probe/path.go:161-163 | the farthest TTL seen is the greatest of those answered by anything but an error |
| PathTarget.LastResponseIsLast | internal/probe/path.go:150-160 | a hop's last response is that of its last result that was no miss |
| PathTarget.SnapshotShows | internal/probe/path.go:292-330 | a snapshot shows exactly the TTLs with a result, up to the farthest seen and no farther than the target |
| PathTarget.SummaryShowsHop | internal/probe/path.go:316-321 | a hop is shown with the address its whole history leaves it with and its last response |
| PathTarget.ChangeIsThisAnswer | internal/probe/path.go:185-200 | a route change is reported only by an answer, at its TTL and time, from the address shown to the one that just answered |
| Alert.QuietIsClockInterval | internal/alert/engine.go:452-468 | quiet hours, wrapping midnight or not, are one interval of the clock face |
| Alert.Coalesce | internal/alert/engine.go:501-535 | one line per incident with its first raise and last recovery, in the order of their text |
| Alert.EachIsTold | internal/alert/engine.go:501-534 | every line has a raise or a recovery to show |
| Alert.ClocksOrder | internal/alert/engine.go:522 | HH:MM orders as a string the way times of day order as numbers |
| Alert.TextOrder | internal/alert/engine.go:522-535 | the rendered lines order by local time of day and, within a minute of it, by what follows |
| Alert.SortLinesFacts | internal/alert/engine.go:535 | sorting the rendered lines loses none, repeats none, and leaves them in string order |
| Alert.ChronologicalIff | internal/alert/engine.go:535 | under any local clock the digest is chronological to the minute if and only if between any two of its lines as many midnights as whole days pass |
| Alert.ChronologicalUnlessMidnight | internal/alert/engine.go:535 | within 24 hours: if and only if no local midnight separates two lines |
| Alert.OvernightIsReversed | internal/alert/engine.go:522-535 | so a morning line precedes that of the evening before |
| Alert.SetBackIsReversed | internal/alert/engine.go:522-535 | and a line after the clock is set back precedes an earlier one of that day |
| Alert.DigestCoversOnce | internal/alert/engine.go:501-534 | the digest names every buffered incident exactly once |
| Alert.AlertEngine.DeliverNote | internal/alert/engine.go:380-438 | buffered in quiet hours, else limited per sliding hour, recoveries exempt, for every store outcome |
| Alert.AlertEngine.RaiseIncident | internal/alert/engine.go:342-376 | cooldown memory is set before delivery, and delivery decides whether the row counts as notified |
| Alert.AlertEngine.StepIncident | internal/alert/engine.go:304-338 | the incident machine's whole transition, for every store outcome |
| Alert.AlertEngine.ClearOrphanRow | internal/alert/engine.go:277-294 | row and cooldown memory go together, or neither |
| Alert.AlertEngine.FlushSummaryNote | internal/alert/engine.go:496-541 | one digest, and the buffer emptied only after it is queued |
| AlertRuns.HourlyLimit | internal/alert/engine.go:408-425 | every window (T-1h, T] holds at most `RateLimitPerH` alert enqueues, under every pattern of failures |
| AlertRuns.RaisesAreCooled | internal/alert/engine.go:342-376 | two unsuppressed raises of one incident are at least the cooldown apart unless an orphan sweep forgot it between, under every pattern of failures |
| AlertPairing.StepPairsIff | internal/alert/engine.go:304-376 | from tables in step with the history, an evaluation keeps them in step if and only if the statements its branch depends on work |
| AlertPairing.PairsIff | internal/alert/engine.go:304-376 | over any run in clock order: always in step if and only if every evaluation's statements work |
| AlertPairing.NotificationsPair | internal/alert/engine.go:304-376 | then, whatever else fails: alert and recovery alternate, one raise attempt per row, and only after an unbroken run of true evaluations of at least the sustain time |
| AlertPairing.BrokenShows | internal/alert/engine.go:304-376 | after an evaluation that misses a statement it needs, at most two flawless ones unpair the notifications |
| AlertPairing.LostRowAlertsTwice | internal/alert/engine.go:304-338 | a failing row write repeats the alert with no recovery between |
| AlertPairing.KeptRowRecoversTwice | internal/alert/engine.go:304-338 | a failing row delete repeats the recovery |
| AlertPairing.LostRecoveryAlertsTwice | internal/alert/engine.go:304-338 | a recovery that is not handed over is never made up for: the row is gone, and the next alert follows an alert |
| AlertWhen.AcceptedIff | internal/alert/engine.go:406-438 | outside quiet hours an alert is accepted if and only if the queue takes it and the last hour holds fewer than the limit |
| AlertWhen.SuppressedIff | internal/alert/engine.go:349-370 | a raise is suppressed if and only if the last one, not forgotten since, is less than the cooldown ago |
| AlertWhen.AttemptedIff | internal/alert/engine.go:310-331 | with its statements working an evaluation makes the raise attempt exactly when the condition has been seen true for the sustain time: not too soon and not too late |
| AlertTick.CollectTargets | internal/alert/engine.go:172-212 | which loss and latency incidents a tick evaluates, up to the first failing window query |
| AlertTick.CollectChecks | internal/alert/engine.go:154-238 | everything a tick evaluates and whether it completes |
| AlertTick.RunTick | internal/alert/engine.go:128-271 | flush, evaluations and sweep of one tick on the engine object, each statement with its own outcome |
| AlertTick.TickIsRun | internal/alert/engine.go:128-271 | a tick is a run of those events, so the results over runs hold of ticks |
| AlertTick.ChecksAreMonitored | internal/alert/engine.go:240-269 | a tick never evaluates an incident that its own sweep would call orphaned |
| AlertTick.TickLeavesNoOrphan | internal/alert/engine.go:240-270 | after a completed tick no row of an unmonitored subject is left and no monitored one was swept |
| AlertTick.TargetChecksIff | internal/alert/engine.go:173-212 | the loss and latency conditions told from the figures, up to the first target whose figures cannot be had |
| AlertTick.LossIsMonotone | internal/alert/engine.go:189-191 | more answers never turn a loss alert on |
| AlertTick.OfflineIff | internal/alert/engine.go:164-166 | offline exactly when the last heartbeat is more than three minutes old |
| AlertTick.FixedChecksIff | internal/alert/engine.go:214-238 | exactly when a tick gets to its end, and that derate and capacity are then evaluated as their providers have them |
| AlertTick.SweptOnlyIf | internal/alert/engine.go:240-269 | only a row whose event was looked at and whose subject was not there is swept |
| AlertBuffer.LineTells | internal/alert/engine.go:503-521 | a digest line's raise is the incident's first in the buffer and its recovery the last |
| AlertBuffer.DigestIsExact | internal/alert/engine.go:496-541 | a digest covers every buffered entry, names no other incident, and none twice |
| AlertBuffer.StepSummaryIff | internal/alert/engine.go:472-492 | a step leaves a summary other than the entries accepted since it was emptied if and only if it overwrites one it cannot read |
| AlertBuffer.SummaryIff | internal/alert/engine.go:472-492 | over a run the summary is those entries in order, after every event, if and only if no step does |
| AlertBuffer.FlushTells | internal/alert/engine.go:496-541 | a flush empties the summary only with a digest of it queued |
| AlertBuffer.PromptAreQueued | internal/alert/engine.go:406-438 | over every run the notifications accepted outside quiet hours are in the queue, each once, in order |
| AlertBuffer.QuietAreKept | internal/alert/engine.go:396-404 | those accepted in quiet hours are in the summary or told by a queued digest, as long as it is never overwritten |
| AlertBuffer.OverwrittenIsLost | internal/alert/engine.go:482-492 | a run in which one failing read loses an accepted alert |
| AlertBuffer.TickKeepsHours | internal/alert/engine.go:132-142 | a tick in quiet hours queues nothing; one after them leaves the summary empty and told |
| Schedule.NextScheduled | internal/bandwidth/runner.go:485-508 | the least existing slot after now within its three days, none exactly when there is none |
| Schedule.PrevScheduled | internal/bandwidth/runner.go:432-452 | the greatest existing slot at or before now within its three days |
| Schedule.NextIsGlobal | internal/bandwidth/runner.go:485-508 | with day-monotone local time no slot of any day lies between now and the result |
| Schedule.PrevIsGlobal | internal/bandwidth/runner.go:432-452 | likewise between the result and now |
| Schedule.NextIntervalRun | internal/bandwidth/runner.go:463-478 | at least the interval after both the last sample and the last attempt, never before now plus one second |
| Schedule.NextRun | internal/bandwidth/runner.go:394-427 | a missed slot, and only one, is caught up; else the next slot; interval mode plans unless the lookup fails |
| Schedule.Runner.ArmTimer | internal/bandwidth/runner.go:226-242 | one turn plans nothing while disabled, else exactly what is due, and runs nothing |
| Schedule.Runner.Execute | internal/bandwidth/runner.go:272-362 | the attempt is recorded before anything can fail, so the schedule moves on alike whatever the test and the store do; no test under the kill switch or while one is in flight |
| Schedule.Runner.TakeSample | internal/bandwidth/runner.go:314-362 | failed tests are stored too, and a dismissal ends only with a stored result that is not derated |
| Schedule.NoRunaway | internal/bandwidth/runner.go:215-294 | whatever the store does, a slot test starts no earlier than a slot later than every earlier start, an interval test at least the interval after every earlier start |
| Schedule.SlotsServedOnce | internal/bandwidth/runner.go:394-427 | scheduled tests map one to one, in order, to slots |
| Schedule.CaughtUpIff | internal/bandwidth/runner.go:407-427 | a slot that went by is caught up, in four minutes, if and only if nothing was attempted since and the store can be read and holds no sample since |
| Schedule.NoSlotNoCatchUp | internal/bandwidth/runner.go:407-427 | without a slot behind it nothing is caught up |
| Baseline.OrderStatistic | internal/storage/bandwidth.go:263-273 | the k-th smallest has a downward-closed property exactly when more than k samples have it |
| Baseline.SortPermuted | internal/storage/bandwidth.go:263-266 | the sorted copy does not depend on row order |
| Baseline.ComputeMedian | internal/storage/bandwidth.go:263-273 | the middle, or the mean of the two middle, order statistics; zero for none |
| Baseline.ComputeTrimmedMean | internal/storage/bandwidth.go:278-292 | the mean of what is left after a tenth off each end, whose count is never zero |
| Baseline.AggregatePermuted | internal/storage/bandwidth.go:263-292 | both aggregates are functions of the samples as a bag |
| Baseline.AggregateMonotone | internal/storage/bandwidth.go:263-292 | both are monotone in every sample |
| Baseline.AggregateReflected | internal/storage/bandwidth.go:263-292 | both treat high and low alike: reflected samples have the reflected aggregate |
| Baseline.MetricWithstands | internal/storage/bandwidth.go:251-256 | how much bad data a baseline withstands goes by its metric's name |
| Baseline.OneMoreRow | internal/storage/bandwidth.go:205-250 | a test counts exactly when it is within the days, went well and reached the floor both ways |
| Baseline.MedianWithstands | internal/storage/bandwidth.go:263-273 | the median stays in any range that more than half the samples are in |
| Baseline.MedianLimit | internal/storage/bandwidth.go:263-273 | and half is not enough, at every size and for every bound |
| Baseline.TrimmedMeanWithstands | internal/storage/bandwidth.go:275-292 | the trimmed mean stays in any range with at most a tenth of the samples below and a tenth above |
| Baseline.TrimmedMeanLimit | internal/storage/bandwidth.go:275-292 | and one more above is enough to pass any bound |
| Baseline.AggregateAtLeast | internal/storage/bandwidth.go:211-215 | a baseline is never under the floor its samples cleared |
| Baseline.ComputeBandwidthBaseline | internal/storage/bandwidth.go:225-261 | none below `minSamples`; else the aggregates of exactly the qualifying rows, never under the floor |
| Rollout.UpdateStore.CommandProbeUpdate | internal/storage/probeupdates.go:46-59 | a command makes any row pending and uncounted; missing fields or a failing insert change nothing |
| Rollout.UpdateStore.SetProbeUpdateState | internal/storage/probeupdates.go:101-112 | sets the state from any state and nothing else; fails without a row |
| Rollout.UpdateStore.IncrementProbeUpdateDeliveries | internal/storage/probeupdates.go:116-126 | one more, and returns the new count |
| Rollout.UpdateStore.ClearProbeUpdate | internal/storage/probeupdates.go:130-136 | the row goes and no other, or a failing delete changes nothing |
| Rollout.UpdateServer.HeartbeatUpdateFor | internal/server/probeupdate.go:64-120 | for every pattern of failing statements, the interleaved handler's two writes back to back; a probe on its target heals the row from any state |
| Rollout.UpdateServer.HandleIngestUpdateStatus | internal/server/probeupdate.go:191-231 | applying moves a row from any state or conflicts without one; failed always answers ok; anything else is refused |
| Rollout.RunRollout | internal/server/probeupdate.go:333-384 | the nested loops pass exactly the candidates that succeed and stop at the first that does not, naming it unless still waiting |
| Rollout.TwoRepliesPerCommand | internal/server/probeupdate.go:104-117 | under any interleaving at most two replies between one command and the next carry a pending command, new or old |
| Rollout.PastTwoIff | internal/server/probeupdate.go:104-117 | a step takes a command past two replies if and only if it has ridden two and the reply is charged to a newer command with one to spare |
| Rollout.CommandRidesTwiceIff | internal/server/probeupdate.go:104-117 | every command rides at most two replies exactly in the runs without such a step |
| Rollout.ReplacedRidesThrice | internal/storage/probeupdates.go:116-126 | a run in which a replaced command rides three replies |
| Rollout.GivenUpAfterTwoIff | internal/server/probeupdate.go:110-114 | a row failed as never acknowledged had its command ride two replies if and only if two were counted and none of them carried an older command |
| Rollout.NeverSentGivenUp | internal/server/probeupdate.go:110-114 | a run that fails a command no reply has carried |
| Rollout.HandlersAlways | internal/server/probeupdate.go:64-120 | every handler between its read and its write vouches for the row it read as long as that row is still there |
| Rollout.BeatIsCurrentIff | internal/server/probeupdate.go:84-91 | a heartbeat being served is later than the row's command if and only if the row is still the one it read |
| Rollout.StepAppliedIff | internal/server/probeupdate.go:77-91 | a step makes some applied row an unconfirmed one if and only if it is a working success write on a newer command that no other heartbeat has confirmed |
| Rollout.AppliedIsConfirmedIff | internal/server/probeupdate.go:77-91 | throughout a run every applied row's probe heartbeated on its target since its last command, if and only if the run has no such step |
| Rollout.SuccessIsGenuineIff | internal/server/probeupdate.go:77-91 | a success write marks a confirmed row if and only if no command replaced the row since it was read, or another heartbeat confirmed the new one |
| Rollout.OvertakenIsMarkedApplied | internal/storage/probeupdates.go:101-112 | and when it is overtaken, a row whose version was never reported is marked applied |
| Rollout.LineAlways | internal/server/probeupdate.go:333-384 | done is a prefix of the candidates; exactly those and at most the next were commanded; it ends with all done or stopped at the first that is not |
| Rollout.StoppedStaysStopped | internal/server/probeupdate.go:330-332 | after a failure the rollout commands nothing more |
| Rollout.NextOnlyAfterConfirmed | internal/server/probeupdate.go:333-384 | in the runs without a misfired success every commanded candidate but the last has, since the rollout commanded it, heartbeated on its latest command's version |
| Rollout.StopTheLineIff | internal/server/probeupdate.go:356-376 | over all runs, every candidate passed was confirmed if and only if no poll takes an applied row for success while its probe stands unconfirmed |
| Rollout.LinePassesUnconfirmed | internal/server/probeupdate.go:356-376 | a run in which the line moves on past a candidate that never confirmed |
| Rollout.WaitsIff | internal/server/probeupdate.go:356-383 | exactly when a poll leaves the rollout waiting |
| Rollout.ClearedRowNeverTimesOut | internal/server/probeupdate.go:358-361 | a row cleared during the wait keeps the rollout waiting through every later poll |
| RolloutTiming.StampIsLastChange | internal/storage/probeupdates.go:46-126 | over any run a row is stamped with the time of the last change to it |
| RolloutTiming.GivesUpIff | internal/server/probeupdate.go:92-104 | a heartbeat off the target gives an applying update up if and only if the row it read was last changed more than five minutes before; else it offers the command again and changes nothing |
| RolloutTiming.OverdueStaysOverdue | internal/server/probeupdate.go:92-104 | once one heartbeat has found a row overdue, any later one does |
| RolloutTiming.HeartbeatGivesUpIff | internal/server/probeupdate.go:92-104 | the same of a whole heartbeat with nothing in between |
| RolloutTiming.SettledIsSilent | internal/server/probeupdate.go:70-90 | a settled row answers nothing and stays |
| RolloutTiming.DeadlineIsEightMinutes | internal/server/probeupdate.go:354-356 | a rollout waits on a candidate for eight minutes from its command |
| RolloutTiming.PollGivesUpIff | internal/server/probeupdate.go:357-383 | a poll gives up on a candidate if and only if its row has failed or is undecided after those eight minutes |
| BatchedSink.Store.InsertAll | internal/storage/sink.go:171-268 | every row in order, or none, wherever the transaction fails |
| BatchedSink.Sink.WriteSample | internal/storage/sink.go:120-140 | drop-oldest only at the cap; the flush signal at the threshold |
| BatchedSink.Sink.WriteRouteChange | internal/storage/sink.go:145-150 | appended, never dropped |
| BatchedSink.Sink.DrainBuffers | internal/storage/sink.go:158-167 | takes both buffers whole |
| BatchedSink.Sink.Requeue | internal/storage/sink.go:278-302 | the batch goes back in front of what arrived since, the oldest beyond the cap counted as dropped |
| BatchedSink.Sink.Flush | internal/storage/sink.go:155-195 | commits everything buffered, or leaves everything buffered |
| BatchedSink.Sink.LogDropped | internal/storage/sink.go:307-320 | reports and resets the count |
| BatchedSink.RunConserves | internal/storage/sink.go:120-302 | under any interleaving: table, in-flight and buffer are an in-order subsequence of the accepted samples, exactly the counted drops missing, buffer bounded; route changes exact |
| BatchedSink.CleanShutdownIsExact | internal/storage/sink.go:98-104 | a committed last flush leaves nothing behind, and the accepted samples exactly if nothing was ever dropped |
| BatchedSink.DropsOnlyOverCap | internal/storage/sink.go:122-128 | a step drops exactly the excess over the cap, oldest first |
| Prober.FullRoundFailsIff | internal/probe/icmp.go:226-235 | a full round of the counter finds nothing if and only if all 65536 numbers are pending |
| Prober.SameNumberApart | internal/probe/icmp.go:223-230 | one number given out twice is at least a whole round of the counter apart |
| Prober.Allocator.Register | internal/probe/icmp.go:217-236 | fails if and only if closed or all numbers are pending; else the first free one from the counter on, with a fresh empty channel |
| Prober.Allocator.Unregister | internal/probe/icmp.go:240-244 | frees that number |
| Prober.Allocator.Deliver | internal/probe/icmp.go:249-263 | fills the waiting probe's empty channel and no other; a full one keeps what it has |
| Prober.RepliesAlways | internal/probe/icmp.go:217-263 | exactly the live probes are pending, and every delivered or carried reply was found for a live probe |
| Prober.RepliesReachTheirProbe | internal/probe/icmp.go:238-263 | a reply in a channel was found for that probe while registered, and answers its own packet or one at least 65536 numbers back; so one looked up before unregister never reaches a later reuse |
| Prober.NumbersAreExclusive | internal/probe/icmp.go:217-236 | no two live probes share a number |
| Prober.ParsesIff | internal/probe/icmp.go:361-378 | a quoted packet parses to (id, number) if and only if it is a header of its stated length, at least 20 bytes, followed by an Echo request with them |
| Prober.QuotedEchoParses | internal/probe/icmp.go:361-378 | the recovering half, for every header length |
| Prober.AnswersLeadBack | internal/probe/icmp.go:322-345 | echo reply, time exceeded and unreachable all lead back to the number sent, whatever IP options and trailing bytes |
| Rdns.IncrementalIsFull | internal/storage/rdns.go:40-101 | the scan from the watermark finds what a full scan would if and only if everything under the watermark is settled |
| Rdns.AgreesAlways | internal/rdns/resolver.go:180-243 | that holds over every run of clipped batches, failed upserts, cancelled cycles and rows inserted or deleted mid-cycle, while inserts are safe |
| Rdns.BooksRightIff | internal/rdns/resolver.go:180-243 | inserts being safe is exact: every one is if and only if the worker's books are right after every step |
| Rdns.BooksWrongMisses | internal/rdns/resolver.go:233-243 | the books are wrong if and only if an address is missed, now or once the cycle in progress runs its course |
| Rdns.InsertBreaksIff | internal/storage/rdns.go:61-101 | an insert makes the worker miss an address if and only if it is unsettled and its row id is passed already, or about to be passed by an unclipped, unfailing scan with no lookup of it to come |
| Rdns.WipedRowsAreReused | internal/storage/retention.go:85-105 | which happens: wipe the newest target's rows, and the next new address is never looked up |
| Rdns.WipedMidCycle | internal/storage/retention.go:85-105 | and while a batch resolves: the finishing cycle passes the new address |
| Rdns.SampleStore.UnresolvedIPs | internal/storage/rdns.go:61-101 | distinct wanted addresses, all of them unless the limit is reached, and the newest row id |
| Rdns.SampleStore.UpsertRDNS | internal/storage/rdns.go:115-129 | one row per address; no name is recorded as tried |
| Rdns.SampleStore.DeleteTargetHistory | internal/storage/retention.go:85-105 | samples and route changes of that target go together or not at all, the rest stay in order, and the gone are counted |
| Rdns.Resolver.RunOnce | internal/rdns/resolver.go:180-243 | for every lookup, upsert failure and cancellation, exactly one cycle of the worker's events over a batch the query may return |
| Rdns.CycleKeeps | internal/rdns/resolver.go:233-243 | whatever fails in it, a cycle keeps the agreement |
| Rdns.CleanCycle | internal/rdns/resolver.go:233-243 | a cycle without failures settles a wanted row or brings the watermark to the newest row |
| Rdns.CatchUp | internal/rdns/resolver.go:156-174 | without failures or new rows the watermark reaches the newest row within one cycle more than there are unsettled rows |
| Rdns.CycleRecords | internal/rdns/resolver.go:180-231 | a cycle records of each address it gets to the name the lookup gave, or that there is none, and touches no other |
| LogRing.Ring.Append | internal/logring/logring.go:49-59 | the slot at number modulo capacity keeps the newest entries readable |
| LogRing.Ring.Since | internal/logring/logring.go:64-91 | exactly what was logged later and is still held, oldest first, cut to the newest `limit` |
| LogRing.PollIsCompleteIff | internal/logring/logring.go:64-91 | a poll misses nothing if and only if no more than capacity and limit were logged since the last, and one that does is as full as they allow |
| LogRing.PollsNeverRepeat | internal/logring/logring.go:61-91 | a client is given each entry at most once, in order, as logged |
| LogRing.PromptPollsMissNothing | internal/logring/logring.go:61-91 | prompt polls add up to the whole log |
| Bands.FileSamples | web/src/lib/bands.js:43-51 | indexes the samples by timestamp and hop |
| Bands.FiledIsLatest | web/src/lib/bands.js:43-51 | what is filed is the last sample of each |
| Bands.Classify | web/src/lib/bands.js:57-97 | the nested loops compute the window's loss for the hop and those behind it |
| Bands.WindowMeaning | web/src/lib/bands.js:57-78 | a window counts something exactly when one of its hops is heard, and loss exactly when one goes unanswered |
| Bands.RateLimitingIsForgiven | web/src/lib/bands.js:86-91 | a lossy hop gets no band while a hop behind it is heard and none behind it loses anything |
| Bands.TargetIsJudgedAlone | web/src/lib/bands.js:33-39 | the last hop is judged by its own loss |
| Bands.BehindMeaning | web/src/lib/bands.js:37-39 | the hops behind are those of the path beyond the selected one |
| Bands.JudgedByCounts | web/src/lib/bands.js:80-96 | red, orange and yellow from seven, four and two tenths missed, unless the hops behind miss less than half of that share |
| Bands.HealthyPathIsForgiven | web/src/lib/bands.js:37-96 | no color while some hop of the path beyond is heard in the window and none misses anything |
| Bands.ComputeBands | web/src/lib/bands.js:30-113 | merging extends, opens and closes bands as the classification changes |
| Bands.PaintedBack | web/src/lib/bands.js:98-112 | painting the bands shows every timestamp in exactly its classified color |
| Bands.BandsAreMaximal | web/src/lib/bands.js:98-112 | bands are in order, apart, and as long as they can be |

## Left out

- SQL text, SQLite's own locking, HTTP, JSON, sockets, DNS, files and systemd: a statement, request or lookup is a parameter saying how it ends.
- Real timers, goroutine scheduling and channel buffering, other than as steps in any order.
- Floating point: baselines and loss shares are exact reals; RTTs on the wire are any value the probe's division may round to, and central's product is exact in the tables.
- Time-zone data: local time is a partial map from day and clock reading to instant.
- `RecordIngestBatch` and sample retention by age: the first is the older half of `IngestBatch`, the second never touches the dedup log.
- Batch ids are numbers standing for their fixed-width hex text; that the generator never repeats one is assumed by the `Flush` event.
- Token and request checks before the rows are reduced to their outcomes, and binary checksums, release lookup and the choice of rollout candidates to the result they hand on.
- The update cancel handler refuses an applying row before it deletes; the two are separate statements, so a delete is modelled as possible at any time.
- `baseVersion` and path building: versions are compared as already stripped.
- A commit that takes effect but reports an error: the buffered writer would store that batch again, which the model's commit step excludes.
- An operator's clear in the middle of a tick: the tick reads the rows once at its start, so clears are placed between ticks.
- Schedule.Runner.Execute: whether a result is under the baseline is given to it; pausing ICMP and the command line of the test are not modelled.
- Alert history rows and the wording of messages, which is a parameter; local time zones are whole minutes from UTC.
- The annotation, bundle, tab, configuration and target tables, and the user interface beyond the bands.
- Log handlers around the ring, and slog levels.
- Quiesce.Store.CheckpointWAL: called with the gate about to be granted; that it is granted at all is `Quiesce.Converges`.
- Rdns.AgreesAlways: assumes a batch size of at least one, as the default configuration sets; with zero the query returns nothing and the watermark would run ahead.
- Rollout.NextOnlyAfterConfirmed: for runs without misfired success writes, which the code admits; the run in which the line moves on is shown beside it.
- Alert.ChronologicalIff: lines of different minutes are taken to have different texts, since equal texts cannot be told apart.
- Wire.RoundAbsorbs: the rows other results speak of take central's product as exact.
- AlertPairing.BrokenShows: for a rate limit of at least one, since with zero no alert outside quiet hours is ever accepted.
