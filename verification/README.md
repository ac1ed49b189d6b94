# GAPGUARD delivery path: model and proofs

The edge runtime samples two sensors at a fixed rate, aggregates each second into a window, decides a
status, writes numbered messages into a durable outbox and replays the outbox over an unreliable
transport. A bridge routes the messages to topics and consumers store them idempotently. The project
models this path in Dafny and proves what the path is for: whatever threads, crashes, failed sends and
replays do, the telemetry table ends up with exactly the committed telemetry, each message once.

`dafny verify dfyconfig.toml` checks everything.

## How the model is organised

The algorithms and objects, each class proved against specification functions:

| module | what it models |
|---|---|
| Message, MessageBuilder | message identity, data hash, builders, the validation shared by bridge and consumers |
| Contract | what the built messages say field by field, and the published JSON schemas |
| Blackbox | the outbox table and the sequence allocator, one function per committed statement or transaction |
| Health | the connection monitor: hysteresis over send results |
| Sampling, Rules | window aggregation and status decisions, over the reals |
| Collector | deadline scheduling and window assembly under an arbitrary clock, reader, stop signal and queue |
| Pipeline | decided windows, read errors and transitions become sequenced messages |
| Workers | the loop bodies of spooler and sender on the objects above, undisturbed by other threads |
| Bridge, Store | in-memory topics with duplicate detection, the telemetry table and its consumer |
| Retry, Kafka | bounded retry, dead letters, commit after success |

The protocol: `Runtime` is a transition system with one program counter per thread. `Main` is `start`
and `stop`, `Collect`, `Spool` and `Send` are the three workers, cut where another thread can come in
between. A worker can fail at any point; it then records the failure and raises the stop flags and the
drain event one by one (`RecordFailure`) while the others run on. The process can die at any point
(`CrashAndRebuild`) or end in order (`EndAndRebuild`), and a new runtime is built on the same tables. A
send may fail before or after the transport passed the message on. The outbox, the sequence table and the
history variables survive the process; queues, events, hands, counters and the monitor do not. Every
action is total, so a run is any sequence of actions. `RuntimeOutbox`, `RuntimeItems`, `RuntimeWakeup` and
`RuntimeLog` each prove one invariant over all runs and what it means; `RuntimeWitness` walks through runs
that show their conditions are needed, `RuntimeStop` shows when `stop` comes to an end, and
`RuntimeOverlap` adds the sender that `stop` leaves behind when its join times out. `EndToEnd` puts runtime, bridge and consumer into one system, and `Fleet` any number of
edges with one bridge and one consumer. The lemmas at the end of `Workers` tie the loops to the steps of
`Runtime`.

## Findings

Some promises hold only under a condition. For each the model gives the condition and an input or a run
that violates the promise without it.

- A message with a null site, section, device or time passes every check, is skipped by the insert and
  counted as a duplicate: it is neither in the table nor in a dead letter. Exact condition:
  `Store.ConsumedMeansStored`; example: `Store.NullIsCountedNotStored`.
- "Commit implies handled": a session in which a poll raised and that polls on can commit past records
  nobody handled. Exact condition, with and without a dead-letter publisher: `Kafka.PollingOnIsSafeIff`;
  a session that restarts after each raised poll always meets it (`Kafka.CaughtUpMayPollOn`,
  `Kafka.CommittedIsHandled`); example with the default settings: `Kafka.RejectedMessageSkipped`.
- The default storage path of that consumer is in memory. Restarting it then resumes behind rows that are
  gone. Over whole runs that poll from the committed offset and restart anywhere, "commit implies handled"
  holds exactly if the store is on disk, no attempt is allowed, or no storable record of the topic can ever
  be committed (`Kafka.CommittedStaysHandledIff`); example: `Kafka.MemoryForgets`.
- Exactly once holds for a fleet of edges on one bridge exactly if no two edges share their run and stream.
  Two devices of one section with the default run and stream do; the numbers are per device, so they issue
  the same event ids, and the store keeps one row for two messages. Exact condition:
  `Fleet.ExactlyOnceIffDistinct`; example: `Fleet.SharedIdentityLoses`.
- `stop` gives the sender two seconds. If the next `start` comes while a send is still under way, there are
  two senders on one outbox and delivered ids can go back (`RuntimeOverlap.OverlapGoesBack`). As long as no
  `start` comes while an earlier sender is alive, first in, first out holds all the same
  (`RuntimeOverlap.FifoWithoutOverlap`).
- Without its time-outs `stop` could wait for ever: on a stale sentinel the spooler ends at once, the queue
  fills up and the collector waits for room (`RuntimeWitness.StopCanGetStuck`). Exact condition, on the queue
  that `stop` finds: `RuntimeStop.StopReturnsIff`. Unless it holds every fair schedule in which neither spooler
  nor sender fails brings `stop` to its end (`RuntimeStop.StopReturns`); a session that began without a
  sentinel never meets it (`RuntimeStop.CalmSessionReturns`).
- The event id determines run, stream and number only if runs or streams have no colon. Nothing in the
  code checks this; contracts/common-message-v3.schema.json:14-17 demands it, and the example in
  docs/p0-architecture.md:254 breaks it. Exact condition: `Message.EventIdExact`; example:
  `Message.EventIdCollision`.
- What the edge writes keeps the published schemas exactly if the configuration names site, section and
  device, has a known source type, and run and stream have no colon (`Contract.TelemetryConforms`,
  `Contract.EventConforms`). edge/edge_monitor/config.py:66-70 checks all of this but the colons.
- A spooler that has ended has committed everything put before it, in every session in which neither
  spooler nor sender fails and whose start() found no sentinel in the queue
  (`RuntimeItems.EndedSpoolerCommittedEverything`). A failing spooler can leave a sentinel behind
  (`RuntimeWitness.SentinelCanStay`), and then, and only then, can a later session strand items though
  nothing fails in it (`RuntimeWitness.StaleSentinelIff`). A failing sender or spooler can strand one in its
  own session (`RuntimeWitness.SenderFailureStrandsItem`, `RuntimeWitness.SpoolerFailureStrandsItem`).
- The connection events and decisions committed in a lifetime are in order all that the monitor announced
  and the rules decided, exactly if no spooler failed with one in hand
  (`RuntimeLog.ConnectionsFollowMonitor`, `RuntimeLog.IncidentsFollowDecisions`). A runtime started again
  after such a failure goes on with the next one (`RuntimeWitness.TransitionCanBeLost`,
  `RuntimeWitness.DecisionCanBeLost`).
- Samples never burst, not even across read failures (`Collector.NoBurst`), but attempts can: after a
  failed read the deadline moves on without a sleep (`Collector.FailuresMayBurst`).

The comment in edge/edge_monitor/processing.py:180-184 calls the handoff lossless. The code gives up a
finished item when a stop arrives while the queue is full, and records that as a worker failure; the
proofs follow the code.

## Model

| member | source | states |
|---|---|---|
| EndToEnd.ExactlyOnce | streaming/consumers/telemetry_storage.py:42-107 | after any interleaving of workers and consumer, with crashes, failed and ambiguous sends, calls cut short and restarts from any saved offset: outbox empty and consumer caught up imply that the table is exactly the telemetry ever committed, each once, in commit order |
| EndToEnd.TableFollowsLog | edge/edge_monitor/runtime.py:212-281 | at every moment the table is a beginning of the rows of the committed telemetry |
| EndToEnd.StoredWasCommittedOnce | streaming/bridge/in_memory.py:29-46 | every stored row was committed by the edge with the same content, and no event id is stored twice |
| EndToEnd.EventuallyExactlyOnce | edge/edge_monitor/runtime.py:251-281 | from any reachable state with the collector ended and the sender up, enough draining rounds and one consumer call lead to an empty outbox and the complete table |
| EndToEnd.RepeatsCollapse | streaming/consumers/telemetry_storage.py:52-69 | however often deliveries repeat, one pass over their topic leaves each committed telemetry row once |
| Fleet.ExactlyOnceIffDistinct | edge/edge_monitor/contracts/message_builder.py:63-63 | any number of edges on one bridge: in every interleaving, outboxes empty and consumer caught up imply that the table is all telemetry committed by all edges, each once and in each edge's order, exactly if no two edges share run and stream joined |
| Fleet.ExactlyOnce | streaming/bridge/in_memory.py:29-46 | the positive half, for every event sequence |
| Fleet.SharedIdentityLoses | edge/edge_monitor/pipeline.py:41-42 | for any two edges that share them, a run after which a committed message has no row |
| Fleet.RepeatsCollapse | streaming/consumers/telemetry_storage.py:52-69 | one pass over any interleaving of repeating deliveries leaves exactly the delivered telemetry of all edges |
| Fleet.EdgesRun | edge/edge_monitor/runtime.py:83-132 | the edges do not influence each other: each makes a run of its own |
| RuntimeOutbox.StutteringFifo | edge/edge_monitor/runtime.py:260-278 | in every run delivered ids never go back; without adjacent repeats they are the positions 1..d of the commit order with the messages committed there; d is the number acknowledged or one more |
| RuntimeOutbox.OutboxIsUnacknowledgedTail | edge/edge_monitor/storage/blackbox.py:167-197 | the outbox is the unacknowledged tail of the commit log, only its head can have attempts, and these are its recorded failures, across restarts |
| RuntimeOutbox.SnapshotStaysValid | edge/edge_monitor/runtime.py:263-278 | throughout the send loop the unsent rest of the batch is a prefix of the live outbox despite concurrent appends |
| RuntimeOutbox.FreshNumbers | edge/edge_monitor/storage/blackbox.py:67-91 | numbers strictly increase in commit order over all lifetimes; with n rows and c crashes or spooler failures the allocator is between n and n + 2c plus the numbers in hand; with c = 0, orderly restarts included, the numbers are 1..n |
| RuntimeOutbox.NothingIgnored | edge/edge_monitor/storage/blackbox.py:142-165 | INSERT OR IGNORE never ignores a message of the runtime |
| RuntimeOutbox.StepKeeps | edge/edge_monitor/runtime.py:180-338 | every step of every thread, failure and crash keeps the outbox invariant: mirror of the log, valid snapshot, delivery in order, accounted numbers |
| RuntimeOutbox.LifecycleKept | edge/edge_monitor/runtime.py:283-338 | which workers can be alive at each point of start and stop |
| RuntimeItems.EveryItemAccountedFor | edge/edge_monitor/runtime.py:180-249 | every completed window or read error is in exactly one place: committed, in a hand, queued, dropped by a recorded failure, or lost with a process; order is kept, a failure drops at most one item, a crash loses at most queue size + 2, an orderly end only what a failed session left queued |
| RuntimeItems.EndedSpoolerCommittedEverything | edge/edge_monitor/runtime.py:188-222 | when the spooler has ended in a session in which neither it nor the sender failed and which started without a sentinel in the queue, everything put before has been committed and nothing is left in memory, also when the collector gave up an item; without a recorded failure every session is such |
| RuntimeItems.LogRepresentsItems | edge/edge_monitor/runtime.py:224-241 | telemetry and sensor-error rows stand for the committed items, one row each, in order of completion, with the item's own content |
| RuntimeItems.StepKeeps | edge/edge_monitor/runtime.py:180-249 | every step keeps the line of items: it only moves on, grows at its end, or loses items to a named cause |
| RuntimeItems.CalmKept | edge/edge_monitor/runtime.py:188-222 | in such a session the sentinel is last in the queue and the spooler is told to stop only after the collector ended |
| RuntimeWakeup.NoLostWakeUp | edge/edge_monitor/runtime.py:255-260 | in every run a sender that waits with rows pending, not stopped and not after a failed pass, has the drain event set or about to be set by the thread that appended or found the rows, even if that thread has failed meanwhile |
| RuntimeWakeup.StopWakesSender | edge/edge_monitor/runtime.py:327-337 | in every run a waiting sender that has been told to stop has the drain event set or about to be set by stop() or the worker that failed |
| RuntimeWakeup.FlushWakesSender | edge/edge_monitor/runtime.py:304-306 | the event set by flush() stays set until the sender moves, whatever the others do |
| RuntimeWakeup.ClearedStaysClear | edge/edge_monitor/runtime.py:256-257 | the event is cleared when the sender wakes and stays clear until flush(), start(), stop(), a commit or a failing worker sets it, so a backoff is waited out |
| RuntimeWakeup.FetchesBatch | edge/edge_monitor/runtime.py:263-263 | a batch is the beginning of the outbox, as long as the batch size allows |
| RuntimeWakeup.BackoffFollowsFailures | edge/edge_monitor/runtime.py:254-278 | the backoff is min(30, 2^k), k being exactly the number of failed sends since the last success or the sender's start |
| RuntimeWakeup.DrainTerminates | edge/edge_monitor/runtime.py:199-281 | once sends stop failing and the collector has ended, any fair schedule of as many rounds as the state's potential empties the outbox, recovery event included, with everything delivered and acknowledged |
| RuntimeWakeup.DrainingStep | edge/edge_monitor/runtime.py:199-281 | one spooler step or accepted send never raises the potential, and lowers it when the moving thread has work |
| RuntimeLog.IncidentsArePaired | edge/edge_monitor/pipeline.py:66-109 | each incident row directly follows its telemetry in the same transaction, with the next number, pointing back at it and repeating its status, which is not NORMAL, its times and the violations of its window; no other rows share a transaction |
| RuntimeLog.IncidentsFollowDecisions | edge/edge_monitor/runtime.py:226-242 | over a process lifetime telemetry and incident rows are in order the decisions of a rule engine starting at NORMAL for the windows given, whatever lies in between, and all of them exactly when no spooler failed with a decided window in hand |
| RuntimeLog.LifetimeIncidentsBounded | edge/edge_monitor/rules.py:131-139 | the incident rows of a lifetime are at most two per fall of the status, plus two |
| RuntimeLog.ConnectionsFollowMonitor | edge/edge_monitor/runtime.py:196-210 | connection rows, then the one in the spooler's hand, then the queued ones are in order what the monitor announced, and all of it exactly when no spooler failed with a transition in hand; then the rows alternate; each announcement is paid for by its own results |
| RuntimeLog.BornConnected | edge/edge_monitor/runtime.py:118-122 | in every run a process has begun connected exactly if every row committed before it began had been acknowledged |
| RuntimeLog.BornClean | edge/edge_monitor/runtime.py:107-132 | a process begins with no worker, order, recorded failure or queued item, with a rule engine at NORMAL and a monitor that has seen nothing |
| RuntimeLog.FirstTransition | edge/edge_monitor/runtime.py:49-69 | a process begun over a backlog announces nothing before its recovery limit of accepted sends in a row and RECOVERED right then; begun with all acknowledged, nothing before its failure limit and LOST right then |
| RuntimeLog.LogIsWritable | edge/edge_monitor/contracts/message_builder.py:136-139 | every committed message is one the builders accept |
| RuntimeWitness.StaleSentinelIff | edge/edge_monitor/runtime.py:212-221 | an undisturbed session can end its spooler with items left in memory exactly when start() finds a sentinel of an earlier session in the queue |
| RuntimeWitness.SentinelCanStay | edge/edge_monitor/runtime.py:188-194 | a reachable stopped runtime whose queue holds only a sentinel |
| RuntimeWitness.SenderFailureStrandsItem | edge/edge_monitor/runtime.py:134-143 | a reachable state in which the spooler has ended because the sender failed, while the collector holds an item |
| RuntimeWitness.SpoolerFailureStrandsItem | edge/edge_monitor/runtime.py:150-154 | a reachable state in which the spooler has failed while the collector holds an item |
| RuntimeWitness.StopCanGetStuck | edge/edge_monitor/runtime.py:319-333 | a reachable state from which no further step of any thread lets stop() past the collector's join, if that join had no time-out |
| RuntimeStop.StopReturnsIff | edge/edge_monitor/runtime.py:319-338 | while stop() waits for the collector: whatever the threads do short of a failing spooler or sender, stop() can still return, exactly if no sentinel that ended or will end the spooler leaves so much behind it that the queue is full, the item in the collector's hand included |
| RuntimeStop.StopReturns | edge/edge_monitor/runtime.py:188-194 | unless that holds stop() does return under every schedule that lets each thread move in each round, after as many rounds as the state's distance and twenty for each transition announced meanwhile, whether sends pass or not |
| RuntimeStop.CalmSessionReturns | edge/edge_monitor/runtime.py:327-338 | the same from any point of stop() in every session that began without a sentinel and in which neither spooler nor sender failed |
| RuntimeStop.StepCloser | edge/edge_monitor/runtime.py:180-281 | no step takes stop() further from its end, but for announced transitions; one of a thread with work brings it closer, and work of the others stays |
| RuntimeStop.NeverClogs | edge/edge_monitor/runtime.py:188-222 | once stop() waits no step without a failure leads into the condition |
| RuntimeOverlap.FifoWithoutOverlap | edge/edge_monitor/runtime.py:327-338 | even if stop() leaves its sender behind, delivery stays first in, first out with repeats as long as no start() comes while an earlier sender is alive |
| RuntimeOverlap.OverlapGoesBack | edge/edge_monitor/runtime.py:260-278 | a run in which start() comes earlier, two senders work on one outbox, and delivered ids go back |
| RuntimeOverlap.MoveSimulated | edge/edge_monitor/runtime.py:327-338 | until then each step is one of a runtime that waits on |
| RuntimeWitness.DecisionCanBeLost | edge/edge_monitor/runtime.py:233-240 | a reachable state whose rows are not all that the rule engine decided |
| RuntimeWitness.TransitionCanBeLost | edge/edge_monitor/runtime.py:199-210 | a reachable state, after stop and start, whose connection rows are no prefix of what the monitor announced |
| Workers.EdgeRuntime.SendPass | edge/edge_monitor/runtime.py:260-281 | the batch loops of the sender leave outbox, transport, monitor, transition queue and backoff as sending row after row does, for any batch size |
| Workers.EdgeRuntime.SendOne | edge/edge_monitor/runtime.py:264-278 | one row: acknowledged and reported as success, or marked and reported as failure |
| Workers.PassExact | edge/edge_monitor/runtime.py:260-281 | a pass removes exactly the rows before the first refusal, marks the refused one, delivers these payloads, and reports that many successes and at most one failure |
| Workers.EdgeRuntime.DrainTransitions | edge/edge_monitor/runtime.py:199-210 | every waiting transition becomes one event row, in order, with consecutive numbers |
| Workers.EdgeRuntime.SpoolTransition | edge/edge_monitor/runtime.py:205-208 | one transition becomes one numbered connection event |
| Workers.EdgeRuntime.SpoolItem | edge/edge_monitor/runtime.py:223-241 | an item's messages get consecutive numbers and enter the outbox in one transaction; the drain event is set |
| Workers.EdgeRuntime.SpoolWindow | edge/edge_monitor/runtime.py:233-240 | a window enters as telemetry and, if its status rose, the incident after it |
| Workers.EdgeRuntime.SpoolError | edge/edge_monitor/runtime.py:226-230 | a read error enters as one sensor-error event |
| Workers.EdgeRuntime.EnqueueTransition | edge/edge_monitor/runtime.py:196-197 | an announced transition joins the end of the queue |
| Workers.ThreeStepsSendHead | edge/edge_monitor/runtime.py:264-278 | three atomic sender steps do what the loop body does |
| Workers.StepsSpoolItem | edge/edge_monitor/runtime.py:223-241 | the atomic spooler steps for an item leave the tables and the rule engine as SpoolItem does |
| Workers.StepsSpoolTransition | edge/edge_monitor/runtime.py:199-210 | the atomic spooler steps for a transition leave in the tables the event that SpoolTransition puts there, with the time of the observation |
| Collector.FixedRateCollector.CollectToQueue | edge/edge_monitor/processing.py:172-256 | what is queued is the assembly of the reads, and each item tells of its own stretch of them: a window has the time of its last sample, the means, root mean square and peak of its samples, an error the failed read and how far the window had come; with no stop exactly `count` items are put; at most the one finished item in hand is given up, only when stopped; deadlines and lateness follow the schedule |
| Collector.FixedRateCollector.CollectWindow | edge/edge_monitor/processing.py:194-220 | the inner loop ends with a full window, a read error, or a stop |
| Collector.FixedRateCollector.TakeSample | edge/edge_monitor/processing.py:201-220 | one read keeps the schedule and the lateness record |
| Collector.FixedRateCollector.Put | edge/edge_monitor/processing.py:241-252 | the item is put, or given up only when the stop signal is seen |
| Collector.FixedRateCollector.constructor | edge/edge_monitor/processing.py:116-137 | window size and period from the rates; windows are aggregated with the square root given |
| Collector.ItemsPartitionReads | edge/edge_monitor/processing.py:190-239 | each summary covers exactly window-size consecutive successful reads, each error a strictly partial window and the failed read, and no read is in two items or skipped |
| Collector.AssembledTell | edge/edge_monitor/processing.py:190-239 | whatever the reads, the items that come of them tell in turn of consecutive stretches |
| Collector.QueuedQuietIsNormal | edge/edge_monitor/processing.py:238-239 | a queued window whose own samples keep under the warning limits is NORMAL |
| Collector.QueuedShockIsDanger | edge/edge_monitor/processing.py:238-239 | a queued window with one read at or above the danger peak is DANGER |
| Collector.LatenessExact | edge/edge_monitor/processing.py:258-263 | the lateness kept is the largest there was, in milliseconds |
| Collector.NoBurst | edge/edge_monitor/processing.py:198-256 | after a successful read i, read j starts at least as many periods later as there are successful reads from i on, less two, whichever reads fail in between |
| Collector.DeadlinesAdvance | edge/edge_monitor/processing.py:215-256 | deadlines never move back, failures included, and move on by at least a period per success |
| Collector.NeverEarly | edge/edge_monitor/processing.py:215-220 | no sample starts before its deadline |
| Collector.StepPaced | edge/edge_monitor/processing.py:215-220 | a new deadline is at most a period behind the read before it |
| Collector.FailuresMayBurst | edge/edge_monitor/processing.py:255-256 | the schedule admits n failing attempts at the same instant |
| Sampling.RmsAndPeak | edge/edge_monitor/processing.py:80-89 | rms^2 <= peak^2 <= n * rms^2 and rms <= peak |
| Sampling.WindowDescribes | edge/edge_monitor/processing.py:92-110 | a window is aggregated exactly if it has the expected size; size, time of the last sample, and for either sensor the summary of its own samples |
| Sampling.SummaryDescribes | edge/edge_monitor/processing.py:80-89 | tilt times size is the sum of tilts, squared rms times size the sum of squared accelerations, and the squared peak is the largest of these and attained |
| Sampling.PeakFacts | edge/edge_monitor/processing.py:83-88 | the peak is the largest magnitude of the window and is attained |
| Sampling.RelativeTiltIsMeanDifference | edge/edge_monitor/rules.py:91-92 | the relative tilt of a window is the mean of the per-sample differences |
| Rules.StatusMeaning | edge/edge_monitor/rules.py:79-136 | DANGER exactly if one of relative tilt X, relative tilt Y, top and bottom rms, top and bottom peak reaches its own danger limit; NORMAL exactly if all six are under their warning limits |
| Rules.DecisionMeaning | edge/edge_monitor/rules.py:79-139 | field by field: each metric has a violation under its name with value, limit and severity exactly if it reaches a limit; the order of metrics; when an incident is due |
| Rules.ViolationsExact | edge/edge_monitor/rules.py:79-131 | the violations are exactly the readings at or above a limit, each with the highest limit reached |
| Rules.StatusMonotone | edge/edge_monitor/rules.py:79-136 | if none of the six values moves away from zero, the status does not rise |
| Rules.QuietWindowIsNormal | edge/edge_monitor/rules.py:90-136 | a window whose every sample is under all warning limits is NORMAL |
| Rules.OneShockIsDanger | edge/edge_monitor/rules.py:118-136 | one sample at or above the danger peak makes the window DANGER |
| Rules.IncidentsAreRises | edge/edge_monitor/rules.py:137-138 | an incident is announced exactly where the rank of the status sequence rises |
| Rules.IncidentsPaidFor | edge/edge_monitor/rules.py:137-138 | incidents and starting rank are paid for by the final rank and two per fall |
| Rules.IncidentsBounded | edge/edge_monitor/rules.py:131-139 | from NORMAL, at most two incidents per fall of the status, plus two |
| Rules.RuleEngine.Evaluate | edge/edge_monitor/rules.py:90-139 | the decision that DecisionMeaning describes, and the remembered status |
| Health.StateIsLastDecision | edge/edge_monitor/runtime.py:49-69 | the connection state is fixed by the last point of the history that ends F failures or R successes in a row, the initial state if there is none |
| Health.CountersAreStreaks | edge/edge_monitor/runtime.py:49-69 | the live counter is the streak that ends the history, and stays under its limit |
| Health.TransitionsAlternate | edge/edge_monitor/runtime.py:53-68 | LOST and RECOVERED strictly alternate |
| Health.TransitionsArePaidFor | edge/edge_monitor/runtime.py:53-68 | F times the LOST plus R times the RECOVERED is at most the number of observations |
| Health.FirstAnnouncement | edge/edge_monitor/runtime.py:49-69 | nothing is announced before the first streak against the initial state is complete, and there LOST or RECOVERED |
| Health.ConnectionHealthMonitor.ObserveResult | edge/edge_monitor/runtime.py:49-69 | counters, state and announcement after one send result |
| Pipeline.WireIsAccepted | edge/edge_monitor/pipeline.py:66-155 | whatever the pipeline writes passes process_message with its kind and identity, and the outbox takes it under its device and number |
| Pipeline.WritableIsWritten | edge/edge_monitor/contracts/message_builder.py:122-152 | the builders accept a message exactly when it is not an incident with status NORMAL |
| Pipeline.WireSays | edge/edge_monitor/pipeline.py:66-155 | for telemetry, incident, sensor error and connection event: every field, its name and its value, all details, and nothing else |
| Pipeline.WindowSays | edge/edge_monitor/pipeline.py:72-109 | telemetry and incident of one window on their fields: numbers, times, status, relatedSeqNo, violations |
| Pipeline.WireConforms | contracts/edge-event-v3.schema.json:6-41 | whatever the pipeline writes keeps its published schema, exactly if the configuration does |
| Contract.TelemetrySays | edge/edge_monitor/contracts/message_builder.py:71-119 | telemetry can be built exactly for a known status, a number and named run and stream, and then says what the window says |
| Contract.EventSays | edge/edge_monitor/contracts/message_builder.py:122-152 | an event can be built exactly for a listed type and severity, a number and named run and stream, and then says what was asked |
| Contract.TelemetryConforms | contracts/edge-telemetry-v3.schema.json:6-41 | built telemetry keeps its schema exactly if site, section and device are named, the source type is known, and run and stream have no colon |
| Contract.EventConforms | contracts/edge-event-v3.schema.json:6-41 | the same for events |
| Contract.IdPatternExact | contracts/common-message-v3.schema.json:14-17 | the id of a built message has the published form exactly if run and stream have no colon |
| Pipeline.EdgePipeline.Process | edge/edge_monitor/pipeline.py:66-118 | telemetry takes the next number and an incident the one after, and both say so in their fields: values of the summary, status, relatedSeqNo equal to the number of the telemetry, severity equal to its status, the violations of the decision; allocator, rule engine and the whole latest state after it |
| Pipeline.EdgePipeline.BuildSensorError | edge/edge_monitor/pipeline.py:120-139 | a sensor-error event under the next number, with the counts and the reason of the error in its details |
| Pipeline.EdgePipeline.BuildConnectionEvent | edge/edge_monitor/pipeline.py:141-155 | a connection event under the next number, with the type, severity and reason of LOST or RECOVERED |
| Pipeline.EdgePipeline.NextSequence | edge/edge_monitor/pipeline.py:60-64 | one reservation in the persistent allocator |
| Blackbox.SQLiteBlackbox.NextSequence | edge/edge_monitor/storage/blackbox.py:67-91 | the number after the last for this device, no other device disturbed; an empty device id changes nothing |
| Blackbox.SQLiteBlackbox.Enqueue | edge/edge_monitor/storage/blackbox.py:128-140 | a message that is not sealed with its digest, or lacks device, number or time, is refused without effect; any other becomes one row under the next id, unless a row of its device, type and number is there |
| Blackbox.SQLiteBlackbox.EnqueueMany | edge/edge_monitor/storage/blackbox.py:142-165 | all or nothing, all exactly if every message may be buffered; returns the number of rows added |
| Blackbox.SQLiteBlackbox.GetPending | edge/edge_monitor/storage/blackbox.py:167-184 | the first rows of the outbox, as many as the limit allows |
| Blackbox.SQLiteBlackbox.Acknowledge | edge/edge_monitor/storage/blackbox.py:186-189 | the row with this id is cut out and the rows before and after it stay in order; an unknown id changes nothing |
| Blackbox.SQLiteBlackbox.RecordFailure | edge/edge_monitor/storage/blackbox.py:191-197 | the attempts of the row with this id grow by one; ids, entries, order and all other attempts stay |
| Blackbox.InsertKeepsOrder | edge/edge_monitor/storage/blackbox.py:131-140 | an insert appends or does nothing, keeps keys unique and ids increasing, and repeating it changes nothing |
| Blackbox.InsertAllKeepsOrder | edge/edge_monitor/storage/blackbox.py:149-162 | a transaction only appends, and every message given is in the table afterwards |
| Blackbox.InsertAllFresh | edge/edge_monitor/storage/blackbox.py:149-162 | with free keys a transaction adds exactly its rows, in order |
| Blackbox.WithoutExact | edge/edge_monitor/storage/blackbox.py:186-189 | deleting by id removes that row and no other |
| Blackbox.ReserveManyMoves | edge/edge_monitor/storage/blackbox.py:75-86 | n reservations move a device's number on by n and disturb no other device and no row |
| Blackbox.PrepareAllStops | edge/edge_monitor/storage/blackbox.py:149-149 | one invalid message refuses the whole list |
| Blackbox.PrepareMeans | edge/edge_monitor/storage/blackbox.py:93-126 | what may be buffered, on the fields of the message, and the row it becomes |
| Blackbox.PrepareAllMeans | edge/edge_monitor/storage/blackbox.py:149-149 | a list is prepared exactly if each message may be buffered, in order |
| Blackbox.InsertMeans | edge/edge_monitor/storage/blackbox.py:131-140 | one row is added exactly if device, type and number are free |
| Message.EventIdExact | streaming/common/message.py:50-51 | two event ids agree exactly when the numbers and the joined run and stream agree |
| Message.EventIdDeterminesIdentity | edge/edge_monitor/contracts/message_builder.py:63-63 | with colon-free runs or streams the event id determines all three parts |
| Message.EventIdCollision | streaming/common/message.py:50-51 | with colons two identities can share an event id |
| Message.AcceptedExactly | streaming/bridge/processor.py:12-22 | a message is accepted exactly if it has version 3, run, stream, a number, the id that joins them, and the digest of everything else; otherwise the error names a check it fails |
| Message.ChangedIsRefused | streaming/common/message.py:20-25 | an accepted message with one field changed is refused if that changes its digest |
| Message.TextMeans | streaming/common/message.py:50-50 | runs and streams in the id: texts as they are, integers as decimals that read back |
| Message.DecimalReads | streaming/common/message.py:50-50 | numbers in the id are decimals without leading zero and read back |
| MessageBuilder.BuiltTelemetryAccepted | edge/edge_monitor/contracts/message_builder.py:71-119 | every telemetry message that can be built is accepted as telemetry keyed by its stream |
| MessageBuilder.BuiltEventAccepted | edge/edge_monitor/contracts/message_builder.py:122-152 | every event that can be built is accepted as an event keyed by its stream |
| MessageBuilder.HashedIdentityAccepted | streaming/bridge/processor.py:12-22 | a message with consistent identity and attached hash is accepted whatever else it carries |
| Bridge.PublishAnswers | streaming/bridge/in_memory.py:29-46 | after any history a message that is not identified and sealed changes nothing; any other goes to the end of the topic of its kind only, whose name, offset, key and id are returned, flagged as duplicate exactly when its event id was appended earlier to any topic |
| Bridge.TopicsAreFilters | streaming/bridge/in_memory.py:29-46 | each topic is the in-order filter of the accepted messages of its kind |
| Bridge.DuplicateMeansSameIdentity | streaming/bridge/in_memory.py:36-39 | for built messages with colon-free runs a duplicate is the same run, stream and number |
| Bridge.TopicsOnlyGrow | streaming/bridge/in_memory.py:17-19 | topics are append-only |
| Bridge.InMemoryBridge.PublishMessage | streaming/bridge/in_memory.py:29-46 | the objects do what the specification of one publish says, and change nothing for a message that is not identified and sealed |
| Bridge.InMemoryTopic.Append | streaming/bridge/in_memory.py:17-19 | the value goes to the end and its offset is returned |
| Store.ChunksAndReplays | streaming/consumers/telemetry_storage.py:89-107 | any sequence of successful calls with any limits and restarts at or below the reached offset leaves the table of one pass over the covered prefix |
| Store.ConsumeKeepsOnePass | streaming/consumers/telemetry_storage.py:89-107 | for one call: stored plus duplicate equals the offsets advanced, which are those of the limit or all that is left, and stored the rows added |
| Store.ConsumeSucceeds | streaming/consumers/telemetry_storage.py:97-107 | over a topic readable in one pass no call raises |
| Store.RetryCompletes | streaming/consumers/telemetry_storage.py:97-106 | a call cut short leaves a table on which a retry ends as an undisturbed call |
| Store.FeedIsFirstWriteWins | streaming/consumers/telemetry_storage.py:42-69 | the table holds for each event id the first storable message carrying it, and nothing else |
| Store.ConsumedMeansStored | streaming/consumers/telemetry_storage.py:29-69 | a consumed message's id is in the table afterwards exactly when it was before or no NOT NULL column is null |
| Store.NullIsCountedNotStored | streaming/consumers/telemetry_storage.py:52-69 | a call can succeed, count one duplicate and leave the table empty |
| Store.TakeCovers | streaming/consumers/telemetry_storage.py:52-69 | taking a message again changes nothing |
| Store.TakeMeans | streaming/consumers/telemetry_storage.py:97-101 | exactly what is identified, sealed and no event reaches the insert; anything else raises and changes nothing |
| Store.FeedRefuses | streaming/consumers/telemetry_storage.py:97-106 | a stretch with such a message raises, with the table that the messages before it leave |
| Store.InsertMeans | streaming/consumers/telemetry_storage.py:42-69 | one insert on the fields of the message: when it raises, when it is ignored, and each column of the new row |
| Store.SQLiteTelemetryStore.InsertMessage | streaming/consumers/telemetry_storage.py:42-69 | errors without effect, ignored rows, or one row appended |
| Store.TelemetryStorageConsumer.ConsumeTopic | streaming/consumers/telemetry_storage.py:89-107 | table and result after a call, also when it raises partway |
| Retry.RetryEndsOnce | streaming/common/retry.py:17-45 | a call ends at the first success, or after exactly max failures with a letter: the whole message, the last error or its first 1000 characters, event id, retry count and origin with and without metadata; without a positive limit there is no attempt |
| Retry.AttemptsExact | streaming/common/retry.py:27-33 | attempts stop at the first success and are exhausted exactly when all failed |
| Retry.ProcessWithRetry | streaming/common/retry.py:17-45 | the loop computes that outcome |
| Kafka.PollAccounts | streaming/consumers/kafka_storage.py:42-91 | a poll takes as many records as limit and broker allow; one that returns accounts for each as stored, duplicate or dead, has handled them all and commits past exactly these; one that raises, on a record or on the commit, commits nothing |
| Kafka.RecordEndsOnce | streaming/consumers/kafka_storage.py:50-84 | a record is counted once, is dead exactly when all attempts failed and its letter could be published, and makes the poll raise exactly when it could not or no attempt is allowed |
| Kafka.DeadRecordsLetter | streaming/consumers/kafka_storage.py:64-84 | a dead record leaves one letter with its payload, event id, topic, offset, number of attempts and the error of its last attempt |
| Kafka.PolledLetters | streaming/consumers/kafka_storage.py:50-84 | the letters of a poll are of the records it took, in order and at most one for each |
| Kafka.UndisturbedPollConsumes | streaming/consumers/kafka_storage.py:42-91 | if nothing unusual happens a poll does what one call of the storage consumer does with the same stretch |
| Kafka.RestartCatchesUp | streaming/consumers/kafka_storage.py:29-38 | a restarted session over a store on disk begins where the last commit left off |
| Kafka.CommittedIsHandled | streaming/consumers/kafka_storage.py:42-91 | in runs that restart after each raised poll, over a store on disk, everything below the committed offset has been handled |
| Kafka.PollingOnIsSafeIff | streaming/consumers/kafka_storage.py:64-86 | for every setting: no next poll can commit past an unhandled record, exactly when there is nothing to poll, no attempt is allowed, the records between committed offset and position have been handled, or, without a publisher, the next record is refused or taking it handles them |
| Kafka.CaughtUpMayPollOn | streaming/consumers/kafka_storage.py:85-86 | a session whose position is its committed offset may poll on |
| Kafka.HeadWasTaken | streaming/consumers/kafka_storage.py:64-86 | a poll that commits has, without a publisher, taken its first record into the table |
| Kafka.CommittedStaysHandledIff | streaming/consumers/kafka_storage.py:20-91 | every run that polls from the committed offset and restarts anywhere keeps everything committed handled, exactly if the store is on disk, no attempt is allowed, or every storable record lies, without a publisher, behind a refused one |
| Kafka.RestartIsSafeIff | streaming/consumers/kafka_storage.py:20-38 | one restart keeps what was handled exactly if the store is on disk or every committed record has a letter of its own or is one the insert skips |
| Kafka.MemoryForgets | streaming/consumers/kafka_storage.py:20-38 | with the store in memory a stored and committed record is gone after a restart |
| Kafka.RejectedMessageSkipped | streaming/consumers/kafka_storage.py:64-67 | without a publisher a rejected record can be committed past unhandled |
| Kafka.RowsAreKept | streaming/consumers/kafka_storage.py:42-91 | polls, and restarts over a store on disk, never change rows already written; letters and committed offset never go back |
| Kafka.KafkaTelemetryConsumer.Poll | streaming/consumers/kafka_storage.py:42-91 | table, letters, position, committed offset and counts after one poll |
| Kafka.KafkaTelemetryConsumer.ProcessRecord | streaming/consumers/kafka_storage.py:50-84 | retries and dead letter of one record |

## Left out

- Real threads: `EdgeRuntime` is concurrent and its threads are a transition system on values; the classes of module Workers cover the loop bodies without interference. Condition waits with timeouts are steps that may happen at any time, and `stop` waits for its joins, except in RuntimeOverlap, where the wait for the sender may end early; that a collector or spooler outlasts its five seconds is not modelled.
- SQLite itself, WAL, locks and PRAGMAs: a committed statement or transaction is one step. Whether an ignored insert uses up an AUTOINCREMENT value is not modelled; no runtime insert is ignored.
- Blackbox.SQLiteBlackbox.RecordFailure: does not model last_error, because nothing reads it back; the same holds for the columns measured_at and enqueued_at.
- 64-bit overflow of ids and sequence numbers: unbounded numbers.
- SHA-256 and the JSON serializer: the digest is a function of the message without dataHash, and storing and reloading a payload is the identity. NaN and infinities are excluded by the type of numbers.
- Floating-point rounding and the six-digit rounding of the relative tilt: reals; the square root is any function with the defining property.
- Clock readings: one value stands for the calls made while one message is built.
- `FixedRateCollector.windows`: the same schedule without queue and stop signal. `on_sample`, overflow callbacks, diagnostics and metrics.
- Collector.FailuresMayBurst: exhibits a trace of the schedule relation that CollectToQueue is proved to keep, not a call of it, because clock and reader are nondeterministic there.
- Collector.FixedRateCollector.CollectToQueue: asks for a count or a stop signal that is eventually set, because without either the source loops forever.
- Pipeline.EdgePipeline.NextSequence: does not model the local counter used when no sequence provider is given; the runtime always gives one.
- A runtime without transport, which has no sender thread.
- The spooler ends on the sentinel without a last drain, as in the source: an announced transition may stay queued, and is claimed to be in exactly one place, not to reach the outbox.
- Several Kafka partitions, values that are not objects, and the Kafka and MQTT clients: one log, one position, one committed offset.
- The alert dispatcher: a near copy of the storage consumer. The API, configuration loading, simulators, deployment and the stress script: input, output and fixed data.
