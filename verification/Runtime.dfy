/** The three-worker protocol of edge/edge_monitor/runtime.py as a transition system: one program
    counter per thread, the shared queues and events, the durable tables, and history variables.
    Every action is total: an action that is not enabled leaves the state as it is, so a run is
    any sequence of actions and every interleaving is one. */
module Runtime {
  import opened Prelude
  import opened Sampling
  import opened Rules
  import opened Health
  import opened Blackbox
  import opened Pipeline
  import Collector

  /** A completed window or a read error, with its place in the order of production. */
  datatype Tagged = Tagged(id: nat, item: Collector.Item)

  datatype Pending = Pending(transition: Transition, measuredAt: Stamp)

  // ----- program counters -----

  /** The thread that calls start() and stop(). */
  datatype MainPc =
    | MIdle | MCheckBacklog | MSetDrain | MStartSpooler | MStartCollector | MRunning
    | MJoinCollector | MStopSpooler | MJoinSpooler | MStopSender | MWakeSender | MJoinSender

  /** What a thread still has to do once an exception has left its worker: record it, then raise every stop
      flag and the drain event, one after another. */
  datatype Stage = ToRecord | ToStopCollector | ToStopSpooler | ToStopSender | ToDrain

  datatype CollectorPc =
    | COff
    | CTop
    | CReading
    | CPut(it: Tagged)
    | CCheckStop(failing: bool)
    | CSentinel(failing: bool)
    | CFailing(stage: Stage)

  datatype SpoolerPc =
    | SOff
    | STop
    | SDrain
    | STaken(p: Pending)
    | STransition(p: Pending, n: nat)
    | SDrainSet
    | SGet
    | SHave(it: Tagged)
    | SReadError(it: Tagged, n: nat)
    | SDecided(it: Tagged, d: Decision)
    | SNumbered(it: Tagged, d: Decision, n: nat)
    | SIncident(it: Tagged, d: Decision, n: nat, m: nat)
    | SSet
    | SFailing(stage: Stage)

  datatype SenderPc =
    | NOff
    | NTop
    | NWait
    | NClear
    | NCheck
    | NLoop
    | NFetch
    | NSend(batch: seq<Row<Msg>>)
    | NRefused(batch: seq<Row<Msg>>)
    | NFailed
    | NAccepted(batch: seq<Row<Msg>>)
    | NAcked(rest: seq<Row<Msg>>)
    | NFailing(stage: Stage)

  // ----- state -----

  datatype Flags = Flags(stopCollector: bool, stopSpooler: bool, stopSender: bool, drain: bool)

  /** What the threads share in memory; None in the queue is the end-of-collection sentinel. */
  datatype Shared = Shared(queue: seq<Option<Tagged>>, transitions: seq<Pending>, flags: Flags, failed: bool)

  /** The sender's own variables: the current backoff and whether its current or last pass ended in a failed
      send; and for the record how many sends failed since its last success, and how many results the
      monitor had seen when the sender began. */
  datatype Pace = Pace(backoff: real, passFailed: bool, streak: nat, since: nat) {
    function AfterFailure(): Pace { this.(backoff := DoubleBackoff(backoff), passFailed := true, streak := streak + 1) }
    function AfterSuccess(): Pace { this.(backoff := 1.0, streak := 0) }
  }

  function DoubleBackoff(b: real): real {
    if b * 2.0 < 30.0 then b * 2.0 else 30.0
  }

  /** One committed outbox row: its message, its transaction, and the item it stands for. */
  datatype Entered = Entered(msg: Msg, txn: nat, item: Option<nat>)

  datatype Delivered = Delivered(id: nat, msg: Msg)

  /** What has happened to the outbox, over all process lifetimes. */
  datatype Ledger = Ledger(
    log: seq<Entered>,              // rows ever inserted, in commit order
    txns: nat,
    delivered: seq<Delivered>,      // what the transport passed on
    acked: nat,                     // rows acknowledged
    refusals: multiset<nat>,        // recorded failures, by row id
    burned: nat,                    // numbers reserved and never committed
    spoolerFailures: nat,
    crashes: nat)

  /** What has happened to the items, over all process lifetimes. */
  datatype Production = Production(
    items: seq<Collector.Item>,     // every item ever completed; its index is its tag
    done: seq<nat>,                 // items committed, in commit order
    dropped: multiset<nat>,         // items lost by a worker that failed
    lost: multiset<nat>,            // items lost with a process
    failures: nat,                  // collector and spooler exceptions
    crashes: nat,
    abandoned: nat,                 // processes that ended in order, but with items left in the queue
    droppedNow: bool)               // an item was dropped in this process lifetime

  /** The rule engine and the health monitor of this process, and what they have seen. */
  datatype Lifetime = Lifetime(
    start: nat,                     // length of the log when the process began
    lostTransitions: nat,           // transitions a failing spooler had in hand
    lostDecisions: nat,             // decided windows a failing spooler had in hand
    previous: Status,               // the rule engine's memory
    evaluated: seq<WindowSummary>,  // windows it has judged
    initiallyConnected: bool,
    monitor: Monitor,
    observed: seq<bool>,            // send results the monitor has seen
    emitted: seq<Transition>)       // transitions put on the transition queue

  datatype State = State(
    box: Box<Msg>,
    shared: Shared,
    main: MainPc,
    col: CollectorPc,
    spl: SpoolerPc,
    snd: SenderPc,
    pace: Pace,
    ledger: Ledger,
    made: Production,
    life: Lifetime,
    calm: bool)                     // nothing has disturbed the spooler since start()
  {
    function With(flags: Flags): State { this.(shared := shared.(flags := flags)) }
  }

  // ----- actions -----

  datatype CollectorChoice = Continue | Finish | Complete(item: Collector.Item) | GiveUp

  datatype SendOutcome = Passed | RefusedBefore | RefusedAfter

  datatype Action =
    | MainStep
    | Flush
    | CollectorStep(choice: CollectorChoice)
    | SpoolerStep(now: Stamp)
    | SenderStep(outcome: SendOutcome, now: Stamp)
    | SpoolerFails
    | SenderFails
    | Rebuild
    | Crash

  // ----- start and stop -----

  /** A session is calm as long as neither the spooler nor the sender fails in it, provided that start()
      found no sentinel of an earlier session in the queue. */
  predicate HasSentinel(q: seq<Option<Tagged>>) {
    None in q
  }

  function Main(s: State): State {
    var f := s.shared.flags;
    match s.main
    case MIdle =>
      s.With(f.(stopCollector := false, stopSpooler := false, stopSender := false))
       .(main := MCheckBacklog, snd := NTop, pace := Pace(1.0, false, 0, |s.life.observed|),
         calm := !HasSentinel(s.shared.queue))
    case MCheckBacklog => s.(main := if s.box.rows != [] then MSetDrain else MStartSpooler)
    case MSetDrain => s.With(f.(drain := true)).(main := MStartSpooler)
    case MStartSpooler => s.(main := MStartCollector, spl := STop)
    case MStartCollector => s.(main := MRunning, col := CTop)
    case MRunning => s.With(f.(stopCollector := true)).(main := MJoinCollector)
    case MJoinCollector => if s.col.COff? then s.(main := MStopSpooler) else s
    case MStopSpooler => s.With(f.(stopSpooler := true)).(main := MJoinSpooler)
    case MJoinSpooler => if s.spl.SOff? then s.(main := MStopSender) else s
    case MStopSender => s.With(f.(stopSender := true)).(main := MWakeSender)
    case MWakeSender => s.With(f.(drain := true)).(main := MJoinSender)
    case MJoinSender => if s.snd.NOff? then s.(main := MIdle) else s
  }

  // ----- a failing thread -----

  /** One step of _record_worker_failure; the thread is over when no stage is left. */
  function RecordFailure(sh: Shared, stage: Stage): (Shared, Option<Stage>) {
    var f := sh.flags;
    match stage
    case ToRecord => (sh.(failed := true), Some(ToStopCollector))
    case ToStopCollector => (sh.(flags := f.(stopCollector := true)), Some(ToStopSpooler))
    case ToStopSpooler => (sh.(flags := f.(stopSpooler := true)), Some(ToStopSender))
    case ToStopSender => (sh.(flags := f.(stopSender := true)), Some(ToDrain))
    case ToDrain => (sh.(flags := f.(drain := true)), None)
  }

  // ----- the collector -----

  function Enqueue(s: State, x: Option<Tagged>): State {
    s.(shared := s.shared.(queue := s.shared.queue + [x]))
  }

  /** An exception leaves collect_to_queue; the item in hand, if any, goes with it. */
  function CollectorRaises(s: State, hand: seq<nat>): State {
    s.(col := CCheckStop(true), made := s.made.(
      dropped := s.made.dropped + multiset(hand),
      droppedNow := s.made.droppedNow || hand != [],
      failures := s.made.failures + 1))
  }

  function CollectorEnd(failing: bool): CollectorPc {
    if failing then CFailing(ToRecord) else COff
  }

  function Collect(cfg: EdgeConfig, s: State, choice: CollectorChoice): State {
    var q, f := s.shared.queue, s.shared.flags;
    match s.col
    case COff => s
    case CTop => s.(col := if f.stopCollector || choice.Finish? then CCheckStop(false) else CReading)
    case CReading => (
      match choice
      case Complete(item) =>
        s.(col := CPut(Tagged(|s.made.items|, item)), made := s.made.(items := s.made.items + [item]))
      case GiveUp => CollectorRaises(s, [])
      case Finish => if f.stopCollector then s.(col := CCheckStop(false)) else s
      case Continue => s)
    case CPut(it) =>
      if |q| < cfg.queueSize then Enqueue(s, Some(it)).(col := CTop)
      else if choice.GiveUp? then CollectorRaises(s, [it.id])
      else s
    case CCheckStop(failing) => s.(col := if f.stopSpooler then CollectorEnd(failing) else CSentinel(failing))
    case CSentinel(failing) =>
      if |q| < cfg.queueSize then Enqueue(s, None).(col := CollectorEnd(failing))
      else s.(col := CCheckStop(failing))
    case CFailing(stage) =>
      var (sh, next) := RecordFailure(s.shared, stage);
      s.(shared := sh, col := if next.Some? then CFailing(next.value) else COff)
  }

  // ----- the spooler -----

  function Entries(cfg: EdgeConfig, ms: seq<Msg>): (es: seq<Entry<Msg>>)
    ensures |es| == |ms| && forall i :: 0 <= i < |ms| ==> es[i] == EntryOf(cfg, ms[i], ms[i])
  {
    seq(|ms|, i requires 0 <= i < |ms| => EntryOf(cfg, ms[i], ms[i]))
  }

  function Logged(ms: seq<Msg>, txn: nat, item: Option<nat>): (es: seq<Entered>)
    ensures |es| == |ms| && forall i :: 0 <= i < |ms| ==> es[i] == Entered(ms[i], txn, item)
  {
    seq(|ms|, i requires 0 <= i < |ms| => Entered(ms[i], txn, item))
  }

  /** One committed transaction of the spooler. */
  function Commit(cfg: EdgeConfig, s: State, ms: seq<Msg>, item: Option<nat>, next: SpoolerPc): State {
    s.(box := InsertAll(s.box, Entries(cfg, ms)),
       spl := next,
       ledger := s.ledger.(log := s.ledger.log + Logged(ms, s.ledger.txns, item), txns := s.ledger.txns + 1),
       made := s.made.(done := if item.Some? then s.made.done + [item.value] else s.made.done))
  }

  function NextNumber(cfg: EdgeConfig, s: State): nat {
    LastSequence(s.box, cfg.site.deviceId) + 1
  }

  /** The transaction of next_sequence(). */
  function TakeNumber(cfg: EdgeConfig, s: State, next: SpoolerPc): State {
    s.(box := Reserve(s.box, cfg.site.deviceId), spl := next)
  }

  /** What a spooler that has all its numbers is about to commit, and for which item. */
  function Outgoing(spl: SpoolerPc, now: Stamp): (seq<Msg>, Option<nat>) {
    match spl
    case STransition(p, n) => ([Connection(n, p.measuredAt, p.transition, now)], None)
    case SReadError(it, n) =>
      (if it.item.ReadError? then [SensorError(n, now, it.item.error, now)] else [], Some(it.id))
    case SNumbered(it, d, n) =>
      (if it.item.Window? && !d.emit then [Telemetry(n, it.item.summary, d.status, now)] else [], Some(it.id))
    case SIncident(it, d, n, m) =>
      (if it.item.Window? then
         [Telemetry(n, it.item.summary, d.status, now),
          Incident(m, it.item.summary.measuredAt, d.status, n, d.violations, now)]
       else [], Some(it.id))
    case _ => ([], None)
  }

  function Spool(cfg: EdgeConfig, s: State, now: Stamp): State {
    var q, f, n := s.shared.queue, s.shared.flags, NextNumber(cfg, s);
    var (ms, item) := Outgoing(s.spl, now);
    if ms != [] then Commit(cfg, s, ms, item, if item.Some? then SSet else SDrainSet)
    else
      match s.spl
      case STop => s.(spl := if f.stopSpooler && q == [] then SOff else SDrain)
      case SDrain =>
        if s.shared.transitions == [] then s.(spl := SGet)
        else s.(spl := STaken(s.shared.transitions[0]), shared := s.shared.(transitions := s.shared.transitions[1..]))
      case STaken(p) => TakeNumber(cfg, s, STransition(p, n))
      case SDrainSet => s.With(f.(drain := true)).(spl := SDrain)
      case SGet =>
        if q == [] then s.(spl := STop)
        else s.(spl := if q[0].None? then SOff else SHave(q[0].value), shared := s.shared.(queue := q[1..]))
      case SHave(it) => (
        match it.item
        case ReadError(_) => TakeNumber(cfg, s, SReadError(it, n))
        case Window(w) =>
          var d := Decide(cfg.thresholds, s.life.previous, w);
          s.(spl := SDecided(it, d), life := s.life.(previous := d.status, evaluated := s.life.evaluated + [w])))
      case SDecided(it, d) => TakeNumber(cfg, s, SNumbered(it, d, n))
      case SNumbered(it, d, first) => TakeNumber(cfg, s, SIncident(it, d, first, n))
      case SSet => s.With(f.(drain := true)).(spl := STop)
      case SFailing(stage) =>
        var (sh, next) := RecordFailure(s.shared, stage);
        s.(shared := sh, spl := if next.Some? then SFailing(next.value) else SOff)
      case _ => s
  }

  /** Numbers the spooler has reserved and not yet committed. */
  function InFlight(spl: SpoolerPc): seq<nat> {
    match spl
    case STransition(_, n) => [n]
    case SReadError(_, n) => [n]
    case SNumbered(_, _, n) => [n]
    case SIncident(_, _, n, m) => [n, m]
    case _ => []
  }

  /** The item in the spooler's hand. */
  function SpoolerHand(spl: SpoolerPc): seq<nat> {
    match spl
    case SHave(it) => [it.id]
    case SReadError(it, _) => [it.id]
    case SDecided(it, _) => [it.id]
    case SNumbered(it, _, _) => [it.id]
    case SIncident(it, _, _, _) => [it.id]
    case _ => []
  }

  predicate Transmitting(spl: SpoolerPc) {
    spl.STaken? || spl.STransition?
  }

  /** The window in the spooler's hand has been through the rule engine. */
  predicate Decided(spl: SpoolerPc) {
    spl.SDecided? || spl.SNumbered? || spl.SIncident?
  }

  function CollectorHand(col: CollectorPc): seq<nat> {
    if col.CPut? then [col.it.id] else []
  }

  function SpoolerFailure(s: State): State {
    if s.spl.SOff? || s.spl.SFailing? then s
    else s.(spl := SFailing(ToRecord), calm := false,
            ledger := s.ledger.(burned := s.ledger.burned + |InFlight(s.spl)|,
                                spoolerFailures := s.ledger.spoolerFailures + 1),
            made := s.made.(dropped := s.made.dropped + multiset(SpoolerHand(s.spl)),
                            droppedNow := s.made.droppedNow || SpoolerHand(s.spl) != [],
                            failures := s.made.failures + 1),
            life := s.life.(lostTransitions := s.life.lostTransitions + if Transmitting(s.spl) then 1 else 0,
                            lostDecisions := s.life.lostDecisions + if Decided(s.spl) then 1 else 0))
  }

  // ----- the sender -----

  /** The monitor sees a send result; a transition it announces goes to the transition queue. */
  function Report(cfg: EdgeConfig, s: State, success: bool, now: Stamp, next: SenderPc, pace: Pace): State {
    var (m, t) := Observe(cfg.limits, s.life.monitor, success);
    s.(snd := next, pace := pace,
       shared := s.shared.(transitions := s.shared.transitions + if t.Some? then [Pending(t.value, now)] else []),
       life := s.life.(monitor := m, observed := s.life.observed + [success], emitted := s.life.emitted + Announced(t)))
  }

  /** The transport passes the row on, whether or not the sender will hear about it. */
  function PassOn(s: State, row: Row<Msg>, next: SenderPc): State {
    s.(snd := next, ledger := s.ledger.(delivered := s.ledger.delivered + [Delivered(row.id, row.entry.payload)]))
  }

  function RecordRefusal(s: State, id: nat): State {
    s.(snd := NFailed, box := s.box.(rows := Bumped(s.box.rows, id)),
       ledger := s.ledger.(refusals := s.ledger.refusals + multiset{id}))
  }

  function AcknowledgeRow(s: State, id: nat, rest: seq<Row<Msg>>): State {
    s.(snd := NAcked(rest), box := s.box.(rows := Without(s.box.rows, id)),
       ledger := s.ledger.(acked := s.ledger.acked + 1))
  }

  function Send(cfg: EdgeConfig, s: State, outcome: SendOutcome, now: Stamp): State {
    var f := s.shared.flags;
    match s.snd
    case NOff => s
    case NTop => s.(snd := if f.stopSender then NOff else NWait)
    case NWait => s.(snd := NClear)                               // the event is set, or the wait timed out
    case NClear => s.With(f.(drain := false)).(snd := NCheck, pace := s.pace.(passFailed := false))
    case NCheck => s.(snd := if f.stopSender then NOff else NLoop)
    case NLoop => s.(snd := if s.box.rows != [] && !f.stopSender then NFetch else NTop)
    case NFetch => s.(snd := NSend(Blackbox.Pending(s.box, cfg.batchSize)))
    case NSend(batch) =>
      if batch == [] then s.(snd := NLoop)
      else if outcome.Passed? then PassOn(s, batch[0], NAccepted(batch))
      else if outcome.RefusedAfter? then PassOn(s, batch[0], NRefused(batch))
      else s.(snd := NRefused(batch))
    case NRefused(batch) => if batch == [] then s else RecordRefusal(s, batch[0].id)
    case NFailed => Report(cfg, s, false, now, NTop, s.pace.AfterFailure())
    case NAccepted(batch) => if batch == [] then s else AcknowledgeRow(s, batch[0].id, batch[1..])
    case NAcked(rest) => Report(cfg, s, true, now, NSend(rest), s.pace.AfterSuccess())
    case NFailing(stage) =>
      var (sh, next) := RecordFailure(s.shared, stage);
      s.(shared := sh, snd := if next.Some? then NFailing(next.value) else NOff)
  }

  function SenderFailure(s: State): State {
    if s.snd.NOff? || s.snd.NFailing? then s else s.(snd := NFailing(ToRecord), calm := false)
  }

  // ----- the end of a process -----

  function QueueIds(q: seq<Option<Tagged>>): seq<nat> {
    if q == [] then [] else (if q[0].Some? then [q[0].value.id] else []) + QueueIds(q[1..])
  }

  /** Items that exist only in memory. */
  function Volatile(s: State): seq<nat> {
    SpoolerHand(s.spl) + QueueIds(s.shared.queue) + CollectorHand(s.col)
  }

  function FreshLifetime(start: nat, connected: bool): Lifetime {
    Lifetime(start, 0, 0, Normal, [], connected, Monitor(connected, 0, 0), [], [])
  }

  function FreshShared(): Shared {
    Shared([], [], Flags(false, false, false, false), false)
  }

  /** The process is gone and a new runtime is built on the same tables. */
  function NewProcess(s: State, ledger: Ledger, made: Production): State {
    State(s.box, FreshShared(), MIdle, COff, SOff, NOff, Pace(1.0, false, 0, 0), ledger,
          made.(lost := made.lost + multiset(Volatile(s)), droppedNow := false),
          FreshLifetime(|s.ledger.log|, s.box.rows == []), true)
  }

  /** The process dies at any point. */
  function CrashAndRebuild(s: State): State {
    NewProcess(s, s.ledger.(burned := s.ledger.burned + |InFlight(s.spl)|, crashes := s.ledger.crashes + 1),
               s.made.(crashes := s.made.crashes + 1))
  }

  /** The process ends after stop() has returned, or before start() was called. */
  function EndAndRebuild(s: State): State {
    if s.main.MIdle? then
      NewProcess(s, s.ledger, s.made.(abandoned := s.made.abandoned + if Volatile(s) == [] then 0 else 1))
    else s
  }

  // ----- runs -----

  function Step(cfg: EdgeConfig, s: State, a: Action): State {
    match a
    case MainStep => Main(s)
    case Flush => s.With(s.shared.flags.(drain := true))
    case CollectorStep(choice) => Collect(cfg, s, choice)
    case SpoolerStep(now) => Spool(cfg, s, now)
    case SenderStep(outcome, now) => Send(cfg, s, outcome, now)
    case SpoolerFails => SpoolerFailure(s)
    case SenderFails => SenderFailure(s)
    case Rebuild => EndAndRebuild(s)
    case Crash => CrashAndRebuild(s)
  }

  /** A fresh database and a runtime built on it. */
  function Initial(): State {
    State(Box([], 1, map[]), FreshShared(), MIdle, COff, SOff, NOff, Pace(1.0, false, 0, 0),
          Ledger([], 0, [], 0, multiset{}, 0, 0, 0),
          Production([], [], multiset{}, multiset{}, 0, 0, 0, false),
          FreshLifetime(0, true), true)
  }

  function Run(cfg: EdgeConfig, actions: seq<Action>): State {
    if actions == [] then Initial()
    else Step(cfg, Run(cfg, actions[..|actions| - 1]), actions[|actions| - 1])
  }
}
