/** Runs that show the conditions of the other modules are needed: what a failing spooler or sender can cost,
    and what a sentinel left in the queue does to the next session. */
module RuntimeWitness {
  import opened Prelude
  import opened Sampling
  import opened Rules
  import opened Blackbox
  import opened Pipeline
  import opened Runtime
  import Collector
  import Health
  import RuntimeItems
  import RuntimeLog
  import RuntimeOutbox
  import RuntimeWakeup

  const NOW: Stamp := "t"

  // ----- walking through a run -----

  ghost predicate Reachable(cfg: EdgeConfig, s: State) {
    exists actions :: Run(cfg, actions) == s
  }

  lemma Go(cfg: EdgeConfig, s: State, a: Action) returns (s': State)
    requires Reachable(cfg, s)
    ensures Reachable(cfg, s') && s' == Step(cfg, s, a)
  {
    hide Step;
    var actions :| Run(cfg, actions) == s;
    s' := Step(cfg, s, a);
    assert (actions + [a])[..|actions|] == actions;
    assert Run(cfg, actions + [a]) == s';
  }

  lemma Proceeds(cfg: EdgeConfig, s: State) returns (s': State)
    requires Reachable(cfg, s)
    ensures Reachable(cfg, s') && s' == Runtime.Main(s)
  {
    s' := Go(cfg, s, MainStep);
  }

  lemma Collects(cfg: EdgeConfig, s: State, choice: CollectorChoice) returns (s': State)
    requires Reachable(cfg, s)
    ensures Reachable(cfg, s') && s' == Collect(cfg, s, choice)
  {
    s' := Go(cfg, s, CollectorStep(choice));
  }

  lemma Spools(cfg: EdgeConfig, s: State) returns (s': State)
    requires Reachable(cfg, s)
    ensures Reachable(cfg, s') && s' == Spool(cfg, s, NOW)
  {
    s' := Go(cfg, s, SpoolerStep(NOW));
  }

  lemma Sends(cfg: EdgeConfig, s: State, outcome: SendOutcome) returns (s': State)
    requires Reachable(cfg, s)
    ensures Reachable(cfg, s') && s' == Send(cfg, s, outcome, NOW)
  {
    s' := Go(cfg, s, SenderStep(outcome, NOW));
  }

  // ----- stretches used below -----

  /** A first start() has run to its end. */
  lemma Started(cfg: EdgeConfig) returns (s: State)
    ensures Reachable(cfg, s)
    ensures s == Initial().(main := MRunning, col := CTop, spl := STop, snd := NTop)
  {
    s := Initial();
    assert Run(cfg, []) == s;
    s := Proceeds(cfg, s);
    s := Proceeds(cfg, s);
    s := Proceeds(cfg, s);
    s := Proceeds(cfg, s);
  }

  /** The collector has completed an item and holds it. */
  lemma Completes(cfg: EdgeConfig, s: State, item: Collector.Item) returns (s': State)
    requires Reachable(cfg, s) && s.col.CTop? && !s.shared.flags.stopCollector
    ensures Reachable(cfg, s')
    ensures s' == s.(col := CPut(Tagged(|s.made.items|, item)), made := s.made.(items := s.made.items + [item]))
  {
    hide Reachable;
    s' := Collects(cfg, s, Continue);
    s' := Collects(cfg, s', Complete(item));
  }

  /** The first item of all is in the spooler's hand. */
  lemma Given(cfg: EdgeConfig, item: Collector.Item) returns (s: State)
    requires cfg.queueSize > 0
    ensures Reachable(cfg, s)
    ensures s == Initial().(main := MRunning, col := CTop, spl := SHave(Tagged(0, item)), snd := NTop,
                            made := Initial().made.(items := [item]))
  {
    hide Reachable;
    s := Started(cfg);
    s := Completes(cfg, s, item);
    s := Collects(cfg, s, Continue);
    assert s.shared.queue == [Some(Tagged(0, item))];
    s := Spools(cfg, s);
    s := Spools(cfg, s);
    s := Spools(cfg, s);
    assert s.shared.queue == [];
  }

  function AllRaised(sh: Shared): Shared {
    sh.(failed := true, flags := Flags(true, true, true, true))
  }

  /** A failing spooler records its failure and is gone. */
  lemma SpoolerRecords(cfg: EdgeConfig, s: State) returns (s': State)
    requires Reachable(cfg, s) && s.spl == SFailing(ToRecord)
    ensures Reachable(cfg, s') && s' == s.(spl := SOff, shared := AllRaised(s.shared))
  {
    hide Reachable;
    s' := Spools(cfg, s);
    s' := Spools(cfg, s');
    s' := Spools(cfg, s');
    s' := Spools(cfg, s');
    s' := Spools(cfg, s');
  }

  lemma SenderRecords(cfg: EdgeConfig, s: State) returns (s': State)
    requires Reachable(cfg, s) && s.snd == NFailing(ToRecord)
    ensures Reachable(cfg, s') && s' == s.(snd := NOff, shared := AllRaised(s.shared))
  {
    hide Reachable;
    s' := Sends(cfg, s, Passed);
    s' := Sends(cfg, s', Passed);
    s' := Sends(cfg, s', Passed);
    s' := Sends(cfg, s', Passed);
    s' := Sends(cfg, s', Passed);
  }

  /** stop() after spooler and collector have ended, with the sender at the top of its loop. */
  lemma Stops(cfg: EdgeConfig, s: State) returns (s': State)
    requires Reachable(cfg, s) && s.main.MRunning? && s.col.COff? && s.spl.SOff? && s.snd.NTop?
    ensures Reachable(cfg, s')
    ensures s' == s.(main := MIdle, snd := NOff, shared := s.shared.(flags := Flags(true, true, true, true)))
  {
    hide Reachable;
    s' := JoinsSpooler(cfg, s);
    s' := Proceeds(cfg, s');
    s' := Proceeds(cfg, s');
    s' := Sends(cfg, s', Passed);
    s' := Proceeds(cfg, s');
  }

  lemma JoinsSpooler(cfg: EdgeConfig, s: State) returns (s': State)
    requires Reachable(cfg, s) && s.main.MRunning? && s.col.COff? && s.spl.SOff?
    ensures Reachable(cfg, s')
    ensures s' == s.(main := MStopSender,
                     shared := s.shared.(flags := s.shared.flags.(stopCollector := true, stopSpooler := true)))
  {
    hide Reachable;
    s' := Proceeds(cfg, s);
    s' := Proceeds(cfg, s');
    s' := Proceeds(cfg, s');
    s' := Proceeds(cfg, s');
  }

  // ----- what the sender's failure can leave in memory -----

  /** The spooler ends because a failing sender told it to, while the collector still holds an item. */
  lemma SenderFailureStrandsItem(cfg: EdgeConfig, item: Collector.Item) returns (s: State)
    requires cfg.queueSize > 0
    ensures Reachable(cfg, s)
    ensures s.spl.SOff? && !RuntimeItems.Starting(s.main) && Volatile(s) != [] && !s.calm
        && s.ledger.spoolerFailures == 0
  {
    hide Reachable;
    s := Started(cfg);
    s := Completes(cfg, s, item);
    s := Go(cfg, s, SenderFails);
    s := SenderRecords(cfg, s);
    s := Spools(cfg, s);
    assert s.col.CPut?;
  }

  /** A spooler that fails ends its session with the collector still holding an item. */
  lemma SpoolerFailureStrandsItem(cfg: EdgeConfig, item: Collector.Item) returns (s: State)
    ensures Reachable(cfg, s)
    ensures s.spl.SOff? && !RuntimeItems.Starting(s.main) && Volatile(s) != [] && !s.calm && !s.snd.NFailing?
  {
    hide Reachable;
    s := Started(cfg);
    s := Completes(cfg, s, item);
    s := Go(cfg, s, SpoolerFails);
    s := SpoolerRecords(cfg, s);
    assert s.col.CPut?;
  }

  // ----- what a failing spooler loses -----

  /** A decided window is lost: the rows are no longer all that the rule engine decided. */
  lemma DecisionCanBeLost(cfg: EdgeConfig, w: WindowSummary) returns (s: State)
    requires cfg.queueSize > 0
    ensures Reachable(cfg, s) && s.life.lostDecisions == 1
    ensures s.ledger.log == [] && s.life.evaluated == [w] && RuntimeLog.HandMarks(s.spl) == []
    ensures [] != RuntimeLog.Expected(cfg.thresholds, s.life.evaluated)
  {
    hide Reachable;
    s := Given(cfg, Collector.Window(w));
    s := Spools(cfg, s);
    s := Go(cfg, s, SpoolerFails);
    RuntimeLog.OneMoreWindow(cfg.thresholds, [], w);
    assert [] + [w] == [w];
  }

  // ----- a lost transition, and the next session goes on without it -----

  /** The sender has woken up. */
  lemma Wakes(cfg: EdgeConfig, s: State) returns (s': State)
    requires Reachable(cfg, s) && s.snd.NTop? && !s.shared.flags.stopSender
    ensures Reachable(cfg, s')
    ensures s' == s.With(s.shared.flags.(drain := false)).(snd := NLoop, pace := s.pace.(passFailed := false))
  {
    hide Reachable;
    s' := Sends(cfg, s, Passed);
    s' := Sends(cfg, s', Passed);
    s' := Sends(cfg, s', Passed);
    s' := Sends(cfg, s', Passed);
  }

  /** The sender has taken up the first batch. */
  lemma Fetches(cfg: EdgeConfig, s: State) returns (s': State)
    requires Reachable(cfg, s) && s.snd.NTop? && !s.shared.flags.stopSender && s.box.rows != []
    ensures Reachable(cfg, s')
    ensures s' == s.With(s.shared.flags.(drain := false))
                   .(snd := NSend(Blackbox.Pending(s.box, cfg.batchSize)), pace := s.pace.(passFailed := false))
  {
    hide Reachable;
    s' := Wakes(cfg, s);
    s' := Sends(cfg, s', Passed);
    s' := Sends(cfg, s', Passed);
  }

  lemma ReachableKeepsInvariant(cfg: EdgeConfig, s: State)
    requires Reachable(cfg, s)
    ensures RuntimeOutbox.Inv(cfg, s)
  {
    var actions :| Run(cfg, actions) == s;
    RuntimeOutbox.Always(cfg, actions);
  }

  /** The spooler commits one message. */
  lemma Commits(cfg: EdgeConfig, s: State, m: Msg) returns (s': State)
    requires Reachable(cfg, s) && Outgoing(s.spl, NOW).0 == [m]
    ensures Reachable(cfg, s') && s' == Spool(cfg, s, NOW)
    ensures |s'.box.rows| == |s.box.rows| + 1
    ensures |s'.ledger.log| == |s.ledger.log| + 1 && s'.ledger.log[..|s.ledger.log|] == s.ledger.log
    ensures s'.ledger.log[|s.ledger.log|].msg == m
  {
    hide Outgoing;
    ReachableKeepsInvariant(cfg, s);
    RuntimeOutbox.OutgoingNumbers(s.spl, NOW);
    RuntimeOutbox.KeysAreFree(cfg, s, [m]);
    s' := Spools(cfg, s);
  }

  /** What the following stretches leave alone. */
  ghost predicate Ready(s: State) {
    && s.shared == Shared([], [], Flags(false, false, false, false), false)
    && |s.box.rows| == 1 && |s.ledger.log| == 1 && s.ledger.log[0].msg.SensorError?
  }

  /** A read error is the first row of the outbox, and the sender holds it. */
  lemma FirstRow(cfg: EdgeConfig, e: IncompleteWindow) returns (s: State)
    requires cfg.Valid()
    ensures Reachable(cfg, s) && Ready(s) && s.life == FreshLifetime(0, true)
    ensures s.main.MRunning? && s.col.CTop? && s.spl.STop? && s.snd == NSend(s.box.rows)
  {
    hide Reachable;
    s := Given(cfg, Collector.ReadError(e));
    s := Spools(cfg, s);
    s := Commits(cfg, s, SensorError(1, NOW, e, NOW));
    s := Spools(cfg, s);
    s := Fetches(cfg, s);
  }

  /** The only row is refused, and the monitor with a limit of one announces the loss. */
  lemma Refused(cfg: EdgeConfig, s: State) returns (s': State)
    requires Reachable(cfg, s) && cfg.limits.failures == 1 && s.box.rows != [] && s.snd == NSend(s.box.rows)
    requires s.life.monitor.connected
    ensures Reachable(cfg, s') && s'.main == s.main && s'.col == s.col && s'.spl == s.spl && s'.snd.NTop?
    ensures s'.ledger.log == s.ledger.log && |s'.box.rows| == |s.box.rows|
    ensures s'.shared == s.shared.(transitions := s.shared.transitions + [Pending.Pending(Health.Lost, NOW)])
    ensures s'.life == s.life.(monitor := Health.Monitor(false, 0, 0), observed := s.life.observed + [false],
                               emitted := s.life.emitted + [Health.Lost])
  {
    hide Reachable;
    s' := Sends(cfg, s, RefusedBefore);
    s' := Sends(cfg, s', RefusedBefore);
    s' := Sends(cfg, s', RefusedBefore);
  }

  /** The spooler takes the transition and fails with it; everything ends in stop(). */
  lemma FailsWithTransition(cfg: EdgeConfig, s: State) returns (s': State)
    requires Reachable(cfg, s) && s.main.MRunning? && s.col.CTop? && s.spl.STop? && s.snd.NTop?
    requires s.shared.queue == [] && |s.shared.transitions| == 1 && !s.shared.flags.stopSpooler
    ensures Reachable(cfg, s') && s'.main.MIdle? && s'.box == s.box && s'.ledger.log == s.ledger.log
    ensures s'.life == s.life.(lostTransitions := s.life.lostTransitions + 1)
    ensures s'.shared == Shared([], [], Flags(true, true, true, true), true)
  {
    hide Reachable;
    s' := Spools(cfg, s);
    s' := Spools(cfg, s');
    s' := Go(cfg, s', SpoolerFails);
    assert s'.spl == SFailing(ToRecord) && s'.shared == s.shared.(transitions := []);
    s' := SpoolerRecords(cfg, s');
    s' := Collects(cfg, s', Continue);
    s' := Collects(cfg, s', Continue);
    s' := Stops(cfg, s');
  }

  /** start() finds the backlog, and the sender takes it up again. */
  lemma StartsAgain(cfg: EdgeConfig, s: State) returns (s': State)
    requires Reachable(cfg, s) && s.main.MIdle? && |s.box.rows| == 1 && cfg.batchSize > 0
    ensures Reachable(cfg, s') && s'.box == s.box && s'.ledger == s.ledger && s'.life == s.life
    ensures s'.spl.STop? && s'.snd == NSend(s.box.rows)
    ensures s'.shared == s.shared.(flags := Flags(false, false, false, false))
  {
    hide Reachable;
    ReachableKeepsInvariant(cfg, s);
    s' := Proceeds(cfg, s);
    s' := Proceeds(cfg, s');
    s' := Proceeds(cfg, s');
    s' := Proceeds(cfg, s');
    s' := Fetches(cfg, s');
  }

  /** The row passes, and the monitor with a limit of one announces the recovery. */
  lemma Passes(cfg: EdgeConfig, s: State) returns (s': State)
    requires Reachable(cfg, s) && cfg.limits.recoveries == 1 && s.box.rows != [] && s.snd == NSend(s.box.rows)
    requires !s.life.monitor.connected
    ensures Reachable(cfg, s') && s'.spl == s.spl && s'.ledger.log == s.ledger.log
    ensures s'.shared == s.shared.(transitions := s.shared.transitions + [Pending.Pending(Health.Recovered, NOW)])
    ensures s'.life == s.life.(monitor := Health.Monitor(true, 0, 0), observed := s.life.observed + [true],
                               emitted := s.life.emitted + [Health.Recovered])
  {
    hide Reachable;
    s' := Sends(cfg, s, Passed);
    s' := Sends(cfg, s', Passed);
    s' := Sends(cfg, s', Passed);
  }

  /** The spooler commits the only transition waiting. */
  lemma CommitsTransition(cfg: EdgeConfig, s: State) returns (s': State)
    requires Reachable(cfg, s) && s.spl.STop? && !s.shared.flags.stopSpooler && |s.shared.transitions| == 1
    ensures Reachable(cfg, s') && s'.life == s.life && s'.shared.transitions == [] && s'.spl.SDrainSet?
    ensures |s'.ledger.log| == |s.ledger.log| + 1 && s'.ledger.log[..|s.ledger.log|] == s.ledger.log
    ensures var m := s'.ledger.log[|s.ledger.log|].msg;
            m.Connection? && m.transition == s.shared.transitions[0].transition
  {
    hide Reachable;
    var p, n := s.shared.transitions[0], NextNumber(cfg, s);
    s' := Spools(cfg, s);
    s' := Spools(cfg, s');
    s' := Spools(cfg, s');
    assert s'.spl == STransition(p, n);
    s' := Commits(cfg, s', Connection(n, p.measuredAt, p.transition, NOW));
  }

  /** A spooler fails with LOST in hand; the runtime is stopped and started again, the recovery is committed,
      and the connection rows are no beginning of what the monitor announced. */
  lemma TransitionCanBeLost(cfg: EdgeConfig, e: IncompleteWindow) returns (s: State)
    requires cfg.Valid() && cfg.limits == Health.Limits(1, 1)
    ensures Reachable(cfg, s) && s.life.lostTransitions == 1
    ensures s.life.start == 0 && s.life.emitted == [Health.Lost, Health.Recovered]
    ensures RuntimeLog.Connections(s.ledger.log) == [Health.Recovered] && s.shared.transitions == []
    ensures !(RuntimeLog.Connections(s.ledger.log) <= s.life.emitted)
  {
    hide Reachable;
    s := FirstRow(cfg, e);
    s := Refused(cfg, s);
    s := FailsWithTransition(cfg, s);
    s := StartsAgain(cfg, s);
    s := Passes(cfg, s);
    s := CommitsTransition(cfg, s);
    OnlyRecovered(s.ledger.log);
  }

  lemma OnlyRecovered(log: seq<Entered>)
    requires |log| == 2 && log[0].msg.SensorError? && log[1].msg.Connection?
        && log[1].msg.transition == Health.Recovered
    ensures RuntimeLog.Connections(log) == [Health.Recovered]
    ensures !([Health.Recovered] <= [Health.Lost, Health.Recovered])
  {
    assert log == [] + [log[0]] + [log[1]];
    RuntimeLog.AppendOne([], log[0]);
    RuntimeLog.AppendOne([] + [log[0]], log[1]);
  }

  // ----- a sentinel left in the queue -----

  /** A spooler failure can leave the collector's sentinel in the queue for the next session. */
  lemma SentinelCanStay(cfg: EdgeConfig) returns (s: State)
    requires cfg.queueSize > 0
    ensures Reachable(cfg, s) && s.main.MIdle? && s.shared.queue == [None]
    ensures s.box.rows == [] && s.shared.transitions == []
  {
    hide Reachable;
    s := Started(cfg);
    s := Collects(cfg, s, Finish);
    s := Collects(cfg, s, Finish);
    s := Go(cfg, s, SpoolerFails);
    s := Collects(cfg, s, Finish);
    s := SpoolerRecords(cfg, s);
    s := Stops(cfg, s);
  }

  /** stop() waits for a collector that waits for room which no spooler will make. */
  ghost predicate Stuck(cfg: EdgeConfig, s: State) {
    && s.main.MJoinCollector? && s.spl.SOff? && !s.snd.NFailing? && !s.shared.flags.stopSpooler
    && |s.shared.queue| == cfg.queueSize && (s.col.CCheckStop? || s.col.CSentinel?)
  }

  /** It would wait for ever; what ends it is that stop() joins the collector for five seconds only. RuntimeStop has
      the exact condition under which it comes to this. */
  lemma StuckForGood(cfg: EdgeConfig, s: State, a: Action)
    requires Stuck(cfg, s) && Undisturbed(a)
    ensures Stuck(cfg, Step(cfg, s, a))
  {
    hide Spool;
    match a
    case SpoolerStep(now) => RuntimeOutbox.SpoolerShape(cfg, s, now);
    case SenderStep(outcome, now) =>
      RuntimeItems.SenderLeavesItems(cfg, s, outcome, now);
      RuntimeItems.SenderLeavesStops(cfg, s, outcome, now);
      hide Send;
      RuntimeOutbox.SenderShape(cfg, s, outcome, now);
    case _ =>
  }

  lemma {:induction false} StuckThroughout(cfg: EdgeConfig, s: State, actions: seq<Action>)
    requires Stuck(cfg, s) && forall i :: 0 <= i < |actions| ==> Undisturbed(actions[i])
    ensures Stuck(cfg, RuntimeWakeup.After(cfg, s, actions))
    decreases |actions|
  {
    hide Stuck, Step;
    if actions != [] {
      StuckForGood(cfg, s, actions[0]);
      StuckThroughout(cfg, Step(cfg, s, actions[0]), actions[1..]);
    }
  }

  /** A session on a stale sentinel gets there: its spooler ends at once, the queue fills up, and stop() is called. */
  lemma StopCanGetStuck(cfg: EdgeConfig, item: Collector.Item) returns (s: State)
    requires cfg.queueSize == 1
    ensures Reachable(cfg, s) && Stuck(cfg, s)
    ensures forall actions :: (forall i :: 0 <= i < |actions| ==> Undisturbed(actions[i])) ==>
              Stuck(cfg, RuntimeWakeup.After(cfg, s, actions))
  {
    hide Reachable;
    s := SentinelCanStay(cfg);
    s := StartsOnSentinel(cfg, s);
    s := Completes(cfg, s, item);
    s := Collects(cfg, s, Continue);
    s := Proceeds(cfg, s);
    s := Collects(cfg, s, Continue);
    forall actions | forall i :: 0 <= i < |actions| ==> Undisturbed(actions[i])
      ensures Stuck(cfg, RuntimeWakeup.After(cfg, s, actions))
    {
      StuckThroughout(cfg, s, actions);
    }
  }

  lemma StartsOnSentinel(cfg: EdgeConfig, s: State) returns (s': State)
    requires Reachable(cfg, s) && s.main.MIdle? && s.shared.queue == [None] && s.box.rows == []
        && s.shared.transitions == []
    ensures Reachable(cfg, s') && s'.main.MRunning? && s'.col.CTop? && s'.spl.SOff? && s'.snd.NTop?
    ensures s'.shared.queue == [] && !s'.shared.flags.stopCollector && !s'.shared.flags.stopSpooler
  {
    hide Reachable;
    s' := Proceeds(cfg, s);
    s' := Proceeds(cfg, s');
    s' := Proceeds(cfg, s');
    s' := Proceeds(cfg, s');
    assert s'.main.MRunning? && s'.spl.STop? && s'.shared.queue == [None];
    s' := Spools(cfg, s');
    s' := Spools(cfg, s');
    s' := Spools(cfg, s');
  }

  /** Neither spooler nor sender fails, and the process lives on. */
  predicate Undisturbed(a: Action) {
    !a.SpoolerFails? && !a.SenderFails? && !a.Rebuild? && !a.Crash?
  }

  ghost predicate Session(cfg: EdgeConfig, s: State, actions: seq<Action>) {
    s.main.MIdle? && actions != [] && actions[0].MainStep? && forall i :: 0 <= i < |actions| ==> Undisturbed(actions[i])
  }

  /** The spooler of a session has ended and left something in memory. */
  ghost predicate Strands(s: State) {
    s.spl.SOff? && !RuntimeItems.Starting(s.main) && Volatile(s) != []
  }

  /** A session started on a queue without a sentinel stays calm while it is undisturbed. */
  lemma CalmGoesOn(cfg: EdgeConfig, s: State, a: Action)
    requires RuntimeOutbox.Inv(cfg, s) && RuntimeItems.Calm(s) && s.calm && Undisturbed(a)
    ensures RuntimeOutbox.Inv(cfg, Step(cfg, s, a)) && RuntimeItems.Calm(Step(cfg, s, a)) && Step(cfg, s, a).calm
  {
    RuntimeOutbox.StepKeeps(cfg, s, a);
    RuntimeItems.CalmKept(cfg, s, a);
    hide RuntimeOutbox.Outbox;
    match a
    case CollectorStep(choice) => CollectorLeavesCalm(cfg, s, choice);
    case SpoolerStep(now) => SpoolerLeavesCalm(cfg, s, now);
    case SenderStep(outcome, now) => RuntimeItems.SenderLeavesStops(cfg, s, outcome, now);
    case _ =>
  }

  lemma CollectorLeavesCalm(cfg: EdgeConfig, s: State, choice: CollectorChoice)
    ensures Collect(cfg, s, choice).calm == s.calm
  {}

  lemma SpoolerLeavesCalm(cfg: EdgeConfig, s: State, now: Stamp)
    ensures Spool(cfg, s, now).calm == s.calm
  {
    hide Outgoing, Decide, Reserve, LastSequence, InsertAll;
  }

  lemma {:induction false} CalmThroughout(cfg: EdgeConfig, s: State, actions: seq<Action>)
    requires RuntimeOutbox.Inv(cfg, s) && RuntimeItems.Calm(s) && s.calm
    requires forall i :: 0 <= i < |actions| ==> Undisturbed(actions[i])
    ensures var e := RuntimeWakeup.After(cfg, s, actions);
            RuntimeOutbox.Inv(cfg, e) && RuntimeItems.Calm(e) && e.calm
    decreases |actions|
  {
    hide RuntimeOutbox.Inv, RuntimeItems.Calm, Step;
    if actions != [] {
      CalmGoesOn(cfg, s, actions[0]);
      CalmThroughout(cfg, Step(cfg, s, actions[0]), actions[1..]);
    }
  }

  lemma NoSentinelNoneStranded(cfg: EdgeConfig, s: State, actions: seq<Action>)
    requires Reachable(cfg, s) && Session(cfg, s, actions) && !HasSentinel(s.shared.queue)
    ensures !Strands(RuntimeWakeup.After(cfg, s, actions))
  {
    var run :| Run(cfg, run) == s;
    RuntimeOutbox.Always(cfg, run);
    RuntimeItems.AlwaysCalm(cfg, run);
    RuntimeOutbox.StepKeeps(cfg, s, MainStep);
    RuntimeItems.CalmKept(cfg, s, MainStep);
    hide Run, RuntimeOutbox.Outbox;
    var begun := Step(cfg, s, MainStep);
    assert begun.calm;
    CalmThroughout(cfg, begun, actions[1..]);
    var e := RuntimeWakeup.After(cfg, s, actions);
    assert e == RuntimeWakeup.After(cfg, begun, actions[1..]);
    if Strands(e) {
      RuntimeItems.NothingVolatile(e);
    }
  }

  /** What a walk of the spooler alone leaves alone. */
  ghost predicate OnlySpooled(s: State, s': State) {
    s'.main == s.main && s'.col == s.col && s'.snd == s.snd
  }

  lemma SpoolStepOnly(cfg: EdgeConfig, s: State, now: Stamp)
    ensures OnlySpooled(s, Spool(cfg, s, now))
  {
    RuntimeOutbox.SpoolerShape(cfg, s, now);
  }

  /** A spooler step leaves the sentinel in the queue or takes it and ends. */
  lemma SentinelStays(cfg: EdgeConfig, s: State, now: Stamp)
    requires HasSentinel(s.shared.queue) && !s.spl.SOff? && !s.spl.SFailing?
    ensures var s' := Spool(cfg, s, now);
            s'.spl.SOff? || (HasSentinel(s'.shared.queue) && !s'.spl.SFailing?)
  {
    hide Decide, Reserve, LastSequence, InsertAll;
  }

  /** Left alone, the spooler works its way to the sentinel and ends there. */
  lemma {:induction false} SentinelEndsSpooler(cfg: EdgeConfig, s: State) returns (steps: seq<Action>)
    requires RuntimeOutbox.Outbox(cfg, s) && HasSentinel(s.shared.queue) && !s.spl.SFailing?
    ensures forall i :: 0 <= i < |steps| ==> steps[i].SpoolerStep?
    ensures var e := RuntimeWakeup.After(cfg, s, steps); e.spl.SOff? && OnlySpooled(s, e)
    decreases 9 * RuntimeWakeup.Load(s) + RuntimeWakeup.SpoolerDistance(s)
  {
    hide Spool, Outgoing, RuntimeOutbox.Outbox, RuntimeWakeup.Load, RuntimeWakeup.SpoolerDistance;
    if s.spl.SOff? {
      steps := [];
    } else {
      var s', a := Spool(cfg, s, NOW), SpoolerStep(NOW);
      SpoolStepOnly(cfg, s, NOW);
      SentinelStays(cfg, s, NOW);
      if s'.spl.SOff? {
        steps := [a];
        assert steps[1..] == [] && RuntimeWakeup.After(cfg, s, steps) == RuntimeWakeup.After(cfg, s', []);
      } else {
        RuntimeOutbox.SpoolerKeeps(cfg, s, NOW);
        StepLightens(cfg, s);
        var rest := SentinelEndsSpooler(cfg, s');
        steps := [a] + rest;
        assert steps[1..] == rest;
      }
    }
  }

  lemma StepLightens(cfg: EdgeConfig, s: State)
    requires RuntimeOutbox.Outbox(cfg, s) && HasSentinel(s.shared.queue) && !s.spl.SOff? && !s.spl.SFailing?
    ensures var s' := Spool(cfg, s, NOW);
            9 * RuntimeWakeup.Load(s') + RuntimeWakeup.SpoolerDistance(s')
            < 9 * RuntimeWakeup.Load(s) + RuntimeWakeup.SpoolerDistance(s)
  {
    hide Spool, RuntimeWakeup.Load, RuntimeWakeup.SpoolerDistance;
    RuntimeWakeup.DistancesBounded(Spool(cfg, s, NOW));
    RuntimeWakeup.DistancesBounded(s);
    if Outgoing(s.spl, NOW).0 != [] {
      RuntimeWakeup.CommitLightens(cfg, s, NOW);
    } else {
      RuntimeWakeup.QuietSpoolerApproaches(cfg, s, NOW);
    }
  }

  /** start() runs to its end. */
  lemma Begins(cfg: EdgeConfig, s: State) returns (steps: seq<Action>)
    requires RuntimeOutbox.Lifecycle(s) && s.main.MIdle?
    ensures Session(cfg, s, steps)
    ensures var e := RuntimeWakeup.After(cfg, s, steps);
            && e.main.MRunning? && e.col.CTop? && e.spl.STop? && !e.shared.flags.stopCollector
            && e.shared.queue == s.shared.queue
  {
    var m := MainStep;
    steps := if s.box.rows == [] then [m, m, m, m] else [m, m, m, m, m];
    var s1 := Runtime.Main(s);
    var s2 := Runtime.Main(s1);
    var s3 := Runtime.Main(s2);
    var s4 := Runtime.Main(s3);
    if s.box.rows == [] {
      FourSteps(cfg, s, m);
    } else {
      var s5 := Runtime.Main(s4);
      FiveSteps(cfg, s, m);
    }
  }

  lemma FourSteps(cfg: EdgeConfig, s: State, a: Action)
    ensures RuntimeWakeup.After(cfg, s, [a, a, a, a]) == Step(cfg, Step(cfg, Step(cfg, Step(cfg, s, a), a), a), a)
  {
    hide Step;
    assert [a, a, a, a] == [a] + [a, a, a] && [a, a, a] == [a] + [a, a];
    FirstStep(cfg, s, a, [a, a, a]);
    FirstStep(cfg, Step(cfg, s, a), a, [a, a]);
    TwoSteps(cfg, Step(cfg, Step(cfg, s, a), a), a, a);
  }

  lemma FirstStep(cfg: EdgeConfig, s: State, a: Action, rest: seq<Action>)
    ensures RuntimeWakeup.After(cfg, s, [a] + rest) == RuntimeWakeup.After(cfg, Step(cfg, s, a), rest)
  {
    hide Step;
    assert ([a] + rest)[1..] == rest;
  }

  lemma TwoSteps(cfg: EdgeConfig, s: State, a: Action, b: Action)
    ensures RuntimeWakeup.After(cfg, s, [a, b]) == Step(cfg, Step(cfg, s, a), b)
  {
    hide Step;
    assert [a, b] == [a] + [b] && [b] == [b] + [];
    FirstStep(cfg, s, a, [b]);
    FirstStep(cfg, Step(cfg, s, a), b, []);
  }

  lemma FiveSteps(cfg: EdgeConfig, s: State, a: Action)
    ensures RuntimeWakeup.After(cfg, s, [a, a, a, a, a])
        == Step(cfg, Step(cfg, Step(cfg, Step(cfg, Step(cfg, s, a), a), a), a), a)
  {
    hide Step;
    assert [a, a, a, a, a] == [a] + [a, a, a, a];
    FirstStep(cfg, s, a, [a, a, a, a]);
    FourSteps(cfg, Step(cfg, s, a), a);
  }

  /** A session can strand an item though nothing fails in it, exactly when start() finds a sentinel of an earlier
      session in the queue. */
  lemma StaleSentinelIff(cfg: EdgeConfig, s: State)
    requires Reachable(cfg, s) && s.main.MIdle?
    ensures HasSentinel(s.shared.queue) <==>
            exists actions :: Session(cfg, s, actions) && Strands(RuntimeWakeup.After(cfg, s, actions))
  {
    if HasSentinel(s.shared.queue) {
      var actions := StrandingSession(cfg, s);
    } else {
      forall actions | Session(cfg, s, actions) ensures !Strands(RuntimeWakeup.After(cfg, s, actions)) {
        NoSentinelNoneStranded(cfg, s, actions);
      }
    }
  }

  lemma StrandingSession(cfg: EdgeConfig, s: State) returns (actions: seq<Action>)
    requires Reachable(cfg, s) && s.main.MIdle? && HasSentinel(s.shared.queue)
    ensures Session(cfg, s, actions) && Strands(RuntimeWakeup.After(cfg, s, actions))
  {
    var run :| Run(cfg, run) == s;
    RuntimeOutbox.Always(cfg, run);
    hide Reachable, Run, Step, RuntimeOutbox.Outbox, RuntimeWakeup.After;
    var begin := Begins(cfg, s);
    var begun := RuntimeWakeup.After(cfg, s, begin);
    var read := [CollectorStep(Continue), CollectorStep(Complete(Collector.ReadError(IncompleteWindow(1, 0, ""))))];
    Reads(cfg, begun, read[1].choice.item);
    var held := RuntimeWakeup.After(cfg, begun, read);
    AfterKeeps(cfg, s, begin);
    AfterKeeps(cfg, begun, read);
    var steps := SentinelEndsSpooler(cfg, held);
    actions := begin + read + steps;
    RuntimeWakeup.AfterAppend(cfg, s, begin, read);
    RuntimeWakeup.AfterAppend(cfg, s, begin + read, steps);
  }

  lemma {:induction false} AfterKeeps(cfg: EdgeConfig, s: State, actions: seq<Action>)
    requires RuntimeOutbox.Inv(cfg, s)
    ensures RuntimeOutbox.Inv(cfg, RuntimeWakeup.After(cfg, s, actions))
    decreases |actions|
  {
    hide RuntimeOutbox.Inv, Step;
    if actions != [] {
      RuntimeOutbox.StepKeeps(cfg, s, actions[0]);
      AfterKeeps(cfg, Step(cfg, s, actions[0]), actions[1..]);
    }
  }

  lemma Reads(cfg: EdgeConfig, s: State, item: Collector.Item)
    requires s.col.CTop? && !s.shared.flags.stopCollector
    ensures var e := RuntimeWakeup.After(cfg, s, [CollectorStep(Continue), CollectorStep(Complete(item))]);
            && e.col.CPut? && e.main == s.main && e.spl == s.spl && e.shared == s.shared
  {
    TwoSteps(cfg, s, CollectorStep(Continue), CollectorStep(Complete(item)));
  }
}
