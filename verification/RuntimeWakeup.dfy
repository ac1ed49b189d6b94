/** Liveness of the protocol in safety form: no wake-up of the sender is lost, the backoff follows
    the failed sends, and once sends stop failing the backlog drains to zero. */
module RuntimeWakeup {
  import opened Prelude
  import Health
  import opened Blackbox
  import opened Rules
  import opened Pipeline
  import opened Runtime
  import RuntimeOutbox

  // ----- no lost wake-up -----

  predicate Waiting(snd: SenderPc) {
    snd.NTop? || snd.NWait?
  }

  /** Someone has appended, or found a backlog, and is about to set the drain event; a spooler that fails
      in between sets it, too, at the end of recording its failure. */
  predicate AboutToWake(s: State) {
    s.spl.SDrainSet? || s.spl.SSet? || s.spl.SFailing? || s.main.MCheckBacklog? || s.main.MSetDrain?
  }

  ghost predicate Awake(s: State) {
    Waiting(s.snd) && s.box.rows != [] && !s.shared.flags.stopSender && !s.pace.passFailed ==>
      s.shared.flags.drain || AboutToWake(s)
  }

  lemma MainAwake(s: State)
    requires RuntimeOutbox.Lifecycle(s) && Awake(s)
    ensures Awake(Main(s))
  {}

  lemma SpoolerAwake(cfg: EdgeConfig, s: State, now: Stamp)
    requires RuntimeOutbox.HandFits(s.spl) && Awake(s)
    ensures Awake(Spool(cfg, s, now))
  {
    RuntimeOutbox.SpoolerShape(cfg, s, now);
    if Outgoing(s.spl, now).0 == [] {
      RuntimeOutbox.QuietSpooler(cfg, s, now);
    }
  }

  /** The sender goes back to waiting only with an empty outbox, a stop order or a failed pass. */
  lemma SenderAwake(cfg: EdgeConfig, s: State, outcome: SendOutcome, now: Stamp)
    requires Awake(s)
    ensures Awake(Send(cfg, s, outcome, now))
  {}

  lemma AwakeKept(cfg: EdgeConfig, s: State, a: Action)
    requires RuntimeOutbox.Inv(cfg, s) && Awake(s)
    ensures Awake(Step(cfg, s, a))
  {
    match a
    case MainStep => MainAwake(s);
    case CollectorStep(choice) => CollectorAwake(cfg, s, choice);
    case SpoolerStep(now) => SpoolerAwake(cfg, s, now);
    case SenderStep(outcome, now) => SenderAwake(cfg, s, outcome, now);
    case _ =>
  }

  lemma CollectorAwake(cfg: EdgeConfig, s: State, choice: CollectorChoice)
    requires Awake(s)
    ensures Awake(Collect(cfg, s, choice))
  {
    RuntimeOutbox.CollectorShape(cfg, s, choice);
  }

  lemma {:induction false} AlwaysAwake(cfg: EdgeConfig, actions: seq<Action>)
    ensures Awake(Run(cfg, actions))
  {
    if actions != [] {
      var front, a := actions[..|actions| - 1], actions[|actions| - 1];
      AlwaysAwake(cfg, front);
      RuntimeOutbox.Always(cfg, front);
      AwakeKept(cfg, Run(cfg, front), a);
    }
  }

  /** Whenever the sender waits while rows are pending, was not told to stop and did not end its last
      pass in a failed send, either the drain event is set or the thread that appended the rows, or
      found them at the start, is just about to set it, even if that thread has failed meanwhile. */
  lemma NoLostWakeUp(cfg: EdgeConfig, actions: seq<Action>)
    ensures var s := Run(cfg, actions);
            s.snd.NWait? && s.box.rows != [] && !s.shared.flags.stopSender && !s.pace.passFailed ==>
              || s.shared.flags.drain
              || s.spl.SDrainSet? || s.spl.SSet? || s.spl.SFailing?
              || s.main.MCheckBacklog? || s.main.MSetDrain?
  {
    AlwaysAwake(cfg, actions);
  }

  // ----- stop() and flush() wake the sender at once -----

  /** Someone has told the sender to stop and is about to set the drain event. */
  predicate AboutToWakeForStop(s: State) {
    || s.main.MWakeSender?
    || (s.col.CFailing? && s.col.stage.ToDrain?) || (s.spl.SFailing? && s.spl.stage.ToDrain?)
  }

  ghost predicate StopReaches(s: State) {
    s.snd.NWait? && s.shared.flags.stopSender ==> s.shared.flags.drain || AboutToWakeForStop(s)
  }

  lemma StopReachesKept(cfg: EdgeConfig, s: State, a: Action)
    requires RuntimeOutbox.Inv(cfg, s) && StopReaches(s)
    ensures StopReaches(Step(cfg, s, a))
  {
    hide RuntimeOutbox.Outbox, Spool, Send, Collect;
    match a
    case SpoolerStep(now) =>
      if s.spl.SFailing? { SpoolerRecording(cfg, s, now); } else { SpoolerSpares(cfg, s, now); }
    case SenderStep(outcome, now) => SenderReaches(cfg, s, outcome, now);
    case CollectorStep(choice) => CollectorReaches(cfg, s, choice);
    case _ =>
  }

  lemma CollectorReaches(cfg: EdgeConfig, s: State, choice: CollectorChoice)
    requires StopReaches(s)
    ensures StopReaches(Collect(cfg, s, choice))
  {}

  lemma SenderReaches(cfg: EdgeConfig, s: State, outcome: SendOutcome, now: Stamp)
    requires StopReaches(s)
    ensures StopReaches(Send(cfg, s, outcome, now))
  {
    hide Health.Observe;
  }

  lemma SpoolerRecording(cfg: EdgeConfig, s: State, now: Stamp)
    requires s.spl.SFailing?
    ensures var (sh, next) := RecordFailure(s.shared, s.spl.stage);
            Spool(cfg, s, now) == s.(shared := sh, spl := if next.Some? then SFailing(next.value) else SOff)
  {}

  /** A spooler that is not failing never clears an event. */
  lemma SpoolerSpares(cfg: EdgeConfig, s: State, now: Stamp)
    requires !s.spl.SFailing?
    ensures var s' := Spool(cfg, s, now);
            && !s'.spl.SFailing? && s'.main == s.main && s'.col == s.col && s'.snd == s.snd
            && s'.shared.flags == s.shared.flags.(drain := s'.shared.flags.drain)
            && (s.shared.flags.drain ==> s'.shared.flags.drain)
  {
    hide Decide, LastSequence, Reserve, InsertAll, Outgoing;
  }

  lemma {:induction false} AlwaysReaches(cfg: EdgeConfig, actions: seq<Action>)
    ensures StopReaches(Run(cfg, actions))
  {
    if actions != [] {
      var front, a := actions[..|actions| - 1], actions[|actions| - 1];
      AlwaysReaches(cfg, front);
      RuntimeOutbox.Always(cfg, front);
      hide Step;
      StopReachesKept(cfg, Run(cfg, front), a);
    }
  }

  /** A sender that waits and has been told to stop does not wait out its backoff: the drain event is set, or the
      thread that told it, stop() or a worker that failed, is just about to set it. */
  lemma StopWakesSender(cfg: EdgeConfig, actions: seq<Action>)
    ensures var s := Run(cfg, actions);
            s.snd.NWait? && s.shared.flags.stopSender ==>
              || s.shared.flags.drain || s.main.MWakeSender?
              || s.col == CFailing(ToDrain) || s.spl == SFailing(ToDrain)
  {
    AlwaysReaches(cfg, actions);
  }

  /** The event that flush() sets stays set until the sender takes its next step or the process ends, so it cuts a
      backoff short, whatever the other threads do. */
  lemma {:induction false} FlushWakesSender(cfg: EdgeConfig, s: State, others: seq<Action>)
    requires forall i :: 0 <= i < |others| ==> !others[i].SenderStep? && !others[i].Crash? && !others[i].Rebuild?
    ensures After(cfg, s, [Flush] + others).shared.flags.drain
  {
    hide Step;
    assert ([Flush] + others)[1..] == others;
    FlushSets(cfg, s);
    DrainStays(cfg, Step(cfg, s, Flush), others);
  }

  lemma FlushSets(cfg: EdgeConfig, s: State)
    ensures Step(cfg, s, Flush).shared.flags.drain
  {}

  lemma {:induction false} DrainStays(cfg: EdgeConfig, s: State, others: seq<Action>)
    requires s.shared.flags.drain
    requires forall i :: 0 <= i < |others| ==> !others[i].SenderStep? && !others[i].Crash? && !others[i].Rebuild?
    ensures After(cfg, s, others).shared.flags.drain
    decreases |others|
  {
    if others != [] {
      DrainStaysOneStep(cfg, s, others[0]);
      hide Step;
      DrainStays(cfg, Step(cfg, s, others[0]), others[1..]);
    }
  }

  lemma DrainStaysOneStep(cfg: EdgeConfig, s: State, a: Action)
    requires s.shared.flags.drain && !a.SenderStep? && !a.Crash? && !a.Rebuild?
    ensures Step(cfg, s, a).shared.flags.drain
  {
    hide Spool, Collect, Main;
    match a
    case SpoolerStep(now) =>
      if s.spl.SFailing? { SpoolerRecording(cfg, s, now); } else { SpoolerSpares(cfg, s, now); }
    case CollectorStep(choice) => CollectorSpares(cfg, s, choice);
    case MainStep => MainSpares(s);
    case _ =>
  }

  lemma CollectorSpares(cfg: EdgeConfig, s: State, choice: CollectorChoice)
    requires s.shared.flags.drain
    ensures Collect(cfg, s, choice).shared.flags.drain
  {}

  lemma MainSpares(s: State)
    requires s.shared.flags.drain
    ensures Main(s).shared.flags.drain
  {}

  /** The step sets the drain event: flush(), start() over a backlog, stop(), the spooler after a commit, or a worker
      at the end of recording its failure. */
  predicate SetsDrain(s: State, a: Action) {
    match a
    case Flush => true
    case MainStep => s.main.MSetDrain? || s.main.MWakeSender?
    case CollectorStep(_) => s.col == CFailing(ToDrain)
    case SpoolerStep(_) => s.spl.SDrainSet? || s.spl.SSet? || s.spl == SFailing(ToDrain)
    case SenderStep(_, _) => s.snd == NFailing(ToDrain)
    case _ => false
  }

  ghost predicate NobodySets(cfg: EdgeConfig, s: State, actions: seq<Action>)
    decreases |actions|
  {
    actions != [] ==> !SetsDrain(s, actions[0]) && NobodySets(cfg, Step(cfg, s, actions[0]), actions[1..])
  }

  /** The sender clears the event when it wakes, and from then on the event is clear until someone sets it: without
      new rows and orders the sender waits out its backoff. */
  lemma ClearedStaysClear(cfg: EdgeConfig, s: State, outcome: SendOutcome, now: Stamp, actions: seq<Action>)
    requires s.snd.NClear? && NobodySets(cfg, Send(cfg, s, outcome, now), actions)
    ensures !After(cfg, Send(cfg, s, outcome, now), actions).shared.flags.drain
  {
    StaysClear(cfg, Send(cfg, s, outcome, now), actions);
  }

  lemma {:induction false} StaysClear(cfg: EdgeConfig, s: State, actions: seq<Action>)
    requires !s.shared.flags.drain && NobodySets(cfg, s, actions)
    ensures !After(cfg, s, actions).shared.flags.drain
    decreases |actions|
  {
    hide Step, SetsDrain;
    if actions != [] {
      StepStaysClear(cfg, s, actions[0]);
      StaysClear(cfg, Step(cfg, s, actions[0]), actions[1..]);
    }
  }

  lemma StepStaysClear(cfg: EdgeConfig, s: State, a: Action)
    requires !s.shared.flags.drain && !SetsDrain(s, a)
    ensures !Step(cfg, s, a).shared.flags.drain
  {
    hide Spool, Send, Collect, Main;
    match a
    case MainStep => MainStaysClear(s);
    case SpoolerStep(now) => SpoolerStaysClear(cfg, s, now);
    case SenderStep(outcome, now) => SenderStaysClear(cfg, s, outcome, now);
    case CollectorStep(choice) => CollectorStaysClear(cfg, s, choice);
    case _ =>
  }

  lemma MainStaysClear(s: State)
    requires !s.shared.flags.drain && !s.main.MSetDrain? && !s.main.MWakeSender?
    ensures !Main(s).shared.flags.drain
  {}

  lemma CollectorStaysClear(cfg: EdgeConfig, s: State, choice: CollectorChoice)
    requires !s.shared.flags.drain && s.col != CFailing(ToDrain)
    ensures !Collect(cfg, s, choice).shared.flags.drain
  {}

  lemma SpoolerStaysClear(cfg: EdgeConfig, s: State, now: Stamp)
    requires !s.shared.flags.drain && !s.spl.SDrainSet? && !s.spl.SSet? && s.spl != SFailing(ToDrain)
    ensures !Spool(cfg, s, now).shared.flags.drain
  {
    hide Decide, LastSequence, Reserve, InsertAll, Outgoing;
  }

  lemma SenderStaysClear(cfg: EdgeConfig, s: State, outcome: SendOutcome, now: Stamp)
    requires !s.shared.flags.drain && s.snd != NFailing(ToDrain)
    ensures !Send(cfg, s, outcome, now).shared.flags.drain
  {
    hide Health.Observe, Blackbox.Pending, Bumped, Without;
  }

  /** What the sender fetches is the beginning of the outbox, as long as the batch size allows. */
  lemma FetchesBatch(cfg: EdgeConfig, s: State, outcome: SendOutcome, now: Stamp)
    requires s.snd.NFetch?
    ensures var snd := Send(cfg, s, outcome, now).snd;
            && snd.NSend? && snd.batch <= s.box.rows
            && |snd.batch| <= cfg.batchSize && (|snd.batch| == cfg.batchSize || snd.batch == s.box.rows)
  {}

  // ----- the backoff -----

  function PowerOfTwo(k: nat): real {
    if k == 0 then 1.0 else 2.0 * PowerOfTwo(k - 1)
  }

  function Capped(x: real): real {
    if x < 30.0 then x else 30.0
  }

  /** The last n results were failures, and no more than these since the sender began. */
  ghost predicate EndsIn(observed: seq<bool>, n: nat, since: nat) {
    && since + n <= |observed|
    && Health.Streak(observed, |observed|, n, false)
    && (since + n < |observed| ==> observed[|observed| - n - 1])
  }

  ghost predicate Paced(s: State) {
    && s.pace.backoff == Capped(PowerOfTwo(s.pace.streak))
    && EndsIn(s.life.observed, s.pace.streak, s.pace.since)
  }

  lemma {:induction false} PowerAtLeastOne(k: nat)
    ensures PowerOfTwo(k) >= 1.0
  {
    if k > 0 { PowerAtLeastOne(k - 1); }
  }

  lemma MoreResults(observed: seq<bool>, n: nat, since: nat)
    requires EndsIn(observed, n, since)
    ensures EndsIn(observed + [false], n + 1, since)
    ensures EndsIn(observed + [true], 0, since)
  {}

  lemma SlowerIsDoubled(p: Pace)
    requires p.backoff == Capped(PowerOfTwo(p.streak))
    ensures p.AfterFailure().backoff == Capped(PowerOfTwo(p.streak + 1))
  {
    PowerAtLeastOne(p.streak);
  }

  lemma SenderPaced(cfg: EdgeConfig, s: State, outcome: SendOutcome, now: Stamp)
    requires Paced(s)
    ensures Paced(Send(cfg, s, outcome, now))
  {
    hide EndsIn, Capped, DoubleBackoff, Runtime.RecordFailure;
    SlowerIsDoubled(s.pace);
    assert Capped(PowerOfTwo(0)) == 1.0 by { NoFailureYet(); }
    MoreResults(s.life.observed, s.pace.streak, s.pace.since);
  }

  lemma OthersPaced(cfg: EdgeConfig, s: State, a: Action)
    requires Paced(s) && !a.SenderStep?
    ensures Paced(Step(cfg, s, a))
  {
    hide EndsIn;
    if a.MainStep? {
      NoResultsYet(s.life.observed);
    } else if a.Crash? || a.Rebuild? {
      NoResultsYet([]);
    } else if a.CollectorStep? {
      RuntimeOutbox.CollectorShape(cfg, s, a.choice);
    }
  }

  lemma NoFailureYet()
    ensures Capped(PowerOfTwo(0)) == 1.0
  {}

  lemma NoResultsYet(observed: seq<bool>)
    ensures EndsIn(observed, 0, |observed|)
  {}

  /** The sender waits min(30, 2^k) seconds, where k is the number of failed sends since its last success or,
      if there was none, since it began. */
  lemma BackoffFollowsFailures(cfg: EdgeConfig, actions: seq<Action>)
    ensures var s := Run(cfg, actions);
            var k, observed := s.pace.streak, s.life.observed;
            && s.pace.backoff == Capped(PowerOfTwo(k))
            && s.pace.since + k <= |observed|
            && (forall i :: |observed| - k <= i < |observed| ==> !observed[i])
            && (s.pace.since + k < |observed| ==> observed[|observed| - k - 1])
  {
    AlwaysPaced(cfg, actions);
    hide Run, PowerOfTwo, Capped;
  }

  lemma {:induction false} AlwaysPaced(cfg: EdgeConfig, actions: seq<Action>)
    ensures Paced(Run(cfg, actions))
  {
    if actions == [] {
      NoResultsYet([]);
    } else {
      var front, a := actions[..|actions| - 1], actions[|actions| - 1];
      AlwaysPaced(cfg, front);
      if a.SenderStep? {
        SenderPaced(cfg, Run(cfg, front), a.outcome, a.now);
      } else {
        OthersPaced(cfg, Run(cfg, front), a);
      }
    }
  }

  // ----- draining -----

  function Queued(q: seq<Option<Tagged>>): nat {
    if q == [] then 0 else (if q[0].Some? then 3 else 1) + Queued(q[1..])
  }

  function InHand(spl: SpoolerPc): nat {
    match spl
    case STaken(_) => 2
    case STransition(_, _) => 2
    case SHave(_) => 3
    case SReadError(_, _) => 3
    case SDecided(_, _) => 3
    case SNumbered(_, _, _) => 3
    case SIncident(_, _, _, _) => 3
    case _ => 0
  }

  /** What is still to be sent, counting two for a transition and three for an item or for the
      recovery event that a disconnected monitor will yet announce. */
  function Load(s: State): nat {
    |s.box.rows| + 2 * |s.shared.transitions| + InHand(s.spl) + Queued(s.shared.queue)
    + (if s.life.monitor.connected then 0 else 3)
    + (if s.snd.NRefused? || s.snd.NFailed? then 6 else 0)
  }

  predicate SpoolerHasWork(s: State) {
    !s.spl.SOff? && !s.spl.SFailing? && (s.shared.transitions != [] || s.shared.queue != [] || InHand(s.spl) > 0)
  }

  predicate SenderHasWork(s: State) {
    s.box.rows != [] || s.snd.NAcked? || s.snd.NFailed?
  }

  /** Steps until the spooler next takes something off the load. */
  function SpoolerDistance(s: State): nat {
    if SpoolerHasWork(s) then SpoolerPath(s.spl, s.shared.transitions == [], s.shared.queue == []) else 0
  }

  function SpoolerPath(spl: SpoolerPc, noTransition: bool, noItem: bool): nat {
    match spl
    case STransition(_, _) => 1
    case SReadError(_, _) => 1
    case SIncident(_, _, _, _) => 1
    case STaken(_) => 2
    case SNumbered(_, _, _) => 2
    case SDecided(_, _) => 3
    case SHave(_) => 4
    case SDrain => if noTransition then 6 else 3
    case SGet => if noItem then 8 else 5
    case STop => 7
    case SDrainSet => 7
    case SSet => 8
    case _ => 0
  }

  function SenderDistance(s: State): nat {
    if SenderHasWork(s) then SenderPath(s.snd) else 0
  }

  function SenderPath(snd: SenderPc): nat {
    match snd
    case NAccepted(_) => 1
    case NSend(batch) => if batch == [] then 5 else 2
    case NFetch => 3
    case NLoop => 4
    case NCheck => 5
    case NAcked(_) => 6
    case NClear => 6
    case NWait => 7
    case NTop => 8
    case NFailed => 9
    case NRefused(_) => 10
    case _ => 0
  }

  function Potential(s: State): nat {
    20 * Load(s) + SpoolerDistance(s) + SenderDistance(s)
  }

  predicate SenderUp(s: State) {
    !s.snd.NOff? && !s.snd.NFailing? && !s.shared.flags.stopSender && !s.spl.SFailing?
  }

  /** The collector has ended, and the sender is up, not told to stop, and not about to be told so by a
      failing spooler. */
  ghost predicate Settled(cfg: EdgeConfig, s: State) {
    && RuntimeOutbox.Outbox(cfg, s)
    && s.col.COff? && SenderUp(s)
  }

  /** A step of the spooler, or of the sender with a transport that accepts. */
  predicate Draining(a: Action) {
    a.SpoolerStep? || (a.SenderStep? && a.outcome.Passed?)
  }

  // ----- the spooler's share -----

  lemma SpoolerFrame(cfg: EdgeConfig, s: State, now: Stamp)
    ensures var s' := Spool(cfg, s, now);
            && s'.snd == s.snd && s'.col == s.col && s'.life.monitor == s.life.monitor
            && (!s.spl.SFailing? ==> !s'.spl.SFailing? && s'.shared.flags.stopSender == s.shared.flags.stopSender)
  {
    hide Decide, LastSequence, Reserve, Outgoing, InsertAll;
  }

  lemma SpoolerLeavesSender(cfg: EdgeConfig, s: State, now: Stamp)
    requires RuntimeOutbox.Outbox(cfg, s)
    ensures var s' := Spool(cfg, s, now);
            && s'.snd == s.snd && s'.col == s.col && s.box.rows <= s'.box.rows
            && s'.life.monitor == s.life.monitor
            && (!s.spl.SFailing? ==> !s'.spl.SFailing? && s'.shared.flags.stopSender == s.shared.flags.stopSender)
  {
    SpoolerFrame(cfg, s, now);
    var ms := Outgoing(s.spl, now).0;
    RuntimeOutbox.OutgoingNumbers(s.spl, now);
    if ms != [] {
      RuntimeOutbox.KeysAreFree(cfg, s, ms);
    } else {
      RuntimeOutbox.QuietSpooler(cfg, s, now);
      hide Spool;
    }
  }

  /** A commit turns a transition or an item into fewer rows than it weighed. */
  lemma CommitLightens(cfg: EdgeConfig, s: State, now: Stamp)
    requires RuntimeOutbox.Outbox(cfg, s) && Outgoing(s.spl, now).0 != []
    ensures Load(Spool(cfg, s, now)) < Load(s)
  {
    var ms := Outgoing(s.spl, now).0;
    RuntimeOutbox.OutgoingNumbers(s.spl, now);
    RuntimeOutbox.KeysAreFree(cfg, s, ms);
    var s' := Spool(cfg, s, now);
    assert |s'.box.rows| == |s.box.rows| + |ms|;
  }

  /** Otherwise the spooler keeps the load, or takes the sentinel, and comes closer to a commit. */
  lemma QuietSpoolerApproaches(cfg: EdgeConfig, s: State, now: Stamp)
    requires RuntimeOutbox.HandFits(s.spl) && Outgoing(s.spl, now).0 == []
    ensures var s' := Spool(cfg, s, now);
            && s'.box.rows == s.box.rows && Load(s') <= Load(s)
            && (SpoolerHasWork(s) ==> Load(s') < Load(s) || SpoolerDistance(s') < SpoolerDistance(s))
            && (!SpoolerHasWork(s) ==> !SpoolerHasWork(s'))
  {
    QuietSpoolerLoad(cfg, s, now);
    if SpoolerHasWork(s) {
      QuietSpoolerPath(cfg, s, now);
    } else {
      QuietSpoolerIdle(cfg, s, now);
    }
  }

  lemma QuietSpoolerLoad(cfg: EdgeConfig, s: State, now: Stamp)
    requires RuntimeOutbox.HandFits(s.spl) && Outgoing(s.spl, now).0 == []
    ensures var s' := Spool(cfg, s, now);
            && s'.box.rows == s.box.rows && Load(s') <= Load(s)
            && (s.spl.SGet? && s.shared.queue != [] && s.shared.queue[0].None? ==> Load(s') < Load(s))
  {
    hide Decide, LastSequence, Commit;
  }

  lemma QuietSpoolerPath(cfg: EdgeConfig, s: State, now: Stamp)
    requires RuntimeOutbox.HandFits(s.spl) && Outgoing(s.spl, now).0 == [] && SpoolerHasWork(s)
    ensures SpoolerDistance(Spool(cfg, s, now)) < SpoolerDistance(s)
  {
    hide Decide, LastSequence, Commit, Reserve;
  }

  lemma QuietSpoolerIdle(cfg: EdgeConfig, s: State, now: Stamp)
    requires !SpoolerHasWork(s)
    ensures !SpoolerHasWork(Spool(cfg, s, now))
  {
    hide Decide, LastSequence, Commit, Reserve;
  }

  lemma DistancesBounded(s: State)
    ensures SpoolerDistance(s) <= 8 && SenderDistance(s) <= 10
  {}

  lemma SpoolerDrains(cfg: EdgeConfig, s: State, now: Stamp)
    requires Settled(cfg, s)
    ensures var s' := Spool(cfg, s, now);
            && Potential(s') <= Potential(s)
            && (SpoolerHasWork(s) ==> Potential(s') < Potential(s))
            && (SenderHasWork(s) ==> SenderHasWork(s'))
            && (!SpoolerHasWork(s) ==> !SpoolerHasWork(s') && s'.box.rows == s.box.rows)
  {
    hide Load, SpoolerHasWork, SpoolerDistance;
    var s' := Spool(cfg, s, now);
    SpoolerLeavesSender(cfg, s, now);
    DistancesBounded(s);
    DistancesBounded(s');
    if Outgoing(s.spl, now).0 != [] {
      CommitLightens(cfg, s, now);
      CommittingIsWork(s, now);
    } else {
      QuietSpoolerApproaches(cfg, s, now);
      NoWorkNoDistance(s');
    }
  }

  lemma CommittingIsWork(s: State, now: Stamp)
    requires Outgoing(s.spl, now).0 != []
    ensures SpoolerHasWork(s)
  {}

  lemma NoWorkNoDistance(s: State)
    ensures !SpoolerHasWork(s) ==> SpoolerDistance(s) == 0
  {}

  // ----- the sender's share -----

  lemma SenderLeavesSpooler(cfg: EdgeConfig, s: State, now: Stamp)
    ensures var s' := Send(cfg, s, Passed, now);
            && s'.spl == s.spl && s'.col == s.col && s'.shared.queue == s.shared.queue
            && s.shared.transitions <= s'.shared.transitions
            && (SenderUp(s) ==> SenderUp(s'))
  {}

  lemma AcknowledgeLightens(cfg: EdgeConfig, s: State, now: Stamp)
    requires RuntimeOutbox.Outbox(cfg, s) && s.snd.NAccepted?
    ensures Load(Send(cfg, s, Passed, now)) < Load(s)
  {
    var rows := s.box.rows;
    assert s.snd.batch[0] == rows[0];
    RuntimeOutbox.AcknowledgeMirrors(cfg, rows, s.box.nextId, s.ledger,
                                     AcknowledgeRow(s, rows[0].id, s.snd.batch[1..]).ledger);
  }

  /** The monitor's answer to a result never adds to the load: a recovery event replaces the
      disconnection it ends, a loss the refused send that caused it. */
  lemma ReportLightens(cfg: EdgeConfig, s: State, now: Stamp)
    requires s.snd.NAcked? || s.snd.NFailed?
    ensures var s' := Send(cfg, s, Passed, now);
            && s'.box.rows == s.box.rows
            && (Load(s') < Load(s) || (Load(s') == Load(s) && s'.shared.transitions == s.shared.transitions
                                       && s'.snd.NSend?))
  {
    hide InHand, Queued;
  }

  predicate Quiet(snd: SenderPc) {
    !snd.NAccepted? && !snd.NAcked? && !snd.NFailed?
  }

  /** What the other steps of the sender leave alone. */
  lemma QuietSenderShape(cfg: EdgeConfig, s: State, now: Stamp)
    requires SenderUp(s) && Quiet(s.snd) && (s.snd.NRefused? ==> s.snd.batch != [])
    ensures var s' := Send(cfg, s, Passed, now);
            && |s'.box.rows| == |s.box.rows| && s'.spl == s.spl && s'.life == s.life
            && s'.shared.transitions == s.shared.transitions && s'.shared.queue == s.shared.queue
            && !s'.snd.NAcked? && (s.snd.NRefused? || !s'.snd.NFailed?) && !s'.snd.NRefused?
  {}

  /** With rows left each of these steps comes closer to the next acknowledgement. */
  lemma QuietSenderPath(cfg: EdgeConfig, s: State, now: Stamp)
    requires SenderUp(s) && Quiet(s.snd) && cfg.batchSize > 0 && s.box.rows != []
    requires RuntimeOutbox.BatchFits(s.box.rows, s.ledger, s.snd)
    ensures SenderPath(Send(cfg, s, Passed, now).snd) < SenderPath(s.snd)
  {}

  lemma SenderApproaches(cfg: EdgeConfig, s: State, now: Stamp)
    requires SenderUp(s) && Quiet(s.snd) && cfg.batchSize > 0
    requires RuntimeOutbox.BatchFits(s.box.rows, s.ledger, s.snd)
    ensures var s' := Send(cfg, s, Passed, now);
            && |s'.box.rows| == |s.box.rows| && Load(s') == Load(s) && s'.shared.transitions == s.shared.transitions
            && (SenderHasWork(s) ==> SenderDistance(s') < SenderDistance(s))
            && (!SenderHasWork(s) ==> !SenderHasWork(s'))
  {
    QuietSenderShape(cfg, s, now);
    var s' := Send(cfg, s, Passed, now);
    hide Send, SenderPath, InHand, Queued;
    if s.box.rows != [] {
      QuietSenderPath(cfg, s, now);
    }
  }

  lemma SenderDrains(cfg: EdgeConfig, s: State, now: Stamp)
    requires cfg.Valid() && Settled(cfg, s)
    ensures var s' := Send(cfg, s, Passed, now);
            && Potential(s') <= Potential(s)
            && (SenderHasWork(s) ==> Potential(s') < Potential(s))
            && (SpoolerHasWork(s) ==> SpoolerHasWork(s'))
            && (!SenderHasWork(s) ==> !SenderHasWork(s') && (SpoolerHasWork(s') ==> SpoolerHasWork(s)))
  {
    hide Load, Send, SpoolerPath, RuntimeOutbox.Mirrors, RuntimeOutbox.InOrder, RuntimeOutbox.Sequenced;
    var s' := Send(cfg, s, Passed, now);
    SenderLeavesSpooler(cfg, s, now);
    DistancesBounded(s);
    DistancesBounded(s');
    if s.snd.NAccepted? {
      AcknowledgeLightens(cfg, s, now);
    } else if s.snd.NAcked? || s.snd.NFailed? {
      ReportLightens(cfg, s, now);
    } else {
      SenderApproaches(cfg, s, now);
    }
  }

  // ----- both together -----

  predicate Idle(s: State) {
    !SpoolerHasWork(s) && !SenderHasWork(s)
  }

  /** One draining step never raises the potential; it lowers it if the thread that moves has work.
      Work of the other thread stays, and without any work none appears. */
  lemma DrainingStep(cfg: EdgeConfig, s: State, a: Action)
    requires cfg.Valid() && Settled(cfg, s) && Draining(a)
    ensures var s' := Step(cfg, s, a);
            && Settled(cfg, s')
            && Potential(s') <= Potential(s)
            && ((if a.SpoolerStep? then SpoolerHasWork(s) else SenderHasWork(s)) ==> Potential(s') < Potential(s))
            && (a.SenderStep? && SpoolerHasWork(s) ==> SpoolerHasWork(s'))
            && (a.SpoolerStep? && SenderHasWork(s) ==> SenderHasWork(s'))
            && (Idle(s) ==> Idle(s'))
  {
    hide Potential, SpoolerHasWork, Spool, Send, RuntimeOutbox.Outbox;
    if a.SpoolerStep? {
      RuntimeOutbox.SpoolerKeeps(cfg, s, a.now);
      SpoolerLeavesSender(cfg, s, a.now);
      SpoolerDrains(cfg, s, a.now);
    } else {
      RuntimeOutbox.SenderKeeps(cfg, s, Passed, a.now);
      SenderLeavesSpooler(cfg, s, a.now);
      SenderDrains(cfg, s, a.now);
    }
  }

  function After(cfg: EdgeConfig, s: State, actions: seq<Action>): State
    decreases |actions|
  {
    if actions == [] then s else After(cfg, Step(cfg, s, actions[0]), actions[1..])
  }

  ghost predicate AllDraining(actions: seq<Action>) {
    forall i :: 0 <= i < |actions| ==> Draining(actions[i])
  }

  /** Both threads get to move. */
  ghost predicate Fair(round: seq<Action>) {
    && AllDraining(round)
    && (exists i :: 0 <= i < |round| && round[i].SpoolerStep?)
    && (exists i :: 0 <= i < |round| && round[i].SenderStep?)
  }

  lemma {:induction false} StretchDrains(cfg: EdgeConfig, s: State, actions: seq<Action>)
    requires cfg.Valid() && Settled(cfg, s) && AllDraining(actions)
    ensures var e := After(cfg, s, actions);
            && Settled(cfg, e)
            && Potential(e) <= Potential(s)
            && (SpoolerHasWork(s) && (exists i :: 0 <= i < |actions| && actions[i].SpoolerStep?) ==>
                Potential(e) < Potential(s))
            && (SenderHasWork(s) && (exists i :: 0 <= i < |actions| && actions[i].SenderStep?) ==>
                Potential(e) < Potential(s))
            && (Idle(s) ==> Idle(e))
    decreases |actions|
  {
    hide Potential, SpoolerHasWork, SenderHasWork, Settled, Step;
    if actions != [] {
      var rest := actions[1..];
      DrainingStep(cfg, s, actions[0]);
      StretchDrains(cfg, Step(cfg, s, actions[0]), rest);
      if i :| 0 < i < |actions| && actions[i].SpoolerStep? {
        assert rest[i - 1].SpoolerStep?;
      }
      if i :| 0 < i < |actions| && actions[i].SenderStep? {
        assert rest[i - 1].SenderStep?;
      }
    }
  }

  function Flat(rounds: seq<seq<Action>>): seq<Action> {
    if rounds == [] then [] else rounds[0] + Flat(rounds[1..])
  }

  lemma {:induction false} AfterAppend(cfg: EdgeConfig, s: State, xs: seq<Action>, ys: seq<Action>)
    ensures After(cfg, s, xs + ys) == After(cfg, After(cfg, s, xs), ys)
    decreases |xs|
  {
    if xs == [] {
      assert xs + ys == ys;
    } else {
      assert (xs + ys)[1..] == xs[1..] + ys && (xs + ys)[0] == xs[0];
      AfterAppend(cfg, Step(cfg, s, xs[0]), xs[1..], ys);
    }
  }

  lemma {:induction false} AfterIsRun(cfg: EdgeConfig, actions: seq<Action>)
    ensures Run(cfg, actions) == After(cfg, Initial(), actions)
  {
    hide Step, Initial;
    if actions != [] {
      var front, last := actions[..|actions| - 1], actions[|actions| - 1..];
      assert actions == front + last;
      AfterIsRun(cfg, front);
      AfterAppend(cfg, Initial(), front, last);
      assert last[1..] == [];
    }
  }

  lemma {:induction false} RoundsDrain(cfg: EdgeConfig, s: State, rounds: seq<seq<Action>>)
    requires cfg.Valid() && Settled(cfg, s)
    requires forall i :: 0 <= i < |rounds| ==> Fair(rounds[i])
    ensures var e := After(cfg, s, Flat(rounds));
            Settled(cfg, e) && (Idle(e) || Potential(e) + |rounds| <= Potential(s))
    decreases |rounds|
  {
    hide Potential, SpoolerHasWork, SenderHasWork, Settled, Step;
    if rounds != [] {
      var mid := After(cfg, s, rounds[0]);
      StretchDrains(cfg, s, rounds[0]);
      AfterAppend(cfg, s, rounds[0], Flat(rounds[1..]));
      RoundsDrain(cfg, mid, rounds[1..]);
      if Idle(s) {
        FlatDraining(rounds[1..]);
        StretchDrains(cfg, mid, Flat(rounds[1..]));
      }
    }
  }

  lemma {:induction false} FlatDraining(rounds: seq<seq<Action>>)
    requires forall i :: 0 <= i < |rounds| ==> Fair(rounds[i])
    ensures AllDraining(Flat(rounds))
  {
    if rounds != [] {
      FlatDraining(rounds[1..]);
      assert Fair(rounds[0]);
    }
  }

  lemma WorkHasPotential(s: State)
    ensures Idle(s) || Potential(s) > 0
  {
    if s.box.rows != [] || SpoolerHasWork(s) {
      WorkIsLoad(s);
    }
  }

  lemma WorkIsLoad(s: State)
    requires s.box.rows != [] || SpoolerHasWork(s)
    ensures Load(s) > 0
  {}

  /** From any reachable state in which the collector has ended and the sender runs, once sends stop
      failing the backlog drains: after as many rounds as the state's potential, in each of which both
      threads move at least once in any order, every row ever committed is delivered and acknowledged,
      the recovery event included, and the spooler has nothing left unless it has already ended. */
  lemma DrainTerminates(cfg: EdgeConfig, actions: seq<Action>, rounds: seq<seq<Action>>)
    requires cfg.Valid()
    requires var s := Run(cfg, actions); s.col.COff? && SenderUp(s)
    requires forall i :: 0 <= i < |rounds| ==> Fair(rounds[i])
    requires |rounds| >= Potential(Run(cfg, actions))
    ensures var e := Run(cfg, actions + Flat(rounds));
            && e.box.rows == [] && e.ledger.acked == |e.ledger.log|
            && RuntimeOutbox.Collapse(e.ledger.delivered) == RuntimeOutbox.OneTo(|e.ledger.log|)
            && (e.spl.SOff? || (e.shared.transitions == [] && e.shared.queue == [] && InHand(e.spl) == 0))
  {
    hide Potential, Step, Run;
    RuntimeOutbox.Always(cfg, actions);
    AfterIsRun(cfg, actions);
    AfterIsRun(cfg, actions + Flat(rounds));
    AfterAppend(cfg, Initial(), actions, Flat(rounds));
    var s, e := Run(cfg, actions), Run(cfg, actions + Flat(rounds));
    assert e == After(cfg, s, Flat(rounds));
    RoundsDrain(cfg, s, rounds);
    WorkHasPotential(e);
    RuntimeOutbox.StutteringFifo(cfg, actions + Flat(rounds));
    RuntimeOutbox.OutboxIsUnacknowledgedTail(cfg, actions + Flat(rounds));
  }
}
