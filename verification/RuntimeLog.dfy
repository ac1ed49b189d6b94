/** What the log says, over every run: incidents are paired with their telemetry, and within one
    process lifetime the decisions and connection events committed are exactly those of the rule
    engine and of the health monitor, in order. */
module RuntimeLog {
  import opened Prelude
  import opened Sampling
  import opened Rules
  import opened Blackbox
  import opened Pipeline
  import opened Runtime
  import Health
  import RuntimeOutbox

  // ----- pairs in the log -----

  /** An incident row and the row before it. */
  ghost predicate IncidentOf(th: Thresholds, t: Entered, e: Entered) {
    && e.msg.Incident? && t.msg.Telemetry?
    && t.txn == e.txn && t.item == e.item
    && e.msg.seqNo == t.msg.seqNo + 1 && e.msg.related == t.msg.seqNo
    && e.msg.status == t.msg.status && e.msg.status != Normal
    && e.msg.measuredAt == t.msg.summary.measuredAt && e.msg.producedAt == t.msg.producedAt
    && e.msg.violations == Violations(Readings(th, t.msg.summary))
  }

  ghost predicate Judges(t: Thresholds, m: Msg) {
    m.Telemetry? ==> m.status == StatusOf(t, m.summary)
  }

  ghost predicate WellFormed(t: Thresholds, log: seq<Entered>, txns: nat) {
    && (forall i :: 0 <= i < |log| ==> log[i].txn < txns && Judges(t, log[i].msg))
    && (forall i :: 0 <= i < |log| && log[i].msg.Incident? ==> i > 0 && IncidentOf(t, log[i - 1], log[i]))
    && (forall i :: 0 < i < |log| && !log[i].msg.Incident? ==> log[i - 1].txn < log[i].txn)
  }

  ghost predicate DecidedFrom(t: Thresholds, it: Tagged, d: Decision) {
    it.item.Window? ==>
      && d.status == StatusOf(t, it.item.summary)
      && d.violations == Violations(Readings(t, it.item.summary))
      && (d.emit ==> d.status != Normal)
  }

  ghost predicate HandDecided(t: Thresholds, spl: SpoolerPc) {
    match spl
    case SDecided(it, d) => DecidedFrom(t, it, d)
    case SNumbered(it, d, _) => DecidedFrom(t, it, d)
    case SIncident(it, d, n, m) => DecidedFrom(t, it, d) && m == n + 1
    case _ => true
  }

  // ----- what the log says about decisions and connections -----

  datatype Mark = Judged(summary: WindowSummary, status: Status) | Raised(status: Status)

  function MarkOf(m: Msg): seq<Mark> {
    match m
    case Telemetry(_, w, status, _) => [Judged(w, status)]
    case Incident(_, _, status, _, _, _) => [Raised(status)]
    case _ => []
  }

  function Marks(log: seq<Entered>): seq<Mark> {
    if log == [] then [] else Marks(log[..|log| - 1]) + MarkOf(log[|log| - 1].msg)
  }

  function ConnectionOf(m: Msg): seq<Health.Transition> {
    if m.Connection? then [m.transition] else []
  }

  function Connections(log: seq<Entered>): seq<Health.Transition> {
    if log == [] then [] else Connections(log[..|log| - 1]) + ConnectionOf(log[|log| - 1].msg)
  }

  function DecisionMarks(w: WindowSummary, d: Decision): seq<Mark> {
    [Judged(w, d.status)] + if d.emit then [Raised(d.status)] else []
  }

  /** The marks that a rule engine starting at NORMAL leaves for these windows. */
  function Expected(t: Thresholds, ws: seq<WindowSummary>): seq<Mark> {
    if ws == [] then []
    else
      var front, w := ws[..|ws| - 1], ws[|ws| - 1];
      Expected(t, front) + DecisionMarks(w, Decide(t, LastStatus(t, Normal, front), w))
  }

  function HandMarks(spl: SpoolerPc): seq<Mark> {
    match spl
    case SDecided(it, d) => if it.item.Window? then DecisionMarks(it.item.summary, d) else []
    case SNumbered(it, d, _) => if it.item.Window? then DecisionMarks(it.item.summary, d) else []
    case SIncident(it, d, _, _) => if it.item.Window? then DecisionMarks(it.item.summary, d) else []
    case _ => []
  }

  function HandTransition(spl: SpoolerPc): seq<Health.Transition> {
    match spl
    case STaken(p) => [p.transition]
    case STransition(p, _) => [p.transition]
    case _ => []
  }

  function Waiting(ps: seq<Pending>): (ts: seq<Health.Transition>)
    ensures |ts| == |ps| && forall i :: 0 <= i < |ps| ==> ts[i] == ps[i].transition
  {
    seq(|ps|, i requires 0 <= i < |ps| => ps[i].transition)
  }

  // ----- invariant -----

  ghost predicate Monitored(limits: Health.Limits, life: Lifetime) {
    (life.monitor, life.emitted) == Health.Run(limits, life.initiallyConnected, life.observed)
  }

  /** The rows of this lifetime and the spooler's hand are the decisions of the rule engine, but for those
      a failing spooler had in hand, each of which was one mark or two. */
  ghost predicate DecisionsTold(t: Thresholds, told: seq<Mark>, life: Lifetime) {
    var all := Expected(t, life.evaluated);
    && Kept(told, all)
    && |told| + life.lostDecisions <= |all| <= |told| + 2 * life.lostDecisions
  }

  /** Rows, hand and transition queue are what the monitor announced, but for those lost in the same way. */
  ghost predicate TransitionsTold(told: seq<Health.Transition>, life: Lifetime) {
    Kept(told, life.emitted) && |told| + life.lostTransitions == |life.emitted|
  }

  ghost predicate Told(t: Thresholds, rows: seq<Entered>, spl: SpoolerPc, waiting: seq<Pending>, life: Lifetime) {
    && DecisionsTold(t, Marks(rows) + HandMarks(spl), life)
    && TransitionsTold(Connections(rows) + HandTransition(spl) + Waiting(waiting), life)
  }

  ghost predicate LifetimeFits(cfg: EdgeConfig, s: State) {
    && s.life.start <= |s.ledger.log|
    && Monitored(cfg.limits, s.life)
    && s.life.previous == LastStatus(cfg.thresholds, Normal, s.life.evaluated)
    && Told(cfg.thresholds, s.ledger.log[s.life.start..], s.spl, s.shared.transitions, s.life)
  }

  ghost predicate Inv(cfg: EdgeConfig, s: State) {
    && WellFormed(cfg.thresholds, s.ledger.log, s.ledger.txns)
    && HandDecided(cfg.thresholds, s.spl)
    && LifetimeFits(cfg, s)
  }

  // ----- appending to the log -----

  lemma AppendOne(log: seq<Entered>, e: Entered)
    ensures Marks(log + [e]) == Marks(log) + MarkOf(e.msg)
    ensures Connections(log + [e]) == Connections(log) + ConnectionOf(e.msg)
  {
    assert (log + [e])[..|log|] == log;
  }

  lemma OutgoingIsHand(spl: SpoolerPc, now: Stamp)
    requires RuntimeOutbox.HandFits(spl) && Outgoing(spl, now).0 != []
    ensures var ms := Outgoing(spl, now).0;
            && (|ms| == 1 || |ms| == 2)
            && (|ms| == 1 ==> MarkOf(ms[0]) == HandMarks(spl) && ConnectionOf(ms[0]) == HandTransition(spl))
            && (|ms| == 2 ==> MarkOf(ms[0]) + MarkOf(ms[1]) == HandMarks(spl)
                              && ConnectionOf(ms[0]) == ConnectionOf(ms[1]) == HandTransition(spl) == [])
  {}

  /** A commit writes down exactly what the hand stood for. */
  lemma CommitTells(spl: SpoolerPc, now: Stamp, rows: seq<Entered>, txn: nat)
    requires RuntimeOutbox.HandFits(spl) && Outgoing(spl, now).0 != []
    ensures var (ms, item) := Outgoing(spl, now);
            && Marks(rows + Logged(ms, txn, item)) == Marks(rows) + HandMarks(spl)
            && Connections(rows + Logged(ms, txn, item)) == Connections(rows) + HandTransition(spl)
  {
    hide Outgoing, HandMarks, HandTransition, MarkOf, ConnectionOf, Marks, Connections;
    OutgoingIsHand(spl, now);
    var (ms, item) := Outgoing(spl, now);
    var es := Logged(ms, txn, item);
    AppendOne(rows, es[0]);
    if |ms| == 2 {
      AppendOne(rows + [es[0]], es[1]);
      assert rows + es == rows + [es[0]] + [es[1]];
      assert Marks(rows + es) == Marks(rows) + (MarkOf(ms[0]) + MarkOf(ms[1]));
    } else {
      assert rows + es == rows + [es[0]];
    }
  }

  lemma CommitWellFormed(t: Thresholds, spl: SpoolerPc, now: Stamp, log: seq<Entered>, txns: nat)
    requires WellFormed(t, log, txns) && RuntimeOutbox.HandFits(spl) && HandDecided(t, spl)
    requires Outgoing(spl, now).0 != []
    ensures var (ms, item) := Outgoing(spl, now);
            WellFormed(t, log + Logged(ms, txns, item), txns + 1)
  {
    var (ms, item) := Outgoing(spl, now);
    var es := Logged(ms, txns, item);
    var log' := log + es;
    assert es[0].txn == txns && !es[0].msg.Incident? && Judges(t, es[0].msg);
    if |es| == 2 {
      assert es[1].txn == txns && IncidentOf(t, es[0], es[1]) && Judges(t, es[1].msg);
    }
    forall i | 0 <= i < |log'| && log'[i].msg.Incident? ensures i > 0 && IncidentOf(t, log'[i - 1], log'[i]) {
      if i >= |log| {
        assert log'[i] == es[i - |log|];
      }
    }
  }

  // ----- the spooler -----

  lemma CommitShape(cfg: EdgeConfig, s: State, now: Stamp)
    requires Outgoing(s.spl, now).0 != []
    ensures var (ms, item) := Outgoing(s.spl, now);
            var s' := Spool(cfg, s, now);
            && s'.ledger.log == s.ledger.log + Logged(ms, s.ledger.txns, item) && s'.ledger.txns == s.ledger.txns + 1
            && s'.life == s.life && s'.shared == s.shared && (s'.spl.SSet? || s'.spl.SDrainSet?)
  {}

  lemma CommitKeeps(cfg: EdgeConfig, s: State, now: Stamp)
    requires RuntimeOutbox.HandFits(s.spl) && Inv(cfg, s) && Outgoing(s.spl, now).0 != []
    ensures Inv(cfg, Spool(cfg, s, now))
  {
    hide Spool, Marks, Connections, Expected, WellFormed, Outgoing, Monitored, LastStatus, RuntimeOutbox.HandFits;
    CommitShape(cfg, s, now);
    var (ms, item) := Outgoing(s.spl, now);
    var s' := Spool(cfg, s, now);
    var es := Logged(ms, s.ledger.txns, item);
    var rows := s.ledger.log[s.life.start..];
    CommitWellFormed(cfg.thresholds, s.spl, now, s.ledger.log, s.ledger.txns);
    CommitTells(s.spl, now, rows, s.ledger.txns);
    assert s'.ledger.log[s.life.start..] == rows + es;
    assert Marks(rows + es) + [] == Marks(rows + es) && Connections(rows + es) + [] == Connections(rows + es);
  }

  lemma QuietLifetime(cfg: EdgeConfig, s: State, now: Stamp)
    requires Outgoing(s.spl, now).0 == [] && !(s.spl.SHave? && s.spl.it.item.Window?)
    ensures var s' := Spool(cfg, s, now);
            && s'.ledger == s.ledger && s'.life == s.life
            && HandMarks(s'.spl) == HandMarks(s.spl)
            && HandTransition(s'.spl) + Waiting(s'.shared.transitions)
                == HandTransition(s.spl) + Waiting(s.shared.transitions)
  {
    QuietMarks(cfg, s, now);
    QuietTransitions(cfg, s, now);
  }

  lemma QuietMarks(cfg: EdgeConfig, s: State, now: Stamp)
    requires Outgoing(s.spl, now).0 == [] && !(s.spl.SHave? && s.spl.it.item.Window?)
    ensures var s' := Spool(cfg, s, now);
            s'.ledger == s.ledger && s'.life == s.life && HandMarks(s'.spl) == HandMarks(s.spl)
  {
    hide Decide, LastSequence, Reserve, Runtime.RecordFailure, DecisionMarks;
  }

  lemma QuietTransitions(cfg: EdgeConfig, s: State, now: Stamp)
    requires Outgoing(s.spl, now).0 == []
    ensures var s' := Spool(cfg, s, now);
            HandTransition(s'.spl) + Waiting(s'.shared.transitions)
                == HandTransition(s.spl) + Waiting(s.shared.transitions)
  {
    hide Decide, LastSequence, Reserve, Runtime.RecordFailure;
    if s.spl.SFailing? {
      RuntimeOutbox.RecordingShape(s.shared, s.spl.stage);
    }
    if s.spl.SDrain? && s.shared.transitions != [] {
      assert Waiting(s.shared.transitions) == [s.shared.transitions[0].transition] + Waiting(s.shared.transitions[1..]);
    }
  }

  lemma QuietHand(cfg: EdgeConfig, s: State, now: Stamp)
    requires RuntimeOutbox.HandFits(s.spl) && HandDecided(cfg.thresholds, s.spl) && Outgoing(s.spl, now).0 == []
    requires RuntimeOutbox.Sequenced(s.ledger, LastSequence(s.box, cfg.site.deviceId), InFlight(s.spl))
    ensures HandDecided(cfg.thresholds, Spool(cfg, s, now).spl)
  {
    if s.spl.SNumbered? {
      assert InFlight(s.spl)[0] == s.spl.n;
    }
  }

  lemma QuietKeeps(cfg: EdgeConfig, s: State, now: Stamp)
    requires RuntimeOutbox.HandFits(s.spl) && Inv(cfg, s) && Outgoing(s.spl, now).0 == []
    requires RuntimeOutbox.Sequenced(s.ledger, LastSequence(s.box, cfg.site.deviceId), InFlight(s.spl))
    ensures Inv(cfg, Spool(cfg, s, now))
  {
    hide Spool, Expected, Marks, Connections, WellFormed, HandDecided, Outgoing, Monitored, LastStatus;
    hide RuntimeOutbox.HandFits, RuntimeOutbox.Sequenced, Kept, HandMarks, HandTransition;
    var s' := Spool(cfg, s, now);
    QuietHand(cfg, s, now);
    if s.spl.SHave? && s.spl.it.item.Window? {
      DecisionTold(cfg, s, now);
    } else {
      QuietLifetime(cfg, s, now);
      var rows := s.ledger.log[s.life.start..];
      assert Connections(rows) + HandTransition(s'.spl) + Waiting(s'.shared.transitions)
          == Connections(rows) + (HandTransition(s'.spl) + Waiting(s'.shared.transitions));
      assert Connections(rows) + HandTransition(s.spl) + Waiting(s.shared.transitions)
          == Connections(rows) + (HandTransition(s.spl) + Waiting(s.shared.transitions));
    }
  }

  lemma OneMoreWindow(t: Thresholds, ws: seq<WindowSummary>, w: WindowSummary)
    ensures Expected(t, ws + [w]) == Expected(t, ws) + DecisionMarks(w, Decide(t, LastStatus(t, Normal, ws), w))
    ensures LastStatus(t, Normal, ws + [w]) == StatusOf(t, w)
  {
    assert (ws + [w])[..|ws|] == ws;
  }

  lemma DecidedStatus(t: Thresholds, previous: Status, w: WindowSummary)
    ensures Decide(t, previous, w).status == StatusOf(t, w)
  {}

  lemma DecisionShape(cfg: EdgeConfig, s: State, now: Stamp)
    requires s.spl.SHave? && s.spl.it.item.Window?
    ensures var s' := Spool(cfg, s, now);
            var w := s.spl.it.item.summary;
            var d := Decide(cfg.thresholds, s.life.previous, w);
            && s'.ledger == s.ledger && s'.shared == s.shared && s'.spl == SDecided(s.spl.it, d)
            && s'.life == s.life.(previous := d.status, evaluated := s.life.evaluated + [w])
  {}

  lemma DecisionTold(cfg: EdgeConfig, s: State, now: Stamp)
    requires s.spl.SHave? && s.spl.it.item.Window? && LifetimeFits(cfg, s)
    ensures LifetimeFits(cfg, Spool(cfg, s, now)) && Spool(cfg, s, now).ledger == s.ledger
  {
    hide Spool, Marks, Connections, Expected, LastStatus, Decide, Kept;
    DecisionShape(cfg, s, now);
    var w := s.spl.it.item.summary;
    var d := Decide(cfg.thresholds, s.life.previous, w);
    OneMoreWindow(cfg.thresholds, s.life.evaluated, w);
    var told := Marks(s.ledger.log[s.life.start..]);
    assert told + [] == told;
    KeptAppend(told, Expected(cfg.thresholds, s.life.evaluated), DecisionMarks(w, d));
    assert d.status == StatusOf(cfg.thresholds, w) by { DecidedStatus(cfg.thresholds, s.life.previous, w); }
  }

  lemma SpoolerKeeps(cfg: EdgeConfig, s: State, now: Stamp)
    requires RuntimeOutbox.Inv(cfg, s) && Inv(cfg, s)
    ensures Inv(cfg, Spool(cfg, s, now))
  {
    hide Inv;
    if Outgoing(s.spl, now).0 == [] {
      QuietKeeps(cfg, s, now);
    } else {
      CommitKeeps(cfg, s, now);
    }
  }

  // ----- the sender -----

  lemma SameDecisionsTold(t: Thresholds, told: seq<Mark>, life: Lifetime, life': Lifetime)
    requires DecisionsTold(t, told, life)
    requires life'.evaluated == life.evaluated && life'.lostDecisions == life.lostDecisions
    ensures DecisionsTold(t, told, life')
  {}

  /** A result the monitor has seen is remembered, and what it announces joins the transition queue. */
  lemma ReportTold(cfg: EdgeConfig, s: State, success: bool, now: Stamp, next: SenderPc, pace: Pace)
    requires LifetimeFits(cfg, s)
    ensures LifetimeFits(cfg, Report(cfg, s, success, now, next, pace))
  {
    hide Marks, Connections, Expected, LastStatus, Kept, DecisionsTold;
    var s' := Report(cfg, s, success, now, next, pace);
    assert s'.life.observed[..|s.life.observed|] == s.life.observed;
    var (_, t) := Health.Observe(cfg.limits, s.life.monitor, success);
    assert Waiting(s'.shared.transitions) == Waiting(s.shared.transitions) + Health.Announced(t);
    var front := Connections(s.ledger.log[s.life.start..]) + HandTransition(s.spl);
    assert front + Waiting(s'.shared.transitions) == (front + Waiting(s.shared.transitions)) + Health.Announced(t);
    KeptAppend(front + Waiting(s.shared.transitions), s.life.emitted, Health.Announced(t));
    SameDecisionsTold(cfg.thresholds, Marks(s.ledger.log[s.life.start..]) + HandMarks(s.spl), s.life, s'.life);
  }

  lemma ReportShape(cfg: EdgeConfig, s: State, success: bool, now: Stamp, next: SenderPc, pace: Pace)
    ensures var s' := Report(cfg, s, success, now, next, pace);
            s'.ledger == s.ledger && s'.spl == s.spl
  {}

  lemma SenderSilent(cfg: EdgeConfig, s: State, outcome: SendOutcome, now: Stamp)
    requires !s.snd.NFailed? && !s.snd.NAcked?
    ensures var s' := Send(cfg, s, outcome, now);
            && s'.ledger.log == s.ledger.log && s'.ledger.txns == s.ledger.txns
            && s'.spl == s.spl && s'.life == s.life && s'.shared.transitions == s.shared.transitions
            && (LifetimeFits(cfg, s) ==> LifetimeFits(cfg, s'))
  {}

  lemma SenderKeeps(cfg: EdgeConfig, s: State, outcome: SendOutcome, now: Stamp)
    requires Inv(cfg, s)
    ensures Inv(cfg, Send(cfg, s, outcome, now))
  {
    hide WellFormed, HandDecided, Told, LifetimeFits, Report;
    match s.snd
    case NFailed =>
      var pace := s.pace.AfterFailure();
      ReportTold(cfg, s, false, now, NTop, pace);
      ReportShape(cfg, s, false, now, NTop, pace);
    case NAcked(rest) =>
      ReportTold(cfg, s, true, now, NSend(rest), s.pace.AfterSuccess());
      ReportShape(cfg, s, true, now, NSend(rest), s.pace.AfterSuccess());
    case _ => SenderSilent(cfg, s, outcome, now);
  }

  // ----- failures -----

  /** A failing spooler loses what it had in hand, and nothing else. */
  lemma HandSizes(spl: SpoolerPc)
    requires RuntimeOutbox.HandFits(spl)
    ensures if Decided(spl) then 1 <= |HandMarks(spl)| <= 2 else HandMarks(spl) == []
    ensures |HandTransition(spl)| == if Transmitting(spl) then 1 else 0
  {}

  lemma FailureShape(s: State)
    requires !s.spl.SOff? && !s.spl.SFailing?
    ensures var s' := SpoolerFailure(s);
            && s'.ledger.log == s.ledger.log && s'.shared == s.shared && s'.spl == SFailing(ToRecord)
            && s'.life == s.life.(lostDecisions := s.life.lostDecisions + if Decided(s.spl) then 1 else 0,
                                  lostTransitions := s.life.lostTransitions + if Transmitting(s.spl) then 1 else 0)
  {
    hide Decided, Transmitting, InFlight, SpoolerHand;
  }

  lemma FailureTold(cfg: EdgeConfig, s: State)
    requires RuntimeOutbox.HandFits(s.spl) && LifetimeFits(cfg, s) && !s.spl.SOff? && !s.spl.SFailing?
    ensures LifetimeFits(cfg, SpoolerFailure(s))
  {
    hide Marks, Connections, Expected, LastStatus, Kept, HandMarks, HandTransition, SpoolerFailure,
        RuntimeOutbox.HandFits;
    FailureShape(s);
    HandSizes(s.spl);
    NothingInFailingHand();
    var s' := SpoolerFailure(s);
    var rows := s.ledger.log[s.life.start..];
    var marks, connections, waiting := Marks(rows), Connections(rows), Waiting(s.shared.transitions);
    assert marks + HandMarks(s.spl) == marks + HandMarks(s.spl) + [];
    KeptWithout(marks, HandMarks(s.spl), [], Expected(cfg.thresholds, s.life.evaluated));
    KeptWithout(connections, HandTransition(s.spl), waiting, s.life.emitted);
    assert connections + [] + waiting == connections + waiting;
  }

  lemma NothingInFailingHand()
    ensures HandMarks(SFailing(ToRecord)) == [] && HandTransition(SFailing(ToRecord)) == []
  {}

  lemma FreshTold(cfg: EdgeConfig, start: nat, connected: bool, log: seq<Entered>)
    requires start == |log|
    ensures Told(cfg.thresholds, log[start..], SOff, [], FreshLifetime(start, connected))
  {
    KeptAll<Mark>([]);
    KeptAll<Health.Transition>([]);
  }

  // ----- every reachable state -----

  lemma RestKeeps(cfg: EdgeConfig, s: State, a: Action)
    requires RuntimeOutbox.Inv(cfg, s) && Inv(cfg, s) && !a.SpoolerStep? && !a.SenderStep?
    ensures Inv(cfg, Step(cfg, s, a))
  {
    hide WellFormed, DecisionsTold, TransitionsTold, RuntimeOutbox.Mirrors, RuntimeOutbox.InOrder,
        RuntimeOutbox.Sequenced;
    match a
    case SpoolerFails => if !s.spl.SOff? && !s.spl.SFailing? { FailureTold(cfg, s); }
    case Rebuild => FreshTold(cfg, |s.ledger.log|, s.box.rows == [], s.ledger.log);
    case Crash => FreshTold(cfg, |s.ledger.log|, s.box.rows == [], s.ledger.log);
    case MainStep => RuntimeOutbox.MainShape(s); MainLeavesQueues(s);
    case CollectorStep(choice) =>
      RuntimeOutbox.CollectorShape(cfg, s, choice);
      CollectorLeavesTransitions(cfg, s, choice);
    case _ =>
  }

  lemma MainLeavesQueues(s: State)
    ensures Main(s).shared.transitions == s.shared.transitions
  {}

  lemma CollectorLeavesTransitions(cfg: EdgeConfig, s: State, choice: CollectorChoice)
    ensures Collect(cfg, s, choice).shared.transitions == s.shared.transitions
  {}

  lemma InitialKeeps(cfg: EdgeConfig)
    ensures Inv(cfg, Initial())
  {
    FreshTold(cfg, 0, true, []);
  }

  lemma {:induction false} Always(cfg: EdgeConfig, actions: seq<Action>)
    ensures Inv(cfg, Run(cfg, actions))
  {
    hide Inv, RuntimeOutbox.Outbox, RuntimeOutbox.Lifecycle, Spool, Send, Initial;
    if actions == [] {
      InitialKeeps(cfg);
    } else {
      var front, a := actions[..|actions| - 1], actions[|actions| - 1];
      Always(cfg, front);
      RuntimeOutbox.Always(cfg, front);
      var s := Run(cfg, front);
      match a
      case SpoolerStep(now) => SpoolerKeeps(cfg, s, now);
      case SenderStep(outcome, now) => SenderKeeps(cfg, s, outcome, now);
      case _ => RestKeeps(cfg, s, a);
    }
  }

  // ----- what this means for a run -----

  /** In every outbox history each incident row directly follows its telemetry row, in the same
      transaction, with the next sequence number, pointing back at it and repeating its status, which
      is not NORMAL, its times, and the violations of its window; and no other two rows share a transaction. */
  lemma IncidentsArePaired(cfg: EdgeConfig, actions: seq<Action>)
    ensures var log := Run(cfg, actions).ledger.log;
            && (forall i :: 0 <= i < |log| && log[i].msg.Incident? ==>
                  i > 0 && IncidentOf(cfg.thresholds, log[i - 1], log[i]))
            && (forall i :: 0 < i < |log| ==> (log[i - 1].txn == log[i].txn <==> log[i].msg.Incident?))
            && (forall i :: 0 <= i < |log| && log[i].msg.Telemetry? ==>
                  log[i].msg.status == StatusOf(cfg.thresholds, log[i].msg.summary))
  {
    Always(cfg, actions);
    var log := Run(cfg, actions).ledger.log;
    forall i | 0 <= i < |log| && log[i].msg.Telemetry?
      ensures log[i].msg.status == StatusOf(cfg.thresholds, log[i].msg.summary)
    {
      assert Judges(cfg.thresholds, log[i].msg);
    }
  }

  /** So every committed message could be written out and is accepted at its destination. */
  lemma LogIsWritable(cfg: EdgeConfig, actions: seq<Action>)
    ensures var log := Run(cfg, actions).ledger.log;
            forall i :: 0 <= i < |log| ==> Writable(log[i].msg)
  {
    Always(cfg, actions);
    var log := Run(cfg, actions).ledger.log;
    forall i | 0 <= i < |log| ensures Writable(log[i].msg) {
      if log[i].msg.Incident? {
        assert IncidentOf(cfg.thresholds, log[i - 1], log[i]);
      }
    }
  }

  /** Incidents are edge-triggered over a whole process lifetime, whatever read errors and connection events
      lie in between: the telemetry and incident rows of the lifetime, with those in the spooler's hand, are
      in order what a rule engine starting at NORMAL decides for the windows it was given. They are all of it
      exactly when no spooler failed with a decided window in hand. */
  lemma IncidentsFollowDecisions(cfg: EdgeConfig, actions: seq<Action>)
    ensures var s := Run(cfg, actions);
            && s.life.start <= |s.ledger.log|
            && s.life.previous == LastStatus(cfg.thresholds, Normal, s.life.evaluated)
    ensures var s := Run(cfg, actions);
            var told := Marks(s.ledger.log[s.life.start..]) + HandMarks(s.spl);
            && Kept(told, Expected(cfg.thresholds, s.life.evaluated))
            && (told == Expected(cfg.thresholds, s.life.evaluated) <==> s.life.lostDecisions == 0)
  {
    Always(cfg, actions);
    hide Run, Kept;
    var s := Run(cfg, actions);
    KeptWhole(Marks(s.ledger.log[s.life.start..]) + HandMarks(s.spl), Expected(cfg.thresholds, s.life.evaluated));
  }

  function RaisedCount(marks: seq<Mark>): nat {
    if marks == [] then 0 else RaisedCount(marks[..|marks| - 1]) + if marks[|marks| - 1].Raised? then 1 else 0
  }

  lemma {:induction false} RaisedAppend(a: seq<Mark>, b: seq<Mark>)
    ensures RaisedCount(a + b) == RaisedCount(a) + RaisedCount(b)
  {
    if b == [] {
      assert a + b == a;
    } else {
      assert (a + b)[..|a + b| - 1] == a + b[..|b| - 1];
      RaisedAppend(a, b[..|b| - 1]);
    }
  }

  lemma {:induction false} ExpectedRaises(t: Thresholds, ws: seq<WindowSummary>)
    ensures RaisedCount(Expected(t, ws)) == Incidents(Decisions(t, Normal, ws))
  {
    if ws != [] {
      var front, w := ws[..|ws| - 1], ws[|ws| - 1];
      var d := Decide(t, LastStatus(t, Normal, front), w);
      ExpectedRaises(t, front);
      RaisedAppend(Expected(t, front), DecisionMarks(w, d));
      assert Decisions(t, Normal, ws)[..|front|] == Decisions(t, Normal, front);
      DecisionRaises(w, d);
    }
  }

  lemma DecisionRaises(w: WindowSummary, d: Decision)
    ensures RaisedCount(DecisionMarks(w, d)) == if d.emit then 1 else 0
  {
    var marks := DecisionMarks(w, d);
    assert marks[..1] == [Judged(w, d.status)];
    assert RaisedCount([Judged(w, d.status)]) == 0 by { assert [Judged(w, d.status)][..0] == []; }
  }

  lemma {:induction false} KeptRaises(xs: seq<Mark>, ys: seq<Mark>)
    requires Kept(xs, ys)
    ensures RaisedCount(xs) <= RaisedCount(ys)
    decreases |xs|
  {
    hide Kept;
    if xs != [] {
      KeptPrefix(xs, ys);
      var j :| 0 <= j < |ys| && ys[j] == xs[|xs| - 1] && Kept(xs[..|xs| - 1], ys[..j]);
      KeptRaises(xs[..|xs| - 1], ys[..j]);
      assert ys == ys[..j + 1] + ys[j + 1..] && ys[..j + 1][..j] == ys[..j];
      RaisedAppend(ys[..j + 1], ys[j + 1..]);
    }
  }

  /** However the readings move, the incident rows of a lifetime number at most two per fall of the
      status, plus two. */
  lemma LifetimeIncidentsBounded(cfg: EdgeConfig, actions: seq<Action>)
    ensures var s := Run(cfg, actions);
            s.life.start <= |s.ledger.log| &&
            RaisedCount(Marks(s.ledger.log[s.life.start..]))
            <= 2 * (Falls(cfg.thresholds, Normal, s.life.evaluated) + 1)
  {
    IncidentsFollowDecisions(cfg, actions);
    hide Run, Kept;
    var s := Run(cfg, actions);
    var rows := Marks(s.ledger.log[s.life.start..]);
    RaisedAppend(rows, HandMarks(s.spl));
    KeptRaises(rows + HandMarks(s.spl), Expected(cfg.thresholds, s.life.evaluated));
    ExpectedRaises(cfg.thresholds, s.life.evaluated);
    IncidentsBounded(cfg.thresholds, s.life.evaluated);
  }

  /** Connection events: the monitor is the history machine run on every result the sender reported. The
      connection rows of the lifetime, then the one in the spooler's hand, then those still queued are in
      order what it announced, and all of it exactly when no spooler failed with a transition in hand; then
      the rows strictly alternate. Each announcement is paid for by its own streak of results. */
  lemma ConnectionsFollowMonitor(cfg: EdgeConfig, actions: seq<Action>)
    requires cfg.Valid()
    ensures Run(cfg, actions).life.start <= |Run(cfg, actions).ledger.log|
    ensures var s := Run(cfg, actions);
            var rows := Connections(s.ledger.log[s.life.start..]);
            var told := rows + HandTransition(s.spl) + Waiting(s.shared.transitions);
            && (s.life.monitor, s.life.emitted) == Health.Run(cfg.limits, s.life.initiallyConnected, s.life.observed)
            && Kept(told, s.life.emitted) && |told| + s.life.lostTransitions == |s.life.emitted|
            && (told == s.life.emitted <==> s.life.lostTransitions == 0)
            && (s.life.lostTransitions == 0 ==>
                  forall i :: 0 <= i < |rows| ==> rows[i].Lost? == (s.life.initiallyConnected == (i % 2 == 0)))
            && cfg.limits.failures * Health.CountOf(s.life.emitted, Health.Lost)
               + cfg.limits.recoveries * Health.CountOf(s.life.emitted, Health.Recovered) <= |s.life.observed|
  {
    Always(cfg, actions);
    hide Run, Kept;
    var s := Run(cfg, actions);
    var rows := Connections(s.ledger.log[s.life.start..]);
    var told := rows + HandTransition(s.spl) + Waiting(s.shared.transitions);
    KeptWhole(told, s.life.emitted);
    Health.TransitionsAlternate(cfg.limits, s.life.initiallyConnected, s.life.observed);
    Health.TransitionsArePaidFor(cfg.limits, s.life.initiallyConnected, s.life.observed);
    if s.life.lostTransitions == 0 {
      forall i | 0 <= i < |rows| ensures rows[i] == s.life.emitted[i] {
        assert told[i] == rows[i];
      }
    }
  }

  // ----- the connection state a process begins in -----

  /** The action replaces the process by a new one. */
  predicate Renews(s: State, a: Action) {
    a.Crash? || (a.Rebuild? && s.main.MIdle?)
  }

  /** The run up to the beginning of the process it ends in. */
  function Born(cfg: EdgeConfig, actions: seq<Action>): seq<Action> {
    if actions == [] then []
    else
      var front := actions[..|actions| - 1];
      if Renews(Run(cfg, front), actions[|actions| - 1]) then actions else Born(cfg, front)
  }

  lemma LifeGoesOn(cfg: EdgeConfig, s: State, a: Action)
    requires !Renews(s, a)
    ensures var s' := Step(cfg, s, a);
            s'.life.initiallyConnected == s.life.initiallyConnected && s'.life.start == s.life.start
  {
    hide Decide, LastSequence, Reserve, InsertAll, Health.Observe;
  }

  /** A process begins connected exactly if every row committed before had been acknowledged. */
  lemma {:induction false} BornConnected(cfg: EdgeConfig, actions: seq<Action>)
    ensures var s, born := Run(cfg, actions), Run(cfg, Born(cfg, actions));
            && s.life.start == |born.ledger.log| && born.life.observed == [] && born.life.emitted == []
            && (s.life.initiallyConnected <==> born.ledger.acked == |born.ledger.log|)
  {
    if actions != [] {
      var front, a := actions[..|actions| - 1], actions[|actions| - 1];
      var s := Run(cfg, front);
      BornConnected(cfg, front);
      RuntimeOutbox.Always(cfg, front);
      hide Run;
      if Renews(s, a) {
        NewProcessConnected(cfg, s, a);
      } else {
        LifeGoesOn(cfg, s, a);
      }
    }
  }

  /** A process begins with nothing in memory: no worker, no order, no recorded failure, empty queues, a rule engine
      at NORMAL and a monitor that has seen nothing. */
  lemma {:induction false} BornClean(cfg: EdgeConfig, actions: seq<Action>)
    ensures var born := Run(cfg, Born(cfg, actions));
            var f := born.shared.flags;
            && born.main.MIdle? && born.col.COff? && born.spl.SOff? && born.snd.NOff?
            && born.shared.queue == [] && born.shared.transitions == [] && !born.shared.failed
            && !f.stopCollector && !f.stopSpooler && !f.stopSender && !f.drain
            && born.life.previous == Normal && born.life.evaluated == []
            && born.life.monitor.failures == 0 && born.life.monitor.successes == 0
  {
    if actions != [] {
      var front, a := actions[..|actions| - 1], actions[|actions| - 1];
      BornClean(cfg, front);
      if Renews(Run(cfg, front), a) {
        NewProcessClean(cfg, Run(cfg, front), a);
      }
    }
    hide Step;
  }

  lemma NewProcessClean(cfg: EdgeConfig, s: State, a: Action)
    requires Renews(s, a)
    ensures var s' := Step(cfg, s, a);
            && s'.main.MIdle? && s'.col.COff? && s'.spl.SOff? && s'.snd.NOff? && s'.shared == FreshShared()
            && s'.life == FreshLifetime(|s.ledger.log|, s.box.rows == [])
  {}

  lemma NewProcessConnected(cfg: EdgeConfig, s: State, a: Action)
    requires Renews(s, a) && RuntimeOutbox.Mirrors(cfg, s.box.rows, s.box.nextId, s.ledger)
    ensures var s' := Step(cfg, s, a);
            && s'.life.start == |s'.ledger.log| && s'.life.observed == [] && s'.life.emitted == []
            && (s'.life.initiallyConnected <==> s'.ledger.acked == |s'.ledger.log|)
  {}

  /** The first transition of a process: begun over a backlog it announces nothing before as many sends in a row were
      accepted as the recovery limit says, and at that result RECOVERED; begun with everything acknowledged it
      announces nothing before as many failed as the failure limit says, and at that result LOST. */
  lemma FirstTransition(cfg: EdgeConfig, actions: seq<Action>)
    requires cfg.Valid()
    ensures var life, born := Run(cfg, actions).life, Run(cfg, Born(cfg, actions)).ledger;
            var clean, n := born.acked == |born.log|, |life.observed|;
            var first := if clean then Health.Lost else Health.Recovered;
            && (life.emitted == [] <==> Health.NoChange(cfg.limits, clean, life.observed))
            && (life.emitted != [] ==> life.emitted[0] == first)
            && (n > 0 && Health.NoChange(cfg.limits, clean, life.observed[..n - 1]) ==>
                  life.emitted == if Health.Changes(cfg.limits, clean, life.observed, n) then [first] else [])
  {
    var life := Run(cfg, actions).life;
    Always(cfg, actions);
    BornConnected(cfg, actions);
    hide Run, Born, Health.NoChange, Health.Changes;
    Health.FirstAnnouncement(cfg.limits, life.initiallyConnected, life.observed);
  }
}
