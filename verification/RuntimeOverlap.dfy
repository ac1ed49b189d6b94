/** stop() gives its sender two seconds. A send that takes longer leaves the thread behind, and the next start()
    puts a second sender on the same outbox. The transition system of module Runtime waits for the sender instead;
    here it may be left behind, and the order of delivery turns out to depend on when start() is called. */
module RuntimeOverlap {
  import opened Prelude
  import opened Sampling
  import opened Blackbox
  import opened Pipeline
  import opened Runtime
  import Collector
  import Health
  import RuntimeOutbox
  import RuntimeWitness

  /** A sender that stop() no longer waits for, with its own backoff. */
  datatype Left = Left(snd: SenderPc, pace: Pace)

  datatype System = System(now: State, left: seq<Left>)

  datatype Move =
    | Normal(action: Action)
    | TimeOut
    | LeftSteps(k: nat, outcome: SendOutcome, now: Stamp)
    | LeftFails(k: nat)

  function Alive(left: seq<Left>): seq<Left> {
    if left == [] then [] else Alive(left[..|left| - 1]) + if left[|left| - 1].snd.NOff? then [] else [left[|left| - 1]]
  }

  /** A state as the k-th of the senders left behind sees it. */
  function As(s: State, l: Left): State {
    s.(snd := l.snd, pace := l.pace)
  }

  function Back(s: State, moved: State, left: seq<Left>, k: nat): System
    requires k < |left|
  {
    System(moved.(snd := s.snd, pace := s.pace), left[k := Left(moved.snd, moved.pace)])
  }

  function Next(cfg: EdgeConfig, o: System, m: Move): System {
    match m
    case Normal(a) =>
      var s := o.now;
      if a.Crash? || (a.Rebuild? && s.main.MIdle? && Alive(o.left) != []) then System(CrashAndRebuild(s), [])
      else if a.Rebuild? && s.main.MIdle? then System(EndAndRebuild(s), [])
      else System(Step(cfg, s, a), if a.MainStep? && s.main.MIdle? then Alive(o.left) else o.left)
    case TimeOut =>
      if o.now.main.MJoinSender? && !o.now.snd.NOff? then
        System(o.now.(main := MIdle, snd := NOff), Alive(o.left) + [Left(o.now.snd, o.now.pace)])
      else o
    case LeftSteps(k, outcome, now) =>
      if k < |o.left| then Back(o.now, Send(cfg, As(o.now, o.left[k]), outcome, now), o.left, k) else o
    case LeftFails(k) =>
      if k < |o.left| then Back(o.now, SenderFailure(As(o.now, o.left[k])), o.left, k) else o
  }

  function Walk(cfg: EdgeConfig, moves: seq<Move>): System {
    if moves == [] then System(Initial(), [])
    else Next(cfg, Walk(cfg, moves[..|moves| - 1]), moves[|moves| - 1])
  }

  // ----- no start() while an earlier sender is alive -----

  ghost predicate StartsAlone(o: System, m: Move) {
    m == Normal(MainStep) && o.now.main.MIdle? ==> Alive(o.left) == []
  }

  ghost predicate Guarded(cfg: EdgeConfig, moves: seq<Move>) {
    forall k :: 0 <= k < |moves| ==> StartsAlone(Walk(cfg, moves[..k]), moves[k])
  }

  /** What it looks like if stop() is taken to wait on. */
  function Waiting(o: System): State {
    if o.left == [] then o.now else As(o.now, o.left[0]).(main := MJoinSender)
  }

  ghost predicate Simulated(cfg: EdgeConfig, o: System) {
    && |o.left| <= 1
    && (o.left != [] ==> o.now.main.MIdle? && o.now.snd.NOff?)
    && RuntimeWitness.Reachable(cfg, Waiting(o))
  }

  lemma SendIgnoresMain(cfg: EdgeConfig, s: State, main: MainPc, outcome: SendOutcome, now: Stamp)
    ensures Send(cfg, s.(main := main), outcome, now) == Send(cfg, s, outcome, now).(main := main)
  {
    hide Without, Bumped, Health.Observe, Runtime.RecordFailure;
    match s.snd
    case NFailed => ReportIgnoresMain(cfg, s, main, false, now, NTop, s.pace.AfterFailure());
    case NAcked(rest) => ReportIgnoresMain(cfg, s, main, true, now, NSend(rest), s.pace.AfterSuccess());
    case NClear => assert s.(main := main).shared == s.shared;
    case NFailing(_) => assert s.(main := main).shared == s.shared;
    case _ =>
  }

  lemma ReportIgnoresMain(cfg: EdgeConfig, s: State, main: MainPc, success: bool, now: Stamp, next: SenderPc,
                          pace: Pace)
    ensures Report(cfg, s.(main := main), success, now, next, pace)
         == Report(cfg, s, success, now, next, pace).(main := main)
  {
    hide Health.Observe;
  }

  lemma AliveOne(l: Left)
    ensures Alive([l]) == if l.snd.NOff? then [] else [l]
    ensures Alive([]) == []
  {
    assert [l][..0] == [];
  }

  lemma LeftStepSimulated(cfg: EdgeConfig, o: System, m: Move)
    requires Simulated(cfg, o) && |o.left| == 1 && (m.LeftSteps? || m.LeftFails?)
    ensures Simulated(cfg, Next(cfg, o, m))
  {
    hide RuntimeWitness.Reachable, Send;
    var s, l := o.now, o.left[0];
    if m.LeftSteps? && m.k == 0 {
      SendIgnoresMain(cfg, As(s, l), MJoinSender, m.outcome, m.now);
      SendKeepsMain(cfg, As(s, l), m.outcome, m.now);
      var w := RuntimeWitness.Go(cfg, Waiting(o), SenderStep(m.outcome, m.now));
    } else if m.LeftFails? && m.k == 0 {
      var w := RuntimeWitness.Go(cfg, Waiting(o), SenderFails);
    }
  }

  lemma SendKeepsMain(cfg: EdgeConfig, s: State, outcome: SendOutcome, now: Stamp)
    ensures Send(cfg, s, outcome, now).main == s.main
  {
    hide Without, Bumped;
  }

  /** With a sender left behind nothing else of the process is alive. */
  lemma NormalStepSimulated(cfg: EdgeConfig, o: System, a: Action)
    requires Simulated(cfg, o) && |o.left| == 1 && StartsAlone(o, Normal(a))
    ensures Simulated(cfg, Next(cfg, o, Normal(a)))
  {
    RuntimeWitness.ReachableKeepsInvariant(cfg, Waiting(o));
    hide RuntimeWitness.Reachable, RuntimeOutbox.Outbox, Collect, Spool, Send;
    assert o.now.spl.SOff? && o.now.col.COff?;
    hide Simulated, Alive, Main, EndAndRebuild, CrashAndRebuild;
    match a
    case MainStep => StartsSimulated(cfg, o);
    case Flush => FlushSimulated(cfg, o);
    case Crash => CrashSimulated(cfg, o);
    case Rebuild => RebuildSimulated(cfg, o);
    case _ => RestIdle(cfg, o, a);
  }

  lemma StartsSimulated(cfg: EdgeConfig, o: System)
    requires Simulated(cfg, o) && |o.left| == 1 && StartsAlone(o, Normal(MainStep))
    ensures Simulated(cfg, Next(cfg, o, Normal(MainStep)))
  {
    hide RuntimeWitness.Reachable;
    AliveOne(o.left[0]);
    var w := RuntimeWitness.Proceeds(cfg, Waiting(o));
    w := RuntimeWitness.Proceeds(cfg, w);
  }

  lemma CrashSimulated(cfg: EdgeConfig, o: System)
    requires Simulated(cfg, o) && |o.left| == 1
    ensures Simulated(cfg, Next(cfg, o, Normal(Crash)))
  {
    hide RuntimeWitness.Reachable;
    var w := RuntimeWitness.Go(cfg, Waiting(o), Crash);
  }

  lemma FlushSimulated(cfg: EdgeConfig, o: System)
    requires Simulated(cfg, o) && |o.left| == 1
    ensures Simulated(cfg, Next(cfg, o, Normal(Flush)))
  {
    hide RuntimeWitness.Reachable;
    var w := RuntimeWitness.Go(cfg, Waiting(o), Flush);
  }

  lemma RestIdle(cfg: EdgeConfig, o: System, a: Action)
    requires Simulated(cfg, o) && |o.left| == 1 && o.now.spl.SOff? && o.now.col.COff?
    requires a.CollectorStep? || a.SpoolerStep? || a.SenderStep? || a.SpoolerFails? || a.SenderFails?
    ensures Next(cfg, o, Normal(a)) == o
  {
    hide RuntimeWitness.Reachable, Collect, Spool, Send;
    match a
    case CollectorStep(choice) => RuntimeOutbox.CollectorShape(cfg, o.now, choice);
    case SpoolerStep(now) => RuntimeOutbox.SpoolerShape(cfg, o.now, now);
    case SenderStep(outcome, now) => RuntimeOutbox.SenderShape(cfg, o.now, outcome, now);
    case _ =>
  }

  lemma RebuildSimulated(cfg: EdgeConfig, o: System)
    requires Simulated(cfg, o) && |o.left| == 1
    ensures Simulated(cfg, Next(cfg, o, Normal(Rebuild)))
  {
    hide RuntimeWitness.Reachable;
    AliveOne(o.left[0]);
    if o.left[0].snd.NOff? {
      var w := RuntimeWitness.Proceeds(cfg, Waiting(o));
      w := RuntimeWitness.Go(cfg, w, Rebuild);
    } else {
      var w := RuntimeWitness.Go(cfg, Waiting(o), Crash);
    }
  }

  lemma MoveSimulated(cfg: EdgeConfig, o: System, m: Move)
    requires Simulated(cfg, o) && StartsAlone(o, m)
    ensures Simulated(cfg, Next(cfg, o, m))
  {
    hide RuntimeWitness.Reachable, Step, Send;
    if |o.left| == 1 {
      match m
      case Normal(a) => NormalStepSimulated(cfg, o, a);
      case TimeOut =>
      case _ => LeftStepSimulated(cfg, o, m);
    } else {
      NothingLeft(cfg, o, m);
    }
  }

  lemma NothingLeft(cfg: EdgeConfig, o: System, m: Move)
    requires Simulated(cfg, o) && o.left == []
    ensures Simulated(cfg, Next(cfg, o, m))
  {
    hide RuntimeWitness.Reachable;
    match m
    case Normal(a) =>
      var w := RuntimeWitness.Go(cfg, o.now, a);
      StepAlone(cfg, o, a);
    case TimeOut =>
      if o.now.main.MJoinSender? && !o.now.snd.NOff? {
        assert Waiting(Next(cfg, o, m)) == o.now;
      }
    case _ =>
  }

  lemma StepAlone(cfg: EdgeConfig, o: System, a: Action)
    requires o.left == []
    ensures Next(cfg, o, Normal(a)) == System(Step(cfg, o.now, a), [])
  {
    hide Spool, Send, Collect, Main;
  }

  lemma {:induction false} AlwaysSimulated(cfg: EdgeConfig, moves: seq<Move>)
    requires Guarded(cfg, moves)
    ensures Simulated(cfg, Walk(cfg, moves))
  {
    hide Next, Simulated, StartsAlone;
    if moves == [] {
      StartSimulated(cfg);
    } else {
      var front := moves[..|moves| - 1];
      forall k | 0 <= k < |front| ensures StartsAlone(Walk(cfg, front[..k]), front[k]) {
        assert front[..k] == moves[..k] && front[k] == moves[k];
      }
      AlwaysSimulated(cfg, front);
      assert StartsAlone(Walk(cfg, moves[..|moves| - 1]), moves[|moves| - 1]);
      MoveSimulated(cfg, Walk(cfg, front), moves[|moves| - 1]);
    }
  }

  lemma StartSimulated(cfg: EdgeConfig)
    ensures Simulated(cfg, System(Initial(), []))
  {
    assert Run(cfg, []) == Initial();
  }

  /** As long as no start() comes while an earlier sender is alive, it does not matter that stop() may leave one
      behind: delivery is still first in, first out, with repeats. */
  lemma FifoWithoutOverlap(cfg: EdgeConfig, moves: seq<Move>)
    requires Guarded(cfg, moves)
    ensures var h := Walk(cfg, moves).now.ledger;
            var d := RuntimeOutbox.Reached(h.delivered);
            && RuntimeOutbox.Collapse(h.delivered) == RuntimeOutbox.OneTo(d) && d <= |h.log|
            && (h.acked == d || h.acked + 1 == d)
            && (forall i :: 0 <= i < |h.delivered| ==> 1 <= h.delivered[i].id <= d)
            && (forall i :: 0 <= i < |h.delivered| ==> h.delivered[i].msg == h.log[h.delivered[i].id - 1].msg)
            && (forall i, j :: 0 <= i < j < |h.delivered| ==> h.delivered[i].id <= h.delivered[j].id)
  {
    hide Run, Walk, Guarded;
    AlwaysSimulated(cfg, moves);
    var s := Waiting(Walk(cfg, moves));
    var actions :| Run(cfg, actions) == s;
    RuntimeOutbox.StutteringFifo(cfg, actions);
  }

  // ----- two senders at once -----

  ghost predicate Reached(cfg: EdgeConfig, o: System) {
    exists moves :: Walk(cfg, moves) == o
  }

  lemma Go(cfg: EdgeConfig, o: System, m: Move) returns (o': System)
    requires Reached(cfg, o)
    ensures Reached(cfg, o') && o' == Next(cfg, o, m)
  {
    hide Next;
    var moves :| Walk(cfg, moves) == o;
    o' := Next(cfg, o, m);
    assert (moves + [m])[..|moves|] == moves;
    assert Walk(cfg, moves + [m]) == o';
  }

  lemma {:induction false} RunIsWalk(cfg: EdgeConfig, actions: seq<Action>)
    ensures Reached(cfg, System(Run(cfg, actions), []))
  {
    if actions == [] {
      assert Walk(cfg, []) == System(Initial(), []);
    } else {
      var front, a := actions[..|actions| - 1], actions[|actions| - 1];
      RunIsWalk(cfg, front);
      StepAlone(cfg, System(Run(cfg, front), []), a);
      hide Next, Step;
      var o := Go(cfg, System(Run(cfg, front), []), Normal(a));
    }
  }

  lemma Lifted(cfg: EdgeConfig, s: State)
    requires RuntimeWitness.Reachable(cfg, s)
    ensures Reached(cfg, System(s, []))
  {
    hide Run;
    var actions :| Run(cfg, actions) == s;
    RunIsWalk(cfg, actions);
  }

  /** A step of the runtime with a sender left behind. */
  lemma Steps(cfg: EdgeConfig, o: System, a: Action) returns (o': System)
    requires Reached(cfg, o) && |o.left| == 1 && !o.left[0].snd.NOff? && !a.Crash? && !a.Rebuild?
    ensures Reached(cfg, o') && o' == System(Step(cfg, o.now, a), o.left)
  {
    hide Reached, Step;
    AliveOne(o.left[0]);
    assert o.left == [o.left[0]];
    o' := Go(cfg, o, Normal(a));
  }

  /** Two rows are in the outbox and the sender has begun to send the first of them. */
  lemma TwoRows(cfg: EdgeConfig, e: IncompleteWindow) returns (s: State)
    requires cfg.Valid()
    ensures RuntimeWitness.Reachable(cfg, s) && |s.box.rows| == 2 && s.ledger.delivered == []
    ensures s.snd == NSend(Blackbox.Pending(s.box, cfg.batchSize))
    ensures s.main.MRunning? && s.col.CTop? && s.spl.STop?
    ensures s.shared.queue == [] && s.shared.transitions == []
    ensures !s.shared.flags.stopCollector && !s.shared.flags.stopSpooler && !s.shared.flags.stopSender
  {
    hide RuntimeWitness.Reachable;
    s := FirstCommitted(cfg, e);
    s := RuntimeWitness.Completes(cfg, s, Collector.ReadError(e));
    s := RuntimeWitness.Collects(cfg, s, Continue);
    s := SecondCommitted(cfg, s);
    s := RuntimeWitness.Fetches(cfg, s);
  }

  lemma FirstCommitted(cfg: EdgeConfig, e: IncompleteWindow) returns (s: State)
    requires cfg.Valid()
    ensures RuntimeWitness.Reachable(cfg, s) && |s.box.rows| == 1 && s.ledger.delivered == []
    ensures s.main.MRunning? && s.col.CTop? && s.spl.STop? && s.snd.NTop?
    ensures s.shared == Shared([], [], Flags(false, false, false, true), false)
  {
    hide RuntimeWitness.Reachable;
    s := RuntimeWitness.Given(cfg, Collector.ReadError(e));
    s := RuntimeWitness.Spools(cfg, s);
    s := RuntimeWitness.Commits(cfg, s, SensorError(1, RuntimeWitness.NOW, e, RuntimeWitness.NOW));
    s := RuntimeWitness.Spools(cfg, s);
  }

  lemma Takes(cfg: EdgeConfig, s: State) returns (s': State)
    requires RuntimeWitness.Reachable(cfg, s) && s.spl.STop? && s.shared.transitions == []
    requires |s.shared.queue| == 1 && s.shared.queue[0].Some?
    ensures RuntimeWitness.Reachable(cfg, s')
    ensures s' == s.(spl := SHave(s.shared.queue[0].value), shared := s.shared.(queue := []))
  {
    hide RuntimeWitness.Reachable;
    s' := RuntimeWitness.Spools(cfg, s);
    s' := RuntimeWitness.Spools(cfg, s');
    s' := RuntimeWitness.Spools(cfg, s');
  }

  lemma SecondCommitted(cfg: EdgeConfig, s: State) returns (s': State)
    requires RuntimeWitness.Reachable(cfg, s) && |s.box.rows| == 1 && s.ledger.delivered == [] && s.spl.STop?
    requires |s.shared.queue| == 1 && s.shared.queue[0].Some? && s.shared.queue[0].value.item.ReadError?
    requires s.shared.transitions == []
    ensures RuntimeWitness.Reachable(cfg, s') && |s'.box.rows| == 2 && s'.ledger.delivered == []
    ensures s'.main == s.main && s'.col == s.col && s'.snd == s.snd && s'.spl.STop?
    ensures s'.shared == s.shared.(queue := [], flags := s.shared.flags.(drain := true))
  {
    hide RuntimeWitness.Reachable;
    var it, n := s.shared.queue[0].value, NextNumber(cfg, s);
    s' := Takes(cfg, s);
    s' := RuntimeWitness.Spools(cfg, s');
    s' := RuntimeWitness.Commits(cfg, s', SensorError(n, RuntimeWitness.NOW, it.item.error, RuntimeWitness.NOW));
    s' := RuntimeWitness.Spools(cfg, s');
  }

  /** The collector has put its sentinel, and the spooler has taken it. */
  lemma BothEnd(cfg: EdgeConfig, s: State) returns (s': State)
    requires RuntimeWitness.Reachable(cfg, s) && s.col.CTop? && s.spl.STop? && cfg.queueSize > 0
    requires s.shared.queue == [] && s.shared.transitions == [] && !s.shared.flags.stopSpooler
    ensures RuntimeWitness.Reachable(cfg, s') && s' == s.(col := COff, spl := SOff)
  {
    hide RuntimeWitness.Reachable, Collect, Spool;
    s' := CollectorEnds(cfg, s);
    s' := SpoolerEnds(cfg, s');
  }

  lemma CollectorEnds(cfg: EdgeConfig, s: State) returns (s': State)
    requires RuntimeWitness.Reachable(cfg, s) && s.col.CTop? && cfg.queueSize > 0
    requires s.shared.queue == [] && !s.shared.flags.stopSpooler
    ensures RuntimeWitness.Reachable(cfg, s') && s' == s.(col := COff, shared := s.shared.(queue := [None]))
  {
    hide RuntimeWitness.Reachable;
    s' := RuntimeWitness.Collects(cfg, s, Finish);
    s' := RuntimeWitness.Collects(cfg, s', Finish);
    s' := RuntimeWitness.Collects(cfg, s', Finish);
  }

  lemma SpoolerEnds(cfg: EdgeConfig, s: State) returns (s': State)
    requires RuntimeWitness.Reachable(cfg, s) && s.spl.STop? && s.shared.queue == [None] && s.shared.transitions == []
    ensures RuntimeWitness.Reachable(cfg, s') && s' == s.(spl := SOff, shared := s.shared.(queue := []))
  {
    hide RuntimeWitness.Reachable;
    s' := RuntimeWitness.Spools(cfg, s);
    s' := RuntimeWitness.Spools(cfg, s');
    s' := RuntimeWitness.Spools(cfg, s');
  }

  /** stop() has ended collector and spooler and waits for the sender, which is still sending. */
  lemma WaitsForSender(cfg: EdgeConfig, s: State) returns (s': State)
    requires RuntimeWitness.Reachable(cfg, s) && s.main.MRunning? && s.col.CTop? && s.spl.STop? && cfg.queueSize > 0
    requires s.shared.queue == [] && s.shared.transitions == [] && !s.shared.flags.stopSpooler
    ensures RuntimeWitness.Reachable(cfg, s') && s'.main.MJoinSender? && s'.col.COff? && s'.spl.SOff?
    ensures s'.box == s.box && s'.ledger == s.ledger && s'.snd == s.snd
  {
    hide RuntimeWitness.Reachable;
    s' := BothEnd(cfg, s);
    s' := RuntimeWitness.JoinsSpooler(cfg, s');
    s' := RuntimeWitness.Proceeds(cfg, s');
    s' := RuntimeWitness.Proceeds(cfg, s');
  }

  /** What stays put while only the new sender moves. */
  ghost predicate Overlapping(cfg: EdgeConfig, o: System) {
    Reached(cfg, o) && |o.left| == 1 && o.left[0].snd.NSend? && o.left[0].snd.batch != []
  }

  lemma Sends(cfg: EdgeConfig, o: System) returns (o': System)
    requires Overlapping(cfg, o)
    ensures Overlapping(cfg, o') && o' == System(Send(cfg, o.now, Passed, RuntimeWitness.NOW), o.left)
  {
    hide Reached;
    o' := Steps(cfg, o, SenderStep(Passed, RuntimeWitness.NOW));
  }

  /** The new sender has the first batch in hand. */
  lemma NewSender(cfg: EdgeConfig, o: System) returns (o': System)
    requires Overlapping(cfg, o) && o.now.main.MIdle? && o.now.box.rows != []
    ensures Overlapping(cfg, o') && o'.left == o.left && o'.now.box == o.now.box && o'.now.ledger == o.now.ledger
    ensures o'.now.snd == NSend(Blackbox.Pending(o.now.box, cfg.batchSize)) && !o'.now.shared.flags.stopSender
  {
    hide Reached;
    o' := Steps(cfg, o, MainStep);
    o' := Sends(cfg, o');
    o' := Sends(cfg, o');
    o' := Sends(cfg, o');
    o' := Sends(cfg, o');
    assert o'.now.snd.NLoop? && o'.now.box == o.now.box && !o'.now.shared.flags.stopSender;
    o' := Sends(cfg, o');
    o' := Sends(cfg, o');
  }

  /** It delivers and acknowledges the first row. */
  lemma Acknowledges(cfg: EdgeConfig, o: System) returns (o': System)
    requires Overlapping(cfg, o) && |o.now.box.rows| == 2 && o.now.box.rows[0].id < o.now.box.rows[1].id
    requires o.now.snd.NSend? && o.now.snd.batch != [] && o.now.snd.batch <= o.now.box.rows
    ensures Overlapping(cfg, o') && o'.left == o.left && o'.now.snd == NSend(o.now.snd.batch[1..])
    ensures o'.now.box.rows == [o.now.box.rows[1]] && o'.now.shared.flags == o.now.shared.flags
    ensures o'.now.ledger.delivered
         == o.now.ledger.delivered + [Delivered(o.now.box.rows[0].id, o.now.box.rows[0].entry.payload)]
  {
    hide Overlapping, Report;
    OnlySecond(o.now.box.rows);
    hide Without;
    o' := Sends(cfg, o);
    o' := Sends(cfg, o');
    o' := Reports(cfg, o');
  }

  lemma OnlySecond(rows: seq<Row<Msg>>)
    requires |rows| == 2 && rows[0].id < rows[1].id
    ensures Without(rows, rows[0].id) == [rows[1]]
  {
    WithoutExact(rows, rows[0].id, 0);
    assert rows[..0] + rows[1..] == [rows[1]];
  }

  lemma Reports(cfg: EdgeConfig, o: System) returns (o': System)
    requires Overlapping(cfg, o) && o.now.snd.NAcked?
    ensures Overlapping(cfg, o') && o'.left == o.left && o'.now.snd == NSend(o.now.snd.rest)
    ensures o'.now.box == o.now.box && o'.now.ledger == o.now.ledger && o'.now.shared.flags == o.now.shared.flags
  {
    hide Overlapping, Health.Observe;
    o' := Sends(cfg, o);
  }

  /** And it comes to the second, in the same batch or in the next. */
  lemma FirstAcknowledged(cfg: EdgeConfig, o: System) returns (o': System)
    requires Overlapping(cfg, o) && cfg.batchSize > 0 && !o.now.shared.flags.stopSender
    requires |o.now.box.rows| == 2 && o.now.box.rows[0].id < o.now.box.rows[1].id
    requires o.now.snd == NSend(Blackbox.Pending(o.now.box, cfg.batchSize))
    ensures Overlapping(cfg, o') && o'.left == o.left && o'.now.snd.NSend? && o'.now.snd.batch != []
    ensures o'.now.snd.batch[0] == o.now.box.rows[1]
    ensures o'.now.ledger.delivered
         == o.now.ledger.delivered + [Delivered(o.now.box.rows[0].id, o.now.box.rows[0].entry.payload)]
  {
    hide Overlapping;
    o' := Acknowledges(cfg, o);
    if o'.now.snd.batch == [] {
      o' := Sends(cfg, o');
      o' := Sends(cfg, o');
      o' := Sends(cfg, o');
    }
  }

  /** A sender left behind in the middle of a send, a second one that meanwhile sends both rows, and then the first
      send goes through after all: the delivered ids go back. */
  lemma OverlapGoesBack(cfg: EdgeConfig, e: IncompleteWindow) returns (o: System)
    requires cfg.Valid()
    ensures Reached(cfg, o)
    ensures var ds := o.now.ledger.delivered; |ds| == 3 && ds[0].id == ds[2].id < ds[1].id
  {
    hide Reached, RuntimeWitness.Reachable, Next, Send;
    var s := TwoRows(cfg, e);
    Increasing(cfg, s);
    var batch := Blackbox.Pending(s.box, cfg.batchSize);
    s := WaitsForSender(cfg, s);
    Lifted(cfg, s);
    o := TimesOut(cfg, s);
    o := NewSender(cfg, o);
    o := FirstAcknowledged(cfg, o);
    o := SendsSecond(cfg, o);
    o := LeftSends(cfg, o);
  }

  lemma Increasing(cfg: EdgeConfig, s: State)
    requires RuntimeWitness.Reachable(cfg, s) && |s.box.rows| == 2
    ensures s.box.rows[0].id < s.box.rows[1].id
  {
    RuntimeWitness.ReachableKeepsInvariant(cfg, s);
    RuntimeOutbox.TailFacts(cfg, s.box.rows, s.box.nextId, s.ledger);
  }

  lemma TimesOut(cfg: EdgeConfig, s: State) returns (o: System)
    requires Reached(cfg, System(s, [])) && s.main.MJoinSender? && s.snd.NSend? && s.snd.batch != []
    ensures Overlapping(cfg, o) && o == System(s.(main := MIdle, snd := NOff), [Left(s.snd, s.pace)])
  {
    hide Reached;
    o := Go(cfg, System(s, []), TimeOut);
  }

  lemma SendsSecond(cfg: EdgeConfig, o: System) returns (o': System)
    requires Overlapping(cfg, o) && o.now.snd.NSend? && o.now.snd.batch != []
    ensures Overlapping(cfg, o') && o'.left == o.left
    ensures o'.now.ledger.delivered
         == o.now.ledger.delivered + [Delivered(o.now.snd.batch[0].id, o.now.snd.batch[0].entry.payload)]
  {
    hide Reached;
    o' := Sends(cfg, o);
  }

  lemma LeftSends(cfg: EdgeConfig, o: System) returns (o': System)
    requires Overlapping(cfg, o)
    ensures Reached(cfg, o')
    ensures var row := o.left[0].snd.batch[0];
            o'.now.ledger.delivered == o.now.ledger.delivered + [Delivered(row.id, row.entry.payload)]
  {
    hide Reached;
    o' := Go(cfg, o, LeftSteps(0, Passed, RuntimeWitness.NOW));
  }
}
