/** When stop() returns: its joins taken as waits, it does so under every fair schedule exactly if no sentinel of an
    earlier session can leave the collector in front of a full queue that nobody empties. */
module RuntimeStop {
  import opened Prelude
  import Health
  import opened Blackbox
  import opened Rules
  import opened Pipeline
  import opened Runtime
  import Collector
  import RuntimeItems
  import RuntimeOutbox
  import opened RuntimeWakeup
  import opened RuntimeWitness

  // ----- what is known while stop() runs -----

  predicate Stopping(main: MainPc) {
    || main.MJoinCollector? || main.MStopSpooler? || main.MJoinSpooler?
    || main.MStopSender? || main.MWakeSender? || main.MJoinSender?
  }

  predicate PastSpooler(stage: Stage) {
    stage.ToStopSender? || stage.ToDrain?
  }

  /** The orders given so far by stop() and by failing workers stand. */
  ghost predicate Ordered(s: State) {
    var f := s.shared.flags;
    && (Stopping(s.main) ==> f.stopCollector)
    && (Stopping(s.main) && !s.main.MJoinCollector? && !s.main.MStopSpooler? ==> f.stopSpooler)
    && (s.main.MWakeSender? || s.main.MJoinSender? ==> f.stopSender)
    && (s.spl.SFailing? && PastSpooler(s.spl.stage) ==> f.stopSpooler)
    && (s.snd.NFailing? && PastSpooler(s.snd.stage) ==> f.stopSpooler)
  }

  /** No batch is longer than the replay batch size. */
  ghost predicate Short(cfg: EdgeConfig, snd: SenderPc) {
    match snd
    case NSend(batch) => |batch| <= cfg.batchSize
    case NRefused(batch) => |batch| <= cfg.batchSize
    case NAccepted(batch) => |batch| <= cfg.batchSize
    case NAcked(rest) => |rest| <= cfg.batchSize
    case _ => true
  }

  ghost predicate Known(cfg: EdgeConfig, s: State) {
    RuntimeOutbox.Inv(cfg, s) && Ordered(s) && Short(cfg, s.snd)
  }

  /** What a step of the spooler can do to orders and queues. */
  lemma SpoolerEffect(cfg: EdgeConfig, s: State, now: Stamp)
    requires !s.spl.SFailing?
    ensures var s' := Spool(cfg, s, now);
            && !s'.spl.SFailing?
            && s'.shared.flags == s.shared.flags.(drain := s'.shared.flags.drain)
            && (s'.spl.SOff? && !s.spl.SOff? ==>
                  || (s.shared.flags.stopSpooler && s.shared.queue == [])
                  || (s.shared.queue != [] && s.shared.queue[0].None? && s'.shared.queue == s.shared.queue[1..]))
            && (s'.shared.queue == s.shared.queue
                || (s.shared.queue != [] && s'.shared.queue == s.shared.queue[1..]
                    && (s.shared.queue[0].None? ==> s'.spl.SOff?)))
  {
    hide Decide, LastSequence, Reserve, InsertAll, Outgoing;
  }

  lemma SenderEffect(cfg: EdgeConfig, s: State, outcome: SendOutcome, now: Stamp)
    ensures var s' := Send(cfg, s, outcome, now);
            && s'.main == s.main && s'.col == s.col && s'.spl == s.spl && s'.shared.queue == s.shared.queue
            && (if s.snd.NFailing? then
                  var (sh, next) := RecordFailure(s.shared, s.snd.stage);
                  s'.shared == sh && s'.snd == if next.Some? then NFailing(next.value) else NOff
                else
                  !s'.snd.NFailing? && s'.shared.flags == s.shared.flags.(drain := s'.shared.flags.drain))
  {
    hide Blackbox.Pending, Health.Observe, Bumped, Without;
  }

  lemma BatchesStayShort(cfg: EdgeConfig, s: State, outcome: SendOutcome, now: Stamp)
    requires Short(cfg, s.snd)
    ensures Short(cfg, Send(cfg, s, outcome, now).snd)
  {}

  lemma OrderedKept(cfg: EdgeConfig, s: State, a: Action)
    requires RuntimeOutbox.Lifecycle(s) && Ordered(s)
    ensures Ordered(Step(cfg, s, a))
  {
    hide Spool, Send, Collect, Runtime.Main, RecordFailure;
    match a
    case MainStep => MainOrdered(s);
    case SpoolerStep(now) => SpoolerOrdered(cfg, s, now);
    case SenderStep(outcome, now) => SenderOrdered(cfg, s, outcome, now);
    case CollectorStep(choice) => CollectorOrdered(cfg, s, choice);
    case _ =>
  }

  lemma MainOrdered(s: State)
    requires RuntimeOutbox.Lifecycle(s) && Ordered(s)
    ensures Ordered(Runtime.Main(s))
  {}

  lemma SenderOrdered(cfg: EdgeConfig, s: State, outcome: SendOutcome, now: Stamp)
    requires Ordered(s)
    ensures Ordered(Send(cfg, s, outcome, now))
  {
    hide Send;
    SenderEffect(cfg, s, outcome, now);
  }

  lemma SpoolerOrdered(cfg: EdgeConfig, s: State, now: Stamp)
    requires Ordered(s)
    ensures Ordered(Spool(cfg, s, now))
  {
    hide Spool;
    RuntimeOutbox.SpoolerShape(cfg, s, now);
    if s.spl.SFailing? {
      SpoolerRecording(cfg, s, now);
    } else {
      SpoolerEffect(cfg, s, now);
    }
  }

  lemma CollectorOrdered(cfg: EdgeConfig, s: State, choice: CollectorChoice)
    requires Ordered(s)
    ensures Ordered(Collect(cfg, s, choice))
  {}

  lemma KnownKept(cfg: EdgeConfig, s: State, a: Action)
    requires Known(cfg, s)
    ensures Known(cfg, Step(cfg, s, a))
  {
    hide RuntimeOutbox.Outbox;
    RuntimeOutbox.StepKeeps(cfg, s, a);
    OrderedKept(cfg, s, a);
    hide Spool, Send;
    match a
    case SpoolerStep(now) => RuntimeOutbox.SpoolerShape(cfg, s, now);
    case SenderStep(outcome, now) => BatchesStayShort(cfg, s, outcome, now);
    case CollectorStep(choice) => RuntimeOutbox.CollectorShape(cfg, s, choice);
    case _ =>
  }

  lemma {:induction false} AlwaysKnown(cfg: EdgeConfig, actions: seq<Action>)
    ensures Known(cfg, Run(cfg, actions))
  {
    if actions == [] {
      RuntimeOutbox.Always(cfg, []);
    } else {
      hide Step, Known;
      AlwaysKnown(cfg, actions[..|actions| - 1]);
      KnownKept(cfg, Run(cfg, actions[..|actions| - 1]), actions[|actions| - 1]);
    }
  }

  // ----- the condition -----

  /** How many entries follow the first sentinel. */
  function Behind(q: seq<Option<Tagged>>): nat {
    if q == [] then 0 else if q[0].None? then |q| - 1 else Behind(q[1..])
  }

  lemma {:induction false} BehindGrows(q: seq<Option<Tagged>>, x: Option<Tagged>)
    ensures HasSentinel(q) ==> HasSentinel(q + [x]) && Behind(q + [x]) == Behind(q) + 1
    ensures !HasSentinel(q) ==> (HasSentinel(q + [x]) <==> x.None?)
  {
    if q != [] && q[0].Some? {
      assert (q + [x])[1..] == q[1..] + [x] && (q + [x])[0] == q[0];
      assert q == [q[0]] + q[1..];
      BehindGrows(q[1..], x);
      assert HasSentinel(q + [x]) ==> HasSentinel((q + [x])[1..]);
    }
  }

  lemma BehindMovesUp(q: seq<Option<Tagged>>)
    requires q != []
    ensures q[0].None? ==> HasSentinel(q) && Behind(q) == |q| - 1
    ensures q[0].Some? ==> (HasSentinel(q) <==> HasSentinel(q[1..])) && Behind(q) == Behind(q[1..])
  {
    assert q == [q[0]] + q[1..];
  }

  /** What nobody will take out of the queue any more. */
  function Left(s: State): nat {
    if s.spl.SOff? then |s.shared.queue| else Behind(s.shared.queue)
  }

  /** What the collector can still put before its sentinel. */
  function Coming(col: CollectorPc): nat {
    if col.CReading? || col.CPut? then 1 else 0
  }

  /** The spooler has been ended, or will be, by a sentinel that came before the collector's last, and what stays
      behind it, the item the collector may yet put included, fills the queue. */
  ghost predicate Clogged(cfg: EdgeConfig, s: State) {
    && s.main.MJoinCollector? && !s.shared.flags.stopSpooler
    && !s.snd.NFailing? && !s.spl.SFailing?
    && (s.spl.SOff? || HasSentinel(s.shared.queue))
    && !RuntimeItems.CollectorEnded(s.col)
    && Left(s) + Coming(s.col) >= cfg.queueSize
  }

  lemma CollectorClogs(cfg: EdgeConfig, s: State, choice: CollectorChoice)
    requires Ordered(s) && s.main.MJoinCollector?
    ensures Clogged(cfg, Collect(cfg, s, choice)) ==> Clogged(cfg, s)
  {
    hide Behind, HasSentinel;
    CollectorEffect(cfg, s, choice);
    RuntimeOutbox.CollectorShape(cfg, s, choice);
    hide Collect;
    if s.col.CPut? {
      BehindGrows(s.shared.queue, Some(s.col.it));
    }
  }

  lemma CollectorEffect(cfg: EdgeConfig, s: State, choice: CollectorChoice)
    requires s.shared.flags.stopCollector
    ensures var s' := Collect(cfg, s, choice);
            && (RuntimeItems.CollectorEnded(s.col) ==> RuntimeItems.CollectorEnded(s'.col))
            && (!RuntimeItems.CollectorEnded(s'.col) ==>
                  && s'.shared.flags == s.shared.flags
                  && ((s'.shared == s.shared && Coming(s'.col) <= Coming(s.col))
                      || (s.col.CPut? && s'.shared.queue == s.shared.queue + [Some(s.col.it)] && Coming(s'.col) == 0)))
  {}

  lemma SpoolerClogs(cfg: EdgeConfig, s: State, now: Stamp)
    requires Known(cfg, s) && s.main.MJoinCollector?
    ensures Clogged(cfg, Spool(cfg, s, now)) <==> Clogged(cfg, s)
  {
    RuntimeOutbox.SpoolerShape(cfg, s, now);
    hide Spool, RuntimeOutbox.Outbox;
    if s.spl.SFailing? {
      SpoolerRecording(cfg, s, now);
    } else {
      SpoolerEffect(cfg, s, now);
    }
    if s.shared.queue != [] {
      BehindMovesUp(s.shared.queue);
    }
  }

  /** Without failures no step leads into the condition once stop() waits for the collector. */
  lemma NeverClogs(cfg: EdgeConfig, s: State, a: Action)
    requires Known(cfg, s) && Stopping(s.main) && !Clogged(cfg, s) && Undisturbed(a)
    ensures !Clogged(cfg, Step(cfg, s, a))
  {
    hide RuntimeOutbox.Outbox, Spool, Send, Collect;
    match a
    case CollectorStep(choice) =>
      RuntimeOutbox.CollectorShape(cfg, s, choice);
      if s.main.MJoinCollector? { CollectorClogs(cfg, s, choice); }
    case SpoolerStep(now) =>
      RuntimeOutbox.SpoolerShape(cfg, s, now);
      if s.main.MJoinCollector? { SpoolerClogs(cfg, s, now); }
    case SenderStep(outcome, now) => SenderEffect(cfg, s, outcome, now);
    case _ =>
  }

  // ----- who can move, and how far it is -----

  datatype Thread = MainThread | Collecting | Spooling | Sending

  predicate Full(cfg: EdgeConfig, s: State) {
    |s.shared.queue| >= cfg.queueSize
  }

  /** A step of the thread. A collector that is stopping does not read for ever, and on a full queue it gives up
      its item. */
  predicate Moves(cfg: EdgeConfig, s: State, a: Action, t: Thread) {
    match t
    case MainThread => a.MainStep?
    case Collecting =>
      && a.CollectorStep?
      && (s.col.CReading? ==> !a.choice.Continue?)
      && (s.col.CPut? && Full(cfg, s) ==> a.choice.GiveUp?)
    case Spooling => a.SpoolerStep?
    case Sending => a.SenderStep?
  }

  /** The thread has something to do that brings stop() closer to its end. */
  predicate HasWork(cfg: EdgeConfig, s: State, t: Thread) {
    match t
    case MainThread =>
      && !s.main.MIdle?
      && (s.main.MJoinCollector? ==> s.col.COff?)
      && (s.main.MJoinSpooler? ==> s.spl.SOff?)
      && (s.main.MJoinSender? ==> s.snd.NOff?)
    case Collecting =>
      && !s.col.COff?
      && ((s.col.CCheckStop? || s.col.CSentinel?) && Full(cfg, s) ==> s.shared.flags.stopSpooler)
    case Spooling => s.spl.SFailing? || SpoolerHasWork(s) || (!s.spl.SOff? && s.shared.flags.stopSpooler)
    case Sending => s.snd.NFailing? || (!s.snd.NOff? && s.shared.flags.stopSender)
  }

  function Remaining(stage: Stage): nat {
    match stage
    case ToRecord => 5
    case ToStopCollector => 4
    case ToStopSpooler => 3
    case ToStopSender => 2
    case ToDrain => 1
  }

  function MainDistance(main: MainPc): nat {
    match main
    case MJoinCollector => 6
    case MStopSpooler => 5
    case MJoinSpooler => 4
    case MStopSender => 3
    case MWakeSender => 2
    case MJoinSender => 1
    case _ => 0
  }

  function CollectorDistance(col: CollectorPc, full: bool, told: bool): nat {
    match col
    case COff => 0
    case CFailing(stage) => Remaining(stage)
    case CSentinel(_) => if full then 28 else 26
    case CCheckStop(_) => if full && !told then 28 else 27
    case CTop => 29
    case CPut(_) => 48
    case CReading => 49
  }

  function ExitPath(spl: SpoolerPc): nat {
    match spl
    case STop => 1
    case SGet => 2
    case SSet => 2
    case SDrain => 3
    case SDrainSet => 4
    case _ => 0
  }

  function ExitDistance(spl: SpoolerPc, noTransition: bool, noItem: bool, told: bool): nat {
    if spl.SOff? then 0
    else if spl.SFailing? then Remaining(spl.stage)
    else if !noTransition || !noItem || InHand(spl) > 0 then SpoolerPath(spl, noTransition, noItem)
    else if told then ExitPath(spl)
    else 9
  }

  function Tasks(sh: Shared, spl: SpoolerPc): nat {
    |sh.transitions| + |sh.queue| + if InHand(spl) > 0 then 1 else 0
  }

  function SpoolerShare(sh: Shared, spl: SpoolerPc): nat {
    10 * Tasks(sh, spl) + ExitDistance(spl, sh.transitions == [], sh.queue == [], sh.flags.stopSpooler)
  }

  function SenderShare(cfg: EdgeConfig, snd: SenderPc, told: bool): nat {
    match snd
    case NOff => 0
    case NFailing(stage) => Remaining(stage)
    case _ => if told then SenderExit(cfg, snd) else 3 * cfg.batchSize + 9
  }

  function SenderExit(cfg: EdgeConfig, snd: SenderPc): nat {
    match snd
    case NWait => 3
    case NClear => 2
    case NCheck => 1
    case NTop => 1
    case NLoop => 2
    case NFetch => 3 * cfg.batchSize + 4
    case NSend(batch) => 3 * |batch| + 3
    case NRefused(_) => 3
    case NFailed => 2
    case NAccepted(batch) => 3 * |batch| + 2
    case NAcked(rest) => 3 * |rest| + 4
    case _ => 0
  }

  /** How far stop() is from its end. */
  function Distance(cfg: EdgeConfig, s: State): nat {
    MainDistance(s.main) + CollectorDistance(s.col, Full(cfg, s), s.shared.flags.stopSpooler)
    + SpoolerShare(s.shared, s.spl) + SenderShare(cfg, s.snd, s.shared.flags.stopSender)
  }

  /** Transitions announced on the way. */
  function Announcements(s: State, s': State): int {
    |s'.life.emitted| - |s.life.emitted|
  }

  // ----- one step -----

  lemma SharesBounded(cfg: EdgeConfig, s: State)
    requires Short(cfg, s.snd)
    ensures ExitDistance(s.spl, s.shared.transitions == [], s.shared.queue == [], s.shared.flags.stopSpooler) <= 9
    ensures SenderShare(cfg, s.snd, true) <= SenderShare(cfg, s.snd, false)
  {}

  /** More orders, or one more transition. */
  lemma SpoolerShareGrows(sh: Shared, sh': Shared, spl: SpoolerPc)
    requires sh'.queue == sh.queue && |sh.transitions| <= |sh'.transitions|
    requires sh.flags.stopSpooler ==> sh'.flags.stopSpooler
    ensures SpoolerShare(sh', spl) <= SpoolerShare(sh, spl) + 20 * (|sh'.transitions| - |sh.transitions|)
  {}

  lemma SpoolerShareOfItem(sh: Shared, sh': Shared, spl: SpoolerPc, x: Option<Tagged>)
    requires sh' == sh.(queue := sh.queue + [x])
    ensures SpoolerShare(sh', spl) <= SpoolerShare(sh, spl) + 18
  {}

  /** Main moves closer if it has not to wait. */
  lemma MainCloser(cfg: EdgeConfig, s: State)
    requires Known(cfg, s) && Stopping(s.main)
    ensures var s' := Runtime.Main(s);
            && (Stopping(s'.main) || s'.main.MIdle?) && s'.life == s.life
            && Distance(cfg, s') <= Distance(cfg, s)
            && (HasWork(cfg, s, MainThread) ==> Distance(cfg, s') < Distance(cfg, s))
            && forall t :: t != MainThread && HasWork(cfg, s, t) ==> HasWork(cfg, s', t)
  {
    hide RuntimeOutbox.Outbox, SpoolerShare, SenderShare, CollectorDistance;
    var s' := Runtime.Main(s);
    SpoolerShareGrows(s.shared, s'.shared, s.spl);
    SharesBounded(cfg, s);
    ToldIsCloser(s.col, Full(cfg, s));
  }

  lemma ToldIsCloser(col: CollectorPc, full: bool)
    ensures CollectorDistance(col, full, true) <= CollectorDistance(col, full, false)
    ensures CollectorDistance(col, false, true) <= CollectorDistance(col, full, true)
    ensures CollectorDistance(col, false, false) <= CollectorDistance(col, full, false)
  {}

  lemma CollectorCloser(cfg: EdgeConfig, s: State, choice: CollectorChoice)
    requires Known(cfg, s) && Stopping(s.main)
    ensures var s', a := Collect(cfg, s, choice), CollectorStep(choice);
            && s'.main == s.main && s'.life == s.life
            && Distance(cfg, s') <= Distance(cfg, s)
            && (HasWork(cfg, s, Collecting) && Moves(cfg, s, a, Collecting) ==> Distance(cfg, s') < Distance(cfg, s))
            && (HasWork(cfg, s, Collecting) && !Moves(cfg, s, a, Collecting) ==> HasWork(cfg, s', Collecting))
            && forall t :: t != Collecting && HasWork(cfg, s, t) ==> HasWork(cfg, s', t)
  {
    hide SpoolerShare, SenderShare, CollectorDistance;
    var s' := Collect(cfg, s, choice);
    SharesBounded(cfg, s);
    CollectorDistanceFalls(cfg, s, choice);
    CollectorOnward(cfg, s, choice);
    RuntimeOutbox.CollectorShape(cfg, s, choice);
    hide Collect, RuntimeOutbox.Outbox;
    if s'.shared.queue != s.shared.queue {
      SpoolerShareOfItem(s.shared, s'.shared, s.spl, if s.col.CPut? then Some(s.col.it) else None);
    } else {
      SpoolerShareGrows(s.shared, s'.shared, s.spl);
    }
  }

  /** Orders of the collector are never taken back; it puts one entry at most, and nothing else. */
  lemma CollectorOnward(cfg: EdgeConfig, s: State, choice: CollectorChoice)
    ensures var s', f := Collect(cfg, s, choice), s.shared.flags;
            && s'.shared.transitions == s.shared.transitions
            && (f.stopCollector ==> s'.shared.flags.stopCollector)
            && (f.stopSpooler ==> s'.shared.flags.stopSpooler)
            && (f.stopSender ==> s'.shared.flags.stopSender)
            && (s'.shared.queue == s.shared.queue
                || s'.shared == s.shared.(queue := s.shared.queue + [if s.col.CPut? then Some(s.col.it) else None]))
  {}

  /** An entry put is paid for. */
  ghost predicate CollectorFalls(cfg: EdgeConfig, s: State, choice: CollectorChoice) {
    var s', a := Collect(cfg, s, choice), CollectorStep(choice);
    var d := CollectorDistance(s.col, Full(cfg, s), s.shared.flags.stopSpooler);
    var d' := CollectorDistance(s'.col, Full(cfg, s'), s'.shared.flags.stopSpooler);
    && d' <= d
    && (s'.shared.queue != s.shared.queue ==> d' + 19 <= d)
    && (HasWork(cfg, s, Collecting) ==> d' < d || (!Moves(cfg, s, a, Collecting) && s' == s))
  }

  lemma CollectorDistanceFalls(cfg: EdgeConfig, s: State, choice: CollectorChoice)
    requires s.shared.flags.stopCollector
    ensures CollectorFalls(cfg, s, choice)
  {
    hide CollectorFalls;
    match s.col
    case CTop => ReadingFalls(cfg, s, choice);
    case CReading => ReadingFalls(cfg, s, choice);
    case CPut(_) => PuttingFalls(cfg, s, choice);
    case CCheckStop(_) => EndingFalls(cfg, s, choice);
    case CSentinel(_) => SentinelFalls(cfg, s, choice);
    case _ => OverFalls(cfg, s, choice);
  }

  lemma ReadingFalls(cfg: EdgeConfig, s: State, choice: CollectorChoice)
    requires s.shared.flags.stopCollector && (s.col.CTop? || s.col.CReading?)
    ensures CollectorFalls(cfg, s, choice)
  {}

  lemma PuttingFalls(cfg: EdgeConfig, s: State, choice: CollectorChoice)
    requires s.shared.flags.stopCollector && s.col.CPut?
    ensures CollectorFalls(cfg, s, choice)
  {}

  lemma EndingFalls(cfg: EdgeConfig, s: State, choice: CollectorChoice)
    requires s.shared.flags.stopCollector && s.col.CCheckStop?
    ensures CollectorFalls(cfg, s, choice)
  {}

  lemma SentinelFalls(cfg: EdgeConfig, s: State, choice: CollectorChoice)
    requires s.shared.flags.stopCollector && s.col.CSentinel?
    ensures CollectorFalls(cfg, s, choice)
  {}

  lemma OverFalls(cfg: EdgeConfig, s: State, choice: CollectorChoice)
    requires s.shared.flags.stopCollector && (s.col.COff? || s.col.CFailing?)
    ensures CollectorFalls(cfg, s, choice)
  {}

  lemma SpoolerCloser(cfg: EdgeConfig, s: State, now: Stamp)
    requires Known(cfg, s) && Stopping(s.main)
    ensures var s' := Spool(cfg, s, now);
            && s'.main == s.main && s'.life.emitted == s.life.emitted
            && Distance(cfg, s') <= Distance(cfg, s)
            && (HasWork(cfg, s, Spooling) ==> Distance(cfg, s') < Distance(cfg, s))
            && forall t :: t != Spooling && HasWork(cfg, s, t) ==> HasWork(cfg, s', t)
  {
    hide SpoolerShare, SenderShare, CollectorDistance;
    var s' := Spool(cfg, s, now);
    SharesBounded(cfg, s);
    ToldIsCloser(s.col, Full(cfg, s));
    RuntimeOutbox.SpoolerShape(cfg, s, now);
    SpoolerShareFalls(cfg, s, now);
    if s.spl.SFailing? {
      SpoolerRecording(cfg, s, now);
    } else {
      SpoolerEffect(cfg, s, now);
    }
    hide Spool, RuntimeOutbox.Outbox;
  }

  lemma SpoolerShareFalls(cfg: EdgeConfig, s: State, now: Stamp)
    requires RuntimeOutbox.HandFits(s.spl)
    ensures var s' := Spool(cfg, s, now);
            && s'.life.emitted == s.life.emitted
            && SpoolerShare(s'.shared, s'.spl) <= SpoolerShare(s.shared, s.spl)
            && (HasWork(cfg, s, Spooling) ==> SpoolerShare(s'.shared, s'.spl) < SpoolerShare(s.shared, s.spl))
  {
    hide SpoolerShare;
    if s.spl.SFailing? {
      RecordingShareFalls(cfg, s, now);
    } else if Outgoing(s.spl, now).0 == [] {
      QuietShareFalls(cfg, s, now);
    } else {
      CommitShareFalls(cfg, s, now);
    }
  }

  lemma RecordingShareFalls(cfg: EdgeConfig, s: State, now: Stamp)
    requires s.spl.SFailing?
    ensures var s' := Spool(cfg, s, now);
            s'.life == s.life && SpoolerShare(s'.shared, s'.spl) < SpoolerShare(s.shared, s.spl)
  {}

  lemma CommitShareFalls(cfg: EdgeConfig, s: State, now: Stamp)
    requires Outgoing(s.spl, now).0 != []
    ensures var s' := Spool(cfg, s, now);
            s'.life == s.life && SpoolerShare(s'.shared, s'.spl) < SpoolerShare(s.shared, s.spl)
  {
    hide InsertAll, LastSequence;
  }

  lemma QuietShareFalls(cfg: EdgeConfig, s: State, now: Stamp)
    requires RuntimeOutbox.HandFits(s.spl) && Outgoing(s.spl, now).0 == [] && !s.spl.SFailing?
    ensures var s' := Spool(cfg, s, now);
            && s'.life.emitted == s.life.emitted
            && SpoolerShare(s'.shared, s'.spl) <= SpoolerShare(s.shared, s.spl)
            && (HasWork(cfg, s, Spooling) ==> SpoolerShare(s'.shared, s'.spl) < SpoolerShare(s.shared, s.spl))
  {
    hide Decide, LastSequence, Reserve, Commit;
  }

  lemma SenderCloser(cfg: EdgeConfig, s: State, outcome: SendOutcome, now: Stamp)
    requires Known(cfg, s) && Stopping(s.main)
    ensures var s' := Send(cfg, s, outcome, now);
            && s'.main == s.main && Announcements(s, s') >= 0
            && Distance(cfg, s') <= Distance(cfg, s) + 20 * Announcements(s, s')
            && (HasWork(cfg, s, Sending) ==> Distance(cfg, s') < Distance(cfg, s) + 20 * Announcements(s, s'))
            && forall t :: t != Sending && HasWork(cfg, s, t) ==> HasWork(cfg, s', t)
  {
    hide SpoolerShare, SenderShare, CollectorDistance;
    var s' := Send(cfg, s, outcome, now);
    SenderEffect(cfg, s, outcome, now);
    SenderShareFalls(cfg, s, outcome, now);
    hide Send, RuntimeOutbox.Outbox;
    SpoolerShareGrows(s.shared, s'.shared, s.spl);
    ToldIsCloser(s.col, Full(cfg, s));
  }

  lemma SenderShareFalls(cfg: EdgeConfig, s: State, outcome: SendOutcome, now: Stamp)
    requires RuntimeOutbox.BatchFits(s.box.rows, s.ledger, s.snd) && Short(cfg, s.snd)
    ensures var s' := Send(cfg, s, outcome, now);
            && Announcements(s, s') == |s'.shared.transitions| - |s.shared.transitions| >= 0
            && SenderShare(cfg, s'.snd, s'.shared.flags.stopSender)
                <= SenderShare(cfg, s.snd, s.shared.flags.stopSender)
            && (HasWork(cfg, s, Sending) ==>
                  SenderShare(cfg, s'.snd, s'.shared.flags.stopSender)
                      < SenderShare(cfg, s.snd, s.shared.flags.stopSender))
  {
    hide Health.Observe;
    if s.snd.NFailed? || s.snd.NAcked? {
      ReportShareFalls(cfg, s, outcome, now);
    } else {
      QuietSenderShareFalls(cfg, s, outcome, now);
    }
    hide Send, SenderShare;
  }

  lemma ReportShareFalls(cfg: EdgeConfig, s: State, outcome: SendOutcome, now: Stamp)
    requires s.snd.NFailed? || s.snd.NAcked?
    requires Short(cfg, s.snd)
    ensures var s' := Send(cfg, s, outcome, now);
            && s'.shared.flags == s.shared.flags
            && Announcements(s, s') == |s'.shared.transitions| - |s.shared.transitions| >= 0
            && SenderShare(cfg, s'.snd, s.shared.flags.stopSender) <= SenderShare(cfg, s.snd, s.shared.flags.stopSender)
            && (s.shared.flags.stopSender ==> SenderShare(cfg, s'.snd, true) < SenderShare(cfg, s.snd, true))
  {
    hide Health.Observe;
  }

  lemma QuietSenderShareFalls(cfg: EdgeConfig, s: State, outcome: SendOutcome, now: Stamp)
    requires RuntimeOutbox.BatchFits(s.box.rows, s.ledger, s.snd) && Short(cfg, s.snd)
    requires !s.snd.NFailed? && !s.snd.NAcked?
    ensures var s' := Send(cfg, s, outcome, now);
            && s'.life == s.life && s'.shared.transitions == s.shared.transitions
            && SenderShare(cfg, s'.snd, s'.shared.flags.stopSender)
                <= SenderShare(cfg, s.snd, s.shared.flags.stopSender)
            && (HasWork(cfg, s, Sending) ==>
                  SenderShare(cfg, s'.snd, s'.shared.flags.stopSender)
                      < SenderShare(cfg, s.snd, s.shared.flags.stopSender))
  {
    hide Report, Bumped, Without;
  }

  // ----- whole runs -----

  /** Neither spooler nor sender fails, and the process lives on. */
  ghost predicate NothingFails(actions: seq<Action>) {
    forall i :: 0 <= i < |actions| ==> Undisturbed(actions[i])
  }

  /** On the way stop() has come to its end. */
  ghost predicate Returns(cfg: EdgeConfig, s: State, actions: seq<Action>)
    decreases |actions|
  {
    s.main.MIdle? || (actions != [] && Returns(cfg, Step(cfg, s, actions[0]), actions[1..]))
  }

  /** The thread gets to move. */
  ghost predicate HasTurn(cfg: EdgeConfig, s: State, actions: seq<Action>, t: Thread)
    decreases |actions|
  {
    actions != [] && (Moves(cfg, s, actions[0], t) || HasTurn(cfg, Step(cfg, s, actions[0]), actions[1..], t))
  }

  /** Every thread gets to move at least once, in any order; sends may pass or be refused. */
  ghost predicate Turns(cfg: EdgeConfig, s: State, round: seq<Action>) {
    NothingFails(round) && forall t :: HasTurn(cfg, s, round, t)
  }

  ghost predicate Rounds(cfg: EdgeConfig, s: State, rounds: seq<seq<Action>>)
    decreases |rounds|
  {
    rounds != [] ==> Turns(cfg, s, rounds[0]) && Rounds(cfg, After(cfg, s, rounds[0]), rounds[1..])
  }

  /** stop() runs, and its collector will not get stuck. */
  ghost predicate Unclogged(cfg: EdgeConfig, s: State) {
    Known(cfg, s) && Stopping(s.main) && !Clogged(cfg, s)
  }

  /** A step comes no less far, and closer if it is one of a thread with work; work of others stays. */
  ghost predicate Closer(cfg: EdgeConfig, s: State, a: Action, s': State) {
    && Announcements(s, s') >= 0
    && Distance(cfg, s') <= Distance(cfg, s) + 20 * Announcements(s, s')
    && (forall t :: HasWork(cfg, s, t) && Moves(cfg, s, a, t) ==>
          Distance(cfg, s') < Distance(cfg, s) + 20 * Announcements(s, s'))
    && (forall t :: HasWork(cfg, s, t) && !Moves(cfg, s, a, t) ==> HasWork(cfg, s', t))
  }

  lemma StopStep(cfg: EdgeConfig, s: State, a: Action)
    requires Unclogged(cfg, s) && Undisturbed(a)
    ensures var s' := Step(cfg, s, a);
            Closer(cfg, s, a, s') && (Unclogged(cfg, s') || s'.main.MIdle?)
  {
    KnownKept(cfg, s, a);
    NeverClogs(cfg, s, a);
    Directions(cfg, s, a);
    StepCloser(cfg, s, a);
    hide Known, Clogged, Closer, Step;
  }

  lemma StepCloser(cfg: EdgeConfig, s: State, a: Action)
    requires Unclogged(cfg, s) && Undisturbed(a)
    ensures Closer(cfg, s, a, Step(cfg, s, a))
  {
    hide Known, Clogged, Distance, HasWork, Spool, Send, Collect, Runtime.Main;
    match a
    case MainStep => MainCloser(cfg, s);
    case CollectorStep(choice) => CollectorCloser(cfg, s, choice);
    case SpoolerStep(now) => SpoolerCloser(cfg, s, now);
    case SenderStep(outcome, now) => SenderCloser(cfg, s, outcome, now);
    case Flush => FlushIsNeutral(cfg, s);
  }

  lemma Directions(cfg: EdgeConfig, s: State, a: Action)
    requires Unclogged(cfg, s) && Undisturbed(a)
    ensures Stopping(Step(cfg, s, a).main) || Step(cfg, s, a).main.MIdle?
  {
    hide RuntimeOutbox.Outbox;
    match a
    case CollectorStep(choice) => RuntimeOutbox.CollectorShape(cfg, s, choice);
    case SpoolerStep(now) => RuntimeOutbox.SpoolerShape(cfg, s, now);
    case SenderStep(outcome, now) => RuntimeOutbox.SenderShape(cfg, s, outcome, now);
    case _ =>
    hide Spool, Send, Collect;
  }

  lemma FlushIsNeutral(cfg: EdgeConfig, s: State)
    ensures var s' := Step(cfg, s, Flush);
            Distance(cfg, s') == Distance(cfg, s) && forall t :: HasWork(cfg, s, t) ==> HasWork(cfg, s', t)
  {}

  /** As long as stop() has not returned someone has something to do. */
  lemma SomeoneHasWork(cfg: EdgeConfig, s: State) returns (t: Thread)
    requires Unclogged(cfg, s) && cfg.queueSize > 0
    ensures HasWork(cfg, s, t)
  {
    hide RuntimeOutbox.Outbox;
    t := if HasWork(cfg, s, MainThread) then MainThread
         else if HasWork(cfg, s, Collecting) then Collecting
         else if HasWork(cfg, s, Spooling) then Spooling
         else Sending;
  }

  lemma {:induction false} AnnouncementsGrow(cfg: EdgeConfig, s: State, actions: seq<Action>)
    requires NothingFails(actions)
    ensures Announcements(s, After(cfg, s, actions)) >= 0
    decreases |actions|
  {
    if actions != [] {
      AnnouncesMore(cfg, s, actions[0]);
      hide Step;
      AnnouncementsGrow(cfg, Step(cfg, s, actions[0]), actions[1..]);
    }
  }

  lemma AnnouncesMore(cfg: EdgeConfig, s: State, a: Action)
    requires Undisturbed(a)
    ensures Announcements(s, Step(cfg, s, a)) >= 0
  {
    hide Decide, LastSequence, Reserve, InsertAll, Outgoing, Health.Observe;
  }

  /** In a stretch of steps stop() returns, or comes no less close, and closer if a thread with work gets to move. */
  lemma {:induction false} StretchStops(cfg: EdgeConfig, s: State, actions: seq<Action>)
    requires Unclogged(cfg, s) && NothingFails(actions)
    ensures var e := After(cfg, s, actions);
            Returns(cfg, s, actions)
            || (Unclogged(cfg, e)
                && Distance(cfg, e) <= Distance(cfg, s) + 20 * Announcements(s, e)
                && forall t :: HasWork(cfg, s, t) && HasTurn(cfg, s, actions, t) ==>
                     Distance(cfg, e) < Distance(cfg, s) + 20 * Announcements(s, e))
    decreases |actions|
  {
    hide Unclogged, Distance, HasWork, Moves, Step;
    if actions != [] {
      var s' := Step(cfg, s, actions[0]);
      StopStep(cfg, s, actions[0]);
      if s'.main.MIdle? {
        assert Returns(cfg, s', actions[1..]);
      } else {
        StretchStops(cfg, s', actions[1..]);
      }
    }
  }

  lemma {:induction false} ReturnsLater(cfg: EdgeConfig, s: State, xs: seq<Action>, ys: seq<Action>)
    ensures Returns(cfg, s, xs) || Returns(cfg, After(cfg, s, xs), ys) ==> Returns(cfg, s, xs + ys)
    decreases |xs|
  {
    hide Step;
    if xs == [] {
      assert xs + ys == ys;
    } else {
      assert (xs + ys)[0] == xs[0] && (xs + ys)[1..] == xs[1..] + ys;
      ReturnsLater(cfg, Step(cfg, s, xs[0]), xs[1..], ys);
    }
  }

  lemma {:induction false} RoundsStop(cfg: EdgeConfig, s: State, rounds: seq<seq<Action>>)
    requires Unclogged(cfg, s) && cfg.queueSize > 0 && Rounds(cfg, s, rounds)
    ensures var e := After(cfg, s, Flat(rounds));
            || Returns(cfg, s, Flat(rounds))
            || (Unclogged(cfg, e) && Distance(cfg, e) + |rounds| <= Distance(cfg, s) + 20 * Announcements(s, e))
    decreases |rounds|
  {
    hide Unclogged, Distance, HasWork, Step;
    if rounds != [] {
      var mid := After(cfg, s, rounds[0]);
      var t := SomeoneHasWork(cfg, s);
      StretchStops(cfg, s, rounds[0]);
      AfterAppend(cfg, s, rounds[0], Flat(rounds[1..]));
      ReturnsLater(cfg, s, rounds[0], Flat(rounds[1..]));
      if !Returns(cfg, s, rounds[0]) {
        RoundsStop(cfg, mid, rounds[1..]);
      }
    }
  }

  /** stop() returns if it can: from a reachable state in which it runs and the condition does not hold, under every
      schedule in which nothing fails and every thread gets to move in every round, as soon as there are as many
      rounds as the distance, and twenty for each transition announced meanwhile. */
  lemma StopReturns(cfg: EdgeConfig, s: State, rounds: seq<seq<Action>>)
    requires cfg.queueSize > 0 && Reachable(cfg, s) && Stopping(s.main) && !Clogged(cfg, s)
    requires Rounds(cfg, s, rounds)
    requires |rounds| >= Distance(cfg, s) + 20 * Announcements(s, After(cfg, s, Flat(rounds)))
    ensures Returns(cfg, s, Flat(rounds))
  {
    var run :| Run(cfg, run) == s;
    AlwaysKnown(cfg, run);
    RoundsStop(cfg, s, rounds);
    hide Returns, After, Known, Run;
    StillToGo(cfg, After(cfg, s, Flat(rounds)));
  }

  lemma StillToGo(cfg: EdgeConfig, s: State)
    ensures Unclogged(cfg, s) ==> Distance(cfg, s) > 0
  {}

  /** In a session that began without a sentinel in the queue and in which neither spooler nor sender failed it always
      can. */
  lemma CalmSessionReturns(cfg: EdgeConfig, s: State, rounds: seq<seq<Action>>)
    requires cfg.queueSize > 0 && Reachable(cfg, s) && Stopping(s.main) && s.calm
    requires Rounds(cfg, s, rounds)
    requires |rounds| >= Distance(cfg, s) + 20 * Announcements(s, After(cfg, s, Flat(rounds)))
    ensures Returns(cfg, s, Flat(rounds))
  {
    var run :| Run(cfg, run) == s;
    RuntimeItems.AlwaysCalm(cfg, run);
    hide Run, After, Returns, Rounds;
    CalmIsUnclogged(cfg, s);
    StopReturns(cfg, s, rounds);
  }

  lemma CalmIsUnclogged(cfg: EdgeConfig, s: State)
    requires RuntimeItems.Calm(s) && s.calm
    ensures !Clogged(cfg, s)
  {
    var q := s.shared.queue;
    if HasSentinel(q) {
      var i :| 0 <= i < |q| && q[i].None?;
    }
  }

  // ----- the condition is exact -----

  /** A walk that keeps main where it is. */
  ghost predicate WithoutMain(actions: seq<Action>) {
    forall i :: 0 <= i < |actions| ==> actions[i].SpoolerStep? || actions[i].CollectorStep?
  }

  lemma {:induction false} StaysClogged(cfg: EdgeConfig, s: State, steps: seq<Action>)
    requires Known(cfg, s) && Clogged(cfg, s)
    requires forall i :: 0 <= i < |steps| ==> steps[i].SpoolerStep?
    ensures var e := After(cfg, s, steps); Known(cfg, e) && Clogged(cfg, e) && |e.shared.queue| <= |s.shared.queue|
    decreases |steps|
  {
    if steps != [] {
      var s' := Spool(cfg, s, steps[0].now);
      assert s' == Step(cfg, s, steps[0]);
      KnownKept(cfg, s, steps[0]);
      SpoolerClogs(cfg, s, steps[0].now);
      SpoolerEffect(cfg, s, steps[0].now);
      hide Step, Spool, Known;
      StaysClogged(cfg, s', steps[1..]);
    }
  }

  /** With the spooler gone the collector comes to stand before a full queue. */
  lemma {:induction false} FillsUp(cfg: EdgeConfig, s: State) returns (steps: seq<Action>)
    requires Clogged(cfg, s) && s.spl.SOff? && s.shared.flags.stopCollector && |s.shared.queue| <= cfg.queueSize
    ensures WithoutMain(steps) && Stuck(cfg, After(cfg, s, steps))
    decreases CollectorDistance(s.col, Full(cfg, s), false)
  {
    if s.col.CCheckStop? || s.col.CSentinel? {
      steps := [];
    } else {
      var item := Collector.ReadError(Sampling.IncompleteWindow(1, 0, ""));
      var choice := if s.col.CReading? then Complete(item) else if Full(cfg, s) then GiveUp else Finish;
      var rest := FillsUp(cfg, Collect(cfg, s, choice));
      steps := [CollectorStep(choice)] + rest;
      hide Collect, Stuck;
      assert steps[1..] == rest && Step(cfg, s, steps[0]) == Collect(cfg, s, choice);
    }
  }

  /** From the condition spooler and collector alone get stuck, even if all threads move. */
  lemma GetsStuck(cfg: EdgeConfig, s: State) returns (steps: seq<Action>)
    requires Reachable(cfg, s) && Clogged(cfg, s)
    ensures WithoutMain(steps) && Stuck(cfg, After(cfg, s, steps))
  {
    var run :| Run(cfg, run) == s;
    AlwaysKnown(cfg, run);
    RuntimeItems.Always(cfg, run);
    assert |s.shared.queue| <= cfg.queueSize && !s.spl.SFailing?;
    hide Run, Reachable, After, RuntimeItems.Inv, RuntimeOutbox.Outbox;
    var first := [];
    if s.spl.SOff? {
      assert After(cfg, s, first) == s by { assert first == []; Nowhere(cfg, s); }
    } else {
      first := SentinelEndsSpooler(cfg, s);
      StaysClogged(cfg, s, first);
    }
    var last := FillsUp(cfg, After(cfg, s, first));
    AfterAppend(cfg, s, first, last);
    steps := first + last;
  }

  lemma Nowhere(cfg: EdgeConfig, s: State)
    ensures After(cfg, s, []) == s
  {}

  lemma {:induction false} StuckNeverReturns(cfg: EdgeConfig, s: State, actions: seq<Action>)
    requires Stuck(cfg, s) && NothingFails(actions)
    ensures !Returns(cfg, s, actions)
    decreases |actions|
  {
    if actions != [] {
      StuckForGood(cfg, s, actions[0]);
      hide Step;
      StuckNeverReturns(cfg, Step(cfg, s, actions[0]), actions[1..]);
    }
  }

  lemma {:induction false} WalkDoesNotReturn(cfg: EdgeConfig, s: State, xs: seq<Action>, ys: seq<Action>)
    requires WithoutMain(xs) && !s.main.MIdle? && !Returns(cfg, After(cfg, s, xs), ys)
    ensures !Returns(cfg, s, xs + ys)
    decreases |xs|
  {
    if xs == [] {
      assert xs + ys == ys;
    } else {
      var s' := Step(cfg, s, xs[0]);
      if xs[0].SpoolerStep? {
        RuntimeOutbox.SpoolerShape(cfg, s, xs[0].now);
      } else {
        RuntimeOutbox.CollectorShape(cfg, s, xs[0].choice);
      }
      assert s'.main == s.main;
      hide Step;
      assert (xs + ys)[0] == xs[0] && (xs + ys)[1..] == xs[1..] + ys;
      WalkDoesNotReturn(cfg, s', xs[1..], ys);
    }
  }

  // ----- a schedule that exists -----

  /** A round in which sends pass and the collector ends its reading. */
  function Smooth(): seq<Action> {
    [MainStep, SpoolerStep(NOW), SenderStep(Passed, NOW), CollectorStep(Finish), CollectorStep(GiveUp)]
  }

  function Repeated(n: nat): seq<seq<Action>> {
    if n == 0 then [] else [Smooth()] + Repeated(n - 1)
  }

  lemma SmoothTurns(cfg: EdgeConfig, s: State)
    ensures Turns(cfg, s, Smooth())
  {
    hide Step, Moves;
    var r := Smooth();
    var s1 := Step(cfg, s, r[0]);
    var s2 := Step(cfg, s1, r[1]);
    var s3 := Step(cfg, s2, r[2]);
    var s4 := Step(cfg, s3, r[3]);
    assert r[1..][0] == r[1] && r[1..][1..][0] == r[2] && r[1..][1..][1..][0] == r[3]
        && r[1..][1..][1..][1..][0] == r[4];
    CollectorMoves(cfg, s3);
    MovesByKind(cfg, s, s1, s2);
    forall t ensures HasTurn(cfg, s, r, t) {
      match t
      case MainThread =>
      case Spooling => assert HasTurn(cfg, s1, r[1..], t);
      case Sending => assert HasTurn(cfg, s2, r[1..][1..], t);
      case Collecting => assert HasTurn(cfg, s3, r[1..][1..][1..], t);
    }
  }

  lemma MovesByKind(cfg: EdgeConfig, s: State, s1: State, s2: State)
    ensures Moves(cfg, s, MainStep, MainThread)
    ensures Moves(cfg, s1, SpoolerStep(NOW), Spooling)
    ensures Moves(cfg, s2, SenderStep(Passed, NOW), Sending)
  {}

  lemma CollectorMoves(cfg: EdgeConfig, s: State)
    ensures Moves(cfg, s, CollectorStep(Finish), Collecting)
            || Moves(cfg, Step(cfg, s, CollectorStep(Finish)), CollectorStep(GiveUp), Collecting)
  {}

  /** Transitions that passing sends can still bring about: a recovery, and before it the loss that a refused send
      already on record announces. */
  function Heat(s: State): nat {
    (if s.life.monitor.connected then 0 else 1) + (if s.snd.NRefused? || s.snd.NFailed? then 2 else 0)
  }

  predicate Passing(a: Action) {
    Undisturbed(a) && (a.SenderStep? ==> a.outcome.Passed?)
  }

  lemma Cools(cfg: EdgeConfig, s: State, a: Action)
    requires Passing(a)
    ensures Announcements(s, Step(cfg, s, a)) + Heat(Step(cfg, s, a)) <= Heat(s)
  {
    hide Spool;
    if a.SpoolerStep? {
      SpoolerIsSilent(cfg, s, a.now);
    } else if a.CollectorStep? {
      RuntimeOutbox.CollectorShape(cfg, s, a.choice);
      hide Collect;
    }
  }

  lemma SpoolerIsSilent(cfg: EdgeConfig, s: State, now: Stamp)
    ensures var s' := Spool(cfg, s, now);
            s'.life.emitted == s.life.emitted && s'.life.monitor == s.life.monitor && s'.snd == s.snd
  {
    hide Decide, LastSequence, Reserve, InsertAll, Outgoing;
  }

  lemma {:induction false} CoolsDown(cfg: EdgeConfig, s: State, actions: seq<Action>)
    requires forall i :: 0 <= i < |actions| ==> Passing(actions[i])
    ensures Announcements(s, After(cfg, s, actions)) <= Heat(s)
    decreases |actions|
  {
    if actions != [] {
      Cools(cfg, s, actions[0]);
      hide Step, Heat;
      CoolsDown(cfg, Step(cfg, s, actions[0]), actions[1..]);
    }
  }

  lemma FirstRound(cfg: EdgeConfig, s: State, round: seq<Action>, rest: seq<seq<Action>>)
    requires Turns(cfg, s, round) && Rounds(cfg, After(cfg, s, round), rest)
    ensures Rounds(cfg, s, [round] + rest)
  {
    hide Turns, After;
    assert ([round] + rest)[1..] == rest;
  }

  lemma {:induction false} RepeatedRounds(cfg: EdgeConfig, s: State, n: nat)
    ensures |Repeated(n)| == n && Rounds(cfg, s, Repeated(n))
    decreases n
  {
    hide Turns, Smooth, After;
    if n > 0 {
      hide Rounds;
      SmoothTurns(cfg, s);
      RepeatedRounds(cfg, After(cfg, s, Smooth()), n - 1);
      FirstRound(cfg, s, Smooth(), Repeated(n - 1));
    }
  }

  lemma {:induction false} RepeatedPass(n: nat)
    ensures forall i :: 0 <= i < |Flat(Repeated(n))| ==> Passing(Flat(Repeated(n))[i])
  {
    if n > 0 {
      RepeatedPass(n - 1);
      assert forall i :: 0 <= i < |Smooth()| ==> Passing(Smooth()[i]);
      hide Smooth, Passing;
      assert Repeated(n)[0] == Smooth() && Repeated(n)[1..] == Repeated(n - 1);
      assert Flat(Repeated(n)) == Smooth() + Flat(Repeated(n - 1));
    }
  }

  lemma CanReturn(cfg: EdgeConfig, s: State) returns (more: seq<Action>)
    requires Unclogged(cfg, s) && cfg.queueSize > 0
    ensures NothingFails(more) && Returns(cfg, s, more)
  {
    var n := Distance(cfg, s) + 60;
    RepeatedRounds(cfg, s, n);
    RepeatedPass(n);
    more := Flat(Repeated(n));
    CoolsDown(cfg, s, more);
    hide Unclogged, Distance, After, Returns, Rounds, Flat;
    RoundsStop(cfg, s, Repeated(n));
    StillToGo(cfg, After(cfg, s, more));
  }

  // ----- exactly -----

  lemma CannotReturn(cfg: EdgeConfig, s: State) returns (actions: seq<Action>)
    requires Reachable(cfg, s) && Clogged(cfg, s)
    ensures NothingFails(actions)
    ensures forall more :: NothingFails(more) ==> !Returns(cfg, s, actions + more)
  {
    actions := GetsStuck(cfg, s);
    forall more | NothingFails(more) ensures !Returns(cfg, s, actions + more) {
      StuckNeverReturns(cfg, After(cfg, s, actions), more);
      WalkDoesNotReturn(cfg, s, actions, more);
    }
  }

  lemma StillReturns(cfg: EdgeConfig, s: State, actions: seq<Action>) returns (more: seq<Action>)
    requires Unclogged(cfg, s) && cfg.queueSize > 0 && NothingFails(actions)
    ensures NothingFails(more) && Returns(cfg, s, actions + more)
  {
    hide Unclogged, After, Returns;
    StretchStops(cfg, s, actions);
    if Returns(cfg, s, actions) {
      more := [];
    } else {
      more := CanReturn(cfg, After(cfg, s, actions));
    }
    ReturnsLater(cfg, s, actions, more);
  }

  /** The condition is exact. While stop() waits for the collector and neither spooler nor sender fails any more: unless
      the queue is clogged stop() can still return whatever has happened, and by StopReturns does so under every fair
      schedule; if it is clogged, there is a schedule after which no schedule whatever lets it return. */
  lemma StopReturnsIff(cfg: EdgeConfig, s: State)
    requires cfg.queueSize > 0 && Reachable(cfg, s) && s.main.MJoinCollector?
    ensures !Clogged(cfg, s) <==>
            forall actions :: NothingFails(actions) ==>
              exists more :: NothingFails(more) && Returns(cfg, s, actions + more)
  {
    hide NothingFails, Returns;
    if Clogged(cfg, s) {
      var actions := CannotReturn(cfg, s);
    } else {
      var run :| Run(cfg, run) == s;
      AlwaysKnown(cfg, run);
      forall actions | NothingFails(actions)
        ensures exists more :: NothingFails(more) && Returns(cfg, s, actions + more)
      {
        var more := StillReturns(cfg, s, actions);
      }
    }
  }
}
