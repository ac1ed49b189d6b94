/** Lossless handoff: where every completed window or read error is, over every run. */
module RuntimeItems {
  import opened Prelude
  import opened Blackbox
  import opened Pipeline
  import opened Rules
  import opened Runtime
  import RuntimeOutbox
  import Collector

  ghost predicate TagFits(items: seq<Collector.Item>, it: Tagged) {
    it.id < |items| && items[it.id] == it.item
  }

  ghost predicate HandTagFits(items: seq<Collector.Item>, spl: SpoolerPc) {
    match spl
    case SHave(it) => TagFits(items, it)
    case SReadError(it, _) => TagFits(items, it)
    case SDecided(it, _) => TagFits(items, it)
    case SNumbered(it, _, _) => TagFits(items, it)
    case SIncident(it, _, _, _) => TagFits(items, it)
    case _ => true
  }

  /** The message is made from this item and no other. */
  ghost predicate MadeFrom(m: Msg, item: Collector.Item) {
    match m
    case Telemetry(_, w, _, _) => item == Collector.Window(w)
    case Incident(_, measured, _, _, _, _) => item.Window? && item.summary.measuredAt == measured
    case SensorError(_, _, e, _) => item == Collector.ReadError(e)
    case Connection(_, _, _, _) => false
  }

  /** The items the log stands for: one per telemetry or sensor-error row. */
  function Represented(log: seq<Entered>): seq<nat> {
    if log == [] then []
    else
      var front, last := Represented(log[..|log| - 1]), log[|log| - 1];
      if last.item.Some? && !last.msg.Incident? then front + [last.item.value] else front
  }

  ghost predicate LogFits(items: seq<Collector.Item>, log: seq<Entered>) {
    forall i :: 0 <= i < |log| && log[i].item.Some? ==>
      log[i].item.value < |items| && MadeFrom(log[i].msg, items[log[i].item.value])
  }

  ghost predicate QueueFits(items: seq<Collector.Item>, q: seq<Option<Tagged>>) {
    forall i :: 0 <= i < |q| && q[i].Some? ==> TagFits(items, q[i].value)
  }

  /** Every tag ever given is exactly once in the line, dropped or lost. */
  ghost predicate Accounted(line: seq<nat>, m: Production) {
    && multiset(line) + m.dropped + m.lost == multiset(Upto(|m.items|))
    && StrictlyIncreasing(line)
    && (forall id :: id in line ==> id < |m.items|)
  }

  /** The line, from its oldest end: committed, in the spooler's hand, in the queue, in the collector's hand. */
  ghost predicate InLine(done: seq<nat>, hand: seq<nat>, queued: seq<nat>, last: seq<nat>, m: Production) {
    Accounted(done + hand + queued + last, m)
  }

  ghost predicate Lined(s: State) {
    InLine(s.made.done, SpoolerHand(s.spl), QueueIds(s.shared.queue), CollectorHand(s.col), s.made)
  }

  ghost predicate Tags(s: State) {
    && QueueFits(s.made.items, s.shared.queue)
    && HandTagFits(s.made.items, s.spl)
    && (s.col.CPut? ==> TagFits(s.made.items, s.col.it))
  }

  ghost predicate Bounded(cfg: EdgeConfig, s: State) {
    && |s.shared.queue| <= cfg.queueSize
    && |s.made.dropped| <= s.made.failures
    && |s.made.lost| <= (cfg.queueSize + 2) * s.made.crashes + cfg.queueSize * s.made.abandoned
    && (s.made.droppedNow ==> s.shared.failed || AboutToRecord(s))
  }

  /** An exception has left the collector's or the spooler's work and is on its way to being recorded. */
  predicate AboutToRecord(s: State) {
    || (s.col.CCheckStop? && s.col.failing) || (s.col.CSentinel? && s.col.failing)
    || s.col == CFailing(ToRecord) || s.spl == SFailing(ToRecord)
  }

  ghost predicate Inv(cfg: EdgeConfig, s: State) {
    && RuntimeOutbox.Lifecycle(s) && RuntimeOutbox.HandFits(s.spl)
    && Lined(s)
    && Tags(s)
    && LogFits(s.made.items, s.ledger.log)
    && s.made.done == Represented(s.ledger.log)
    && Bounded(cfg, s)
  }

  // ----- queue arithmetic -----

  lemma {:induction false} QueueIdsAppend(q: seq<Option<Tagged>>, x: Option<Tagged>)
    ensures QueueIds(q + [x]) == QueueIds(q) + if x.Some? then [x.value.id] else []
  {
    if q == [] {
      assert [x][1..] == [];
      assert q + [x] == [x];
    } else {
      var tail := q[1..] + [x];
      assert (q + [x])[1..] == tail && (q + [x])[0] == q[0];
      QueueIdsAppend(q[1..], x);
      assert QueueIds(q + [x]) == (if q[0].Some? then [q[0].value.id] else []) + QueueIds(tail);
    }
  }

  lemma {:induction false} QueueIdsShort(q: seq<Option<Tagged>>)
    ensures |QueueIds(q)| <= |q|
  {
    if q != [] { QueueIdsShort(q[1..]); }
  }

  lemma NoIds()
    ensures QueueIds([]) == []
  {}

  lemma RepresentedAppend(log: seq<Entered>, e: Entered)
    ensures Represented(log + [e]) == Represented(log) + if e.item.Some? && !e.msg.Incident? then [e.item.value] else []
  {
    assert (log + [e])[..|log|] == log;
  }

  // ----- the line moves, grows at its end, or loses items to a named cause -----

  lemma Grows(line: seq<nat>, line': seq<nat>, m: Production, m': Production)
    requires Accounted(line, m)
    requires line' == line + [|m.items|] && |m'.items| == |m.items| + 1
    requires m'.dropped == m.dropped && m'.lost == m.lost
    ensures Accounted(line', m')
  {
    var n := |m.items|;
    assert Upto(n + 1) == Upto(n) + [n];
    assert multiset(Upto(n + 1)) == multiset(Upto(n)) + multiset{n};
    assert multiset(line') == multiset(line) + multiset{n};
    forall i, j | 0 <= i < j < |line'| ensures line'[i] < line'[j] {
      if j == |line| {
        assert line'[i] in line;
      }
    }
    forall id | id in line' ensures id < |m'.items| {
      assert id in line || id == n;
    }
  }

  /** Removing the middle stretch of the line, moved to dropped or lost. */
  lemma Loses(a: seq<nat>, b: seq<nat>, c: seq<nat>, m: Production, m': Production)
    requires Accounted(a + b + c, m)
    requires |m'.items| == |m.items|
    requires m'.dropped + m'.lost == m.dropped + m.lost + multiset(b)
    ensures Accounted(a + c, m')
  {
    var line := a + b + c;
    assert multiset(line) == multiset(a) + multiset(b) + multiset(c);
    assert multiset(a + c) == multiset(a) + multiset(c);
    assert multiset(a + c) + m'.dropped + m'.lost == multiset(a) + multiset(c) + (m'.dropped + m'.lost);
    forall i, j | 0 <= i < j < |a + c| ensures (a + c)[i] < (a + c)[j] {
      var i', j' := if i < |a| then i else i + |b|, if j < |a| then j else j + |b|;
      assert line[i'] == (a + c)[i] && line[j'] == (a + c)[j];
    }
    forall id | id in a + c ensures id in line {
      assert id in a || id in c;
    }
  }

  lemma Completes(done: seq<nat>, hand: seq<nat>, q: seq<nat>, m: Production, m': Production)
    requires InLine(done, hand, q, [], m)
    requires |m'.items| == |m.items| + 1 && m'.dropped == m.dropped && m'.lost == m.lost
    ensures InLine(done, hand, q, [|m.items|], m')
  {
    var front := done + hand + q;
    assert front + [] == front;
    Grows(front, front + [|m.items|], m, m');
  }

  lemma Puts(done: seq<nat>, hand: seq<nat>, q: seq<nat>, last: seq<nat>, m: Production)
    requires InLine(done, hand, q, last, m)
    ensures InLine(done, hand, q + last, [], m)
  {
    assert done + hand + (q + last) + [] == done + hand + q + last;
  }

  lemma Takes(done: seq<nat>, first: seq<nat>, rest: seq<nat>, last: seq<nat>, m: Production)
    requires InLine(done, [], first + rest, last, m)
    ensures InLine(done, first, rest, last, m)
  {
    assert done + [] + (first + rest) + last == done + first + rest + last;
  }

  lemma Commits(done: seq<nat>, hand: seq<nat>, q: seq<nat>, last: seq<nat>, m: Production, m': Production)
    requires InLine(done, hand, q, last, m)
    requires m'.items == m.items && m'.dropped == m.dropped && m'.lost == m.lost
    ensures InLine(done + hand, [], q, last, m')
  {
    assert (done + hand) + [] + q + last == done + hand + q + last;
  }

  lemma CollectorDrops(done: seq<nat>, hand: seq<nat>, q: seq<nat>, last: seq<nat>, m: Production, m': Production)
    requires InLine(done, hand, q, last, m)
    requires m'.items == m.items && m'.dropped == m.dropped + multiset(last) && m'.lost == m.lost
    ensures InLine(done, hand, q, [], m')
  {
    assert done + hand + q + last == (done + hand + q) + last + [];
    Loses(done + hand + q, last, [], m, m');
  }

  lemma SpoolerDrops(done: seq<nat>, hand: seq<nat>, q: seq<nat>, last: seq<nat>, m: Production, m': Production)
    requires InLine(done, hand, q, last, m)
    requires m'.items == m.items && m'.dropped == m.dropped + multiset(hand) && m'.lost == m.lost
    ensures InLine(done, [], q, last, m')
  {
    assert done + hand + q + last == done + hand + (q + last);
    Loses(done, hand, q + last, m, m');
    assert done + [] + q + last == done + (q + last);
  }

  lemma AllVolatileLost(done: seq<nat>, hand: seq<nat>, q: seq<nat>, last: seq<nat>, m: Production, m': Production)
    requires InLine(done, hand, q, last, m)
    requires m'.items == m.items && m'.dropped == m.dropped && m'.lost == m.lost + multiset(hand + q + last)
    ensures InLine(done, [], [], [], m')
  {
    assert done + hand + q + last == done + (hand + q + last) + [];
    Loses(done, hand + q + last, [], m, m');
    assert done + [] + [] + [] == done + [];
  }

  lemma NoChange(done: seq<nat>, hand: seq<nat>, q: seq<nat>, last: seq<nat>, m: Production, m': Production)
    requires InLine(done, hand, q, last, m)
    requires m'.items == m.items && m'.dropped == m.dropped && m'.lost == m.lost
    ensures InLine(done, hand, q, last, m')
  {}

  // ----- the collector -----

  lemma CollectorLine(cfg: EdgeConfig, s: State, choice: CollectorChoice)
    requires Lined(s)
    ensures Lined(Collect(cfg, s, choice))
  {
    hide InLine, QueueIds, Runtime.RecordFailure;
    var s' := Collect(cfg, s, choice);
    var done, hand, q, last := s.made.done, SpoolerHand(s.spl), QueueIds(s.shared.queue), CollectorHand(s.col);
    match s.col
    case CReading =>
      if choice.Complete? {
        Completes(done, hand, q, s.made, s'.made);
      } else {
        NoChange(done, hand, q, last, s.made, s'.made) by { assert s.made.dropped + multiset([]) == s.made.dropped; }
      }
    case CPut(it) =>
      if |s.shared.queue| < cfg.queueSize {
        QueueIdsAppend(s.shared.queue, Some(it));
        Puts(done, hand, q, last, s.made);
      } else if choice.GiveUp? {
        CollectorDrops(done, hand, q, last, s.made, s'.made);
      }
    case CSentinel(_) =>
      if |s.shared.queue| < cfg.queueSize {
        QueueIdsAppend(s.shared.queue, None);
        assert q + [] == q;
      }
    case CFailing(stage) => RuntimeOutbox.RecordingShape(s.shared, stage);
    case _ =>
  }

  lemma CollectorRest(cfg: EdgeConfig, s: State, choice: CollectorChoice)
    requires Tags(s) && LogFits(s.made.items, s.ledger.log) && Bounded(cfg, s)
    ensures var s' := Collect(cfg, s, choice);
            && Tags(s') && LogFits(s'.made.items, s'.ledger.log) && Bounded(cfg, s')
            && s'.made.done == s.made.done && s'.ledger == s.ledger
  {
    CollectorTags(cfg, s, choice);
    CollectorBounded(cfg, s, choice);
  }

  lemma CollectorTags(cfg: EdgeConfig, s: State, choice: CollectorChoice)
    requires Tags(s) && LogFits(s.made.items, s.ledger.log)
    ensures var s' := Collect(cfg, s, choice);
            && Tags(s') && LogFits(s'.made.items, s'.ledger.log)
            && s'.made.done == s.made.done && s'.ledger == s.ledger
  {
    hide LogFits, HandTagFits;
    var s' := Collect(cfg, s, choice);
    if s.col.CReading? && choice.Complete? {
      MoreItems(s.made.items, s'.made.items, s);
    }
  }

  lemma CollectorBounded(cfg: EdgeConfig, s: State, choice: CollectorChoice)
    requires Bounded(cfg, s)
    ensures Bounded(cfg, Collect(cfg, s, choice))
  {}

  /** Completing an item changes nothing about the items before it. */
  lemma MoreItems(items: seq<Collector.Item>, items': seq<Collector.Item>, s: State)
    requires items <= items' && QueueFits(items, s.shared.queue) && HandTagFits(items, s.spl)
        && LogFits(items, s.ledger.log)
    ensures QueueFits(items', s.shared.queue) && HandTagFits(items', s.spl) && LogFits(items', s.ledger.log)
  {}

  // ----- the spooler -----

  /** How a step that commits nothing moves items: it takes the head of the queue or nothing. */
  lemma QuietSpoolerMoves(cfg: EdgeConfig, s: State, now: Stamp)
    requires Outgoing(s.spl, now).0 == []
    ensures var s' := Spool(cfg, s, now);
            && s'.made == s.made && s'.col == s.col && s'.ledger == s.ledger
            && (if s.spl.SGet? && s.shared.queue != [] then
                  && s'.shared.queue == s.shared.queue[1..] && SpoolerHand(s.spl) == []
                  && s'.spl == if s.shared.queue[0].None? then SOff else SHave(s.shared.queue[0].value)
                else
                  s'.shared.queue == s.shared.queue && SpoolerHand(s'.spl) == SpoolerHand(s.spl))
  {}

  lemma SpoolerLine(cfg: EdgeConfig, s: State, now: Stamp)
    requires Lined(s)
    ensures Lined(Spool(cfg, s, now))
  {
    hide InLine;
    var s' := Spool(cfg, s, now);
    var done, hand, q, last := s.made.done, SpoolerHand(s.spl), QueueIds(s.shared.queue), CollectorHand(s.col);
    var (ms, item) := Outgoing(s.spl, now);
    if ms == [] {
      QuietSpoolerMoves(cfg, s, now);
      if s.spl.SGet? && s.shared.queue != [] {
        Takes(done, SpoolerHand(s'.spl), QueueIds(s'.shared.queue), last, s.made);
      }
    } else {
      OutgoingIsHand(s.spl, now);
      assert s'.made.done == done + hand;
      Commits(done, hand, q, last, s.made, s'.made);
    }
  }

  lemma OutgoingIsHand(spl: SpoolerPc, now: Stamp)
    requires Outgoing(spl, now).0 != []
    ensures var item := Outgoing(spl, now).1;
            SpoolerHand(spl) == if item.Some? then [item.value] else []
  {}

  lemma SpoolerRest(cfg: EdgeConfig, s: State, now: Stamp)
    requires Tags(s) && Bounded(cfg, s) && Outgoing(s.spl, now).0 == []
    ensures var s' := Spool(cfg, s, now);
            Tags(s') && Bounded(cfg, s') && s'.made == s.made && s'.ledger == s.ledger
  {
    QuietSpoolerMoves(cfg, s, now);
    QuietTags(cfg, s, now);
    QuietFailure(cfg, s, now);
    hide Spool;
  }

  lemma QuietTags(cfg: EdgeConfig, s: State, now: Stamp)
    requires QueueFits(s.made.items, s.shared.queue) && HandTagFits(s.made.items, s.spl) && Outgoing(s.spl, now).0 == []
    ensures HandTagFits(s.made.items, Spool(cfg, s, now).spl)
  {
    hide Decide, LastSequence, Reserve, Runtime.RecordFailure;
  }

  lemma QuietFailure(cfg: EdgeConfig, s: State, now: Stamp)
    requires Outgoing(s.spl, now).0 == []
    ensures var s' := Spool(cfg, s, now);
            && (s.shared.failed || s.spl == SFailing(ToRecord) ==> s'.shared.failed)
            && (s'.spl == SFailing(ToRecord) ==> s.spl == SFailing(ToRecord))
  {
    hide Decide, LastSequence, Reserve;
  }

  /** What the spooler commits is made from the item in its hand, and represents it once. */
  lemma CommittedItem(s: State, now: Stamp, log': seq<Entered>)
    requires RuntimeOutbox.HandFits(s.spl) && HandTagFits(s.made.items, s.spl)
    requires LogFits(s.made.items, s.ledger.log)
    requires var (ms, item) := Outgoing(s.spl, now);
             ms != [] && log' == s.ledger.log + Logged(ms, s.ledger.txns, item)
    ensures LogFits(s.made.items, log')
    ensures var item := Outgoing(s.spl, now).1;
            Represented(log') == Represented(s.ledger.log) + if item.Some? then [item.value] else []
  {
    var log := s.ledger.log;
    var (ms, item) := Outgoing(s.spl, now);
    var es := Logged(ms, s.ledger.txns, item);
    RepresentedAppend(log, es[0]);
    if |ms| == 2 {
      RepresentedAppend(log + [es[0]], es[1]);
      assert log' == log + [es[0]] + [es[1]];
    } else {
      assert log' == log + [es[0]];
    }
  }

  lemma SpoolerKeeps(cfg: EdgeConfig, s: State, now: Stamp)
    requires Inv(cfg, s)
    ensures var s' := Spool(cfg, s, now);
            && Lined(s') && Tags(s') && LogFits(s'.made.items, s'.ledger.log)
            && s'.made.done == Represented(s'.ledger.log) && Bounded(cfg, s')
  {
    hide InLine, RuntimeOutbox.Lifecycle, Outgoing, QueueIds, LogFits, Represented;
    SpoolerLine(cfg, s, now);
    if Outgoing(s.spl, now).0 == [] {
      hide Spool;
      SpoolerRest(cfg, s, now);
    } else {
      CommitRest(cfg, s, now);
      hide Spool;
      CommittedItem(s, now, Spool(cfg, s, now).ledger.log);
    }
  }

  lemma CommitRest(cfg: EdgeConfig, s: State, now: Stamp)
    requires Tags(s) && Bounded(cfg, s) && Outgoing(s.spl, now).0 != []
    ensures var s' := Spool(cfg, s, now);
            var (ms, item) := Outgoing(s.spl, now);
            && Tags(s') && Bounded(cfg, s') && s'.made.items == s.made.items
            && s'.ledger.log == s.ledger.log + Logged(ms, s.ledger.txns, item)
            && s'.made.done == s.made.done + if item.Some? then [item.value] else []
  {
    hide InsertAll;
  }

  // ----- failures and crashes -----

  lemma SpoolerFailureKeeps(cfg: EdgeConfig, s: State)
    requires Lined(s) && Tags(s) && Bounded(cfg, s)
    ensures var s' := SpoolerFailure(s);
            && Lined(s') && Tags(s') && Bounded(cfg, s')
            && s'.made.items == s.made.items && s'.made.done == s.made.done && s'.ledger.log == s.ledger.log
  {
    hide InLine;
    var s' := SpoolerFailure(s);
    if !s.spl.SOff? && !s.spl.SFailing? {
      SpoolerDrops(s.made.done, SpoolerHand(s.spl), QueueIds(s.shared.queue), CollectorHand(s.col), s.made, s'.made);
      assert |s'.made.dropped| == |s.made.dropped| + |SpoolerHand(s.spl)|;
    }
  }

  lemma CrashKeeps(cfg: EdgeConfig, s: State)
    requires Lined(s) && Bounded(cfg, s)
    ensures var s' := CrashAndRebuild(s);
            && Lined(s') && Tags(s') && Bounded(cfg, s')
            && s'.made.items == s.made.items && s'.made.done == s.made.done && s'.ledger.log == s.ledger.log
  {
    hide InLine;
    var s' := CrashAndRebuild(s);
    AllVolatileLost(s.made.done, SpoolerHand(s.spl), QueueIds(s.shared.queue), CollectorHand(s.col), s.made, s'.made);
    VolatileShort(cfg, s);
    assert |s'.made.lost| == |s.made.lost| + |Volatile(s)|;
    Distribute(cfg.queueSize + 2, s.made.crashes);
  }

  /** A process that ends in order can lose only what a failed session left in the queue. */
  lemma RebuildKeeps(cfg: EdgeConfig, s: State)
    requires RuntimeOutbox.Lifecycle(s) && Lined(s) && Tags(s) && Bounded(cfg, s)
    ensures var s' := EndAndRebuild(s);
            && Lined(s') && Tags(s') && Bounded(cfg, s')
            && s'.made.items == s.made.items && s'.made.done == s.made.done && s'.ledger.log == s.ledger.log
  {
    hide InLine, QueueIds;
    NoIds();
    var s' := EndAndRebuild(s);
    if s.main.MIdle? {
      AllVolatileLost(s.made.done, SpoolerHand(s.spl), QueueIds(s.shared.queue), CollectorHand(s.col), s.made, s'.made);
      QueueIdsShort(s.shared.queue);
      assert |s'.made.lost| == |s.made.lost| + |Volatile(s)|;
      Distribute(cfg.queueSize, s.made.abandoned);
    }
  }

  lemma VolatileShort(cfg: EdgeConfig, s: State)
    requires |s.shared.queue| <= cfg.queueSize
    ensures |Volatile(s)| <= cfg.queueSize + 2
  {
    QueueIdsShort(s.shared.queue);
  }

  lemma OthersKeep(cfg: EdgeConfig, s: State, a: Action)
    requires RuntimeOutbox.Lifecycle(s) && Lined(s) && Tags(s) && Bounded(cfg, s)
    requires a.MainStep? || a.SenderStep? || a.Flush? || a.SenderFails?
    ensures var s' := Step(cfg, s, a);
            && Lined(s') && Tags(s') && Bounded(cfg, s')
            && s'.made == s.made && s'.ledger.log == s.ledger.log
  {
    hide InLine;
    if a.MainStep? {
      RuntimeOutbox.MainShape(s);
    } else if a.SenderStep? {
      SenderLeavesItems(cfg, s, a.outcome, a.now);
    }
  }

  lemma SenderLeavesItems(cfg: EdgeConfig, s: State, outcome: SendOutcome, now: Stamp)
    ensures var s' := Send(cfg, s, outcome, now);
            && s'.spl == s.spl && s'.col == s.col && s'.made == s.made && s'.ledger.log == s.ledger.log
            && s'.shared.queue == s.shared.queue && (s.shared.failed ==> s'.shared.failed)
  {}

  lemma StepKeeps(cfg: EdgeConfig, s: State, a: Action)
    requires RuntimeOutbox.Inv(cfg, s) && Inv(cfg, s)
    ensures Inv(cfg, Step(cfg, s, a))
  {
    RuntimeOutbox.StepKeeps(cfg, s, a);
    hide Spool, Send, Collect, Main, RuntimeOutbox.Mirrors, RuntimeOutbox.InOrder, RuntimeOutbox.Sequenced,
        RuntimeOutbox.BatchFits;
    hide InLine, LogFits, QueueFits, Represented;
    match a
    case CollectorStep(choice) =>
      CollectorLine(cfg, s, choice);
      CollectorRest(cfg, s, choice);
    case SpoolerStep(now) => SpoolerKeeps(cfg, s, now);
    case SpoolerFails => SpoolerFailureKeeps(cfg, s);
    case Rebuild => RebuildKeeps(cfg, s);
    case Crash => CrashKeeps(cfg, s);
    case _ => OthersKeep(cfg, s, a);
  }

  lemma InitialKeeps(cfg: EdgeConfig)
    ensures Inv(cfg, Initial())
  {
    assert multiset([]) + multiset{} + multiset{} == multiset(Upto(0));
  }

  lemma {:induction false} Always(cfg: EdgeConfig, actions: seq<Action>)
    ensures RuntimeOutbox.Inv(cfg, Run(cfg, actions)) && Inv(cfg, Run(cfg, actions))
  {
    RuntimeOutbox.Always(cfg, actions);
    hide Inv, RuntimeOutbox.Inv, Step, Initial;
    if actions == [] {
      InitialKeeps(cfg);
    } else {
      Always(cfg, actions[..|actions| - 1]);
      StepKeeps(cfg, Run(cfg, actions[..|actions| - 1]), actions[|actions| - 1]);
    }
  }

  // ----- what this means for a run -----

  /** Every window or read error ever completed is in exactly one place: committed, in a hand, in the
      queue, dropped by a worker that failed, or lost with a process. Those not dropped or lost keep their
      order; each failure drops at most one item, each crash loses at most queueSize + 2, and a process
      that ends in order loses something only if it ends with items left in its queue. */
  lemma EveryItemAccountedFor(cfg: EdgeConfig, actions: seq<Action>)
    ensures var s := Run(cfg, actions);
            var m := s.made;
            && multiset(m.done) + multiset(Volatile(s)) + m.dropped + m.lost == multiset(Upto(|m.items|))
            && StrictlyIncreasing(m.done + Volatile(s))
            && |m.dropped| <= m.failures
            && (m.droppedNow ==> s.shared.failed || AboutToRecord(s))
            && |m.lost| <= (cfg.queueSize + 2) * m.crashes + cfg.queueSize * m.abandoned
  {
    hide InLine, QueueIds, Run;
    LinedAndBounded(cfg, actions);
    var s := Run(cfg, actions);
    InLineMeans(s.made.done, SpoolerHand(s.spl), QueueIds(s.shared.queue), CollectorHand(s.col), s.made);
  }

  lemma LinedAndBounded(cfg: EdgeConfig, actions: seq<Action>)
    ensures Lined(Run(cfg, actions)) && Bounded(cfg, Run(cfg, actions))
  {
    hide InLine, QueueIds;
    Always(cfg, actions);
  }

  lemma InLineMeans(done: seq<nat>, hand: seq<nat>, q: seq<nat>, last: seq<nat>, m: Production)
    requires InLine(done, hand, q, last, m)
    ensures multiset(done) + multiset(hand + q + last) + m.dropped + m.lost == multiset(Upto(|m.items|))
    ensures StrictlyIncreasing(done + (hand + q + last))
  {
    assert done + hand + q + last == done + (hand + q + last);
    assert multiset(done + (hand + q + last)) == multiset(done) + multiset(hand + q + last);
  }

  /** The telemetry and sensor-error rows of the log stand for the committed items, one row each in
      order of completion, and every row carries its own item's content. */
  lemma LogRepresentsItems(cfg: EdgeConfig, actions: seq<Action>)
    ensures var s := Run(cfg, actions);
            var log, items := s.ledger.log, s.made.items;
            && Represented(log) == s.made.done && StrictlyIncreasing(s.made.done)
            && (forall i :: 0 <= i < |log| && log[i].item.Some? ==>
                  log[i].item.value < |items| && MadeFrom(log[i].msg, items[log[i].item.value]))
  {
    Always(cfg, actions);
    EveryItemAccountedFor(cfg, actions);
    var s := Run(cfg, actions);
    forall i, j | 0 <= i < j < |s.made.done| ensures s.made.done[i] < s.made.done[j] {
      assert (s.made.done + Volatile(s))[i] < (s.made.done + Volatile(s))[j];
    }
  }

  // ----- when the spooler has ended -----

  /** start() has begun and the spooler is not up yet. */
  predicate Starting(main: MainPc) {
    main.MCheckBacklog? || main.MSetDrain? || main.MStartSpooler?
  }

  /** The collector will put nothing any more. */
  predicate CollectorEnded(col: CollectorPc) {
    col.COff? || col.CFailing?
  }

  ghost predicate SentinelLast(s: State) {
    forall i :: 0 <= i < |s.shared.queue| && s.shared.queue[i].None? ==>
      i == |s.shared.queue| - 1 && CollectorEnded(s.col) && !Starting(s.main) && !s.main.MStartCollector?
  }

  /** In a calm session the sentinel is the last thing ever queued, the spooler is told to stop only after
      the collector ended, and a spooler that ended has emptied the queue. */
  ghost predicate Orderly(s: State) {
    && SentinelLast(s)
    && !s.spl.SFailing? && !s.snd.NFailing?
    && (s.shared.flags.stopSpooler ==> CollectorEnded(s.col) && !Starting(s.main) && !s.main.MStartCollector?)
    && (s.main.MStartCollector? ==> !s.spl.SOff?)
    && (s.spl.SOff? && !Starting(s.main) ==> s.shared.queue == [] && CollectorEnded(s.col))
  }

  /** As long as no failure is recorded or about to be, every session is calm and starts with an empty queue. */
  ghost predicate Untroubled(s: State) {
    || s.shared.failed || s.spl == SFailing(ToRecord) || s.snd == NFailing(ToRecord)
    || (s.calm && (Starting(s.main) ==> s.shared.queue == []))
  }

  ghost predicate Calm(s: State) {
    (s.calm ==> Orderly(s)) && Untroubled(s)
  }

  lemma MainCalm(s: State)
    requires RuntimeOutbox.Lifecycle(s) && Calm(s)
    ensures Calm(Main(s))
  {}

  lemma CollectorCalm(cfg: EdgeConfig, s: State, choice: CollectorChoice)
    requires RuntimeOutbox.Lifecycle(s) && Calm(s)
    ensures Calm(Collect(cfg, s, choice))
  {
    var s' := Collect(cfg, s, choice);
    if s'.shared.queue != s.shared.queue {
      assert s'.shared.queue == s.shared.queue + [if s.col.CPut? then Some(s.col.it) else None];
    }
  }

  lemma SpoolerCalm(cfg: EdgeConfig, s: State, now: Stamp)
    requires RuntimeOutbox.Lifecycle(s) && Calm(s)
    ensures Calm(Spool(cfg, s, now))
  {
    if Outgoing(s.spl, now).0 == [] {
      QuietSpoolerMoves(cfg, s, now);
    }
  }

  lemma SenderCalm(cfg: EdgeConfig, s: State, outcome: SendOutcome, now: Stamp)
    requires Calm(s)
    ensures Calm(Send(cfg, s, outcome, now))
  {
    SenderLeavesItems(cfg, s, outcome, now);
    SenderLeavesStops(cfg, s, outcome, now);
  }

  lemma SenderLeavesStops(cfg: EdgeConfig, s: State, outcome: SendOutcome, now: Stamp)
    ensures var s' := Send(cfg, s, outcome, now);
            && s'.main == s.main && s'.calm == s.calm && (s.snd.NFailing? || !s'.snd.NFailing?)
            && (s.snd.NFailing? ==> s'.shared.failed || s.snd.stage != ToRecord)
            && (s.shared.failed ==> s'.shared.failed)
            && (s.snd.NFailing? || (s'.shared.failed == s.shared.failed
                                    && s'.shared.flags.stopSpooler == s.shared.flags.stopSpooler))
            && (s.snd.NFailing? && !s'.snd.NFailing? ==> s'.snd.NOff?)
  {}

  lemma CalmKept(cfg: EdgeConfig, s: State, a: Action)
    requires RuntimeOutbox.Lifecycle(s) && Calm(s)
    ensures Calm(Step(cfg, s, a))
  {
    match a
    case MainStep => MainCalm(s);
    case CollectorStep(choice) => CollectorCalm(cfg, s, choice);
    case SpoolerStep(now) => SpoolerCalm(cfg, s, now);
    case SenderStep(outcome, now) => SenderCalm(cfg, s, outcome, now);
    case _ =>
  }

  lemma {:induction false} AlwaysCalm(cfg: EdgeConfig, actions: seq<Action>)
    ensures Calm(Run(cfg, actions))
  {
    if actions != [] {
      var front, a := actions[..|actions| - 1], actions[|actions| - 1];
      AlwaysCalm(cfg, front);
      RuntimeOutbox.Always(cfg, front);
      CalmKept(cfg, Run(cfg, front), a);
    }
  }

  /** A spooler that has ended, by the sentinel or by stop(), has committed everything put before: nothing is
      left in memory, and every item not lost with an earlier process is committed or was dropped by a worker
      that failed. This holds in every session that is calm, whatever the collector does: one that gives up an
      item on a full queue still queues its sentinel, and only its own item is missing. And as long as no
      failure is recorded or about to be, every session is calm. */
  lemma EndedSpoolerCommittedEverything(cfg: EdgeConfig, actions: seq<Action>)
    ensures var s := Run(cfg, actions);
            && (!s.shared.failed && s.spl != SFailing(ToRecord) && s.snd != NFailing(ToRecord) ==> s.calm)
            && (s.calm && s.spl.SOff? && !Starting(s.main) ==>
                  && Volatile(s) == []
                  && multiset(s.made.done) + s.made.dropped + s.made.lost == multiset(Upto(|s.made.items|))
                  && (s.made.failures == 0 && s.made.lost == multiset{} ==> s.made.done == Upto(|s.made.items|)))
            && (!s.shared.failed && !AboutToRecord(s) && s.snd != NFailing(ToRecord) ==>
                  !s.made.droppedNow && (s.spl.SOff? ==> Volatile(s) == []))
  {
    hide InLine, QueueIds;
    Always(cfg, actions);
    AlwaysCalm(cfg, actions);
    EveryItemAccountedFor(cfg, actions);
    var s := Run(cfg, actions);
    if s.calm && s.spl.SOff? && !Starting(s.main) {
      NothingVolatile(s);
      CommittedEverything(s.made);
    } else if s.calm && s.spl.SOff? && s.shared.queue == [] {
      NothingVolatile(s);
    }
  }

  lemma NothingVolatile(s: State)
    requires RuntimeOutbox.Lifecycle(s) && s.calm && Orderly(s) && s.spl.SOff?
        && (Starting(s.main) ==> s.shared.queue == [])
    ensures Volatile(s) == []
  {}

  lemma CommittedEverything(m: Production)
    requires multiset(m.done) + multiset([]) + m.dropped + m.lost == multiset(Upto(|m.items|))
    requires StrictlyIncreasing(m.done + []) && |m.dropped| <= m.failures
    ensures multiset(m.done) + m.dropped + m.lost == multiset(Upto(|m.items|))
    ensures m.failures == 0 && m.lost == multiset{} ==> m.done == Upto(|m.items|)
  {
    assert m.done + [] == m.done;
    assert multiset(m.done) + multiset([]) == multiset(m.done);
    if m.failures == 0 && m.lost == multiset{} {
      assert m.dropped == multiset{};
      SortedIsUpto(m.done, |m.items|);
    }
  }

  /** The only increasing arrangement of 0..n-1 is 0..n-1. */
  lemma {:induction false} SortedIsUpto(xs: seq<nat>, n: nat)
    requires StrictlyIncreasing(xs) && multiset(xs) == multiset(Upto(n))
    ensures xs == Upto(n)
  {
    assert |multiset(xs)| == |xs| && |multiset(Upto(n))| == n;
    if n > 0 {
      var last: nat := n - 1;
      assert Upto(n) == Upto(last) + [last];
      assert last in multiset(Upto(n));
      assert last in xs;
      assert xs[n - 1] in multiset(Upto(n));
      assert xs[n - 1] <= last;
      assert forall i :: 0 <= i < last ==> xs[i] < xs[last];
      assert xs[n - 1] == last;
      assert xs == xs[..last] + [last];
      assert multiset(xs) == multiset(xs[..last]) + multiset{last};
      assert multiset(Upto(n)) == multiset(Upto(last)) + multiset{last};
      Cancel(multiset(xs[..last]), multiset(Upto(last)), last);
      SortedIsUpto(xs[..last], last);
    }
  }

  lemma Cancel(a: multiset<nat>, b: multiset<nat>, x: nat)
    requires a + multiset{x} == b + multiset{x}
    ensures a == b
  {
    assert a == a + multiset{x} - multiset{x};
    assert b == b + multiset{x} - multiset{x};
  }
}
