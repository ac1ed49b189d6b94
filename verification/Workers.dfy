/** The bodies of the spooler's and the sender's loops in edge/edge_monitor/runtime.py as the source
    writes them, with the objects updated in place, for a stretch in which no other thread intervenes.
    The transition system of module Runtime cuts the same work into its atomic steps; the lemmas at
    the end say that without interference both arrive at the same tables. */
module Workers {
  import opened Prelude
  import opened Message
  import opened Sampling
  import opened Rules
  import opened Blackbox
  import opened Pipeline
  import Collector
  import Health
  import Runtime
  import RuntimeOutbox

  // ----- one pass of the sender over the outbox -----

  /** The outbox, the results the transport is about to give, and everything the pass updates. */
  datatype Pass<P> = Pass(
    rows: seq<Row<P>>, outcomes: seq<Runtime.SendOutcome>, delivered: seq<P>,
    monitor: Health.Monitor, waiting: seq<Runtime.Pending>, backoff: real, failed: bool)

  function NextOutcome(outcomes: seq<Runtime.SendOutcome>): Runtime.SendOutcome {
    if outcomes == [] then Runtime.Passed else outcomes[0]
  }

  function Rest<T>(xs: seq<T>): seq<T> {
    if xs == [] then [] else xs[1..]
  }

  function Announce(t: Option<Health.Transition>, now: Stamp): seq<Runtime.Pending> {
    if t.Some? then [Runtime.Pending.Pending(t.value, now)] else []
  }

  /** The head of the outbox is sent: acknowledged if that went well, otherwise marked and the pass over. */
  function SendHead<P>(limits: Health.Limits, p: Pass<P>, now: Stamp): Pass<P>
    requires p.rows != []
  {
    var row, outcome := p.rows[0], NextOutcome(p.outcomes);
    var (m, t) := Health.Observe(limits, p.monitor, outcome.Passed?);
    Pass(
      if outcome.Passed? then p.rows[1..] else Bumped(p.rows, row.id),
      Rest(p.outcomes),
      if outcome.RefusedBefore? then p.delivered else p.delivered + [row.entry.payload],
      m, p.waiting + Announce(t, now),
      if outcome.Passed? then 1.0 else Runtime.DoubleBackoff(p.backoff),
      !outcome.Passed?)
  }

  /** Row after row until the outbox is empty or a send fails; batches play no part in it. */
  function SendAll<P>(limits: Health.Limits, p: Pass<P>, now: Stamp): Pass<P>
    decreases if p.failed then 0 else |p.rows| + 1
  {
    if p.rows == [] || p.failed then p else SendAll(limits, SendHead(limits, p, now), now)
  }

  function Payloads<P>(rows: seq<Row<P>>): (ps: seq<P>)
    ensures |ps| == |rows| && forall i :: 0 <= i < |rows| ==> ps[i] == rows[i].entry.payload
  {
    seq(|rows|, i requires 0 <= i < |rows| => rows[i].entry.payload)
  }

  /** The results that a pass with k accepted sends reports to the health monitor. */
  function Results(k: nat, failed: bool): (r: seq<bool>)
    ensures |r| == k + if failed then 1 else 0
  {
    seq(k, _ => true) + if failed then [false] else []
  }

  /** The number of rows accepted before the first that is not. */
  function AcceptedFirst(n: nat, outcomes: seq<Runtime.SendOutcome>): (k: nat)
    ensures k <= n
    ensures forall i :: 0 <= i < k && i < |outcomes| ==> outcomes[i].Passed?
    ensures k < n ==> k < |outcomes| && !outcomes[k].Passed?
  {
    if n == 0 || !NextOutcome(outcomes).Passed? then 0 else 1 + AcceptedFirst(n - 1, Rest(outcomes))
  }

  /** Exactly the first k rows leave the outbox, in order; a refused row stays at the head with one more
      attempt, and everything behind it is untouched. */
  ghost predicate RowsLeft<P>(p: Pass<P>, q: Pass<P>, k: nat)
    requires k <= |p.rows|
  {
    && q.failed == (k < |p.rows|)
    && |q.rows| == |p.rows| - k
    && (forall i :: 0 < i < |q.rows| ==> q.rows[i] == p.rows[k + i])
    && (q.failed ==> q.rows[0] == p.rows[k].(attempts := p.rows[k].attempts + 1))
  }

  /** The transport has the payloads of these k rows, and that of the refused one if it was passed on. */
  ghost predicate Sent<P>(p: Pass<P>, q: Pass<P>, k: nat)
    requires k <= |p.rows| && (k < |p.rows| ==> k < |p.outcomes|)
  {
    q.delivered == p.delivered + Payloads(p.rows[..k])
                   + (if k < |p.rows| && p.outcomes[k].RefusedAfter? then [p.rows[k].entry.payload] else [])
  }

  function BackoffAfter(before: real, k: nat, failed: bool): real {
    var b := if k == 0 then before else 1.0;
    if failed then Runtime.DoubleBackoff(b) else b
  }

  lemma HeadRefused<P>(limits: Health.Limits, p: Pass<P>, now: Stamp)
    requires p.rows != [] && !NextOutcome(p.outcomes).Passed?
    requires forall i, j :: 0 <= i < j < |p.rows| ==> p.rows[i].id < p.rows[j].id
    ensures var q := SendHead(limits, p, now);
            RowsLeft(p, q, 0) && Sent(p, q, 0) && q.backoff == BackoffAfter(p.backoff, 0, true)
  {
    assert p.delivered + Payloads(p.rows[..0]) == p.delivered;
    assert p.delivered + [] == p.delivered;
  }

  lemma HeadAccepted<P>(limits: Health.Limits, p: Pass<P>, now: Stamp, q: Pass<P>, k: nat)
    requires p.rows != [] && NextOutcome(p.outcomes).Passed? && 1 <= k <= |p.rows|
        && (k < |p.rows| ==> k < |p.outcomes|)
    requires var p' := SendHead(limits, p, now);
             RowsLeft(p', q, k - 1) && Sent(p', q, k - 1)
    ensures RowsLeft(p, q, k) && Sent(p, q, k)
  {
    var p' := SendHead(limits, p, now);
    assert Payloads(p.rows[..k]) == [p.rows[0].entry.payload] + Payloads(p'.rows[..k - 1]);
    assert p'.delivered + Payloads(p'.rows[..k - 1]) == p.delivered + Payloads(p.rows[..k]);
  }

  lemma HeadShape<P>(limits: Health.Limits, p: Pass<P>, now: Stamp)
    requires p.rows != []
    ensures var p' := SendHead(limits, p, now);
            && p'.failed == !NextOutcome(p.outcomes).Passed? && p'.outcomes == Rest(p.outcomes)
            && p'.monitor == Health.Observe(limits, p.monitor, !p'.failed).0
            && (p'.failed ==> p'.backoff == Runtime.DoubleBackoff(p.backoff))
            && (!p'.failed ==> p'.rows == p.rows[1..] && p'.backoff == 1.0)
  {}

  lemma {:induction false} PassMovesRows<P>(limits: Health.Limits, p: Pass<P>, now: Stamp)
    requires !p.failed && forall i, j :: 0 <= i < j < |p.rows| ==> p.rows[i].id < p.rows[j].id
    ensures var k, q := AcceptedFirst(|p.rows|, p.outcomes), SendAll(limits, p, now);
            RowsLeft(p, q, k) && Sent(p, q, k)
    decreases |p.rows|
  {
    hide RowsLeft, Sent, SendHead, Health.Observe;
    if p.rows == [] {
      NothingToSend(p);
    } else {
      HeadShape(limits, p, now);
      var p' := SendHead(limits, p, now);
      if p'.failed {
        HeadRefused(limits, p, now);
      } else {
        PassMovesRows(limits, p', now);
        HeadAccepted(limits, p, now, SendAll(limits, p, now), AcceptedFirst(|p.rows|, p.outcomes));
      }
    }
  }

  lemma ResultsOneMore(history: seq<bool>, k: nat, failed: bool)
    ensures history + Results(0, false) == history && Results(0, true) == [false]
    ensures history + [true] + Results(k, failed) == history + Results(k + 1, failed)
  {}

  lemma {:induction false} PassReports<P>(limits: Health.Limits, p: Pass<P>, now: Stamp, initial: bool,
                                          history: seq<bool>)
    requires !p.failed && p.monitor == Health.Run(limits, initial, history).0
    ensures var k, q := AcceptedFirst(|p.rows|, p.outcomes), SendAll(limits, p, now);
            q.monitor == Health.Run(limits, initial, history + Results(k, k < |p.rows|)).0
    decreases |p.rows|
  {
    hide SendHead, Health.Run, Health.Observe, Results;
    var k := AcceptedFirst(|p.rows|, p.outcomes);
    ResultsOneMore(history, if k > 0 then k - 1 else 0, k < |p.rows|);
    if p.rows != [] {
      HeadShape(limits, p, now);
      var p' := SendHead(limits, p, now);
      OneMoreResult(limits, initial, history, !p'.failed);
      if !p'.failed {
        PassReports(limits, p', now, initial, history + [true]);
      }
    }
  }

  lemma {:induction false} PassBacksOff<P>(limits: Health.Limits, p: Pass<P>, now: Stamp)
    requires !p.failed
    ensures var k, q := AcceptedFirst(|p.rows|, p.outcomes), SendAll(limits, p, now);
            q.failed == (k < |p.rows|) && q.backoff == BackoffAfter(p.backoff, k, q.failed)
    decreases |p.rows|
  {
    hide SendHead, Health.Observe, Runtime.DoubleBackoff;
    if p.rows != [] {
      HeadShape(limits, p, now);
      var p' := SendHead(limits, p, now);
      if !p'.failed {
        PassBacksOff(limits, p', now);
      }
    }
  }

  /** What one pass comes to, with k the number of rows accepted before the first refusal. The monitor has
      seen k successes and at most one failure. */
  lemma PassExact<P>(limits: Health.Limits, p: Pass<P>, now: Stamp, initial: bool, history: seq<bool>)
    requires !p.failed && p.monitor == Health.Run(limits, initial, history).0
    requires forall i, j :: 0 <= i < j < |p.rows| ==> p.rows[i].id < p.rows[j].id
    ensures var k, q := AcceptedFirst(|p.rows|, p.outcomes), SendAll(limits, p, now);
            && RowsLeft(p, q, k) && Sent(p, q, k)
            && q.monitor == Health.Run(limits, initial, history + Results(k, q.failed)).0
            && q.backoff == BackoffAfter(p.backoff, k, q.failed)
  {
    PassMovesRows(limits, p, now);
    PassReports(limits, p, now, initial, history);
    PassBacksOff(limits, p, now);
  }

  lemma NothingToSend<P>(p: Pass<P>)
    requires p.rows == [] && !p.failed
    ensures RowsLeft(p, p, 0) && Sent(p, p, 0)
  {
    assert p.delivered + Payloads(p.rows[..0]) + [] == p.delivered;
  }

  lemma OneMoreResult(limits: Health.Limits, initial: bool, history: seq<bool>, success: bool)
    ensures Health.Run(limits, initial, history + [success]).0
         == Health.Observe(limits, Health.Run(limits, initial, history).0, success).0
  {
    assert (history + [success])[..|history|] == history;
  }

  // ----- what the spooler puts into the tables -----

  function WireEntries(lib: Library, cfg: EdgeConfig, ms: seq<Msg>): (es: seq<Entry<Payload>>)
    ensures |es| == |ms| && forall i :: 0 <= i < |ms| ==> es[i] == EntryOf(cfg, ms[i], Wire(lib, cfg, ms[i]))
  {
    seq(|ms|, i requires 0 <= i < |ms| => EntryOf(cfg, ms[i], Wire(lib, cfg, ms[i])))
  }

  function Typed(lib: Library, cfg: EdgeConfig, ms: seq<Msg>): (ps: seq<(string, Payload)>)
    ensures |ps| == |ms| && forall i :: 0 <= i < |ms| ==> ps[i] == (KindName(KindOf(ms[i])), Wire(lib, cfg, ms[i]))
  {
    seq(|ms|, i requires 0 <= i < |ms| => (KindName(KindOf(ms[i])), Wire(lib, cfg, ms[i])))
  }

  lemma {:induction false} WiresArePrepared(lib: Library, cfg: EdgeConfig, ms: seq<Msg>)
    requires cfg.Valid() && forall i :: 0 <= i < |ms| ==> Writable(ms[i])
    ensures PrepareAll(lib, Typed(lib, cfg, ms)) == Ok(WireEntries(lib, cfg, ms))
  {
    hide Prepare, Wire, Arrives, KindName, KindOf;
    if ms == [] {
      assert WireEntries(lib, cfg, ms) == [];
    } else {
      var front := ms[..|ms| - 1];
      WiresArePrepared(lib, cfg, front);
      WireIsAccepted(lib, cfg, ms[|ms| - 1]);
      assert Typed(lib, cfg, ms)[..|ms| - 1] == Typed(lib, cfg, front);
      assert WireEntries(lib, cfg, ms)
          == WireEntries(lib, cfg, front) + [EntryOf(cfg, ms[|ms| - 1], Wire(lib, cfg, ms[|ms| - 1]))];
    }
  }

  /** The messages one item becomes, numbered from the next free number. */
  function ItemMessages(t: Thresholds, previous: Status, first: nat, item: Collector.Item, now: Stamp): seq<Msg> {
    match item
    case Window(w) => WindowMessages(first, w, Decide(t, previous, w), now)
    case ReadError(e) => [SensorError(first, now, e, now)]
  }

  lemma RisesAreWritable(t: Thresholds, previous: Status, first: nat, w: WindowSummary, now: Stamp)
    ensures var ms := WindowMessages(first, w, Decide(t, previous, w), now);
            forall i :: 0 <= i < |ms| ==> Writable(ms[i])
  {}

  lemma {:induction false} ReserveKeepsOrder<P>(box: Box<P>, deviceId: string, n: nat)
    requires Ordered(box)
    ensures Ordered(ReserveMany(box, deviceId, n))
  {
    if n > 0 {
      ReserveKeepsOrder(box, deviceId, n - 1);
    }
  }

  lemma InsertOnly<P>(box: Box<P>, es: seq<Entry<P>>)
    requires |es| == 1
    ensures InsertAll(box, es) == Insert(box, es[0])
  {
    assert es[..0] == [];
  }

  /** The connection events of the waiting transitions, numbered in order. */
  function ConnectionMessages(first: nat, waiting: seq<Runtime.Pending>, now: Stamp): (ms: seq<Msg>)
    ensures |ms| == |waiting|
    ensures forall i :: 0 <= i < |ms| ==>
        ms[i] == Connection(first + i, waiting[i].measuredAt, waiting[i].transition, now)
  {
    seq(|waiting|, i requires 0 <= i < |waiting| =>
      Connection(first + i, waiting[i].measuredAt, waiting[i].transition, now))
  }

  /** One reservation and one insert for each entry in turn. */
  function ReserveAndInsert<P>(box: Box<P>, deviceId: string, es: seq<Entry<P>>): Box<P> {
    if es == [] then box
    else Insert(Reserve(ReserveAndInsert(box, deviceId, es[..|es| - 1]), deviceId), es[|es| - 1])
  }

  /** Deleting the head, or marking it, leaves the table in order. */
  lemma HeadKeepsOrder<P>(box: Box<P>)
    requires Ordered(box) && box.rows != []
    ensures Without(box.rows, box.rows[0].id) == box.rows[1..]
    ensures Ordered(box.(rows := box.rows[1..]))
  {
    HeadRemoved(box.rows);
  }

  lemma HeadRemoved<P>(rows: seq<Row<P>>)
    requires rows != [] && forall i, j :: 0 <= i < j < |rows| ==> rows[i].id < rows[j].id
    ensures Without(rows, rows[0].id) == rows[1..]
  {
    WithoutExact(rows, rows[0].id, 0);
    assert rows[..0] + rows[1..] == rows[1..];
  }

  lemma MarkKeepsOrder<P>(box: Box<P>, id: nat)
    requires Ordered(box)
    ensures Ordered(box.(rows := Bumped(box.rows, id)))
  {}

  lemma NoEntries<P>(box: Box<P>, deviceId: string, es: seq<Entry<P>>)
    ensures ReserveAndInsert(box, deviceId, es[..0]) == box
  {}

  lemma OneMoreEntry<P>(box: Box<P>, deviceId: string, es: seq<Entry<P>>, i: nat)
    requires i < |es|
    ensures ReserveAndInsert(box, deviceId, es[..i + 1])
        == Insert(Reserve(ReserveAndInsert(box, deviceId, es[..i]), deviceId), es[i])
  {
    assert es[..i + 1][..i] == es[..i];
  }

  // ----- the objects -----

  class Transport {
    var outcomes: seq<Runtime.SendOutcome>
    var delivered: seq<Payload>

    /** False stands for an exception, which may be raised before or after the message is passed on. */
    method SendJson(p: Payload) returns (accepted: bool)
      modifies this
      ensures outcomes == Rest(old(outcomes)) && accepted == NextOutcome(old(outcomes)).Passed?
      ensures delivered == if NextOutcome(old(outcomes)).RefusedBefore? then old(delivered) else old(delivered) + [p]
    {
      var outcome := NextOutcome(outcomes);
      outcomes := Rest(outcomes);
      if !outcome.RefusedBefore? {
        delivered := delivered + [p];
      }
      accepted := outcome.Passed?;
    }
  }

  class EdgeRuntime {
    const pipeline: EdgePipeline
    const blackbox: SQLiteBlackbox
    const monitor: Health.ConnectionHealthMonitor
    const transport: Transport
    var waiting: seq<Runtime.Pending>
    var drain: bool

    ghost predicate Valid()
      reads blackbox
    {
      && pipeline.Valid() && pipeline.provider == blackbox && blackbox.lib == pipeline.lib
      && monitor.limits == pipeline.cfg.limits
      && Ordered(blackbox.Contents())
    }

    ghost function PassState(backoff: real, failed: bool): Pass<Payload>
      reads this, blackbox, monitor, transport
    {
      Pass(blackbox.rows, transport.outcomes, transport.delivered, monitor.State(), waiting, backoff, failed)
    }

    constructor (pipeline: EdgePipeline, monitor: Health.ConnectionHealthMonitor, transport: Transport)
      requires pipeline.Valid() && pipeline.provider.lib == pipeline.lib && monitor.limits == pipeline.cfg.limits
      requires Ordered(pipeline.provider.Contents())
      ensures Valid() && this.pipeline == pipeline && this.monitor == monitor && this.transport == transport
      ensures waiting == [] && !drain
    {
      this.pipeline, this.blackbox, this.monitor, this.transport := pipeline, pipeline.provider, monitor, transport;
      waiting, drain := [], false;
    }

    method EnqueueTransition(t: Option<Health.Transition>, now: Stamp)
      modifies this`waiting
      ensures waiting == old(waiting) + Announce(t, now)
    {
      if t.Some? {
        waiting := waiting + [Runtime.Pending.Pending(t.value, now)];
      }
    }

    /** The sender's inner loops: batch after batch while rows are left and no send failed. Whatever the
        batch size, the outcome is that of sending row after row. */
    method SendPass(before: real, now: Stamp) returns (backoff: real, failed: bool)
      requires Valid()
      modifies this`waiting, blackbox`rows, transport, monitor
      ensures Valid()
      ensures PassState(backoff, failed) == SendAll(pipeline.cfg.limits, old(PassState(before, false)), now)
    {
      backoff, failed := before, false;
      var count := blackbox.Count();
      while count > 0 && !failed
        invariant Valid() && count == |blackbox.rows|
        invariant SendAll(pipeline.cfg.limits, PassState(backoff, failed), now)
               == SendAll(pipeline.cfg.limits, old(PassState(before, false)), now)
        decreases if failed then 0 else |blackbox.rows| + 1
      {
        var batch := blackbox.GetPending(pipeline.cfg.batchSize);
        ghost var length := |blackbox.rows|;
        for i := 0 to |batch|
          invariant Valid() && !failed && batch[i..] <= blackbox.rows && |blackbox.rows| == length - i
          invariant SendAll(pipeline.cfg.limits, PassState(backoff, failed), now)
                 == SendAll(pipeline.cfg.limits, old(PassState(before, false)), now)
        {
          assert batch[i] == blackbox.rows[0] && batch[i..][1..] == batch[i + 1..];
          failed, backoff := SendOne(batch[i], backoff, now);
          if failed {
            break;
          }
        }
        count := blackbox.Count();
      }
    }

    /** One row of the batch: send it, then acknowledge it, or mark it and give up. */
    method SendOne(row: Row<Payload>, before: real, now: Stamp) returns (failed: bool, backoff: real)
      requires Valid() && blackbox.rows != [] && row == blackbox.rows[0]
      modifies this`waiting, blackbox`rows, transport, monitor
      ensures Valid()
      ensures PassState(backoff, failed) == SendHead(pipeline.cfg.limits, old(PassState(before, false)), now)
    {
      hide Ordered, Health.Observe, Without, Bumped;
      HeadKeepsOrder(blackbox.Contents());
      MarkKeepsOrder(blackbox.Contents(), row.id);
      var accepted := transport.SendJson(row.entry.payload);
      if accepted {
        blackbox.Acknowledge(row.id);
        backoff := 1.0;
      } else {
        blackbox.RecordFailure(row.id);
        backoff := Runtime.DoubleBackoff(before);
      }
      var t := monitor.ObserveResult(accepted);
      EnqueueTransition(t, now);
      failed := !accepted;
    }

    /** Takes every waiting transition, in order, into a numbered event row. */
    method DrainTransitions(now: Stamp)
      requires Valid()
      modifies this, blackbox
      ensures Valid() && waiting == [] && drain == (old(drain) || old(waiting) != [])
      ensures blackbox.Contents()
           == ReserveAndInsert(old(blackbox.Contents()), pipeline.cfg.site.deviceId,
                WireEntries(pipeline.lib, pipeline.cfg,
                            ConnectionMessages(old(pipeline.LastNumber()) + 1, old(waiting), now)))
    {
      hide Wire, Insert, Reserve, Ordered, ReserveAndInsert, LastSequence;
      ghost var ps, first := waiting, pipeline.LastNumber() + 1;
      ghost var es := WireEntries(pipeline.lib, pipeline.cfg, ConnectionMessages(first, ps, now));
      ghost var done := 0;
      NoEntries(blackbox.Contents(), pipeline.cfg.site.deviceId, es);
      while waiting != []
        invariant Valid() && done <= |ps| && waiting == ps[done..] && pipeline.LastNumber() + 1 == first + done
        invariant drain == (old(drain) || done > 0)
        invariant blackbox.Contents() == ReserveAndInsert(old(blackbox.Contents()), pipeline.cfg.site.deviceId,
                                                          es[..done])
        decreases |waiting|
      {
        var p := waiting[0];
        waiting := waiting[1..];
        SpoolTransition(p, now);
        drain := true;
        OneMoreEntry(old(blackbox.Contents()), pipeline.cfg.site.deviceId, es, done);
        done := done + 1;
      }
      assert es[..|ps|] == es;
    }

    method SpoolTransition(p: Runtime.Pending, now: Stamp)
      requires Valid()
      modifies blackbox
      ensures Valid() && pipeline.LastNumber() == old(pipeline.LastNumber()) + 1
      ensures var m := Connection(old(pipeline.LastNumber()) + 1, p.measuredAt, p.transition, now);
              blackbox.Contents() == Insert(Reserve(old(blackbox.Contents()), pipeline.cfg.site.deviceId),
                                            EntryOf(pipeline.cfg, m, Wire(pipeline.lib, pipeline.cfg, m)))
    {
      hide SaysOrigin, SaysTransition, Bufferable, Taken;
      var event := pipeline.BuildConnectionEvent(p.transition, p.measuredAt, now);
      ghost var m := Connection(pipeline.LastNumber(), p.measuredAt, p.transition, now);
      WireIsAccepted(pipeline.lib, pipeline.cfg, m);
      InsertKeepsOrder(blackbox.Contents(), EntryOf(pipeline.cfg, m, event));
      var r := blackbox.Enqueue("event", event);
    }

    /** What a finished spool step for these messages leaves. */
    ghost predicate Holds(before: Box<Payload>, ms: seq<Msg>)
      reads blackbox
    {
      blackbox.Contents() == InsertAll(ReserveMany(before, pipeline.cfg.site.deviceId, |ms|),
                                       WireEntries(pipeline.lib, pipeline.cfg, ms))
    }

    method SpoolError(e: IncompleteWindow, now: Stamp)
      requires Valid()
      modifies blackbox
      ensures Valid() && Holds(old(blackbox.Contents()), [SensorError(old(pipeline.LastNumber()) + 1, now, e, now)])
    {
      hide Wire, Ordered, Insert, Reserve, Prepare, Bufferable, Taken, SaysOrigin, SaysSensorError;
      ghost var before := blackbox.Contents();
      assert ReserveMany(before, pipeline.cfg.site.deviceId, 1) == Reserve(before, pipeline.cfg.site.deviceId);
      var event := pipeline.BuildSensorError(e, now, now);
      ghost var m := SensorError(pipeline.LastNumber(), now, e, now);
      ghost var entries := WireEntries(pipeline.lib, pipeline.cfg, [m]);
      WireIsAccepted(pipeline.lib, pipeline.cfg, m);
      ReserveKeepsOrder(before, pipeline.cfg.site.deviceId, 1);
      InsertAllKeepsOrder(blackbox.Contents(), entries);
      InsertOnly(blackbox.Contents(), entries);
      var r := blackbox.Enqueue("event", event);
    }

    method SpoolWindow(w: WindowSummary, now: Stamp)
      requires Valid()
      modifies pipeline`latest, pipeline.rules, blackbox
      ensures Valid()
      ensures var d := Decide(pipeline.cfg.thresholds, old(pipeline.rules.previous), w);
              pipeline.rules.previous == d.status
                  && Holds(old(blackbox.Contents()), WindowMessages(old(pipeline.LastNumber()) + 1, w, d, now))
    {
      hide Wire, Decide, Ordered, InsertAll, PrepareAll, Bufferable, SaysOutput;
      ghost var before, first := blackbox.Contents(), pipeline.LastNumber() + 1;
      var output := pipeline.Process(w, now);
      ghost var ms := WindowMessages(first, w, output.decision, now);
      var messages := [("telemetry", output.telemetry)]
          + seq(|output.events|, i requires 0 <= i < |output.events| => ("event", output.events[i]));
      RisesAreWritable(pipeline.cfg.thresholds, old(pipeline.rules.previous), first, w, now);
      assert messages == Typed(pipeline.lib, pipeline.cfg, ms);
      WiresArePrepared(pipeline.lib, pipeline.cfg, ms);
      ReserveKeepsOrder(before, pipeline.cfg.site.deviceId, |ms|);
      InsertAllKeepsOrder(blackbox.Contents(), WireEntries(pipeline.lib, pipeline.cfg, ms));
      var r := blackbox.EnqueueMany(messages);
    }

    /** One queue item: its messages get consecutive numbers and enter the outbox in one transaction. */
    method SpoolItem(item: Collector.Item, now: Stamp)
      requires Valid()
      modifies this`drain, pipeline`latest, pipeline.rules, blackbox
      ensures Valid() && drain
      ensures var t, previous := pipeline.cfg.thresholds, old(pipeline.rules.previous);
              && Holds(old(blackbox.Contents()), ItemMessages(t, previous, old(pipeline.LastNumber()) + 1, item, now))
              && pipeline.rules.previous == (if item.Window? then Decide(t, previous, item.summary).status
                                             else previous)
    {
      hide Decide, WindowMessages, Ordered, InsertAll, ReserveMany, LastSequence;
      ghost var ms := ItemMessages(pipeline.cfg.thresholds, pipeline.rules.previous, pipeline.LastNumber() + 1, item,
                                   now);
      match item {
        case ReadError(e) =>
          SpoolError(e, now);
          assert Holds(old(blackbox.Contents()), ms);
        case Window(w) =>
          SpoolWindow(w, now);
          assert Holds(old(blackbox.Contents()), ms);
      }
      drain := true;
    }
  }

  // ----- the same work in the atomic steps of the transition system -----

  function Messages(ds: seq<Runtime.Delivered>): (ms: seq<Msg>)
    ensures |ms| == |ds| && forall i :: 0 <= i < |ds| ==> ms[i] == ds[i].msg
  {
    seq(|ds|, i requires 0 <= i < |ds| => ds[i].msg)
  }

  /** The part of a state that a pass of the sender is about. */
  function View(s: Runtime.State, outcomes: seq<Runtime.SendOutcome>): Pass<Msg> {
    Pass(s.box.rows, outcomes, Messages(s.ledger.delivered), s.life.monitor, s.shared.transitions, s.pace.backoff,
         s.pace.passFailed)
  }

  function ThreeSenderSteps(cfg: EdgeConfig, s: Runtime.State, outcome: Runtime.SendOutcome,
                            now: Stamp): Runtime.State {
    Runtime.Send(cfg, Runtime.Send(cfg, Runtime.Send(cfg, s, outcome, now), outcome, now), outcome, now)
  }

  /** The three steps, spelled out. */
  lemma AcceptedSteps(cfg: EdgeConfig, s: Runtime.State, now: Stamp)
    requires s.snd.NSend? && s.snd.batch != []
    ensures var row := s.snd.batch[0];
            var sent := Runtime.PassOn(s, row, Runtime.NAccepted(s.snd.batch));
            var acked := Runtime.AcknowledgeRow(sent, row.id, s.snd.batch[1..]);
            ThreeSenderSteps(cfg, s, Runtime.Passed, now)
            == Runtime.Report(cfg, acked, true, now, Runtime.NSend(s.snd.batch[1..]), s.pace.AfterSuccess())
  {
    hide Runtime.Report, Without, Health.Observe;
  }

  lemma RefusedSteps(cfg: EdgeConfig, s: Runtime.State, outcome: Runtime.SendOutcome, now: Stamp)
    requires s.snd.NSend? && s.snd.batch != [] && !outcome.Passed?
    ensures var row := s.snd.batch[0];
            var sent := if outcome.RefusedAfter? then Runtime.PassOn(s, row, Runtime.NRefused(s.snd.batch))
                        else s.(snd := Runtime.NRefused(s.snd.batch));
            ThreeSenderSteps(cfg, s, outcome, now)
            == Runtime.Report(cfg, Runtime.RecordRefusal(sent, row.id), false, now, Runtime.NTop,
                              s.pace.AfterFailure())
  {
    hide Runtime.Report, Bumped, Health.Observe, Runtime.DoubleBackoff;
  }

  lemma ReportView(cfg: EdgeConfig, s: Runtime.State, success: bool, now: Stamp, next: Runtime.SenderPc,
                   pace: Runtime.Pace)
    ensures var e := Runtime.Report(cfg, s, success, now, next, pace);
            var (m, t) := Health.Observe(cfg.limits, s.life.monitor, success);
            && e.snd == next
            && View(e, []) == Pass(s.box.rows, [], Messages(s.ledger.delivered), m,
                                   s.shared.transitions + Announce(t, now), pace.backoff, pace.passFailed)
  {
    hide Health.Observe;
  }

  lemma OneMoreDelivery(ds: seq<Runtime.Delivered>, d: Runtime.Delivered)
    ensures Messages(ds + [d]) == Messages(ds) + [d.msg]
  {}

  /** From the point where the sender is about to send a row, three of its steps do what the loop body does,
      and leave it at the next row, or waiting after a refusal. */
  lemma ThreeStepsSendHead(cfg: EdgeConfig, s: Runtime.State, outcome: Runtime.SendOutcome, now: Stamp)
    requires RuntimeOutbox.Outbox(cfg, s) && s.snd.NSend? && s.snd.batch != [] && !s.pace.passFailed
    ensures var e := ThreeSenderSteps(cfg, s, outcome, now);
            && View(e, []) == SendHead(cfg.limits, View(s, [outcome]), now)
            && e.snd == (if outcome.Passed? then Runtime.NSend(s.snd.batch[1..]) else Runtime.NTop)
  {
    hide ThreeSenderSteps, Runtime.Report, Without, Bumped, Health.Observe, Runtime.DoubleBackoff;
    hide RuntimeOutbox.Sequenced, RuntimeOutbox.InOrder;
    var row, batch := s.snd.batch[0], s.snd.batch;
    assert row == s.box.rows[0];
    OneMoreDelivery(s.ledger.delivered, Runtime.Delivered(row.id, row.entry.payload));
    if outcome.Passed? {
      AcceptedSteps(cfg, s, now);
      RuntimeOutbox.AcknowledgeMirrors(cfg, s.box.rows, s.box.nextId, s.ledger, s.ledger.(acked := s.ledger.acked + 1));
      var acked := Runtime.AcknowledgeRow(Runtime.PassOn(s, row, Runtime.NAccepted(batch)), row.id, batch[1..]);
      ReportView(cfg, acked, true, now, Runtime.NSend(batch[1..]), s.pace.AfterSuccess());
    } else {
      RefusedSteps(cfg, s, outcome, now);
      var sent := if outcome.RefusedAfter? then Runtime.PassOn(s, row, Runtime.NRefused(batch))
          else s.(snd := Runtime.NRefused(batch));
      ReportView(cfg, Runtime.RecordRefusal(sent, row.id), false, now, Runtime.NTop,
                 s.pace.AfterFailure());
    }
  }

  /** n steps of the spooler, undisturbed. */
  function SpoolerSteps(cfg: EdgeConfig, s: Runtime.State, now: Stamp, n: nat): Runtime.State {
    if n == 0 then s else Runtime.Spool(cfg, SpoolerSteps(cfg, s, now, n - 1), now)
  }

  /** From the point where the spooler has taken an item, its steps put into the tables, and into the rule
      engine's memory, what SpoolItem puts there. */
  lemma StepsSpoolItem(cfg: EdgeConfig, s: Runtime.State, now: Stamp)
    requires s.spl.SHave?
    ensures var item := s.spl.it.item;
            var ms := ItemMessages(cfg.thresholds, s.life.previous, Runtime.NextNumber(cfg, s), item, now);
            var e := SpoolerSteps(cfg, s, now, if item.Window? then 2 + |ms| else 2);
            && e.spl.SSet?
            && e.box == InsertAll(ReserveMany(s.box, cfg.site.deviceId, |ms|), Runtime.Entries(cfg, ms))
            && e.life.previous == (if item.Window? then Decide(cfg.thresholds, s.life.previous, item.summary).status
                                   else s.life.previous)
  {
    hide Decide, InsertAll;
    match s.spl.it.item
    case ReadError(_) => StepsSpoolError(cfg, s, now);
    case Window(w) => StepsSpoolWindow(cfg, s, now);
  }

  /** From the point where the spooler has taken a transition, its two steps put into the tables the connection event
      that SpoolTransition puts there, with the time at which the transition was observed. */
  lemma StepsSpoolTransition(cfg: EdgeConfig, s: Runtime.State, now: Stamp)
    requires s.spl.STaken?
    ensures var p := s.spl.p;
            var m := Connection(Runtime.NextNumber(cfg, s), p.measuredAt, p.transition, now);
            var e := SpoolerSteps(cfg, s, now, 2);
            && e.spl.SDrainSet? && e.box == Insert(Reserve(s.box, cfg.site.deviceId), EntryOf(cfg, m, m))
            && e.shared == s.shared && e.life == s.life
  {
    hide Insert;
    StepsUnrolled(cfg, s, now, 0);
    StepsUnrolled(cfg, s, now, 1);
    var numbered := SpoolerSteps(cfg, s, now, 1);
    var ms := Runtime.Outgoing(numbered.spl, now).0;
    InsertOnly(numbered.box, Runtime.Entries(cfg, ms));
  }

  lemma StepsUnrolled(cfg: EdgeConfig, s: Runtime.State, now: Stamp, n: nat)
    ensures SpoolerSteps(cfg, s, now, 0) == s
    ensures SpoolerSteps(cfg, s, now, n + 1) == Runtime.Spool(cfg, SpoolerSteps(cfg, s, now, n), now)
  {
    hide Runtime.Spool;
  }

  lemma StepsSpoolError(cfg: EdgeConfig, s: Runtime.State, now: Stamp)
    requires s.spl.SHave? && s.spl.it.item.ReadError?
    ensures var ms := [SensorError(Runtime.NextNumber(cfg, s), now, s.spl.it.item.error, now)];
            var e := SpoolerSteps(cfg, s, now, 2);
            && e.spl.SSet? && e.life.previous == s.life.previous
            && e.box == InsertAll(ReserveMany(s.box, cfg.site.deviceId, 1), Runtime.Entries(cfg, ms))
  {
    hide InsertAll;
    assert SpoolerSteps(cfg, s, now, 1) == Runtime.Spool(cfg, s, now);
    assert SpoolerSteps(cfg, s, now, 2) == Runtime.Spool(cfg, Runtime.Spool(cfg, s, now), now);
    assert ReserveMany(s.box, cfg.site.deviceId, 1) == Reserve(s.box, cfg.site.deviceId);
  }

  lemma StepsSpoolWindow(cfg: EdgeConfig, s: Runtime.State, now: Stamp)
    requires s.spl.SHave? && s.spl.it.item.Window?
    ensures var d := Decide(cfg.thresholds, s.life.previous, s.spl.it.item.summary);
            var ms := WindowMessages(Runtime.NextNumber(cfg, s), s.spl.it.item.summary, d, now);
            var e := SpoolerSteps(cfg, s, now, 2 + |ms|);
            && e.spl.SSet? && e.life.previous == d.status
            && e.box == InsertAll(ReserveMany(s.box, cfg.site.deviceId, |ms|), Runtime.Entries(cfg, ms))
  {
    hide InsertAll, Decide;
    var d := Decide(cfg.thresholds, s.life.previous, s.spl.it.item.summary);
    var n := Runtime.NextNumber(cfg, s);
    var decided := SpoolerSteps(cfg, s, now, 1);
    StepsUnrolled(cfg, s, now, 0);
    assert decided.spl == Runtime.SDecided(s.spl.it, d) && decided.box == s.box;
    var numbered := SpoolerSteps(cfg, s, now, 2);
    StepsUnrolled(cfg, s, now, 1);
    assert numbered.spl == Runtime.SNumbered(s.spl.it, d, n) && numbered.box == Reserve(s.box, cfg.site.deviceId);
    assert ReserveMany(s.box, cfg.site.deviceId, 1) == numbered.box;
    StepsUnrolled(cfg, s, now, 2);
    if d.emit {
      var paired := SpoolerSteps(cfg, s, now, 3);
      assert Runtime.NextNumber(cfg, numbered) == n + 1;
      assert ReserveMany(s.box, cfg.site.deviceId, 2) == Reserve(numbered.box, cfg.site.deviceId);
      assert paired.spl == Runtime.SIncident(s.spl.it, d, n, n + 1)
          && paired.box == ReserveMany(s.box, cfg.site.deviceId, 2);
      StepsUnrolled(cfg, s, now, 3);
      assert Runtime.Outgoing(paired.spl, now).0 == WindowMessages(n, s.spl.it.item.summary, d, now);
    } else {
      assert Runtime.Outgoing(numbered.spl, now).0 == WindowMessages(n, s.spl.it.item.summary, d, now);
    }
  }
}
