/** Exactly-once effect from the durable outbox to the telemetry table: the runtime of
    edge/edge_monitor/runtime.py, the bridge of streaming/bridge/in_memory.py and the consumer of
    streaming/consumers/telemetry_storage.py as one transition system. */
module EndToEnd {
  import opened Prelude
  import opened Message
  import opened Pipeline
  import opened Runtime
  import opened Store
  import Bridge
  import RuntimeLog
  import RuntimeOutbox
  import RuntimeWakeup

  /** The edge, the bridge it sends to, and the consumer: its table, the offset its caller has saved,
      and how many messages of the topic it has ever handled. */
  datatype System = System(edge: State, bridge: Bridge.Topics, table: Table, saved: nat, high: nat)

  /** A consumer call may be cut short after some messages; then its caller saves nothing. */
  datatype Event = Edge(action: Action) | Consumer(offset: nat, limit: nat, cut: Option<nat>)

  /** What the transport passes on, the bridge publishes. */
  function EdgeMoves(lib: Library, cfg: EdgeConfig, s: System, a: Action): System {
    var edge := Step(cfg, s.edge, a);
    var ds := edge.ledger.delivered;
    var bridge :=
      if |ds| > |s.edge.ledger.delivered| then Bridge.Publish(lib, s.bridge, Wire(lib, cfg, ds[|ds| - 1].msg)).0
      else s.bridge;
    s.(edge := edge, bridge := bridge)
  }

  /** The caller starts from any offset at or below the one it has saved. */
  function ConsumerMoves(lib: Library, s: System, offset: nat, limit: nat, cut: Option<nat>): System {
    var n := if cut.Some? && cut.value < limit then cut.value else limit;
    if offset > s.saved || n == 0 then s
    else match Consume(lib, s.table, s.bridge.telemetry, offset, n)
      case (t, Ok(r)) =>
        s.(table := t, high := Max(s.high, r.nextOffset),
           saved := if cut.None? then Max(s.saved, r.nextOffset) else s.saved)
      case (t, Err(_)) => s.(table := t)
  }

  function Next(lib: Library, cfg: EdgeConfig, s: System, e: Event): System {
    match e
    case Edge(a) => EdgeMoves(lib, cfg, s, a)
    case Consumer(offset, limit, cut) => ConsumerMoves(lib, s, offset, limit, cut)
  }

  function Reach(lib: Library, cfg: EdgeConfig, events: seq<Event>): System {
    if events == [] then System(Initial(), Bridge.Topics([], [], {}), [], 0, 0)
    else Next(lib, cfg, Reach(lib, cfg, events[..|events| - 1]), events[|events| - 1])
  }

  /** The actions of the edge among the events. */
  function EdgeActions(events: seq<Event>): seq<Action> {
    if events == [] then []
    else
      var front, e := EdgeActions(events[..|events| - 1]), events[|events| - 1];
      if e.Edge? then front + [e.action] else front
  }

  lemma {:induction false} EdgeRuns(lib: Library, cfg: EdgeConfig, events: seq<Event>)
    ensures Reach(lib, cfg, events).edge == Run(cfg, EdgeActions(events))
  {
    hide Step, Consume;
    if events != [] {
      var front, e := events[..|events| - 1], events[|events| - 1];
      EdgeRuns(lib, cfg, front);
      if e.Edge? {
        assert EdgeActions(events)[..|EdgeActions(front)|] == EdgeActions(front);
      }
    }
  }

  // ----- rows of the log -----

  /** The row a telemetry message is to become. */
  function RowFor(lib: Library, cfg: EdgeConfig, m: Msg): Stored {
    Stored(Some(EventId(cfg.run, cfg.stream, m.seqNo)), Str(cfg.site.siteId), Str(cfg.site.sectionId),
           Str(cfg.site.deviceId),
           Int(m.seqNo), Str(MeasuredAt(m)), Wire(lib, cfg, m))
  }

  /** One row for each telemetry message of the log, in commit order. */
  function Rows(lib: Library, cfg: EdgeConfig, log: seq<Entered>): Table {
    if log == [] then []
    else
      var front, m := Rows(lib, cfg, log[..|log| - 1]), log[|log| - 1].msg;
      if m.Telemetry? then front + [RowFor(lib, cfg, m)] else front
  }

  /** The telemetry topic that these deliveries make. */
  function Topic(lib: Library, cfg: EdgeConfig, ds: seq<Delivered>): seq<Payload> {
    if ds == [] then []
    else
      var front, m := Topic(lib, cfg, ds[..|ds| - 1]), ds[|ds| - 1].msg;
      if m.Telemetry? then front + [Wire(lib, cfg, m)] else front
  }

  ghost predicate FromLog(lib: Library, cfg: EdgeConfig, log: seq<Entered>, row: Stored) {
    exists k :: 0 <= k < |log| && log[k].msg.Telemetry? && row == RowFor(lib, cfg, log[k].msg)
  }

  lemma RowsOneMore(lib: Library, cfg: EdgeConfig, log: seq<Entered>, e: Entered)
    ensures Rows(lib, cfg, log + [e])
         == Rows(lib, cfg, log) + if e.msg.Telemetry? then [RowFor(lib, cfg, e.msg)] else []
  {
    assert (log + [e])[..|log|] == log;
  }

  lemma {:induction false} RowsPrefix(lib: Library, cfg: EdgeConfig, log: seq<Entered>, n: nat)
    requires n <= |log|
    ensures Rows(lib, cfg, log[..n]) <= Rows(lib, cfg, log)
  {
    if n < |log| {
      RowsPrefix(lib, cfg, log[..|log| - 1], n);
      assert log[..|log| - 1][..n] == log[..n];
    } else {
      assert log[..n] == log;
    }
  }

  /** Every row comes from a telemetry message of the log, and every such message has its row. */
  lemma {:induction false} RowsExact(lib: Library, cfg: EdgeConfig, log: seq<Entered>)
    ensures forall i :: 0 <= i < |Rows(lib, cfg, log)| ==> FromLog(lib, cfg, log, Rows(lib, cfg, log)[i])
    ensures forall k :: 0 <= k < |log| && log[k].msg.Telemetry? ==> RowFor(lib, cfg, log[k].msg) in Rows(lib, cfg, log)
  {
    hide RowFor;
    if log != [] {
      var front, e := log[..|log| - 1], log[|log| - 1];
      RowsExact(lib, cfg, front);
      var rows := Rows(lib, cfg, log);
      forall i | 0 <= i < |rows| ensures FromLog(lib, cfg, log, rows[i]) {
        if i < |Rows(lib, cfg, front)| {
          assert FromLog(lib, cfg, front, Rows(lib, cfg, front)[i]);
          var k :| 0 <= k < |front| && front[k].msg.Telemetry?
              && Rows(lib, cfg, front)[i] == RowFor(lib, cfg, front[k].msg);
          assert log[k] == front[k];
        }
      }
      forall k | 0 <= k < |log| && log[k].msg.Telemetry? ensures RowFor(lib, cfg, log[k].msg) in rows {
        if k < |front| {
          assert RowFor(lib, cfg, front[k].msg) in Rows(lib, cfg, front);
        } else {
          assert rows[|rows| - 1] == RowFor(lib, cfg, log[k].msg);
        }
      }
    }
  }

  ghost predicate Numbered(log: seq<Entered>) {
    && (forall i, j :: 0 <= i < j < |log| ==> log[i].msg.seqNo < log[j].msg.seqNo)
    && (forall i :: 0 <= i < |log| ==> Writable(log[i].msg))
  }

  /** A committed telemetry message finds its own key in the rows up to it, and in no rows before it. */
  lemma KeyOfRow(lib: Library, cfg: EdgeConfig, log: seq<Entered>, n: nat, k: nat)
    requires Numbered(log) && n <= |log| && k < |log| && log[k].msg.Telemetry?
    ensures HasKey(Rows(lib, cfg, log[..n]), RowFor(lib, cfg, log[k].msg).key) <==> k < n
  {
    hide Wire, EventId, Rows, MeasuredAt;
    var rows := Rows(lib, cfg, log[..n]);
    RowsExact(lib, cfg, log[..n]);
    if k < n {
      assert log[..n][k] == log[k];
      assert RowFor(lib, cfg, log[k].msg) in rows;
    } else {
      forall i | 0 <= i < |rows| ensures rows[i].key != RowFor(lib, cfg, log[k].msg).key {
        assert FromLog(lib, cfg, log[..n], rows[i]);
        var j :| 0 <= j < n && log[..n][j].msg.Telemetry? && rows[i] == RowFor(lib, cfg, log[..n][j].msg);
        assert log[..n][j] == log[j];
        DifferentNumbersDifferentKeys(cfg, log[j].msg.seqNo, log[k].msg.seqNo);
      }
    }
  }

  lemma DifferentNumbersDifferentKeys(cfg: EdgeConfig, m: nat, n: nat)
    ensures EventId(cfg.run, cfg.stream, m) == EventId(cfg.run, cfg.stream, n) <==> m == n
  {
    EventIdExact(cfg.run, cfg.stream, m, cfg.run, cfg.stream, n);
  }

  // ----- one telemetry message through the consumer -----

  lemma WireIsStorable(lib: Library, cfg: EdgeConfig, m: Msg)
    requires cfg.Valid() && m.Telemetry?
    ensures Accepted(lib, Wire(lib, cfg, m)) && MessageKind(Wire(lib, cfg, m)) == TelemetryKind
    ensures Storable(lib, Wire(lib, cfg, m)) && Bridge.IdOf(Wire(lib, cfg, m)) == EventId(cfg.run, cfg.stream, m.seqNo)
    ensures RowOf(lib, Wire(lib, cfg, m)) == RowFor(lib, cfg, m)
  {
    hide Wire, ProcessMessage, EventId;
    WireIsAccepted(lib, cfg, m);
    ArrivedIsStorable(lib, cfg, m, Wire(lib, cfg, m));
  }

  lemma ArrivedIsStorable(lib: Library, cfg: EdgeConfig, m: Msg, p: Payload)
    requires Arrives(lib, cfg, m, p) && m.Telemetry?
    ensures Accepted(lib, p) && MessageKind(p) == TelemetryKind && Storable(lib, p)
    ensures Bridge.IdOf(p) == EventId(cfg.run, cfg.stream, m.seqNo)
    ensures RowOf(lib, p)
         == Stored(Some(EventId(cfg.run, cfg.stream, m.seqNo)), Str(cfg.site.siteId), Str(cfg.site.sectionId),
                   Str(cfg.site.deviceId),
                   Int(m.seqNo), Str(MeasuredAt(m)), p)
  {
    Bridge.AcceptedHasId(lib, p);
  }

  lemma TakeWire(lib: Library, cfg: EdgeConfig, t: Table, m: Msg)
    requires cfg.Valid() && m.Telemetry?
    ensures Take(lib, t, Wire(lib, cfg, m)) ==
              if HasKey(t, RowFor(lib, cfg, m).key) then Ok((t, false)) else Ok((t + [RowFor(lib, cfg, m)], true))
  {
    hide Wire, EventId, ProcessMessage;
    WireIsStorable(lib, cfg, m);
    Bridge.AcceptedHasId(lib, Wire(lib, cfg, m));
  }

  // ----- what a stuttering delivery leaves in the table -----

  /** The deliveries repeat and follow the log: first in, first out, with repeats. */
  ghost predicate Stutters(log: seq<Entered>, ds: seq<Delivered>) {
    && RuntimeOutbox.Collapse(ds) == RuntimeOutbox.OneTo(RuntimeOutbox.Reached(ds))
    && RuntimeOutbox.Reached(ds) <= |log|
    && (forall i :: 0 <= i < |ds| ==> 1 <= ds[i].id <= |log| && ds[i].msg == log[ds[i].id - 1].msg)
  }

  lemma {:induction false} CollapseEnds(ds: seq<Delivered>)
    requires ds != []
    ensures var c := RuntimeOutbox.Collapse(ds);
            c != [] && c[|c| - 1] == RuntimeOutbox.Reached(ds)
  {
    if |ds| > 1 {
      CollapseEnds(ds[..|ds| - 1]);
    }
  }

  /** Before its last delivery the sequence stuttered too, and stood at the same row or one before. */
  lemma StuttersBefore(log: seq<Entered>, ds: seq<Delivered>)
    requires Stutters(log, ds) && ds != []
    ensures var front, r := ds[..|ds| - 1], RuntimeOutbox.Reached(ds);
            && Stutters(log, front)
            && 1 <= r && (RuntimeOutbox.Reached(front) == r || RuntimeOutbox.Reached(front) == r - 1)
  {
    var front, r := ds[..|ds| - 1], RuntimeOutbox.Reached(ds);
    assert r == ds[|ds| - 1].id;
    if front != [] {
      CollapseEnds(front);
    }
    var c := RuntimeOutbox.Collapse(front);
    if front == [] || RuntimeOutbox.Reached(front) != r {
      assert c == RuntimeOutbox.OneTo(r)[..|c|];
      assert |c| + 1 == r;
    }
  }

  lemma {:induction false} StuttersEverywhere(log: seq<Entered>, ds: seq<Delivered>, j: nat)
    requires Stutters(log, ds) && j <= |ds|
    ensures Stutters(log, ds[..j])
  {
    if j < |ds| {
      StuttersBefore(log, ds);
      StuttersEverywhere(log, ds[..|ds| - 1], j);
      assert ds[..|ds| - 1][..j] == ds[..j];
    } else {
      assert ds[..j] == ds;
    }
  }

  /** However often deliveries repeat, one pass over their topic succeeds and leaves exactly the rows of
      the log up to the last delivery, each once, in commit order. */
  lemma {:induction false} RepeatsCollapse(lib: Library, cfg: EdgeConfig, log: seq<Entered>, ds: seq<Delivered>)
    requires cfg.Valid() && Numbered(log) && Stutters(log, ds)
    ensures var f := Feed(lib, [], Topic(lib, cfg, ds));
            f.error.None? && f.table == Rows(lib, cfg, log[..RuntimeOutbox.Reached(ds)])
  {
    hide RowFor, Wire, Take, Numbered;
    if ds != [] {
      var front, d, r := ds[..|ds| - 1], ds[|ds| - 1], RuntimeOutbox.Reached(ds);
      StuttersBefore(log, ds);
      RepeatsCollapse(lib, cfg, log, front);
      var before, t := RuntimeOutbox.Reached(front), Feed(lib, [], Topic(lib, cfg, front)).table;
      assert d.msg == log[r - 1].msg;
      if d.msg.Telemetry? {
        TakeWire(lib, cfg, t, d.msg);
        KeyOfRow(lib, cfg, log, before, r - 1);
        FeedOneMoreMessage(lib, [], Topic(lib, cfg, front), Wire(lib, cfg, d.msg));
      }
      if before == r - 1 {
        RowsOneMore(lib, cfg, log[..r - 1], log[r - 1]);
        assert log[..r] == log[..r - 1] + [log[r - 1]];
      }
    }
  }

  lemma FeedOneMoreMessage(lib: Library, t: Table, ms: seq<Payload>, m: Payload)
    requires Feed(lib, t, ms).error.None?
    ensures var f := Feed(lib, t, ms);
            Feed(lib, t, ms + [m]) ==
              match Take(lib, f.table, m)
              case Err(e) => f.(error := Some(e))
              case Ok((t', added)) => if added then f.(table := t', stored := f.stored + 1)
                  else f.(duplicates := f.duplicates + 1)
  {
    assert (ms + [m])[..|ms|] == ms;
  }

  /** Any stretch of the topic from its beginning is the topic of some stretch of deliveries. */
  lemma {:induction false} TopicPrefix(lib: Library, cfg: EdgeConfig, ds: seq<Delivered>, n: nat) returns (j: nat)
    requires n <= |Topic(lib, cfg, ds)|
    ensures j <= |ds| && Topic(lib, cfg, ds[..j]) == Topic(lib, cfg, ds)[..n]
  {
    hide Wire;
    if n == |Topic(lib, cfg, ds)| {
      j := |ds|;
      assert ds[..j] == ds;
    } else {
      var front := ds[..|ds| - 1];
      j := TopicPrefix(lib, cfg, front, n);
      assert front[..j] == ds[..j];
      assert Topic(lib, cfg, ds)[..n] == Topic(lib, cfg, front)[..n];
    }
  }

  // ----- every reachable state of the whole system -----

  ghost predicate Linked(lib: Library, cfg: EdgeConfig, s: System) {
    && s.bridge.telemetry == Topic(lib, cfg, s.edge.ledger.delivered)
    && s.saved <= s.high
    && OnePass(lib, s.bridge.telemetry, s.high, s.table)
  }

  ghost predicate Edgewise(s: System) {
    Numbered(s.edge.ledger.log) && Stutters(s.edge.ledger.log, s.edge.ledger.delivered)
  }

  lemma AlwaysEdgewise(lib: Library, cfg: EdgeConfig, events: seq<Event>)
    ensures Edgewise(Reach(lib, cfg, events))
  {
    hide Run, Reach, EdgeActions, Writable, RuntimeOutbox.Collapse;
    EdgeRuns(lib, cfg, events);
    var actions := EdgeActions(events);
    RuntimeOutbox.StutteringFifo(cfg, actions);
    RuntimeOutbox.FreshNumbers(cfg, actions);
    RuntimeLog.LogIsWritable(cfg, actions);
  }

  lemma StepDelivers(cfg: EdgeConfig, s: State, a: Action)
    ensures var ds, ds' := s.ledger.delivered, Step(cfg, s, a).ledger.delivered;
            ds' == ds || (|ds'| == |ds| + 1 && ds'[..|ds|] == ds)
  {}

  lemma PublishWire(lib: Library, cfg: EdgeConfig, b: Bridge.Topics, m: Msg)
    requires cfg.Valid() && Writable(m)
    ensures Bridge.Publish(lib, b, Wire(lib, cfg, m)).0.telemetry
        == b.telemetry + if m.Telemetry? then [Wire(lib, cfg, m)] else []
  {
    hide Wire, ProcessMessage;
    WireIsAccepted(lib, cfg, m);
  }

  lemma TopicGrows(lib: Library, values: seq<Payload>, values': seq<Payload>, high: nat, t: Table)
    requires OnePass(lib, values, high, t) && values <= values'
    ensures OnePass(lib, values', high, t)
  {
    assert values'[..high] == values[..high];
  }

  lemma EdgeKeeps(lib: Library, cfg: EdgeConfig, s: System, a: Action)
    requires cfg.Valid() && Linked(lib, cfg, s) && Edgewise(EdgeMoves(lib, cfg, s, a))
    ensures Linked(lib, cfg, EdgeMoves(lib, cfg, s, a))
  {
    hide Step, Wire, OnePass, Bridge.Publish;
    var s' := EdgeMoves(lib, cfg, s, a);
    StepDelivers(cfg, s.edge, a);
    var ds, ds' := s.edge.ledger.delivered, s'.edge.ledger.delivered;
    if |ds'| > |ds| {
      var d := ds'[|ds|];
      assert Writable(s'.edge.ledger.log[d.id - 1].msg);
      PublishWire(lib, cfg, s.bridge, d.msg);
    }
    TopicGrows(lib, s.bridge.telemetry, s'.bridge.telemetry, s.high, s.table);
  }

  lemma ConsumerKeeps(lib: Library, cfg: EdgeConfig, s: System, offset: nat, limit: nat, cut: Option<nat>)
    requires cfg.Valid() && Linked(lib, cfg, s) && Edgewise(s)
    ensures Linked(lib, cfg, ConsumerMoves(lib, s, offset, limit, cut))
  {
    hide Consume, OnePass, Topic;
    var n := if cut.Some? && cut.value < limit then cut.value else limit;
    if offset <= s.saved && n > 0 {
      RepeatsCollapse(lib, cfg, s.edge.ledger.log, s.edge.ledger.delivered);
      ConsumeSucceeds(lib, s.bridge.telemetry, s.high, s.table, offset, n);
      ConsumeKeepsOnePass(lib, s.bridge.telemetry, s.high, s.table, offset, n);
    }
  }

  lemma {:induction false} AlwaysLinked(lib: Library, cfg: EdgeConfig, events: seq<Event>)
    requires cfg.Valid()
    ensures Linked(lib, cfg, Reach(lib, cfg, events))
  {
    hide Linked, Edgewise, EdgeMoves, ConsumerMoves;
    if events == [] {
      StartLinked(lib, cfg);
    } else {
      var front, e := events[..|events| - 1], events[|events| - 1];
      AlwaysLinked(lib, cfg, front);
      AlwaysEdgewise(lib, cfg, front);
      AlwaysEdgewise(lib, cfg, events);
      match e
      case Edge(a) => EdgeKeeps(lib, cfg, Reach(lib, cfg, front), a);
      case Consumer(offset, limit, cut) => ConsumerKeeps(lib, cfg, Reach(lib, cfg, front), offset, limit, cut);
    }
  }

  lemma StartLinked(lib: Library, cfg: EdgeConfig)
    ensures Linked(lib, cfg, Reach(lib, cfg, []))
  {}

  // ----- exactly once -----

  /** After any interleaving of the workers and the consumer, with crashes, failed sends, sends that
      deliver and then raise, consumer calls cut short and consumer restarts from any saved offset, the
      table is a beginning of the committed telemetry: its rows, in commit order, each once. */
  lemma TableFollowsLog(lib: Library, cfg: EdgeConfig, events: seq<Event>)
    requires cfg.Valid()
    ensures var s := Reach(lib, cfg, events);
            s.table <= Rows(lib, cfg, s.edge.ledger.log)
  {
    hide Rows, Reach, RowFor, Numbered;
    AlwaysLinked(lib, cfg, events);
    AlwaysEdgewise(lib, cfg, events);
    var s := Reach(lib, cfg, events);
    var log, ds := s.edge.ledger.log, s.edge.ledger.delivered;
    var j := TopicPrefix(lib, cfg, ds, s.high);
    StuttersEverywhere(log, ds, j);
    RepeatsCollapse(lib, cfg, log, ds[..j]);
    RowsPrefix(lib, cfg, log, RuntimeOutbox.Reached(ds[..j]));
  }

  /** So every stored row was committed to the outbox by the edge, with the same content, and no event
      is stored twice. */
  lemma StoredWasCommittedOnce(lib: Library, cfg: EdgeConfig, events: seq<Event>)
    requires cfg.Valid()
    ensures var s := Reach(lib, cfg, events);
            && (forall i :: 0 <= i < |s.table| ==> FromLog(lib, cfg, s.edge.ledger.log, s.table[i]))
            && (forall i, j :: 0 <= i < j < |s.table| ==> s.table[i].key != s.table[j].key)
  {
    hide Rows, Reach, RowFor, Take, Feed, FromLog;
    TableFollowsLog(lib, cfg, events);
    AlwaysLinked(lib, cfg, events);
    var s := Reach(lib, cfg, events);
    RowsExact(lib, cfg, s.edge.ledger.log);
    FeedIsFirstWriteWins(lib, s.bridge.telemetry[..s.high]);
    forall i | 0 <= i < |s.table| ensures FromLog(lib, cfg, s.edge.ledger.log, s.table[i]) {
      assert s.table[i] == Rows(lib, cfg, s.edge.ledger.log)[i];
    }
  }

  /** Whenever the outbox is empty and the consumer has handled its whole topic, the table holds exactly
      the telemetry ever committed, over all process lifetimes, each once and in commit order. */
  lemma ExactlyOnce(lib: Library, cfg: EdgeConfig, events: seq<Event>)
    requires cfg.Valid()
    ensures var s := Reach(lib, cfg, events);
            s.edge.box.rows == [] && s.saved == |s.bridge.telemetry| ==> s.table == Rows(lib, cfg, s.edge.ledger.log)
  {
    hide Rows, Reach, RowFor, Numbered, Run;
    AlwaysLinked(lib, cfg, events);
    AlwaysEdgewise(lib, cfg, events);
    EdgeRuns(lib, cfg, events);
    RuntimeOutbox.StutteringFifo(cfg, EdgeActions(events));
    RuntimeOutbox.OutboxIsUnacknowledgedTail(cfg, EdgeActions(events));
    var s := Reach(lib, cfg, events);
    var log, topic := s.edge.ledger.log, s.bridge.telemetry;
    RepeatsCollapse(lib, cfg, log, s.edge.ledger.delivered);
    if s.edge.box.rows == [] && s.saved == |topic| {
      assert topic[..s.high] == topic;
      assert log[..RuntimeOutbox.Reached(s.edge.ledger.delivered)] == log;
    }
  }

  // ----- and in the end it happens -----

  function AsEvents(actions: seq<Action>): (es: seq<Event>)
    ensures |es| == |actions| && forall i :: 0 <= i < |actions| ==> es[i] == Edge(actions[i])
  {
    seq(|actions|, i requires 0 <= i < |actions| => Edge(actions[i]))
  }

  lemma {:induction false} EdgeActionsAppend(events: seq<Event>, actions: seq<Action>)
    ensures EdgeActions(events + AsEvents(actions)) == EdgeActions(events) + actions
  {
    var all := events + AsEvents(actions);
    if actions == [] {
      assert all == events;
      assert EdgeActions(events) + actions == EdgeActions(events);
    } else {
      var front := actions[..|actions| - 1];
      EdgeActionsAppend(events, front);
      assert all[..|all| - 1] == events + AsEvents(front);
      assert actions == front + [actions[|actions| - 1]];
    }
  }

  /** Once the collector has ended and sends stop failing, the draining rounds of the edge followed by one
      consumer call that reaches the end of the topic leave the table with exactly the telemetry ever
      committed, whatever happened before. */
  lemma EventuallyExactlyOnce(lib: Library, cfg: EdgeConfig, events: seq<Event>, rounds: seq<seq<Action>>, limit: nat)
    requires cfg.Valid()
    requires var s := Run(cfg, EdgeActions(events)); s.col.COff? && RuntimeWakeup.SenderUp(s)
    requires forall i :: 0 <= i < |rounds| ==> RuntimeWakeup.Fair(rounds[i])
    requires |rounds| >= RuntimeWakeup.Potential(Run(cfg, EdgeActions(events)))
    ensures var drained := events + AsEvents(RuntimeWakeup.Flat(rounds));
            var d := Reach(lib, cfg, drained);
            limit > 0 && d.saved + limit >= |d.bridge.telemetry| ==>
              var s := Reach(lib, cfg, drained + [Consumer(d.saved, limit, None)]);
              s.edge.box.rows == [] && s.table == Rows(lib, cfg, s.edge.ledger.log)
  {
    hide Reach, Run, Rows, Consume, Linked, Edgewise, RuntimeWakeup.Potential;
    var flat := RuntimeWakeup.Flat(rounds);
    var drained := events + AsEvents(flat);
    var d := Reach(lib, cfg, drained);
    EdgeActionsAppend(events, flat);
    EdgeRuns(lib, cfg, drained);
    RuntimeWakeup.DrainTerminates(cfg, EdgeActions(events), rounds);
    if limit > 0 && d.saved + limit >= |d.bridge.telemetry| {
      var e := Consumer(d.saved, limit, None);
      AlwaysLinked(lib, cfg, drained);
      AlwaysEdgewise(lib, cfg, drained);
      CatchesUp(lib, cfg, d, limit);
      ReachOneMore(lib, cfg, drained, e);
      ExactlyOnce(lib, cfg, drained + [e]);
    }
  }

  lemma ReachOneMore(lib: Library, cfg: EdgeConfig, events: seq<Event>, e: Event)
    ensures Reach(lib, cfg, events + [e]) == Next(lib, cfg, Reach(lib, cfg, events), e)
  {
    assert (events + [e])[..|events|] == events;
  }

  lemma CatchesUp(lib: Library, cfg: EdgeConfig, s: System, limit: nat)
    requires cfg.Valid() && Linked(lib, cfg, s) && Edgewise(s)
    requires limit > 0 && s.saved + limit >= |s.bridge.telemetry|
    ensures var s' := Next(lib, cfg, s, Consumer(s.saved, limit, None));
            s'.edge == s.edge && s'.bridge == s.bridge && s'.saved == |s'.bridge.telemetry|
  {
    hide Feed, Topic;
    RepeatsCollapse(lib, cfg, s.edge.ledger.log, s.edge.ledger.delivered);
    ConsumeSucceeds(lib, s.bridge.telemetry, s.high, s.table, s.saved, limit);
  }
}
