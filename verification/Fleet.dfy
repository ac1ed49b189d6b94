/** Any number of edges publishing to one bridge: the runtimes of edge/edge_monitor/runtime.py, each on its own
    outbox, the bridge of streaming/bridge/in_memory.py, and one consumer of
    streaming/consumers/telemetry_storage.py. */
module Fleet {
  import opened Prelude
  import opened Message
  import opened Pipeline
  import opened Runtime
  import opened Store
  import Bridge
  import Collector
  import EndToEnd
  import opened Blackbox
  import opened Rules
  import RuntimeLog
  import RuntimeOutbox
  import RuntimeWakeup
  import RuntimeWitness
  import Sampling

  /** A delivery and the edge it comes from. */
  datatype Posted = Posted(edge: nat, delivery: Delivered)

  datatype System = System(edges: seq<State>, posts: seq<Posted>, bridge: Bridge.Topics, table: Table, saved: nat,
                           high: nat)

  datatype Event = Edge(edge: nat, action: Action) | Consumer(offset: nat, limit: nat, cut: Option<nat>)

  /** One step of one edge; what its transport passes on, the bridge publishes. */
  function EdgeMoves(lib: Library, cfgs: seq<EdgeConfig>, s: System, e: nat, a: Action): System
    requires |s.edges| == |cfgs|
  {
    if e >= |cfgs| then s
    else
      var edge := Step(cfgs[e], s.edges[e], a);
      var ds := edge.ledger.delivered;
      var moved := s.(edges := s.edges[e := edge]);
      if |ds| > |s.edges[e].ledger.delivered| then
        moved.(posts := s.posts + [Posted(e, ds[|ds| - 1])],
               bridge := Bridge.Publish(lib, s.bridge, Wire(lib, cfgs[e], ds[|ds| - 1].msg)).0)
      else moved
  }

  function ConsumerMoves(lib: Library, s: System, offset: nat, limit: nat, cut: Option<nat>): System {
    var one := EndToEnd.ConsumerMoves(lib, EndToEnd.System(Initial(), s.bridge, s.table, s.saved, s.high), offset,
                                      limit, cut);
    s.(table := one.table, saved := one.saved, high := one.high)
  }

  function Start(n: nat): (s: System)
    ensures |s.edges| == n
  {
    System(seq(n, i => Initial()), [], Bridge.Topics([], [], {}), [], 0, 0)
  }

  function Reach(lib: Library, cfgs: seq<EdgeConfig>, events: seq<Event>): (s: System)
    ensures |s.edges| == |cfgs|
  {
    if events == [] then Start(|cfgs|)
    else
      var before := Reach(lib, cfgs, events[..|events| - 1]);
      match events[|events| - 1]
      case Edge(e, a) => EdgeMoves(lib, cfgs, before, e, a)
      case Consumer(offset, limit, cut) => ConsumerMoves(lib, before, offset, limit, cut)
  }

  function ActionsOf(events: seq<Event>, e: nat): seq<Action> {
    if events == [] then []
    else
      var front, last := ActionsOf(events[..|events| - 1], e), events[|events| - 1];
      if last.Edge? && last.edge == e then front + [last.action] else front
  }

  /** Each edge makes a run of its own, whatever the others do. */
  lemma {:induction false} EdgesRun(lib: Library, cfgs: seq<EdgeConfig>, events: seq<Event>, e: nat)
    requires e < |cfgs|
    ensures Reach(lib, cfgs, events).edges[e] == Run(cfgs[e], ActionsOf(events, e))
  {
    hide Step, EndToEnd.ConsumerMoves, Bridge.Publish;
    if events != [] {
      var front, last := events[..|events| - 1], events[|events| - 1];
      EdgesRun(lib, cfgs, front, e);
      if last.Edge? && last.edge == e {
        assert ActionsOf(events, e)[..|ActionsOf(front, e)|] == ActionsOf(front, e);
      }
    }
  }

  // ----- what the edges have committed -----

  /** The rows of all logs together. */
  ghost function AllRows(lib: Library, cfgs: seq<EdgeConfig>, logs: seq<seq<Entered>>): multiset<Stored>
    requires |logs| == |cfgs|
  {
    if cfgs == [] then multiset{}
    else
      var n := |cfgs| - 1;
      AllRows(lib, cfgs[..n], logs[..n]) + multiset(EndToEnd.Rows(lib, cfgs[n], logs[n]))
  }

  lemma {:induction false} RowOfSomeEdge(lib: Library, cfgs: seq<EdgeConfig>, logs: seq<seq<Entered>>, row: Stored)
    requires |logs| == |cfgs|
    ensures row in AllRows(lib, cfgs, logs)
       <==> exists e :: 0 <= e < |cfgs| && row in EndToEnd.Rows(lib, cfgs[e], logs[e])
  {
    hide EndToEnd.Rows;
    if cfgs != [] {
      var n := |cfgs| - 1;
      RowOfSomeEdge(lib, cfgs[..n], logs[..n], row);
      if e :| 0 <= e < |cfgs| && row in EndToEnd.Rows(lib, cfgs[e], logs[e]) {
        if e < n {
          assert cfgs[..n][e] == cfgs[e] && logs[..n][e] == logs[e];
        }
      }
      if e :| 0 <= e < n && row in EndToEnd.Rows(lib, cfgs[..n][e], logs[..n][e]) {
        assert cfgs[..n][e] == cfgs[e] && logs[..n][e] == logs[e];
      }
    }
  }

  /** One more row of one edge is one more row of all. */
  lemma {:induction false} OneMoreRow(lib: Library, cfgs: seq<EdgeConfig>, logs: seq<seq<Entered>>, e: nat,
                                      log: seq<Entered>, more: seq<Stored>)
    requires |logs| == |cfgs| && e < |cfgs|
    requires EndToEnd.Rows(lib, cfgs[e], log) == EndToEnd.Rows(lib, cfgs[e], logs[e]) + more
    ensures AllRows(lib, cfgs, logs[e := log]) == AllRows(lib, cfgs, logs) + multiset(more)
  {
    hide EndToEnd.Rows;
    var n := |cfgs| - 1;
    if e == n {
      assert logs[e := log][..n] == logs[..n];
    } else {
      assert logs[e := log][..n] == logs[..n][e := log];
      OneMoreRow(lib, cfgs[..n], logs[..n], e, log, more);
    }
  }

  // ----- what the deliveries of all edges leave in the table -----

  function Joined(cfg: EdgeConfig): string {
    cfg.run + ":" + cfg.stream
  }

  /** No two edges share run and stream, written next to each other. */
  ghost predicate Distinct(cfgs: seq<EdgeConfig>) {
    forall i, j :: 0 <= i < j < |cfgs| ==> Joined(cfgs[i]) != Joined(cfgs[j])
  }

  function DeliveriesOf(posts: seq<Posted>, e: nat): seq<Delivered> {
    if posts == [] then []
    else
      var front, last := DeliveriesOf(posts[..|posts| - 1], e), posts[|posts| - 1];
      if last.edge == e then front + [last.delivery] else front
  }

  function Topic(lib: Library, cfgs: seq<EdgeConfig>, posts: seq<Posted>): seq<Payload> {
    if posts == [] then []
    else
      var front, last := Topic(lib, cfgs, posts[..|posts| - 1]), posts[|posts| - 1];
      if last.edge < |cfgs| && last.delivery.msg.Telemetry? then front + [Wire(lib, cfgs[last.edge], last.delivery.msg)]
      else front
  }

  /** Every edge delivers its own log first in, first out, with repeats. */
  ghost predicate Orderly(cfgs: seq<EdgeConfig>, logs: seq<seq<Entered>>, posts: seq<Posted>) {
    && |logs| == |cfgs|
    && (forall e :: 0 <= e < |cfgs| ==>
          cfgs[e].Valid() && EndToEnd.Numbered(logs[e]) && EndToEnd.Stutters(logs[e], DeliveriesOf(posts, e)))
    && (forall k :: 0 <= k < |posts| ==> posts[k].edge < |cfgs|)
  }

  /** The last row each edge has delivered. */
  function Ends(posts: seq<Posted>, n: nat): (ends: seq<nat>)
    ensures |ends| == n && forall e :: 0 <= e < n ==> ends[e] == RuntimeOutbox.Reached(DeliveriesOf(posts, e))
  {
    seq(n, e requires 0 <= e < n => RuntimeOutbox.Reached(DeliveriesOf(posts, e)))
  }

  ghost predicate Within(logs: seq<seq<Entered>>, ends: seq<nat>) {
    |ends| == |logs| && forall e :: 0 <= e < |logs| ==> ends[e] <= |logs[e]|
  }

  function Cut(logs: seq<seq<Entered>>, ends: seq<nat>): (heads: seq<seq<Entered>>)
    requires Within(logs, ends)
    ensures |heads| == |logs| && forall e :: 0 <= e < |logs| ==> heads[e] == logs[e][..ends[e]]
  {
    seq(|logs|, e requires 0 <= e < |logs| => logs[e][..ends[e]])
  }

  /** The parts of the logs that have been delivered. */
  function Heads(logs: seq<seq<Entered>>, posts: seq<Posted>): (heads: seq<seq<Entered>>)
    requires Within(logs, Ends(posts, |logs|))
    ensures |heads| == |logs|
  {
    Cut(logs, Ends(posts, |logs|))
  }

  lemma HeadsFit(cfgs: seq<EdgeConfig>, logs: seq<seq<Entered>>, posts: seq<Posted>)
    requires Orderly(cfgs, logs, posts)
    ensures Within(logs, Ends(posts, |logs|))
  {
    hide DeliveriesOf, RuntimeOutbox.Collapse, RuntimeOutbox.OneTo;
  }

  lemma EndsMove(posts: seq<Posted>, n: nat)
    requires posts != [] && posts[|posts| - 1].edge < n
    ensures var e := posts[|posts| - 1].edge;
            Ends(posts, n) == Ends(posts[..|posts| - 1], n)[e := RuntimeOutbox.Reached(DeliveriesOf(posts, e))]
  {
    hide RuntimeOutbox.Reached, DeliveriesOf;
    var front, e := posts[..|posts| - 1], posts[|posts| - 1].edge;
    var ends := Ends(front, n)[e := RuntimeOutbox.Reached(DeliveriesOf(posts, e))];
    forall f | 0 <= f < n ensures Ends(posts, n)[f] == ends[f] {
      OneMorePost(posts, f);
    }
  }

  lemma CutMove(logs: seq<seq<Entered>>, ends: seq<nat>, e: nat, r: nat)
    requires Within(logs, ends) && e < |logs| && r <= |logs[e]|
    ensures Within(logs, ends[e := r]) && Cut(logs, ends[e := r]) == Cut(logs, ends)[e := logs[e][..r]]
  {}

  lemma OneMorePost(posts: seq<Posted>, e: nat)
    requires posts != []
    ensures var front, last := posts[..|posts| - 1], posts[|posts| - 1];
            DeliveriesOf(posts, e)
            == if last.edge == e then DeliveriesOf(front, e) + [last.delivery] else DeliveriesOf(front, e)
  {}

  lemma OrderlyBefore(cfgs: seq<EdgeConfig>, logs: seq<seq<Entered>>, posts: seq<Posted>)
    requires Orderly(cfgs, logs, posts) && posts != []
    ensures Orderly(cfgs, logs, posts[..|posts| - 1])
  {
    hide EndToEnd.Stutters, EndToEnd.Numbered;
    var front, last := posts[..|posts| - 1], posts[|posts| - 1];
    forall e | 0 <= e < |cfgs| ensures EndToEnd.Stutters(logs[e], DeliveriesOf(front, e)) {
      OneMorePost(posts, e);
      if last.edge == e {
        EndToEnd.StuttersBefore(logs[e], DeliveriesOf(posts, e));
        assert DeliveriesOf(posts, e)[..|DeliveriesOf(front, e)|] == DeliveriesOf(front, e);
      }
    }
  }

  /** A key in the rows of all edges belongs to one edge alone. */
  lemma KeyOfOneEdge(lib: Library, cfgs: seq<EdgeConfig>, logs: seq<seq<Entered>>, heads: seq<seq<Entered>>,
                     e: nat, k: nat, row: Stored)
    requires Distinct(cfgs) && |logs| == |heads| == |cfgs| && e < |cfgs| && EndToEnd.Numbered(logs[e])
    requires k < |logs[e]| && logs[e][k].msg.Telemetry? && heads[e] == logs[e][..k]
    requires row in AllRows(lib, cfgs, heads)
    ensures row.key != EndToEnd.RowFor(lib, cfgs[e], logs[e][k].msg).key
  {
    hide EndToEnd.Rows, Wire, EventId, AllRows;
    RowOfSomeEdge(lib, cfgs, heads, row);
    var f :| 0 <= f < |cfgs| && row in EndToEnd.Rows(lib, cfgs[f], heads[f]);
    if f == e {
      EndToEnd.KeyOfRow(lib, cfgs[e], logs[e], k, k);
      var i :| 0 <= i < |EndToEnd.Rows(lib, cfgs[e], heads[e])| && EndToEnd.Rows(lib, cfgs[e], heads[e])[i] == row;
      assert row.key != EndToEnd.RowFor(lib, cfgs[e], logs[e][k].msg).key;
    } else {
      RowIsFromLog(lib, cfgs[f], heads[f], row);
      var j :| 0 <= j < |heads[f]| && row == EndToEnd.RowFor(lib, cfgs[f], heads[f][j].msg);
      assert Joined(cfgs[f]) != Joined(cfgs[e]);
      DifferentEdgesDifferentKeys(lib, cfgs[f], heads[f][j].msg, cfgs[e], logs[e][k].msg);
    }
  }

  lemma DifferentEdgesDifferentKeys(lib: Library, cfg: EdgeConfig, m: Msg, cfg': EdgeConfig, m': Msg)
    requires Joined(cfg) != Joined(cfg')
    ensures EndToEnd.RowFor(lib, cfg, m).key != EndToEnd.RowFor(lib, cfg', m').key
  {
    hide EventId, Wire;
    EventIdExact(cfg.run, cfg.stream, m.seqNo, cfg'.run, cfg'.stream, m'.seqNo);
    assert Joined(cfg) == cfg.run + ":" + cfg.stream && Joined(cfg') == cfg'.run + ":" + cfg'.stream;
  }

  lemma RowIsFromLog(lib: Library, cfg: EdgeConfig, log: seq<Entered>, row: Stored)
    requires row in EndToEnd.Rows(lib, cfg, log)
    ensures exists j :: 0 <= j < |log| && log[j].msg.Telemetry? && row == EndToEnd.RowFor(lib, cfg, log[j].msg)
  {
    hide EndToEnd.RowFor, EndToEnd.Rows;
    EndToEnd.RowsExact(lib, cfg, log);
    var i :| 0 <= i < |EndToEnd.Rows(lib, cfg, log)| && EndToEnd.Rows(lib, cfg, log)[i] == row;
    assert EndToEnd.FromLog(lib, cfg, log, row);
  }

  /** The table is the rows of these logs, those of each edge in its commit order. */
  ghost predicate Holds(lib: Library, cfgs: seq<EdgeConfig>, logs: seq<seq<Entered>>, t: Table)
    requires |logs| == |cfgs|
  {
    && multiset(t) == AllRows(lib, cfgs, logs)
    && forall e :: 0 <= e < |cfgs| ==> Kept(EndToEnd.Rows(lib, cfgs[e], logs[e]), t)
  }

  lemma KeptLonger<T>(xs: seq<T>, ys: seq<T>, y: T)
    requires Kept(xs, ys)
    ensures Kept(xs, ys + [y])
  {
    var at :| Embeds(xs, ys, at);
    assert Embeds(xs, ys + [y], at);
  }

  /** One edge moves on by one row. */
  lemma HoldsOneMore(lib: Library, cfgs: seq<EdgeConfig>, logs: seq<seq<Entered>>, t: Table, e: nat, log: seq<Entered>,
                     row: Stored)
    requires |logs| == |cfgs| && e < |cfgs| && Holds(lib, cfgs, logs, t)
    requires EndToEnd.Rows(lib, cfgs[e], log) == EndToEnd.Rows(lib, cfgs[e], logs[e]) + [row]
    ensures Holds(lib, cfgs, logs[e := log], t + [row])
  {
    hide EndToEnd.Rows, Kept, AllRows;
    OneMoreRow(lib, cfgs, logs, e, log, [row]);
    forall f | 0 <= f < |cfgs| ensures Kept(EndToEnd.Rows(lib, cfgs[f], logs[e := log][f]), t + [row]) {
      if f == e {
        KeptAppend(EndToEnd.Rows(lib, cfgs[e], logs[e]), t, [row]);
      } else {
        KeptLonger(EndToEnd.Rows(lib, cfgs[f], logs[f]), t, row);
      }
    }
  }

  lemma HoldsSame(lib: Library, cfgs: seq<EdgeConfig>, logs: seq<seq<Entered>>, t: Table, e: nat, log: seq<Entered>)
    requires |logs| == |cfgs| && e < |cfgs| && Holds(lib, cfgs, logs, t)
    requires EndToEnd.Rows(lib, cfgs[e], log) == EndToEnd.Rows(lib, cfgs[e], logs[e])
    ensures Holds(lib, cfgs, logs[e := log], t)
  {
    hide EndToEnd.Rows, Kept, AllRows;
    assert EndToEnd.Rows(lib, cfgs[e], logs[e]) + [] == EndToEnd.Rows(lib, cfgs[e], logs[e]);
    OneMoreRow(lib, cfgs, logs, e, log, []);
    forall f | 0 <= f < |cfgs| ensures Kept(EndToEnd.Rows(lib, cfgs[f], logs[e := log][f]), t) {}
  }

  /** However the deliveries of the edges interleave and repeat, one pass over their topic succeeds and leaves
      the rows of all logs up to the last deliveries. */
  lemma {:induction false} RepeatsCollapse(lib: Library, cfgs: seq<EdgeConfig>, logs: seq<seq<Entered>>,
                                           posts: seq<Posted>)
    requires Distinct(cfgs) && Orderly(cfgs, logs, posts)
    ensures var f := Feed(lib, [], Topic(lib, cfgs, posts));
            f.error.None? && Holds(lib, cfgs, Heads(logs, posts), f.table)
  {
    hide EndToEnd.RowFor, Wire, Take, EndToEnd.Numbered, Holds, EndToEnd.Stutters, Heads, DeliveriesOf;
    if posts == [] {
      NothingPosted(lib, cfgs, logs);
    } else {
      var front := posts[..|posts| - 1];
      OrderlyBefore(cfgs, logs, posts);
      RepeatsCollapse(lib, cfgs, logs, front);
      PostHolds(lib, cfgs, logs, posts);
    }
  }

  lemma {:induction false} NoRows(lib: Library, cfgs: seq<EdgeConfig>, logs: seq<seq<Entered>>)
    requires |logs| == |cfgs| && forall e :: 0 <= e < |logs| ==> logs[e] == []
    ensures Holds(lib, cfgs, logs, [])
  {
    if cfgs != [] {
      NoRows(lib, cfgs[..|cfgs| - 1], logs[..|cfgs| - 1]);
    }
    forall e | 0 <= e < |cfgs| ensures Kept(EndToEnd.Rows(lib, cfgs[e], logs[e]), []) {
      KeptAll<Stored>([]);
    }
  }

  lemma NothingPosted(lib: Library, cfgs: seq<EdgeConfig>, logs: seq<seq<Entered>>)
    requires Orderly(cfgs, logs, [])
    ensures Holds(lib, cfgs, Heads(logs, []), [])
  {
    NoRows(lib, cfgs, Heads(logs, []));
  }

  /** One more delivery repeats the last row of its edge or is the next one. */
  lemma DeliveryMoves(cfgs: seq<EdgeConfig>, logs: seq<seq<Entered>>, posts: seq<Posted>)
    requires Orderly(cfgs, logs, posts) && posts != []
    ensures var front, last := posts[..|posts| - 1], posts[|posts| - 1];
            var e := last.edge;
            e < |cfgs| == |logs| && cfgs[e].Valid() && EndToEnd.Numbered(logs[e])
            && var r := RuntimeOutbox.Reached(DeliveriesOf(posts, e));
               var before := RuntimeOutbox.Reached(DeliveriesOf(front, e));
               1 <= r <= |logs[e]| && (before == r || before == r - 1) && last.delivery.msg == logs[e][r - 1].msg
  {
    hide EndToEnd.Numbered, EndToEnd.Stutters, DeliveriesOf, RuntimeOutbox.Reached;
    var front, last := posts[..|posts| - 1], posts[|posts| - 1];
    var e := last.edge;
    OneMorePost(posts, e);
    var ds := DeliveriesOf(posts, e);
    EndToEnd.StuttersBefore(logs[e], ds);
    assert ds[..|ds| - 1] == DeliveriesOf(front, e);
    LastDelivery(logs[e], ds, last.delivery);
  }

  /** Where it brings the heads. */
  lemma HeadsMove(cfgs: seq<EdgeConfig>, logs: seq<seq<Entered>>, posts: seq<Posted>)
    requires Orderly(cfgs, logs, posts) && posts != [] && Orderly(cfgs, logs, posts[..|posts| - 1])
    ensures var front, e := posts[..|posts| - 1], posts[|posts| - 1].edge;
            var r := RuntimeOutbox.Reached(DeliveriesOf(posts, e));
            && Within(logs, Ends(posts, |logs|)) && Within(logs, Ends(front, |logs|))
            && e < |logs| && r <= |logs[e]| && RuntimeOutbox.Reached(DeliveriesOf(front, e)) <= |logs[e]|
            && Heads(logs, posts) == Heads(logs, front)[e := logs[e][..r]]
            && Heads(logs, front)[e] == logs[e][..RuntimeOutbox.Reached(DeliveriesOf(front, e))]
  {
    var front, e := posts[..|posts| - 1], posts[|posts| - 1].edge;
    DeliveryMoves(cfgs, logs, posts);
    HeadsFit(cfgs, logs, posts);
    HeadsFit(cfgs, logs, front);
    hide Orderly, DeliveriesOf, RuntimeOutbox.Reached;
    EndsMove(posts, |logs|);
    CutMove(logs, Ends(front, |logs|), e, RuntimeOutbox.Reached(DeliveriesOf(posts, e)));
  }

  lemma LastDelivery(log: seq<Entered>, ds: seq<Delivered>, d: Delivered)
    requires EndToEnd.Stutters(log, ds) && ds != [] && ds[|ds| - 1] == d
    ensures 1 <= RuntimeOutbox.Reached(ds) <= |log| && d.msg == log[RuntimeOutbox.Reached(ds) - 1].msg
  {
    hide RuntimeOutbox.Collapse;
  }

  /** One more delivery: a repeat changes nothing, and a new telemetry message adds its row. */
  lemma PostHolds(lib: Library, cfgs: seq<EdgeConfig>, logs: seq<seq<Entered>>, posts: seq<Posted>)
    requires Distinct(cfgs) && Orderly(cfgs, logs, posts) && posts != [] && Orderly(cfgs, logs, posts[..|posts| - 1])
    requires var f := Feed(lib, [], Topic(lib, cfgs, posts[..|posts| - 1]));
             f.error.None? && Holds(lib, cfgs, Heads(logs, posts[..|posts| - 1]), f.table)
    ensures var f := Feed(lib, [], Topic(lib, cfgs, posts));
            f.error.None? && Holds(lib, cfgs, Heads(logs, posts), f.table)
  {
    hide Feed, Holds, EndToEnd.Numbered, RuntimeOutbox.Reached, Orderly, Within, Ends, Heads, DeliveriesOf, Distinct,
        Wire;
    HeadsFit(cfgs, logs, posts);
    HeadsFit(cfgs, logs, posts[..|posts| - 1]);
    DeliveryMoves(cfgs, logs, posts);
    HeadsMove(cfgs, logs, posts);
    var front, last := posts[..|posts| - 1], posts[|posts| - 1];
    var e := last.edge;
    assert Topic(lib, cfgs, posts)
        == Topic(lib, cfgs, front)
           + if last.delivery.msg.Telemetry? then [Wire(lib, cfgs[e], last.delivery.msg)] else [];
    MessageHolds(lib, cfgs, logs, Heads(logs, front), Topic(lib, cfgs, front), e, last.delivery.msg,
                 RuntimeOutbox.Reached(DeliveriesOf(posts, e)), RuntimeOutbox.Reached(DeliveriesOf(front, e)));
  }

  /** The same for a message m, which is row r of edge e, after rows before of that edge. */
  lemma MessageHolds(lib: Library, cfgs: seq<EdgeConfig>, logs: seq<seq<Entered>>, heads: seq<seq<Entered>>,
                     topic: seq<Payload>, e: nat, m: Msg, r: nat, before: nat)
    requires Distinct(cfgs) && |logs| == |heads| == |cfgs| && e < |cfgs| && cfgs[e].Valid()
    requires EndToEnd.Numbered(logs[e]) && 1 <= r <= |logs[e]| && (before == r || before == r - 1)
    requires m == logs[e][r - 1].msg && heads[e] == logs[e][..before]
    requires Feed(lib, [], topic).error.None? && Holds(lib, cfgs, heads, Feed(lib, [], topic).table)
    ensures var f := Feed(lib, [], topic + if m.Telemetry? then [Wire(lib, cfgs[e], m)] else []);
            f.error.None? && Holds(lib, cfgs, heads[e := logs[e][..r]], f.table)
  {
    hide EndToEnd.RowFor, Wire, Take, Holds, EndToEnd.Numbered, EndToEnd.Rows, Feed, HasKey, Distinct;
    var cfg, log, t := cfgs[e], logs[e], Feed(lib, [], topic).table;
    assert topic + [] == topic;
    if before == r {
      assert heads[e := log[..r]] == heads;
    } else {
      assert log[..r] == log[..r - 1] + [log[r - 1]];
      EndToEnd.RowsOneMore(lib, cfg, log[..r - 1], log[r - 1]);
    }
    if m.Telemetry? {
      EndToEnd.FeedOneMoreMessage(lib, [], topic, Wire(lib, cfg, m));
      EndToEnd.TakeWire(lib, cfg, t, m);
      KeyIsFree(lib, cfgs, logs, heads, t, e, r, before);
      if before == r - 1 {
        HoldsOneMore(lib, cfgs, heads, t, e, log[..r], EndToEnd.RowFor(lib, cfg, m));
      }
    } else if before == r - 1 {
      assert EndToEnd.Rows(lib, cfg, log[..r - 1]) + [] == EndToEnd.Rows(lib, cfg, log[..r - 1]);
      HoldsSame(lib, cfgs, heads, t, e, log[..r]);
    }
  }

  /** The key of a telemetry message is in the table exactly when the message was delivered before. */
  lemma KeyIsFree(lib: Library, cfgs: seq<EdgeConfig>, logs: seq<seq<Entered>>, heads: seq<seq<Entered>>, t: Table,
                  e: nat, r: nat, before: nat)
    requires Distinct(cfgs) && |logs| == |heads| == |cfgs| && e < |cfgs| && EndToEnd.Numbered(logs[e])
    requires Holds(lib, cfgs, heads, t) && 1 <= r <= |logs[e]| && (before == r || before == r - 1)
    requires heads[e] == logs[e][..before] && logs[e][r - 1].msg.Telemetry?
    ensures HasKey(t, EndToEnd.RowFor(lib, cfgs[e], logs[e][r - 1].msg).key) <==> before == r
  {
    hide Wire, EventId, EndToEnd.Rows, EndToEnd.Numbered, AllRows;
    var row := EndToEnd.RowFor(lib, cfgs[e], logs[e][r - 1].msg);
    if before == r {
      EndToEnd.RowsExact(lib, cfgs[e], heads[e]);
      assert heads[e][r - 1] == logs[e][r - 1];
      assert row in EndToEnd.Rows(lib, cfgs[e], heads[e]);
      RowOfSomeEdge(lib, cfgs, heads, row);
      assert row in multiset(t);
      var i :| 0 <= i < |t| && t[i] == row;
    } else {
      forall i | 0 <= i < |t| ensures t[i].key != row.key {
        assert t[i] in multiset(t);
        KeyOfOneEdge(lib, cfgs, logs, heads, e, r - 1, t[i]);
      }
    }
  }

  // ----- every reachable state -----

  ghost predicate AllValid(cfgs: seq<EdgeConfig>) {
    forall e :: 0 <= e < |cfgs| ==> cfgs[e].Valid()
  }

  ghost predicate Linked(lib: Library, cfgs: seq<EdgeConfig>, s: System)
    requires |s.edges| == |cfgs|
  {
    && s.bridge.telemetry == Topic(lib, cfgs, s.posts)
    && (forall e :: 0 <= e < |cfgs| ==> DeliveriesOf(s.posts, e) == s.edges[e].ledger.delivered)
    && (forall k :: 0 <= k < |s.posts| ==> s.posts[k].edge < |cfgs|)
    && s.saved <= s.high
    && OnePass(lib, s.bridge.telemetry, s.high, s.table)
  }

  function Logs(s: System): (logs: seq<seq<Entered>>)
    ensures |logs| == |s.edges| && forall e :: 0 <= e < |logs| ==> logs[e] == s.edges[e].ledger.log
  {
    seq(|s.edges|, e requires 0 <= e < |s.edges| => s.edges[e].ledger.log)
  }

  lemma EdgewiseAlways(lib: Library, cfgs: seq<EdgeConfig>, events: seq<Event>, e: nat)
    requires e < |cfgs|
    ensures var h := Reach(lib, cfgs, events).edges[e].ledger;
            EndToEnd.Numbered(h.log) && EndToEnd.Stutters(h.log, h.delivered)
  {
    hide Run, Reach, RuntimeOutbox.Collapse, Writable;
    EdgesRun(lib, cfgs, events, e);
    var actions := ActionsOf(events, e);
    RuntimeOutbox.StutteringFifo(cfgs[e], actions);
    RuntimeOutbox.FreshNumbers(cfgs[e], actions);
    RuntimeLog.LogIsWritable(cfgs[e], actions);
  }

  /** Whoever posted it, a topic can be read in one pass. */
  lemma {:induction false} TopicFeeds(lib: Library, cfgs: seq<EdgeConfig>, posts: seq<Posted>)
    requires AllValid(cfgs)
    ensures Feed(lib, [], Topic(lib, cfgs, posts)).error.None?
  {
    hide Wire, Take, EndToEnd.RowFor;
    if posts != [] {
      var front, last := posts[..|posts| - 1], posts[|posts| - 1];
      TopicFeeds(lib, cfgs, front);
      if last.edge < |cfgs| && last.delivery.msg.Telemetry? {
        var m := last.delivery.msg;
        EndToEnd.TakeWire(lib, cfgs[last.edge], Feed(lib, [], Topic(lib, cfgs, front)).table, m);
        EndToEnd.FeedOneMoreMessage(lib, [], Topic(lib, cfgs, front), Wire(lib, cfgs[last.edge], m));
      }
    }
  }

  /** One more post goes to the end of the topic, and to the deliveries of its edge alone. */
  lemma PostLinks(lib: Library, cfgs: seq<EdgeConfig>, posts: seq<Posted>, p: Posted)
    requires p.edge < |cfgs|
    ensures Topic(lib, cfgs, posts + [p])
         == Topic(lib, cfgs, posts)
            + if p.delivery.msg.Telemetry? then [Wire(lib, cfgs[p.edge], p.delivery.msg)] else []
    ensures forall e :: 0 <= e < |cfgs| ==>
              DeliveriesOf(posts + [p], e) == DeliveriesOf(posts, e) + if e == p.edge then [p.delivery] else []
  {
    hide Wire;
    assert (posts + [p])[..|posts|] == posts;
  }

  lemma EdgeKeeps(lib: Library, cfgs: seq<EdgeConfig>, s: System, e: nat, a: Action)
    requires |s.edges| == |cfgs| && AllValid(cfgs) && Linked(lib, cfgs, s)
    requires e < |cfgs| ==> var h := EdgeMoves(lib, cfgs, s, e, a).edges[e].ledger;
                            EndToEnd.Numbered(h.log) && EndToEnd.Stutters(h.log, h.delivered)
    ensures Linked(lib, cfgs, EdgeMoves(lib, cfgs, s, e, a))
  {
    hide Step, Wire, OnePass, Bridge.Publish, Topic, DeliveriesOf;
    if e < |cfgs| {
      var s' := EdgeMoves(lib, cfgs, s, e, a);
      EndToEnd.StepDelivers(cfgs[e], s.edges[e], a);
      var ds, ds' := s.edges[e].ledger.delivered, s'.edges[e].ledger.delivered;
      if |ds'| > |ds| {
        var d := ds'[|ds|];
        PostLinks(lib, cfgs, s.posts, Posted(e, d));
        assert Writable(s'.edges[e].ledger.log[d.id - 1].msg);
        EndToEnd.PublishWire(lib, cfgs[e], s.bridge, d.msg);
        assert ds' == ds + [d];
      }
      EndToEnd.TopicGrows(lib, s.bridge.telemetry, s'.bridge.telemetry, s.high, s.table);
    }
  }

  lemma ConsumerKeeps(lib: Library, cfgs: seq<EdgeConfig>, s: System, offset: nat, limit: nat, cut: Option<nat>)
    requires |s.edges| == |cfgs| && AllValid(cfgs) && Linked(lib, cfgs, s)
    ensures Linked(lib, cfgs, ConsumerMoves(lib, s, offset, limit, cut))
  {
    hide Consume, OnePass, Topic, Initial;
    var n := if cut.Some? && cut.value < limit then cut.value else limit;
    if offset <= s.saved && n > 0 {
      TopicFeeds(lib, cfgs, s.posts);
      ConsumeSucceeds(lib, s.bridge.telemetry, s.high, s.table, offset, n);
      ConsumeKeepsOnePass(lib, s.bridge.telemetry, s.high, s.table, offset, n);
    }
  }

  lemma {:induction false} AlwaysLinked(lib: Library, cfgs: seq<EdgeConfig>, events: seq<Event>)
    requires AllValid(cfgs)
    ensures Linked(lib, cfgs, Reach(lib, cfgs, events))
  {
    hide Linked, EdgeMoves, ConsumerMoves, EndToEnd.Numbered, EndToEnd.Stutters;
    if events == [] {
      StartLinked(lib, cfgs);
    } else {
      var front, last := events[..|events| - 1], events[|events| - 1];
      AlwaysLinked(lib, cfgs, front);
      match last
      case Edge(e, a) =>
        if e < |cfgs| {
          EdgewiseAlways(lib, cfgs, events, e);
        }
        EdgeKeeps(lib, cfgs, Reach(lib, cfgs, front), e, a);
      case Consumer(offset, limit, cut) => ConsumerKeeps(lib, cfgs, Reach(lib, cfgs, front), offset, limit, cut);
    }
  }

  lemma StartLinked(lib: Library, cfgs: seq<EdgeConfig>)
    ensures Linked(lib, cfgs, Start(|cfgs|))
  {}

  // ----- exactly once, for all edges together -----

  /** Every outbox is empty and the consumer has handled the whole topic. */
  ghost predicate AllQuiet(s: System) {
    (forall e :: 0 <= e < |s.edges| ==> s.edges[e].box.rows == []) && s.saved == |s.bridge.telemetry|
  }

  /** When all is quiet the table is the telemetry ever committed by any edge, each once. */
  ghost predicate Exact(lib: Library, cfgs: seq<EdgeConfig>, s: System)
    requires |s.edges| == |cfgs|
  {
    AllQuiet(s) ==> Holds(lib, cfgs, Logs(s), s.table)
  }

  lemma ExactlyOnce(lib: Library, cfgs: seq<EdgeConfig>, events: seq<Event>)
    requires AllValid(cfgs) && Distinct(cfgs)
    ensures Exact(lib, cfgs, Reach(lib, cfgs, events))
  {
    hide Reach, Run, Topic, DeliveriesOf, Holds, EndToEnd.Numbered, EndToEnd.Stutters, Distinct;
    AlwaysLinked(lib, cfgs, events);
    var s := Reach(lib, cfgs, events);
    if AllQuiet(s) {
      forall e | 0 <= e < |cfgs| ensures AtEnd(Logs(s)[e], DeliveriesOf(s.posts, e)) {
        EdgewiseAlways(lib, cfgs, events, e);
        EdgesRun(lib, cfgs, events, e);
        DeliveredAll(cfgs[e], ActionsOf(events, e));
      }
      assert Orderly(cfgs, Logs(s), s.posts);
      RepeatsCollapse(lib, cfgs, Logs(s), s.posts);
      HeadsFit(cfgs, Logs(s), s.posts);
      HeadsAtEnd(Logs(s), s.posts);
      assert s.bridge.telemetry[..s.high] == s.bridge.telemetry;
    }
  }

  /** The deliveries stutter through the whole log. */
  ghost predicate AtEnd(log: seq<Entered>, ds: seq<Delivered>) {
    EndToEnd.Numbered(log) && EndToEnd.Stutters(log, ds) && RuntimeOutbox.Reached(ds) == |log|
  }

  lemma DeliveredAll(cfg: EdgeConfig, actions: seq<Action>)
    ensures var s := Run(cfg, actions);
            s.box.rows == [] ==> RuntimeOutbox.Reached(s.ledger.delivered) == |s.ledger.log|
  {
    hide Run, RuntimeOutbox.Collapse;
    RuntimeOutbox.StutteringFifo(cfg, actions);
    RuntimeOutbox.OutboxIsUnacknowledgedTail(cfg, actions);
  }

  lemma HeadsAtEnd(logs: seq<seq<Entered>>, posts: seq<Posted>)
    requires forall e :: 0 <= e < |logs| ==> AtEnd(logs[e], DeliveriesOf(posts, e))
    requires Within(logs, Ends(posts, |logs|))
    ensures Heads(logs, posts) == logs
  {
    hide DeliveriesOf, RuntimeOutbox.Reached, EndToEnd.Stutters, EndToEnd.Numbered;
    var heads := Heads(logs, posts);
    forall e | 0 <= e < |logs| ensures heads[e] == logs[e] {
      assert AtEnd(logs[e], DeliveriesOf(posts, e));
    }
  }

  // ----- two edges that share run and stream -----

  lemma StepKeepsLog(cfg: EdgeConfig, s: State, a: Action)
    ensures s.ledger.log <= Step(cfg, s, a).ledger.log
  {
    hide Decide, LastSequence, Reserve, InsertAll;
  }

  lemma {:induction false} AfterKeepsLog(cfg: EdgeConfig, s: State, actions: seq<Action>)
    ensures s.ledger.log <= RuntimeWakeup.After(cfg, s, actions).ledger.log
    decreases |actions|
  {
    hide Step;
    if actions != [] {
      StepKeepsLog(cfg, s, actions[0]);
      AfterKeepsLog(cfg, Step(cfg, s, actions[0]), actions[1..]);
    }
  }

  const STILL := Sampling.SensorSummary(0.0, 0.0, 0.0, 0.0)

  /** A window becomes the first row of the log, and the collector ends. */
  lemma FirstTelemetry(cfg: EdgeConfig) returns (s: State)
    requires cfg.queueSize > 0
    ensures RuntimeWitness.Reachable(cfg, s) && s.col.COff? && RuntimeWakeup.SenderUp(s)
    ensures |s.ledger.log| > 0 && s.ledger.log[0].msg.Telemetry? && s.ledger.log[0].msg.seqNo == 1
  {
    hide RuntimeWitness.Reachable, InsertAll, Decide;
    s := RuntimeWitness.Given(cfg, Collector.Window(Sampling.WindowSummary("t", 1, STILL, STILL)));
    s := RuntimeWitness.Spools(cfg, s);
    s := RuntimeWitness.Spools(cfg, s);
    if s.spl.d.emit {
      s := RuntimeWitness.Spools(cfg, s);
    }
    s := RuntimeWitness.Spools(cfg, s);
    assert s.spl.SSet? && s.ledger.log[0].msg.Telemetry?;
    s := RuntimeWitness.Collects(cfg, s, Finish);
    s := RuntimeWitness.Collects(cfg, s, Finish);
    s := RuntimeWitness.Collects(cfg, s, Finish);
  }

  function Rounds(n: nat): (rounds: seq<seq<Action>>)
    ensures |rounds| == n
    ensures forall i :: 0 <= i < n ==> rounds[i] == [SpoolerStep("t"), SenderStep(Passed, "t")]
  {
    seq(n, i => [SpoolerStep("t"), SenderStep(Passed, "t")])
  }

  /** A run of one edge that has sent a telemetry message with number one and has nothing left to send. */
  lemma SendsOne(cfg: EdgeConfig) returns (actions: seq<Action>)
    requires cfg.Valid()
    ensures var s := Run(cfg, actions);
            s.box.rows == [] && |s.ledger.log| > 0 && s.ledger.log[0].msg.Telemetry? && s.ledger.log[0].msg.seqNo == 1
  {
    var s := FirstTelemetry(cfg);
    var run :| Run(cfg, run) == s;
    hide Run, Step, RuntimeWakeup.Potential, RuntimeWakeup.SenderUp;
    var rounds := Rounds(RuntimeWakeup.Potential(s));
    forall i | 0 <= i < |rounds| ensures RuntimeWakeup.Fair(rounds[i]) {
      RoundIsFair(rounds[i]);
    }
    RuntimeWakeup.DrainTerminates(cfg, run, rounds);
    actions := run + RuntimeWakeup.Flat(rounds);
    RuntimeWakeup.AfterIsRun(cfg, run);
    RuntimeWakeup.AfterIsRun(cfg, actions);
    RuntimeWakeup.AfterAppend(cfg, Initial(), run, RuntimeWakeup.Flat(rounds));
    AfterKeepsLog(cfg, s, RuntimeWakeup.Flat(rounds));
  }

  lemma RoundIsFair(round: seq<Action>)
    requires round == [SpoolerStep("t"), SenderStep(Passed, "t")]
    ensures RuntimeWakeup.Fair(round)
  {
    assert round[0].SpoolerStep? && round[1].SenderStep?;
  }

  function Of(e: nat, actions: seq<Action>): (events: seq<Event>)
    ensures |events| == |actions| && forall i :: 0 <= i < |actions| ==> events[i] == Edge(e, actions[i])
  {
    seq(|actions|, i requires 0 <= i < |actions| => Edge(e, actions[i]))
  }

  lemma {:induction false} ActionsOfAppend(events: seq<Event>, e: nat, actions: seq<Action>, f: nat)
    ensures ActionsOf(events + Of(e, actions), f) == ActionsOf(events, f) + if e == f then actions else []
  {
    hide Step;
    var all := events + Of(e, actions);
    if actions == [] {
      assert all == events;
      assert ActionsOf(events, f) + [] == ActionsOf(events, f);
    } else {
      var front := actions[..|actions| - 1];
      ActionsOfAppend(events, e, front, f);
      assert all[..|all| - 1] == events + Of(e, front);
      assert actions == front + [actions[|actions| - 1]];
      if e == f {
        assert ActionsOf(events, f) + actions == ActionsOf(events, f) + front + [actions[|actions| - 1]];
      }
    }
  }

  /** Both edges send a telemetry message with number one, and the consumer handles all there is. */
  lemma BothSend(lib: Library, cfgs: seq<EdgeConfig>, i: nat, j: nat) returns (events: seq<Event>)
    requires AllValid(cfgs) && i < j < |cfgs|
    ensures var s := Reach(lib, cfgs, events);
            && AllQuiet(s)
            && (forall e :: e == i || e == j ==>
                  var log := s.edges[e].ledger.log; |log| > 0 && log[0].msg.Telemetry? && log[0].msg.seqNo == 1)
  {
    hide Run, Reach, ActionsOf, Linked;
    var a := SendsOne(cfgs[i]);
    var b := SendsOne(cfgs[j]);
    var sent := [] + Of(i, a) + Of(j, b);
    var s := Reach(lib, cfgs, sent);
    forall e | 0 <= e < |cfgs| ensures s.edges[e] == Run(cfgs[e], if e == i then a else if e == j then b else []) {
      EdgesRun(lib, cfgs, sent, e);
      ActionsOfAppend([], i, a, e);
      ActionsOfAppend([] + Of(i, a), j, b, e);
      NoActions(e);
      assert ActionsOf(sent, e) == if e == i then a else if e == j then b else [];
    }
    var last := Consumer(0, |s.bridge.telemetry| + 1, None);
    events := sent + [last];
    ReachOneMore(lib, cfgs, sent, last);
    AlwaysLinked(lib, cfgs, sent);
    CatchesUp(lib, cfgs, s);
    forall e | 0 <= e < |cfgs| ensures e != i && e != j ==> s.edges[e].box.rows == [] {
      NothingRun(cfgs[e]);
    }
  }

  lemma NoActions(e: nat)
    ensures ActionsOf([], e) == []
  {}

  lemma NothingRun(cfg: EdgeConfig)
    ensures Run(cfg, []).box.rows == []
  {}

  lemma ReachOneMore(lib: Library, cfgs: seq<EdgeConfig>, events: seq<Event>, c: Event)
    requires c.Consumer?
    ensures Reach(lib, cfgs, events + [c]) == ConsumerMoves(lib, Reach(lib, cfgs, events), c.offset, c.limit, c.cut)
  {
    hide ConsumerMoves;
    assert (events + [c])[..|events|] == events;
  }

  lemma CatchesUp(lib: Library, cfgs: seq<EdgeConfig>, s: System)
    requires |s.edges| == |cfgs| && AllValid(cfgs) && Linked(lib, cfgs, s)
    ensures var s' := ConsumerMoves(lib, s, 0, |s.bridge.telemetry| + 1, None);
            s'.edges == s.edges && s'.bridge == s.bridge && s'.saved == |s.bridge.telemetry|
  {
    hide Feed, Topic, Initial, DeliveriesOf;
    TopicFeeds(lib, cfgs, s.posts);
    ConsumeSucceeds(lib, s.bridge.telemetry, s.high, s.table, 0, |s.bridge.telemetry| + 1);
  }

  /** Two rows with one key cannot both have a place in the table. */
  lemma OneKeyOneRow(lib: Library, cfgs: seq<EdgeConfig>, logs: seq<seq<Entered>>, t: Table, i: nat, j: nat)
    requires |logs| == |cfgs| && i < j < |cfgs| && Joined(cfgs[i]) == Joined(cfgs[j])
    requires forall e :: e == i || e == j ==> |logs[e]| > 0 && logs[e][0].msg.Telemetry? && logs[e][0].msg.seqNo == 1
    requires forall x, y :: 0 <= x < y < |t| ==> t[x].key != t[y].key
    ensures !Holds(lib, cfgs, logs, t)
  {
    hide Wire, EventId, EndToEnd.Rows;
    if Holds(lib, cfgs, logs, t) {
      var a, b := EndToEnd.RowFor(lib, cfgs[i], logs[i][0].msg), EndToEnd.RowFor(lib, cfgs[j], logs[j][0].msg);
      EventIdExact(cfgs[i].run, cfgs[i].stream, 1, cfgs[j].run, cfgs[j].stream, 1);
      assert a.key == b.key;
      EndToEnd.RowsExact(lib, cfgs[i], logs[i]);
      EndToEnd.RowsExact(lib, cfgs[j], logs[j]);
      TwoPlaces(lib, cfgs, logs, i, j, a, b);
      hide AllRows, Holds;
      if a == b {
        TwiceInTable(t, a);
      }
    }
  }

  lemma TwiceInTable(t: Table, row: Stored)
    requires forall x, y :: 0 <= x < y < |t| ==> t[x].key != t[y].key
    ensures multiset(t)[row] <= 1
  {
    if t != [] {
      var n := |t| - 1;
      TwiceInTable(t[..n], row);
      assert t == t[..n] + [t[n]];
      if row == t[n] {
        assert row !in t[..n];
      }
    }
  }

  /** Rows of two different edges are two rows of all. */
  lemma {:induction false} TwoPlaces(lib: Library, cfgs: seq<EdgeConfig>, logs: seq<seq<Entered>>, i: nat, j: nat,
                                     a: Stored, b: Stored)
    requires |logs| == |cfgs| && i < j < |cfgs|
    requires a in EndToEnd.Rows(lib, cfgs[i], logs[i]) && b in EndToEnd.Rows(lib, cfgs[j], logs[j])
    ensures a in AllRows(lib, cfgs, logs) && b in AllRows(lib, cfgs, logs)
    ensures a == b ==> AllRows(lib, cfgs, logs)[a] >= 2
  {
    hide EndToEnd.Rows;
    var n := |cfgs| - 1;
    RowOfSomeEdge(lib, cfgs, logs, a);
    RowOfSomeEdge(lib, cfgs, logs, b);
    if j < n {
      TwoPlaces(lib, cfgs[..n], logs[..n], i, j, a, b);
    } else {
      assert cfgs[..n][i] == cfgs[i] && logs[..n][i] == logs[i];
      RowOfSomeEdge(lib, cfgs[..n], logs[..n], a);
    }
  }

  /** Exactly once holds for a whole fleet, in every interleaving with every crash, failed send and replay, exactly
      when no two edges share their run and stream. Two devices of one section with the default run and stream do:
      their numbers are per device, so they issue the same event ids, and the table keeps one row for two messages. */
  lemma ExactlyOnceIffDistinct(lib: Library, cfgs: seq<EdgeConfig>)
    requires AllValid(cfgs)
    ensures Distinct(cfgs) <==> forall events :: Exact(lib, cfgs, Reach(lib, cfgs, events))
  {
    hide Exact, Reach;
    if Distinct(cfgs) {
      forall events ensures Exact(lib, cfgs, Reach(lib, cfgs, events)) {
        ExactlyOnce(lib, cfgs, events);
      }
    } else {
      var i, j :| 0 <= i < j < |cfgs| && Joined(cfgs[i]) == Joined(cfgs[j]);
      SharedIdentityLoses(lib, cfgs, i, j);
    }
  }

  lemma SharedIdentityLoses(lib: Library, cfgs: seq<EdgeConfig>, i: nat, j: nat)
    requires AllValid(cfgs) && i < j < |cfgs| && Joined(cfgs[i]) == Joined(cfgs[j])
    ensures exists events :: !Exact(lib, cfgs, Reach(lib, cfgs, events))
  {
    hide Reach, Holds, Topic, DeliveriesOf, Feed, IsFirst, Joined;
    var events := BothSend(lib, cfgs, i, j);
    AlwaysLinked(lib, cfgs, events);
    var s := Reach(lib, cfgs, events);
    FeedIsFirstWriteWins(lib, s.bridge.telemetry[..s.high]);
    OneKeyOneRow(lib, cfgs, Logs(s), s.table, i, j);
    assert !Exact(lib, cfgs, s);
  }
}
