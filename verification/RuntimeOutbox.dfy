/** The durable half of the protocol, over every run: the outbox mirrors the unacknowledged tail of
    the log, delivery is first-in first-out with repeats, only the head is ever retried, and
    sequence numbers are fresh across restarts. */
module RuntimeOutbox {
  import opened Prelude
  import opened Blackbox
  import opened Pipeline
  import opened Runtime

  // ----- which threads can be alive -----

  /** What start() and stop() guarantee about the workers at each point of the main thread. */
  ghost predicate Lifecycle(s: State) {
    && (s.main.MIdle? || s.main.MCheckBacklog? || s.main.MSetDrain? || s.main.MStartSpooler? ==> s.spl.SOff?)
    && (s.main.MStopSender? || s.main.MWakeSender? || s.main.MJoinSender? ==> s.spl.SOff?)
    && (!s.main.MRunning? && !s.main.MJoinCollector? ==> s.col.COff?)
    && (s.main.MIdle? ==> s.snd.NOff?)
  }

  lemma RecordingShape(sh: Shared, stage: Stage)
    ensures var (sh', next) := RecordFailure(sh, stage);
            && sh'.queue == sh.queue && sh'.transitions == sh.transitions
            && (sh.failed || stage == ToRecord ==> sh'.failed)
  {}

  lemma MainShape(s: State)
    ensures var s' := Main(s);
            && s'.box == s.box && s'.ledger == s.ledger && s'.made == s.made && s'.life == s.life
            && (s'.spl == s.spl || (s.main.MStartSpooler? && s'.spl.STop?))
            && (s'.col == s.col || (s.main.MStartCollector? && s'.col.CTop?))
            && (s'.snd == s.snd || (s.main.MIdle? && s'.snd.NTop?))
  {}

  lemma CollectorShape(cfg: EdgeConfig, s: State, choice: CollectorChoice)
    ensures var s' := Collect(cfg, s, choice);
            && s'.box == s.box && s'.ledger == s.ledger && s'.life == s.life
            && s'.main == s.main && s'.spl == s.spl && s'.snd == s.snd
            && (s.col.COff? ==> s' == s)
  {}

  lemma SpoolerShape(cfg: EdgeConfig, s: State, now: Stamp)
    ensures var s' := Spool(cfg, s, now);
            && s'.main == s.main && s'.col == s.col && s'.snd == s.snd
            && (s.spl.SOff? ==> s' == s)
  {}

  lemma SenderShape(cfg: EdgeConfig, s: State, outcome: SendOutcome, now: Stamp)
    ensures var s' := Send(cfg, s, outcome, now);
            && s'.main == s.main && s'.col == s.col && s'.spl == s.spl && s'.made == s.made
            && s'.box.nextId == s.box.nextId && s'.box.sequences == s.box.sequences
            && (s.snd.NOff? ==> s' == s)
  {}

  lemma MainLifecycle(s: State)
    requires Lifecycle(s)
    ensures Lifecycle(Main(s))
  {}

  lemma LifecycleKept(cfg: EdgeConfig, s: State, a: Action)
    requires Lifecycle(s)
    ensures Lifecycle(Step(cfg, s, a))
  {
    match a
    case MainStep => MainLifecycle(s);
    case CollectorStep(choice) => CollectorShape(cfg, s, choice);
    case SpoolerStep(now) => SpoolerShape(cfg, s, now);
    case SenderStep(outcome, now) => SenderShape(cfg, s, outcome, now);
    case _ =>
  }

  // ----- the outbox mirrors the tail of the log -----

  /** The row that entry k of the log became. */
  ghost function RowAt(cfg: EdgeConfig, h: Ledger, k: nat): Row<Msg>
    requires k < |h.log|
  {
    Row(k + 1, EntryOf(cfg, h.log[k].msg, h.log[k].msg), h.refusals[k + 1])
  }

  ghost predicate Mirrors(cfg: EdgeConfig, rows: seq<Row<Msg>>, nextId: nat, h: Ledger) {
    && h.acked + |rows| == |h.log|
    && nextId == |h.log| + 1
    && (forall i :: 0 <= i < |rows| ==> rows[i] == RowAt(cfg, h, h.acked + i))
    && (forall id :: id in h.refusals ==> 1 <= id <= h.acked + 1 && id <= |h.log|)
  }

  // ----- the sender's snapshot -----

  ghost predicate BatchFits(rows: seq<Row<Msg>>, h: Ledger, snd: SenderPc) {
    match snd
    case NSend(batch) => batch <= rows
    case NRefused(batch) => batch != [] && batch <= rows
    case NAccepted(batch) => batch != [] && batch <= rows && Reached(h.delivered) == h.acked + 1
    case NAcked(rest) => rest <= rows
    case _ => true
  }

  // ----- what the transport has passed on -----

  function Reached(ds: seq<Delivered>): nat {
    if ds == [] then 0 else ds[|ds| - 1].id
  }

  /** The ids delivered, with adjacent repeats removed. */
  function Collapse(ds: seq<Delivered>): seq<nat> {
    if ds == [] then []
    else
      var front := ds[..|ds| - 1];
      if front != [] && Reached(front) == Reached(ds) then Collapse(front) else Collapse(front) + [Reached(ds)]
  }

  function OneTo(n: nat): (r: seq<nat>)
    ensures |r| == n && forall i :: 0 <= i < n ==> r[i] == i + 1
  {
    seq(n, i requires 0 <= i < n => i + 1)
  }

  ghost predicate InOrder(h: Ledger) {
    Prefixed(h) && Faithful(h)
  }

  /** Without repeats, the ids delivered are 1, 2, ... up to one past the acknowledged ones at most. */
  ghost predicate Prefixed(h: Ledger) {
    && h.acked <= Reached(h.delivered) <= h.acked + 1
    && Collapse(h.delivered) == OneTo(Reached(h.delivered))
  }

  /** Each delivery carries the logged message of its id, and ids never go back. */
  ghost predicate Faithful(h: Ledger) {
    && Reached(h.delivered) <= |h.log|
    && (forall i :: 0 <= i < |h.delivered| ==> 1 <= h.delivered[i].id <= Reached(h.delivered))
    && (forall i :: 0 <= i < |h.delivered| ==> h.delivered[i].msg == h.log[h.delivered[i].id - 1].msg)
    && (forall i, j :: 0 <= i < j < |h.delivered| ==> h.delivered[i].id <= h.delivered[j].id)
  }

  // ----- sequence numbers -----

  /** Every number ever reserved is in the log, burned, or in the spooler's hand. */
  ghost predicate Sequenced(h: Ledger, last: nat, hand: seq<nat>) {
    && last == |h.log| + h.burned + |hand|
    && (forall i :: 0 <= i < |hand| ==> hand[i] == last - |hand| + 1 + i)
    && (forall i :: 0 <= i < |h.log| ==> i + 1 <= h.log[i].msg.seqNo <= i + 1 + h.burned)
    && (forall i :: 0 <= i < |h.log| ==> h.log[i].msg.seqNo <= last - |hand|)
    && (forall i, j :: 0 <= i < j < |h.log| ==> h.log[i].msg.seqNo < h.log[j].msg.seqNo)
    && h.burned <= 2 * (h.crashes + h.spoolerFailures)
  }

  /** The hand holds what its program counter says it holds. */
  ghost predicate HandFits(spl: SpoolerPc) {
    match spl
    case SReadError(it, _) => it.item.ReadError?
    case SDecided(it, d) => it.item.Window?
    case SNumbered(it, d, _) => it.item.Window?
    case SIncident(it, d, _, _) => it.item.Window? && d.emit
    case _ => true
  }

  ghost predicate Outbox(cfg: EdgeConfig, s: State) {
    && Mirrors(cfg, s.box.rows, s.box.nextId, s.ledger)
    && BatchFits(s.box.rows, s.ledger, s.snd)
    && InOrder(s.ledger)
    && Sequenced(s.ledger, LastSequence(s.box, cfg.site.deviceId), InFlight(s.spl))
    && HandFits(s.spl)
  }

  ghost predicate Inv(cfg: EdgeConfig, s: State) {
    Lifecycle(s) && Outbox(cfg, s)
  }

  // ----- steps that leave the tables alone -----

  lemma MainKeeps(cfg: EdgeConfig, s: State)
    requires Inv(cfg, s)
    ensures Outbox(cfg, Main(s))
  {
    MainShape(s);
  }

  /** Burning the numbers in hand, at a crash or a failure, loses at most two. */
  lemma BurnKeeps(h: Ledger, h': Ledger, last: nat, hand: seq<nat>)
    requires Sequenced(h, last, hand) && |hand| <= 2
    requires h'.log == h.log && h'.burned == h.burned + |hand|
    requires h'.crashes + h'.spoolerFailures == h.crashes + h.spoolerFailures + 1
    ensures Sequenced(h', last, [])
  {}

  lemma SameTail(cfg: EdgeConfig, rows: seq<Row<Msg>>, nextId: nat, h: Ledger, h': Ledger)
    requires h'.log == h.log && h'.acked == h.acked && h'.refusals == h.refusals && h'.delivered == h.delivered
    ensures Mirrors(cfg, rows, nextId, h) ==> Mirrors(cfg, rows, nextId, h')
    ensures InOrder(h) ==> InOrder(h')
  {
    if Mirrors(cfg, rows, nextId, h) {
      forall i | 0 <= i < |rows| ensures rows[i] == RowAt(cfg, h', h'.acked + i) {
        assert rows[i] == RowAt(cfg, h, h.acked + i);
      }
    }
  }

  lemma SameBatch(rows: seq<Row<Msg>>, h: Ledger, h': Ledger, snd: SenderPc)
    requires BatchFits(rows, h, snd) && h'.acked == h.acked && h'.delivered == h.delivered
    ensures BatchFits(rows, h', snd)
  {}

  lemma CrashKeeps(cfg: EdgeConfig, s: State)
    requires Outbox(cfg, s)
    ensures Outbox(cfg, CrashAndRebuild(s))
  {
    hide Mirrors, InOrder, Sequenced, LastSequence;
    var s' := CrashAndRebuild(s);
    SameTail(cfg, s.box.rows, s.box.nextId, s.ledger, s'.ledger);
    BurnKeeps(s.ledger, s'.ledger, LastSequence(s.box, cfg.site.deviceId), InFlight(s.spl));
  }

  lemma SpoolerFailureKeeps(cfg: EdgeConfig, s: State)
    requires Outbox(cfg, s)
    ensures Outbox(cfg, SpoolerFailure(s))
  {
    hide Mirrors, InOrder, Sequenced, BatchFits, LastSequence;
    if !s.spl.SOff? && !s.spl.SFailing? {
      var s' := SpoolerFailure(s);
      SameBatch(s.box.rows, s.ledger, s'.ledger, s.snd);
      SameTail(cfg, s.box.rows, s.box.nextId, s.ledger, s'.ledger);
      BurnKeeps(s.ledger, s'.ledger, LastSequence(s.box, cfg.site.deviceId), InFlight(s.spl));
    }
  }

  /** A process that ends in order has nothing in flight. */
  lemma RebuildKeeps(cfg: EdgeConfig, s: State)
    requires Lifecycle(s) && Outbox(cfg, s)
    ensures Outbox(cfg, EndAndRebuild(s))
  {}

  // ----- the spooler -----

  /** None of the keys about to be inserted is in the table. */
  lemma KeysAreFree(cfg: EdgeConfig, s: State, ms: seq<Msg>)
    requires Outbox(cfg, s) && |ms| == |InFlight(s.spl)|
    requires forall i :: 0 <= i < |ms| ==> ms[i].seqNo == InFlight(s.spl)[i]
    ensures InsertAll(s.box, Entries(cfg, ms))
         == s.box.(rows := s.box.rows + NewRows(s.box.nextId, Entries(cfg, ms)), nextId := s.box.nextId + |ms|)
  {
    var es := Entries(cfg, ms);
    forall i, j | 0 <= i < |s.box.rows| && 0 <= j < |es| ensures !SameKey(s.box.rows[i].entry, es[j]) {
      assert s.box.rows[i] == RowAt(cfg, s.ledger, s.ledger.acked + i);
    }
    InsertAllFresh(s.box, es);
  }

  /** Appending the same messages to the table and to the log keeps them in step. */
  lemma AppendMirrors(cfg: EdgeConfig, rows: seq<Row<Msg>>, nextId: nat, h: Ledger, h': Ledger, ms: seq<Msg>,
                      item: Option<nat>)
    requires Mirrors(cfg, rows, nextId, h)
    requires h'.log == h.log + Logged(ms, h.txns, item) && h'.acked == h.acked && h'.refusals == h.refusals
    ensures Mirrors(cfg, rows + NewRows(nextId, Entries(cfg, ms)), nextId + |ms|, h')
  {
    var rows' := rows + NewRows(nextId, Entries(cfg, ms));
    forall i | 0 <= i < |rows'| ensures rows'[i] == RowAt(cfg, h', h'.acked + i) {
      if i < |rows| {
        assert rows[i] == RowAt(cfg, h, h.acked + i);
      } else {
        assert h'.log[h'.acked + i] == Logged(ms, h.txns, item)[i - |rows|];
        assert h'.refusals[h'.acked + i + 1] == 0;
      }
    }
  }

  lemma AppendSequenced(h: Ledger, h': Ledger, ms: seq<Msg>, item: Option<nat>, last: nat, hand: seq<nat>)
    requires Sequenced(h, last, hand) && |ms| == |hand|
    requires forall i :: 0 <= i < |ms| ==> ms[i].seqNo == hand[i]
    requires h'.log == h.log + Logged(ms, h.txns, item)
    requires h'.burned == h.burned && h'.crashes == h.crashes && h'.spoolerFailures == h.spoolerFailures
    ensures Sequenced(h', last, [])
  {
    forall i | |h.log| <= i < |h'.log| ensures h'.log[i].msg.seqNo == last - |hand| + 1 + i - |h.log| {
      assert h'.log[i] == Logged(ms, h.txns, item)[i - |h.log|];
    }
  }

  lemma AppendInOrder(h: Ledger, h': Ledger)
    requires InOrder(h) && h.log <= h'.log && h'.acked == h.acked && h'.delivered == h.delivered
    ensures InOrder(h')
  {}

  lemma CommitKeeps(cfg: EdgeConfig, s: State, ms: seq<Msg>, item: Option<nat>, next: SpoolerPc)
    requires Outbox(cfg, s) && |ms| == |InFlight(s.spl)|
    requires forall i :: 0 <= i < |ms| ==> ms[i].seqNo == InFlight(s.spl)[i]
    requires next.SDrainSet? || next.SSet?
    ensures Outbox(cfg, Commit(cfg, s, ms, item, next))
  {
    KeysAreFree(cfg, s, ms);
    OutboxAfterCommit(cfg, s, Commit(cfg, s, ms, item, next), ms, item);
  }

  lemma OutboxAfterCommit(cfg: EdgeConfig, s: State, s': State, ms: seq<Msg>, item: Option<nat>)
    requires Outbox(cfg, s) && |ms| == |InFlight(s.spl)|
    requires forall i :: 0 <= i < |ms| ==> ms[i].seqNo == InFlight(s.spl)[i]
    requires s'.box == s.box.(rows := s.box.rows + NewRows(s.box.nextId, Entries(cfg, ms)),
                              nextId := s.box.nextId + |ms|)
    requires s'.ledger == s.ledger.(log := s.ledger.log + Logged(ms, s.ledger.txns, item), txns := s.ledger.txns + 1)
    requires s'.snd == s.snd && InFlight(s'.spl) == [] && HandFits(s'.spl)
    ensures Outbox(cfg, s')
  {
    AppendMirrors(cfg, s.box.rows, s.box.nextId, s.ledger, s'.ledger, ms, item);
    AppendSequenced(s.ledger, s'.ledger, ms, item, LastSequence(s.box, cfg.site.deviceId), InFlight(s.spl));
    AppendInOrder(s.ledger, s'.ledger);
    BatchGrows(s.box.rows, s'.box.rows, s.ledger, s'.ledger, s.snd);
  }

  /** Appends do not disturb the sender's snapshot. */
  lemma BatchGrows(rows: seq<Row<Msg>>, rows': seq<Row<Msg>>, h: Ledger, h': Ledger, snd: SenderPc)
    requires BatchFits(rows, h, snd) && rows <= rows' && h'.acked == h.acked && h'.delivered == h.delivered
    ensures BatchFits(rows', h', snd)
  {}

  /** A step that commits nothing reserves at most one number, and keeps it in hand. */
  lemma QuietSpooler(cfg: EdgeConfig, s: State, now: Stamp)
    requires HandFits(s.spl) && Outgoing(s.spl, now).0 == []
    ensures var s' := Spool(cfg, s, now);
            && s'.ledger == s.ledger && s'.box.rows == s.box.rows && s'.box.nextId == s.box.nextId
            && HandFits(s'.spl)
            && (s'.box == s.box ==> InFlight(s'.spl) == InFlight(s.spl))
            && (s'.box != s.box ==>
                  && s'.box == Reserve(s.box, cfg.site.deviceId)
                  && InFlight(s'.spl) == InFlight(s.spl) + [LastSequence(s.box, cfg.site.deviceId) + 1])
  {
    assert Reserve(s.box, cfg.site.deviceId).sequences[cfg.site.deviceId] == NextNumber(cfg, s);
  }

  lemma OutgoingNumbers(spl: SpoolerPc, now: Stamp)
    requires HandFits(spl)
    ensures var ms := Outgoing(spl, now).0;
            ms != [] ==> |ms| == |InFlight(spl)| && forall i :: 0 <= i < |ms| ==> ms[i].seqNo == InFlight(spl)[i]
  {}

  lemma SpoolerKeeps(cfg: EdgeConfig, s: State, now: Stamp)
    requires Outbox(cfg, s)
    ensures Outbox(cfg, Spool(cfg, s, now))
  {
    var (ms, item) := Outgoing(s.spl, now);
    SpoolerShape(cfg, s, now);
    if ms != [] {
      OutgoingNumbers(s.spl, now);
      CommitKeeps(cfg, s, ms, item, if item.Some? then SSet else SDrainSet);
    } else {
      QuietSpooler(cfg, s, now);
    }
  }

  // ----- the sender -----

  /** The sender's other steps leave tables and ledger alone, and a snapshot they take fits. */
  lemma QuietSender(cfg: EdgeConfig, s: State, outcome: SendOutcome, now: Stamp)
    requires !s.snd.NSend? && !s.snd.NRefused? && !s.snd.NAccepted?
    requires BatchFits(s.box.rows, s.ledger, s.snd)
    ensures var s' := Send(cfg, s, outcome, now);
            && s'.box == s.box && s'.ledger == s.ledger && s'.spl == s.spl
            && BatchFits(s.box.rows, s.ledger, s'.snd)
  {
    hide Runtime.RecordFailure;
  }

  lemma SenderKeepsQuietly(cfg: EdgeConfig, s: State, outcome: SendOutcome, now: Stamp)
    requires Outbox(cfg, s)
    requires !s.snd.NSend? && !s.snd.NRefused? && !s.snd.NAccepted?
    ensures Outbox(cfg, Send(cfg, s, outcome, now))
  {
    hide Send, Mirrors, InOrder, Sequenced, BatchFits, HandFits;
    QuietSender(cfg, s, outcome, now);
  }

  lemma CollapseOneMore(ds: seq<Delivered>, d: Delivered)
    ensures Reached(ds + [d]) == d.id
    ensures Collapse(ds + [d]) == if ds != [] && Reached(ds) == d.id then Collapse(ds) else Collapse(ds) + [d.id]
  {
    assert (ds + [d])[..|ds|] == ds;
  }

  /** Delivering the head again or for the first time keeps the delivered log in order. */
  lemma DeliverInOrder(h: Ledger, h': Ledger)
    requires InOrder(h) && h.acked < |h.log|
    requires h'.log == h.log && h'.acked == h.acked
    requires h'.delivered == h.delivered + [Delivered(h.acked + 1, h.log[h.acked].msg)]
    ensures InOrder(h') && Reached(h'.delivered) == h.acked + 1
  {
    var d := Delivered(h.acked + 1, h.log[h.acked].msg);
    DeliverPrefix(h, h', d);
    DeliverFaithfully(h, h', d);
  }

  lemma DeliverPrefix(h: Ledger, h': Ledger, d: Delivered)
    requires Prefixed(h) && d.id == h.acked + 1
    requires h'.acked == h.acked && h'.delivered == h.delivered + [d]
    ensures Prefixed(h') && Reached(h'.delivered) == d.id
  {
    CollapseOneMore(h.delivered, d);
    assert OneTo(h.acked) + [h.acked + 1] == OneTo(h.acked + 1);
  }

  lemma DeliverFaithfully(h: Ledger, h': Ledger, d: Delivered)
    requires Faithful(h) && Reached(h.delivered) <= d.id && 1 <= d.id <= |h.log| && d.msg == h.log[d.id - 1].msg
    requires h'.log == h.log && h'.delivered == h.delivered + [d]
    ensures Faithful(h')
  {}

  lemma HeadIsNext(cfg: EdgeConfig, rows: seq<Row<Msg>>, nextId: nat, h: Ledger)
    requires Mirrors(cfg, rows, nextId, h) && rows != []
    ensures h.acked < |h.log| && rows[0].id == h.acked + 1 && rows[0].entry.payload == h.log[h.acked].msg
  {
    assert rows[0] == RowAt(cfg, h, h.acked + 0);
  }

  lemma PassOnKeeps(cfg: EdgeConfig, s: State, next: SenderPc)
    requires Outbox(cfg, s) && s.snd.NSend? && s.snd.batch != []
    requires next == NAccepted(s.snd.batch) || next == NRefused(s.snd.batch)
    ensures Outbox(cfg, PassOn(s, s.snd.batch[0], next))
  {
    var s' := PassOn(s, s.snd.batch[0], next);
    assert s.snd.batch[0] == s.box.rows[0];
    HeadIsNext(cfg, s.box.rows, s.box.nextId, s.ledger);
    DeliverInOrder(s.ledger, s'.ledger);
    SameRows(cfg, s.box.rows, s.box.nextId, s.ledger, s'.ledger);
    SameNumbers(s.ledger, s'.ledger, LastSequence(s.box, cfg.site.deviceId), InFlight(s.spl));
  }

  lemma SameNumbers(h: Ledger, h': Ledger, last: nat, hand: seq<nat>)
    requires Sequenced(h, last, hand)
    requires h'.log == h.log && h'.burned == h.burned && h'.crashes == h.crashes
        && h'.spoolerFailures == h.spoolerFailures
    ensures Sequenced(h', last, hand)
  {}

  lemma SameRows(cfg: EdgeConfig, rows: seq<Row<Msg>>, nextId: nat, h: Ledger, h': Ledger)
    requires h'.log == h.log && h'.acked == h.acked && h'.refusals == h.refusals
    requires Mirrors(cfg, rows, nextId, h)
    ensures Mirrors(cfg, rows, nextId, h')
  {
    forall i | 0 <= i < |rows| ensures rows[i] == RowAt(cfg, h', h'.acked + i) {
      assert rows[i] == RowAt(cfg, h, h.acked + i);
    }
  }

  /** A recorded failure changes the attempts of the head alone. */
  lemma RefusalMirrors(cfg: EdgeConfig, rows: seq<Row<Msg>>, nextId: nat, h: Ledger, h': Ledger)
    requires Mirrors(cfg, rows, nextId, h) && rows != []
    requires h'.log == h.log && h'.acked == h.acked && h'.refusals == h.refusals + multiset{h.acked + 1}
    ensures Mirrors(cfg, Bumped(rows, h.acked + 1), nextId, h')
  {
    var rows' := Bumped(rows, h.acked + 1);
    forall i | 0 <= i < |rows'| ensures rows'[i] == RowAt(cfg, h', h'.acked + i) {
      assert rows[i] == RowAt(cfg, h, h.acked + i);
    }
  }

  lemma RefusalKeeps(cfg: EdgeConfig, s: State)
    requires Outbox(cfg, s) && s.snd.NRefused?
    ensures Outbox(cfg, RecordRefusal(s, s.snd.batch[0].id))
  {
    var s' := RecordRefusal(s, s.snd.batch[0].id);
    assert s.snd.batch[0] == s.box.rows[0];
    HeadIsNext(cfg, s.box.rows, s.box.nextId, s.ledger);
    RefusalMirrors(cfg, s.box.rows, s.box.nextId, s.ledger, s'.ledger);
    SameNumbers(s.ledger, s'.ledger, LastSequence(s.box, cfg.site.deviceId), InFlight(s.spl));
  }

  /** Acknowledging removes the head and nothing else. */
  lemma AcknowledgeMirrors(cfg: EdgeConfig, rows: seq<Row<Msg>>, nextId: nat, h: Ledger, h': Ledger)
    requires Mirrors(cfg, rows, nextId, h) && rows != []
    requires h'.log == h.log && h'.acked == h.acked + 1 && h'.refusals == h.refusals
    ensures Without(rows, rows[0].id) == rows[1..]
    ensures Mirrors(cfg, rows[1..], nextId, h')
  {
    forall i | 0 <= i < |rows| ensures rows[i].id == h.acked + i + 1 {
      assert rows[i] == RowAt(cfg, h, h.acked + i);
    }
    WithoutExact(rows, rows[0].id, 0);
    assert rows[..0] + rows[1..] == rows[1..];
    forall i | 0 <= i < |rows[1..]| ensures rows[1..][i] == RowAt(cfg, h', h'.acked + i) {
      assert rows[i + 1] == RowAt(cfg, h, h.acked + (i + 1));
    }
  }

  lemma AcknowledgeKeeps(cfg: EdgeConfig, s: State)
    requires Outbox(cfg, s) && s.snd.NAccepted?
    ensures Outbox(cfg, AcknowledgeRow(s, s.snd.batch[0].id, s.snd.batch[1..]))
  {
    var batch, rows := s.snd.batch, s.box.rows;
    var s' := AcknowledgeRow(s, batch[0].id, batch[1..]);
    assert batch[0] == rows[0] && batch[1..] <= rows[1..];
    AcknowledgeMirrors(cfg, rows, s.box.nextId, s.ledger, s'.ledger);
    SameNumbers(s.ledger, s'.ledger, LastSequence(s.box, cfg.site.deviceId), InFlight(s.spl));
  }

  lemma SenderKeeps(cfg: EdgeConfig, s: State, outcome: SendOutcome, now: Stamp)
    requires Outbox(cfg, s)
    ensures Outbox(cfg, Send(cfg, s, outcome, now))
  {
    match s.snd
    case NSend(batch) =>
      if batch != [] && !outcome.RefusedBefore? {
        PassOnKeeps(cfg, s, if outcome.Passed? then NAccepted(batch) else NRefused(batch));
      }
    case NRefused(_) => RefusalKeeps(cfg, s);
    case NAccepted(_) => AcknowledgeKeeps(cfg, s);
    case _ => SenderKeepsQuietly(cfg, s, outcome, now);
  }

  // ----- every reachable state -----

  lemma StepKeeps(cfg: EdgeConfig, s: State, a: Action)
    requires Inv(cfg, s)
    ensures Inv(cfg, Step(cfg, s, a))
  {
    LifecycleKept(cfg, s, a);
    match a
    case MainStep => MainKeeps(cfg, s);
    case CollectorStep(choice) => CollectorShape(cfg, s, choice);
    case SpoolerStep(now) => SpoolerKeeps(cfg, s, now);
    case SenderStep(outcome, now) => SenderKeeps(cfg, s, outcome, now);
    case SpoolerFails => SpoolerFailureKeeps(cfg, s);
    case Rebuild => RebuildKeeps(cfg, s);
    case Crash => CrashKeeps(cfg, s);
    case _ =>
  }

  lemma {:induction false} Always(cfg: EdgeConfig, actions: seq<Action>)
    ensures Inv(cfg, Run(cfg, actions))
  {
    if actions != [] {
      Always(cfg, actions[..|actions| - 1]);
      StepKeeps(cfg, Run(cfg, actions[..|actions| - 1]), actions[|actions| - 1]);
    }
  }

  // ----- what this means for a run -----

  /** First in, first out, with repeats: in every run, whatever crashes and ambiguous send failures it
      contains, the delivered ids never go back, without adjacent repeats they are the positions
      1, 2, ..., d of the commit order, every delivery carries the message committed there, and the
      acknowledged rows are these d or all but the last of them. */
  lemma StutteringFifo(cfg: EdgeConfig, actions: seq<Action>)
    ensures var h := Run(cfg, actions).ledger;
            var d := Reached(h.delivered);
            && Collapse(h.delivered) == OneTo(d) && d <= |h.log|
            && (h.acked == d || h.acked + 1 == d)
            && (forall i :: 0 <= i < |h.delivered| ==> 1 <= h.delivered[i].id <= d)
            && (forall i :: 0 <= i < |h.delivered| ==> h.delivered[i].msg == h.log[h.delivered[i].id - 1].msg)
            && (forall i, j :: 0 <= i < j < |h.delivered| ==> h.delivered[i].id <= h.delivered[j].id)
  {
    Always(cfg, actions);
  }

  /** The outbox is always exactly the committed rows that are not acknowledged, in commit order.
      Only the head can have attempts, and they are its recorded failed sends, even across restarts. */
  lemma OutboxIsUnacknowledgedTail(cfg: EdgeConfig, actions: seq<Action>)
    ensures var s := Run(cfg, actions);
            var rows, h := s.box.rows, s.ledger;
            && h.acked + |rows| == |h.log|
            && (forall i :: 0 <= i < |rows| ==>
                  rows[i].id == h.acked + i + 1 && rows[i].entry.payload == h.log[h.acked + i].msg)
            && (forall i :: 0 < i < |rows| ==> rows[i].attempts == 0)
            && (rows != [] ==> rows[0].attempts == h.refusals[rows[0].id])
  {
    Always(cfg, actions);
    hide Run, InOrder, Sequenced, BatchFits, HandFits, Lifecycle;
    TailFacts(cfg, Run(cfg, actions).box.rows, Run(cfg, actions).box.nextId, Run(cfg, actions).ledger);
  }

  lemma TailFacts(cfg: EdgeConfig, rows: seq<Row<Msg>>, nextId: nat, h: Ledger)
    requires Mirrors(cfg, rows, nextId, h)
    ensures forall i :: 0 <= i < |rows| ==>
              rows[i].id == h.acked + i + 1 && rows[i].entry.payload == h.log[h.acked + i].msg
    ensures forall i :: 0 < i < |rows| ==> rows[i].attempts == 0
    ensures rows != [] ==> rows[0].attempts == h.refusals[rows[0].id]
  {
    forall i | 0 <= i < |rows|
      ensures rows[i].id == h.acked + i + 1 && rows[i].entry.payload == h.log[h.acked + i].msg
      ensures rows[i].attempts == if i == 0 then h.refusals[rows[i].id] else 0
    {
      assert rows[i] == RowAt(cfg, h, h.acked + i);
      assert i > 0 ==> h.refusals[h.acked + i + 1] == 0;
    }
  }

  /** All through the send loop the unsent rest of the snapshot is a prefix of the live outbox. */
  lemma SnapshotStaysValid(cfg: EdgeConfig, actions: seq<Action>)
    ensures var s := Run(cfg, actions);
            match s.snd
            case NSend(batch) => batch <= s.box.rows
            case NRefused(batch) => batch != [] && batch <= s.box.rows
            case NAccepted(batch) => batch != [] && batch <= s.box.rows
            case NAcked(rest) => rest <= s.box.rows
            case _ => true
  {
    Always(cfg, actions);
  }

  /** Numbers are strictly increasing in commit order over all process lifetimes. With n rows ever
      committed and c crashes and spooler failures, the allocator stands between n and n + 2c, not
      counting the at most two numbers in the spooler's hand; and with c = 0 the numbers are 1..n. A process
      that ends in order and a new one on the same tables count as neither. */
  lemma FreshNumbers(cfg: EdgeConfig, actions: seq<Action>)
    ensures var s := Run(cfg, actions);
            var log, c, hand := s.ledger.log, s.ledger.crashes + s.ledger.spoolerFailures, |InFlight(s.spl)|;
            && (forall i, j :: 0 <= i < j < |log| ==> log[i].msg.seqNo < log[j].msg.seqNo)
            && |log| + hand <= LastSequence(s.box, cfg.site.deviceId) <= |log| + hand + 2 * c
            && (c == 0 ==> forall i :: 0 <= i < |log| ==> log[i].msg.seqNo == i + 1)
  {
    Always(cfg, actions);
  }

  /** INSERT OR IGNORE never ignores a message of the runtime: each transaction adds all its rows. */
  lemma NothingIgnored(cfg: EdgeConfig, actions: seq<Action>, now: Stamp)
    ensures var s := Run(cfg, actions);
            var ms := Outgoing(s.spl, now).0;
            (ms != [] ==>
               Step(cfg, s, SpoolerStep(now)).box.rows == s.box.rows + NewRows(s.box.nextId, Entries(cfg, ms)))
  {
    Always(cfg, actions);
    var s := Run(cfg, actions);
    OutgoingNumbers(s.spl, now);
    if Outgoing(s.spl, now).0 != [] {
      KeysAreFree(cfg, s, Outgoing(s.spl, now).0);
    }
  }
}
