/** FixedRateCollector of edge/edge_monitor/processing.py: deadline scheduling and the
    assembly of reads into queue items, under an arbitrary clock, reader, stop signal and queue. */
module Collector {
  import opened Prelude
  import opened Sampling
  import Rules

  /** One call of the reader: the deadline in force, the clock when lateness was recorded, the
      time the reader was called, and the sample it gave or the name of the exception it raised. */
  datatype Read = Read(deadline: real, checked: real, started: real, sample: Result<PairedSample, string>)

  datatype Item = Window(summary: WindowSummary) | ReadError(error: IncompleteWindow)

  /** How a complete window is summarized; it may be asked only about windows of the full size. */
  type Aggregator = seq<PairedSample> --> WindowSummary

  function WindowAggregator(sqrt: RealFunction, size: nat): (f: Aggregator)
    requires size > 0
    ensures Fits(f, size)
  {
    (xs: seq<PairedSample>) requires |xs| == size => AggregateWindow(sqrt, xs, size).value
  }

  ghost predicate Fits(f: Aggregator, size: nat) {
    size > 0 && forall xs: seq<PairedSample> {:trigger f.requires(xs)} :: |xs| == size ==> f.requires(xs)
  }

  // ----- which items a sequence of reads amounts to -----

  function Failure(size: nat, got: nat, exception: string): IncompleteWindow {
    IncompleteWindow(size, got, "sensor_read_failed:" + exception)
  }

  /** Reads in order: the items completed so far and the samples of the window still open.
      A window is aggregated only when it is complete, so the aggregation cannot fail. */
  ghost function Assemble(f: Aggregator, size: nat, trace: seq<Read>): (r: (seq<Item>, seq<PairedSample>))
    requires Fits(f, size)
    ensures |r.1| < size
  {
    if trace == [] then ([], [])
    else
      var (items, open) := Assemble(f, size, trace[..|trace| - 1]);
      match trace[|trace| - 1].sample
      case Err(exception) => (items + [ReadError(Failure(size, |open|, exception))], [])
      case Ok(s) =>
        if |open| + 1 < size then (items, open + [s])
        else (items + [Window(f(open + [s]))], [])
  }

  predicate AllSampled(trace: seq<Read>) {
    forall i :: 0 <= i < |trace| ==> trace[i].sample.Ok?
  }

  function Samples(trace: seq<Read>): (xs: seq<PairedSample>)
    requires AllSampled(trace)
    ensures |xs| == |trace| && forall i :: 0 <= i < |trace| ==> xs[i] == trace[i].sample.value
  {
    seq(|trace|, i requires 0 <= i < |trace| => trace[i].sample.value)
  }

  /** An item made of exactly these reads and no others. */
  ghost predicate MadeOf(f: Aggregator, size: nat, item: Item, trace: seq<Read>)
    requires Fits(f, size)
  {
    match item
    case Window(w) => AllSampled(trace) && |trace| == size && w == f(Samples(trace))
    case ReadError(e) =>
      && 0 < |trace| <= size
      && AllSampled(trace[..|trace| - 1]) && trace[|trace| - 1].sample.Err?
      && e == Failure(size, |trace| - 1, trace[|trace| - 1].sample.error)
  }

  /** The number of reads behind an item. */
  function ReadsIn(item: Item, size: nat): nat {
    match item case Window(_) => size case ReadError(e) => e.actual + 1
  }

  /** The trace is cut into consecutive stretches, one per item and each item made of its own stretch. */
  ghost predicate Partitioned(f: Aggregator, size: nat, items: seq<Item>, trace: seq<Read>)
    requires Fits(f, size)
  {
    if items == [] then trace == []
    else
      var last := items[|items| - 1];
      var n := ReadsIn(last, size);
      && n <= |trace|
      && MadeOf(f, size, last, trace[|trace| - n..])
      && Partitioned(f, size, items[..|items| - 1], trace[..|trace| - n])
  }

  /** No read is used twice or skipped: one stretch per item, then the samples of the open window. */
  ghost predicate Accounts(f: Aggregator, size: nat, items: seq<Item>, open: seq<PairedSample>, trace: seq<Read>)
    requires Fits(f, size)
  {
    && |open| < size && |open| <= |trace|
    && Partitioned(f, size, items, trace[..|trace| - |open|])
    && AllSampled(trace[|trace| - |open|..]) && open == Samples(trace[|trace| - |open|..])
  }

  lemma {:induction false} ItemsPartitionReads(f: Aggregator, size: nat, trace: seq<Read>)
    requires Fits(f, size)
    ensures Accounts(f, size, Assemble(f, size, trace).0, Assemble(f, size, trace).1, trace)
  {
    hide Accounts;
    if trace == [] {
      NothingRead(f, size);
    } else {
      var front, r := trace[..|trace| - 1], trace[|trace| - 1];
      ItemsPartitionReads(f, size, front);
      var (items, open) := Assemble(f, size, front);
      assert trace == front + [r];
      if r.sample.Ok? && |open| + 1 < size {
        OneMoreSample(f, size, items, open, front, r);
      } else {
        var last := if r.sample.Err? then ReadError(Failure(size, |open|, r.sample.error))
            else Window(f(open + [r.sample.value]));
        OneMoreItem(f, size, items, open, front, r, last);
      }
    }
  }

  lemma NothingRead(f: Aggregator, size: nat)
    requires Fits(f, size)
    ensures Accounts(f, size, [], [], [])
  {}

  lemma OneMoreSample(f: Aggregator, size: nat, items: seq<Item>, open: seq<PairedSample>, front: seq<Read>, r: Read)
    requires Fits(f, size) && Accounts(f, size, items, open, front)
    requires r.sample.Ok? && |open| + 1 < size
    ensures Accounts(f, size, items, open + [r.sample.value], front + [r])
  {
    var n := |front| - |open|;
    assert (front + [r])[..n] == front[..n];
    assert (front + [r])[n..] == front[n..] + [r];
    assert open + [r.sample.value] == Samples((front + [r])[n..]);
  }

  lemma OneMoreItem(f: Aggregator, size: nat, items: seq<Item>, open: seq<PairedSample>, front: seq<Read>, r: Read,
                    last: Item)
    requires Fits(f, size) && Accounts(f, size, items, open, front)
    requires if r.sample.Err? then last == ReadError(Failure(size, |open|, r.sample.error))
             else |open| + 1 == size && last == Window(f(open + [r.sample.value]))
    ensures Accounts(f, size, items + [last], [], front + [r])
  {
    var n, trace := |front| - |open|, front + [r];
    assert trace[..n] == front[..n];
    assert trace[n..] == front[n..] + [r];
    LastStretch(f, size, front[n..], r, last);
    assert (items + [last])[..|items|] == items;
    assert trace[..|trace|] == trace && trace[|trace|..] == [];
  }

  lemma LastStretch(f: Aggregator, size: nat, stretch: seq<Read>, r: Read, last: Item)
    requires Fits(f, size) && AllSampled(stretch) && |stretch| < size
    requires if r.sample.Err? then last == ReadError(Failure(size, |stretch|, r.sample.error))
             else |stretch| + 1 == size && last == Window(f(Samples(stretch) + [r.sample.value]))
    ensures MadeOf(f, size, last, stretch + [r])
  {
    assert (stretch + [r])[..|stretch|] == stretch;
    if r.sample.Ok? {
      assert Samples(stretch) + [r.sample.value] == Samples(stretch + [r]);
    }
  }

  // ----- what the queued items say of their reads -----

  /** The reads spent on the first i items. */
  function ReadsBefore(size: nat, items: seq<Item>, i: nat): nat
    requires i <= |items|
  {
    if i == 0 then 0 else ReadsBefore(size, items, i - 1) + ReadsIn(items[i - 1], size)
  }

  lemma {:induction false} ReadsOfFront(size: nat, items: seq<Item>, k: nat, i: nat)
    requires i <= k <= |items|
    ensures ReadsBefore(size, items[..k], i) == ReadsBefore(size, items, i)
  {
    if i > 0 {
      ReadsOfFront(size, items, k, i - 1);
    }
  }

  lemma {:induction false} PartitionLength(f: Aggregator, size: nat, items: seq<Item>, trace: seq<Read>)
    requires Fits(f, size) && Partitioned(f, size, items, trace)
    ensures ReadsBefore(size, items, |items|) == |trace|
  {
    if items != [] {
      var n := ReadsIn(items[|items| - 1], size);
      PartitionLength(f, size, items[..|items| - 1], trace[..|trace| - n]);
      ReadsOfFront(size, items, |items| - 1, |items| - 1);
    }
  }

  /** Item i is made of the reads that follow those of the items before it. */
  lemma {:induction false} StretchOf(f: Aggregator, size: nat, items: seq<Item>, trace: seq<Read>, i: nat)
    requires Fits(f, size) && Partitioned(f, size, items, trace) && i < |items|
    ensures var a, n := ReadsBefore(size, items, i), ReadsIn(items[i], size);
            a + n <= |trace| && MadeOf(f, size, items[i], trace[a..a + n])
    decreases |items|
  {
    hide MadeOf;
    var last := |items| - 1;
    var n := ReadsIn(items[last], size);
    var front := trace[..|trace| - n];
    PartitionLength(f, size, items[..last], front);
    ReadsOfFront(size, items, last, last);
    if i < last {
      StretchOf(f, size, items[..last], front, i);
      ReadsOfFront(size, items, last, i);
      var a := ReadsBefore(size, items, i);
      assert front[a..a + ReadsIn(items[i], size)] == trace[a..a + ReadsIn(items[i], size)];
    } else {
      assert trace[|trace| - n..] == trace[|trace| - n..|trace| - n + n];
    }
  }

  /** A window has the time of its last sample and describes all its samples; an error names the failed read
      and how far the window had come. */
  ghost predicate Tells(size: nat, item: Item, stretch: seq<Read>) {
    match item
    case Window(w) =>
      && size > 0 && |stretch| == size && AllSampled(stretch)
      && w.sampleCount == size && w.measuredAt == Samples(stretch)[size - 1].measuredAt
      && Describes(w.top, Tops(Samples(stretch))) && Describes(w.bottom, Bottoms(Samples(stretch)))
    case ReadError(e) =>
      && stretch != [] && AllSampled(stretch[..|stretch| - 1]) && stretch[|stretch| - 1].sample.Err?
      && e.expected == size && e.actual == |stretch| - 1
      && e.reason == "sensor_read_failed:" + stretch[|stretch| - 1].sample.error
  }

  /** The items tell, one after another, of consecutive stretches of the trace. */
  ghost predicate TellInTurn(size: nat, items: seq<Item>, trace: seq<Read>) {
    forall i :: 0 <= i < |items| ==>
      var a, n := ReadsBefore(size, items, i), ReadsIn(items[i], size);
      a + n <= |trace| && Tells(size, items[i], trace[a..a + n])
  }

  lemma AssembledStretch(f: Aggregator, size: nat, trace: seq<Read>, i: nat)
    requires Fits(f, size) && i < |Assemble(f, size, trace).0|
    ensures var items := Assemble(f, size, trace).0;
            var a, n := ReadsBefore(size, items, i), ReadsIn(items[i], size);
            a + n <= |trace| && MadeOf(f, size, items[i], trace[a..a + n])
  {
    hide MadeOf, ReadsBefore, ReadsIn, Partitioned, Assemble;
    var (items, open) := Assemble(f, size, trace);
    ItemsPartitionReads(f, size, trace);
    var front := trace[..|trace| - |open|];
    StretchOf(f, size, items, front, i);
    var a, n := ReadsBefore(size, items, i), ReadsIn(items[i], size);
    assert front[a..a + n] == trace[a..a + n];
  }

  /** Whatever the reads were, the items that come of them tell of them. */
  lemma AssembledTell(sqrt: RealFunction, size: nat, trace: seq<Read>)
    requires IsSqrt(sqrt) && size > 0
    ensures TellInTurn(size, Assemble(WindowAggregator(sqrt, size), size, trace).0, trace)
  {
    hide MadeOf, ReadsBefore, ReadsIn, Assemble, Tells, WindowAggregator, Fits, IsSqrt;
    var f := WindowAggregator(sqrt, size);
    var items := Assemble(f, size, trace).0;
    forall i | 0 <= i < |items|
      ensures var a, n := ReadsBefore(size, items, i), ReadsIn(items[i], size);
              a + n <= |trace| && Tells(size, items[i], trace[a..a + n])
    {
      AssembledStretch(f, size, trace, i);
      var a, n := ReadsBefore(size, items, i), ReadsIn(items[i], size);
      MadeTells(sqrt, size, items[i], trace[a..a + n]);
    }
  }

  lemma MadeTells(sqrt: RealFunction, size: nat, item: Item, stretch: seq<Read>)
    requires IsSqrt(sqrt) && size > 0 && MadeOf(WindowAggregator(sqrt, size), size, item, stretch)
    ensures Tells(size, item, stretch)
  {
    hide Describes, IsSqrt;
    if item.Window? {
      WindowDescribes(sqrt, Samples(stretch), size);
    }
  }

  lemma WindowOfStretch(sqrt: RealFunction, size: nat, trace: seq<Read>, i: nat)
    requires size > 0
    requires var items := Assemble(WindowAggregator(sqrt, size), size, trace).0; i < |items| && items[i].Window?
    ensures var items := Assemble(WindowAggregator(sqrt, size), size, trace).0;
            var a := ReadsBefore(size, items, i);
            && a + size <= |trace| && AllSampled(trace[a..a + size])
            && items[i].summary == AggregateWindow(sqrt, Samples(trace[a..a + size]), size).value
  {
    hide ReadsBefore, Assemble;
    AssembledStretch(WindowAggregator(sqrt, size), size, trace, i);
  }

  /** A queued window whose own samples all keep under the warning limits is NORMAL. */
  lemma QueuedQuietIsNormal(sqrt: RealFunction, t: Rules.Thresholds, size: nat, trace: seq<Read>, i: nat)
    requires IsSqrt(sqrt) && t.Valid() && size > 0
    requires var items := Assemble(WindowAggregator(sqrt, size), size, trace).0; i < |items| && items[i].Window?
    ensures var items := Assemble(WindowAggregator(sqrt, size), size, trace).0;
            var a := ReadsBefore(size, items, i);
            && a + size <= |trace| && AllSampled(trace[a..a + size])
            && (Rules.Quiet(sqrt, t, Samples(trace[a..a + size])) ==>
                  Rules.StatusOf(t, items[i].summary) == Rules.Normal)
  {
    hide Rules.Quiet, Rules.StatusOf, IsSqrt, Assemble, ReadsBefore, WindowAggregator, AggregateWindow;
    WindowOfStretch(sqrt, size, trace, i);
    var items := Assemble(WindowAggregator(sqrt, size), size, trace).0;
    var a := ReadsBefore(size, items, i);
    QuietStretch(sqrt, t, size, Samples(trace[a..a + size]), items[i].summary);
  }

  lemma QuietStretch(sqrt: RealFunction, t: Rules.Thresholds, size: nat, xs: seq<PairedSample>, w: WindowSummary)
    requires IsSqrt(sqrt) && t.Valid() && |xs| == size > 0 && w == AggregateWindow(sqrt, xs, size).value
    ensures Rules.Quiet(sqrt, t, xs) ==> Rules.StatusOf(t, w) == Rules.Normal
  {
    hide Rules.Quiet, Rules.StatusOf, IsSqrt;
    if Rules.Quiet(sqrt, t, xs) {
      Rules.QuietWindowIsNormal(sqrt, t, xs);
    }
  }

  /** A queued window one of whose samples has the acceleration of the danger peak is DANGER. */
  lemma QueuedShockIsDanger(sqrt: RealFunction, t: Rules.Thresholds, size: nat, trace: seq<Read>, i: nat, k: nat)
    requires IsSqrt(sqrt) && t.Valid() && size > 0 && k < size
    requires var items := Assemble(WindowAggregator(sqrt, size), size, trace).0; i < |items| && items[i].Window?
    ensures var items := Assemble(WindowAggregator(sqrt, size), size, trace).0;
            var a := ReadsBefore(size, items, i);
            && a + size <= |trace| && trace[a + k].sample.Ok?
            && var x := trace[a + k].sample.value;
               (Energy(x.top) >= t.dangerPeak * t.dangerPeak || Energy(x.bottom) >= t.dangerPeak * t.dangerPeak ==>
                  Rules.StatusOf(t, items[i].summary) == Rules.Danger)
  {
    hide Energy, Magnitude, Rules.StatusOf, IsSqrt, Square, Assemble, ReadsBefore, WindowAggregator, AggregateWindow;
    WindowOfStretch(sqrt, size, trace, i);
    var items := Assemble(WindowAggregator(sqrt, size), size, trace).0;
    var a := ReadsBefore(size, items, i);
    var xs, x := Samples(trace[a..a + size]), trace[a + k].sample.value;
    assert xs[k] == x;
    EnergyReaches(sqrt, x.top, t.dangerPeak);
    EnergyReaches(sqrt, x.bottom, t.dangerPeak);
    if Magnitude(sqrt, x.top) >= t.dangerPeak || Magnitude(sqrt, x.bottom) >= t.dangerPeak {
      Rules.OneShockIsDanger(sqrt, t, xs, k);
    }
  }

  lemma EnergyReaches(sqrt: RealFunction, s: SensorSample, limit: real)
    requires IsSqrt(sqrt) && limit >= 0.0
    ensures Energy(s) >= limit * limit <==> Magnitude(sqrt, s) >= limit
  {
    hide Energy, Magnitude, IsSqrt;
    MagnitudeMeans(sqrt, s);
    SquareMonotone(limit, Magnitude(sqrt, s));
  }

  // ----- the schedule -----

  /** How one read can be followed by the next. The witness is the clock reading the code compares. */
  ghost predicate FollowsAt(period: real, size: nat, a: Read, b: Read, c: real) {
    && c >= a.started
    && b.checked <= b.started
    && if a.sample.Err? then b.deadline == c + period * size as real && b.checked >= c
       else if a.deadline + period - c > 0.0 then b.deadline == a.deadline + period && b.checked >= b.deadline
       else if a.deadline + period - c < -period then c <= b.deadline <= b.checked
       else b.deadline == a.deadline + period && b.checked >= c
  }

  ghost predicate Follows(period: real, size: nat, a: Read, b: Read) {
    exists c: real :: FollowsAt(period, size, a, b, c)
  }

  ghost predicate Schedule(period: real, size: nat, trace: seq<Read>) {
    && (trace != [] ==> trace[0].deadline <= trace[0].checked <= trace[0].started)
    && forall i :: 0 <= i < |trace| - 1 ==> Follows(period, size, trace[i], trace[i + 1])
  }

  /** One step: after a successful read the deadline moves on by at least a period, it is at
      most a period behind that read, and the next read waits for it. */
  lemma StepPaced(period: real, size: nat, a: Read, b: Read)
    requires period > 0.0 && Follows(period, size, a, b) && a.sample.Ok?
    ensures b.deadline >= a.deadline + period
    ensures b.deadline >= a.started - period
    ensures b.deadline <= b.checked <= b.started
  {
    var c :| FollowsAt(period, size, a, b, c);
  }

  /** The first read, and every read after a successful one, waits for its deadline. */
  lemma NeverEarly(period: real, size: nat, trace: seq<Read>, j: nat)
    requires period > 0.0 && Schedule(period, size, trace) && j < |trace|
    requires j == 0 || trace[j - 1].sample.Ok?
    ensures trace[j].deadline <= trace[j].started
  {
    if j > 0 {
      assert Follows(period, size, trace[j - 1], trace[j - 1 + 1]);
      StepPaced(period, size, trace[j - 1], trace[j]);
    }
  }

  /** The successful reads among i, ..., j - 1. */
  function Successes(trace: seq<Read>, i: nat, j: nat): nat
    requires i <= j <= |trace|
  {
    if i == j then 0 else Successes(trace, i, j - 1) + if trace[j - 1].sample.Ok? then 1 else 0
  }

  function Periods(n: nat, period: real): real {
    n as real * period
  }

  lemma {:induction false} SuccessesSplit(trace: seq<Read>, i: nat, j: nat, k: nat)
    requires i <= j <= k <= |trace|
    ensures Successes(trace, i, k) == Successes(trace, i, j) + Successes(trace, j, k)
  {
    if j < k {
      SuccessesSplit(trace, i, j, k - 1);
    }
  }

  /** A deadline lies at most a window after the start of the read it is for. */
  lemma DeadlineInReach(period: real, size: nat, trace: seq<Read>, k: nat)
    requires period > 0.0 && Schedule(period, size, trace) && k < |trace|
    ensures trace[k].deadline <= trace[k].started + period * size as real
  {
    Positive(period, size);
    if k > 0 {
      assert Follows(period, size, trace[k - 1], trace[k - 1 + 1]);
      if trace[k - 1].sample.Ok? {
        StepPaced(period, size, trace[k - 1], trace[k]);
      }
    }
  }

  lemma Positive(period: real, size: nat)
    requires period > 0.0
    ensures period * size as real >= 0.0
  {}

  /** One step: a deadline never moves back, and it moves on by at least a period after a success; and the
      reads start one after another. */
  lemma DeadlineAdvances(period: real, size: nat, trace: seq<Read>, k: nat)
    requires period > 0.0 && Schedule(period, size, trace) && k + 1 < |trace|
    ensures trace[k + 1].deadline >= trace[k].deadline + if trace[k].sample.Ok? then period else 0.0
    ensures trace[k + 1].started >= trace[k].started
  {
    assert Follows(period, size, trace[k], trace[k + 1]);
    if trace[k].sample.Ok? {
      StepPaced(period, size, trace[k], trace[k + 1]);
    } else {
      DeadlineInReach(period, size, trace, k);
    }
  }

  /** Over any stretch, read failures included, the deadline moves on by a period per success. */
  lemma {:induction false} DeadlinesAdvance(period: real, size: nat, trace: seq<Read>, i: nat, j: nat)
    requires period > 0.0 && Schedule(period, size, trace) && i <= j < |trace|
    ensures trace[j].deadline >= trace[i].deadline + Periods(Successes(trace, i, j), period)
    ensures trace[j].started >= trace[i].started
  {
    hide Schedule, Periods;
    NoPeriod(period);
    if i < j {
      DeadlinesAdvance(period, size, trace, i, j - 1);
      DeadlineAdvances(period, size, trace, j - 1);
      OneMorePeriod(Successes(trace, i, j - 1), period);
    }
  }

  lemma NoPeriod(period: real)
    ensures Periods(0, period) == 0.0
  {}

  lemma OneMorePeriod(n: nat, period: real)
    ensures Periods(n + 1, period) == Periods(n, period) + period
  {}

  lemma AfterSuccess(period: real, size: nat, trace: seq<Read>, i: nat)
    requires period > 0.0 && Schedule(period, size, trace) && i + 1 < |trace| && trace[i].sample.Ok?
    ensures trace[i + 1].deadline >= trace[i].started - period
  {
    assert Follows(period, size, trace[i], trace[i + 1]);
    StepPaced(period, size, trace[i], trace[i + 1]);
  }

  lemma {:induction false} LastSuccess(trace: seq<Read>, i: nat, j: nat) returns (k: nat)
    requires i < j <= |trace| && trace[i].sample.Ok?
    ensures i <= k < j && trace[k].sample.Ok? && Successes(trace, i, k + 1) == Successes(trace, i, j)
  {
    if trace[j - 1].sample.Ok? {
      k := j - 1;
    } else {
      k := LastSuccess(trace, i, j - 1);
    }
  }

  /** No burst of samples: after a successful read i, whatever the reader, the sleeper and the queue cost and
      whichever reads fail in between, read j starts at least as many periods later as there were successful
      reads from i on, less two. */
  lemma NoBurst(period: real, size: nat, trace: seq<Read>, i: nat, j: nat)
    requires period > 0.0 && Schedule(period, size, trace)
    requires i < j < |trace| && trace[i].sample.Ok?
    ensures trace[j].started >= trace[i].started + Periods(Successes(trace, i, j), period) - 2.0 * period
  {
    hide Schedule, Periods;
    var k := LastSuccess(trace, i, j);
    SuccessesSplit(trace, i, i + 1, k + 1);
    assert Successes(trace, i, i + 1) == 1 by { assert Successes(trace, i, i) == 0; }
    AfterSuccess(period, size, trace, i);
    DeadlinesAdvance(period, size, trace, i + 1, k + 1);
    NeverEarly(period, size, trace, k + 1);
    DeadlinesAdvance(period, size, trace, k + 1, j);
    OneMorePeriod(Successes(trace, i, j) - 1, period);
  }

  /** It is attempts, not samples, that may burst: a failed read moves the deadline a whole window ahead but
      does not sleep, so the schedule admits n failing reads at the same instant. */
  lemma FailuresMayBurst(period: real, size: nat, n: nat, exception: string)
    requires period > 0.0 && size > 0
    ensures var trace := seq(n, i => Read(if i == 0 then 0.0 else period * size as real, 0.0, 0.0, Err(exception)));
            Schedule(period, size, trace) && forall i :: 0 <= i < n ==> trace[i].started == 0.0
  {
    var trace: seq<Read> := seq(n, i => Read(if i == 0 then 0.0 else period * size as real, 0.0, 0.0, Err(exception)));
    forall i | 0 <= i < n - 1 ensures Follows(period, size, trace[i], trace[i + 1]) {
      assert FollowsAt(period, size, trace[i], trace[i + 1], 0.0);
    }
  }

  /** What the loop knows between two reads: a read at any time from now on, under this deadline, fits. */
  ghost predicate Ready(period: real, size: nat, trace: seq<Read>, deadline: real, now: real) {
    if trace == [] then deadline <= now
    else Follows(period, size, trace[|trace| - 1], Read(deadline, now, now, Err("")))
  }

  lemma ScheduleExtends(period: real, size: nat, trace: seq<Read>, next: Read, now: real)
    requires Schedule(period, size, trace)
    requires Ready(period, size, trace, next.deadline, now) && now <= next.checked <= next.started
    ensures Schedule(period, size, trace + [next])
  {
    var longer := trace + [next];
    if trace != [] {
      var last := trace[|trace| - 1];
      var c :| FollowsAt(period, size, last, Read(next.deadline, now, now, Err("")), c);
      assert FollowsAt(period, size, last, next, c);
    }
    forall i | 0 <= i < |longer| - 1 ensures Follows(period, size, longer[i], longer[i + 1]) {
      if i < |trace| - 1 {
        assert Follows(period, size, trace[i], trace[i + 1]);
      }
    }
  }

  // ----- lateness -----

  function Later(a: real, b: real): real { if a < b then b else a }

  function WorstLateness(initial: real, trace: seq<Read>): real {
    if trace == [] then initial
    else
      var last := trace[|trace| - 1];
      Later(WorstLateness(initial, trace[..|trace| - 1]), Later(0.0, (last.checked - last.deadline) * 1000.0))
  }

  /** The lateness of a read, in milliseconds. */
  function Lateness(r: Read): real {
    (r.checked - r.deadline) * 1000.0
  }

  /** The lateness kept is the largest there was: of the reads, before them, or none. */
  lemma {:induction false} LatenessExact(initial: real, trace: seq<Read>)
    ensures var worst := WorstLateness(initial, trace);
            && initial <= worst && (trace != [] ==> 0.0 <= worst)
            && (forall i :: 0 <= i < |trace| ==> Lateness(trace[i]) <= worst)
            && (worst == initial || worst == 0.0 || exists i :: 0 <= i < |trace| && worst == Lateness(trace[i]))
  {
    if trace != [] {
      var front, last := trace[..|trace| - 1], trace[|trace| - 1];
      LatenessExact(initial, front);
      var before, worst := WorstLateness(initial, front), WorstLateness(initial, trace);
      assert Lateness(last) <= worst && before <= worst;
      forall i | 0 <= i < |trace| ensures Lateness(trace[i]) <= worst {
        if i < |front| {
          assert Lateness(front[i]) <= before;
        }
      }
      if i :| 0 <= i < |front| && before == Lateness(front[i]) {
        assert before == Lateness(trace[i]);
      }
      assert worst == before || worst == 0.0 || worst == Lateness(trace[|trace| - 1]);
    }
  }

  /** The surroundings of the collector. Time only moves forward, a sleep lasts at least as long as
      asked, and a stop signal once seen stays set; everything else is arbitrary. */
  class Surroundings {
    var now: real
    const stoppable: bool
    var checksBeforeStop: nat

    constructor (now: real, stoppable: bool, checksBeforeStop: nat)
      ensures this.now == now && this.stoppable == stoppable && this.checksBeforeStop == checksBeforeStop
    {
      this.now, this.stoppable, this.checksBeforeStop := now, stoppable, checksBeforeStop;
    }

    method Clock() returns (t: real)
      modifies this`now
      ensures t == now >= old(now)
    {
      var passed: real := *;
      now := now + if passed < 0.0 then 0.0 else passed;
      t := now;
    }

    method Sleep(d: real)
      modifies this`now
      ensures now >= old(now) + d && now >= old(now)
    {
      var over: real := *;
      now := now + (if d < 0.0 then 0.0 else d) + if over < 0.0 then 0.0 else over;
    }

    method ReadSensors() returns (started: real, sample: Result<PairedSample, string>)
      modifies this`now
      ensures old(now) <= started <= now
    {
      started := Clock();
      var outcome: Result<PairedSample, string> := *;
      sample := outcome;
      var t := Clock();
    }

    predicate Stopped()
      reads this
    {
      stoppable && checksBeforeStop == 0
    }

    method StopIsSet() returns (b: bool)
      modifies this`checksBeforeStop
      ensures b == old(Stopped())
      ensures old(checksBeforeStop) > 0 ==> checksBeforeStop == old(checksBeforeStop) - 1
      ensures old(checksBeforeStop) == 0 ==> checksBeforeStop == 0
    {
      b := stoppable && checksBeforeStop == 0;
      checksBeforeStop := if checksBeforeStop == 0 then 0 else checksBeforeStop - 1;
    }
  }

  lemma AtLeastOne(a: nat, b: nat)
    requires a > 0 && b > 0 && a % b == 0
    ensures a / b > 0
  {}

  class FixedRateCollector {
    const aggregate: Aggregator
    ghost const root: RealFunction    // math.sqrt
    const period: real
    const windowSize: nat
    var maxLateness: real
    ghost var trace: seq<Read>        // the reads of the current or last call
    ghost var queued: seq<Item>       // what that call has put
    ghost var latenessBefore: real    // maxLateness when it began

    ghost predicate Valid()
    {
      period > 0.0 && windowSize > 0 && aggregate == WindowAggregator(root, windowSize)
    }

    /** The reads so far form a schedule, and the lateness kept is the worst among them. */
    ghost predicate Consistent()
      reads this
    {
      Valid() && Schedule(period, windowSize, trace) && maxLateness == WorstLateness(latenessBefore, trace)
    }

    constructor (sqrt: RealFunction, sampleRate: nat, telemetryRate: nat)
      requires sampleRate > 0 && telemetryRate > 0 && sampleRate % telemetryRate == 0
      ensures Valid() && windowSize == sampleRate / telemetryRate > 0 && root == sqrt
      ensures period == 1.0 / sampleRate as real
      ensures maxLateness == 0.0 && trace == [] && queued == []
    {
      AtLeastOne(sampleRate, telemetryRate);
      period, windowSize := 1.0 / sampleRate as real, sampleRate / telemetryRate;
      aggregate, root := WindowAggregator(sqrt, sampleRate / telemetryRate), sqrt;
      maxLateness, trace, queued, latenessBefore := 0.0, [], [], 0.0;
    }

    /** One read with its bookkeeping, and after a success the wait for the next deadline. */
    method TakeSample(env: Surroundings, deadline: real) returns (sample: Result<PairedSample, string>, next: real)
      requires Consistent() && Ready(period, windowSize, trace, deadline, env.now)
      modifies this`maxLateness, this`trace, env`now
      ensures env.now >= old(env.now)
      ensures |trace| == |old(trace)| + 1 && trace[..|old(trace)|] == old(trace)
      ensures trace[|old(trace)|].sample == sample && trace[|old(trace)|].started <= env.now
      ensures Consistent()
      ensures sample.Ok? ==> Ready(period, windowSize, trace, next, env.now)
    {
      var checked := env.Clock();
      maxLateness := Later(maxLateness, Later(0.0, (checked - deadline) * 1000.0));
      var started;
      started, sample := env.ReadSensors();
      ghost var done := Read(deadline, checked, started, sample);
      ScheduleExtends(period, windowSize, trace, done, old(env.now));
      trace := trace + [done];
      next := deadline;
      if sample.Ok? {
        next := deadline + period;
        var c := env.Clock();
        var remaining := next - c;
        if remaining > 0.0 {
          env.Sleep(remaining);
        } else if remaining < -period {
          next := env.Clock();
        }
        assert FollowsAt(period, windowSize, done, Read(next, env.now, env.now, Err("")), c);
      }
    }

    /** The item a finished window becomes. */
    function ItemOf(window: seq<PairedSample>, exception: Option<string>): Item
      requires Valid() && (exception.Some? || |window| == windowSize)
    {
      if exception.Some? then ReadError(Failure(windowSize, |window|, exception.value))
      else Window(aggregate(window))
    }

    /** The inner loop: reads until the window is full, a read fails, or the stop signal is seen. */
    method CollectWindow(env: Surroundings, deadline: real) returns (window: seq<PairedSample>,
                                                                     exception: Option<string>, next: real)
      requires Consistent() && Ready(period, windowSize, trace, deadline, env.now)
      requires Assemble(aggregate, windowSize, trace) == (queued, [])
      modifies this`maxLateness, this`trace, env
      ensures Consistent() && env.checksBeforeStop <= old(env.checksBeforeStop)
      ensures if exception.Some? || |window| == windowSize then
                Assemble(aggregate, windowSize, trace) == (queued + [ItemOf(window, exception)], [])
              else
                Assemble(aggregate, windowSize, trace) == (queued, window) && env.Stopped()
      ensures if exception.Some? then trace != [] && trace[|trace| - 1].sample.Err?
          && trace[|trace| - 1].started <= env.now
              else Ready(period, windowSize, trace, next, env.now)
    {
      window, exception, next := [], None, deadline;
      while |window| < windowSize
        invariant Consistent() && |window| <= windowSize
        invariant env.checksBeforeStop <= old(env.checksBeforeStop)
        invariant Assemble(aggregate, windowSize, trace)
               == if |window| < windowSize then (queued, window) else (queued + [ItemOf(window, None)], [])
        invariant Ready(period, windowSize, trace, next, env.now)
        decreases windowSize - |window|
      {
        var stop := env.StopIsSet();
        if stop {
          return;
        }
        ghost var before := trace;
        var sample;
        sample, next := TakeSample(env, next);
        assert trace[..|trace| - 1] == before;
        if sample.Err? {
          exception := Some(sample.error);
          return;
        }
        window := window + [sample.value];
      }
    }

    /** Waits for room; gives up only when the stop signal is seen while the queue is full. */
    method Put(env: Surroundings, item: Item) returns (done: bool)
      modifies this`queued, env`checksBeforeStop
      ensures done ==> queued == old(queued) + [item]
      ensures !done ==> queued == old(queued) && env.Stopped()
      ensures env.checksBeforeStop <= old(env.checksBeforeStop)
    {
      var fullTimeouts: nat := *;
      while fullTimeouts > 0
        modifies env`checksBeforeStop
        invariant env.checksBeforeStop <= old(env.checksBeforeStop)
      {
        var stop := env.StopIsSet();
        if stop {
          return false;
        }
        fullTimeouts := fullTimeouts - 1;
      }
      queued := queued + [item];
      done := true;
    }

    /** Runs until `count` items are queued or the stop signal is seen. The result is an error only
        when a stop arrives while a finished item is still waiting for room in the queue. */
    method CollectToQueue(env: Surroundings, count: Option<nat>) returns (r: Result<nat, Item>)
      requires Valid()
      requires count.None? ==> env.stoppable
      modifies this, env
      ensures Consistent() && latenessBefore == old(maxLateness)
      ensures match r
              case Ok(produced) =>
                && queued == Assemble(aggregate, windowSize, trace).0 && produced == |queued|
                && (count.Some? ==> produced <= count.value)
                && (!env.Stopped() ==> count == Some(produced) && Assemble(aggregate, windowSize, trace).1 == [])
              case Err(dropped) =>
                Assemble(aggregate, windowSize, trace) == (queued + [dropped], []) && env.Stopped()
      ensures IsSqrt(root) ==> TellInTurn(windowSize, if r.Ok? then queued else queued + [r.error], trace)
    {
      trace, queued, latenessBefore := [], [], maxLateness;
      var deadline := env.Clock();
      var produced := 0;
      while count.None? || produced < count.value
        invariant produced == |queued| && (count.Some? ==> produced <= count.value)
        invariant Assemble(aggregate, windowSize, trace) == (queued, [])
        invariant Consistent() && latenessBefore == old(maxLateness)
            && Ready(period, windowSize, trace, deadline, env.now)
        decreases if count.Some? then count.value - produced else env.checksBeforeStop
      {
        var stop := env.StopIsSet();
        if stop {
          break;
        }
        var window, exception;
        window, exception, deadline := CollectWindow(env, deadline);
        stop := env.StopIsSet();
        if stop && |window| < windowSize && exception.None? {
          break;
        }
        var item := ItemOf(window, exception);
        var done := Put(env, item);
        if !done {
          if IsSqrt(root) { AssembledTell(root, windowSize, trace); }
          return Err(item);
        }
        produced := produced + 1;
        if exception.Some? {
          var c := env.Clock();
          deadline := c + period * windowSize as real;
          assert FollowsAt(period, windowSize, trace[|trace| - 1], Read(deadline, env.now, env.now, Err("")), c);
        }
      }
      if IsSqrt(root) { AssembledTell(root, windowSize, trace); }
      r := Ok(produced);
    }
  }
}
