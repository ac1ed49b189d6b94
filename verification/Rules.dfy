/** Status decisions and edge-triggered incidents: edge/edge_monitor/rules.py. */
module Rules {
  import opened Prelude
  import opened Sampling

  datatype Status = Normal | Warning | Danger {
    function Rank(): nat { match this case Normal => 0 case Warning => 1 case Danger => 2 }
    function Name(): string { match this case Normal => "NORMAL" case Warning => "WARNING" case Danger => "DANGER" }
  }

  datatype Thresholds = Thresholds(
    warningTilt: real, dangerTilt: real,
    warningRms: real, dangerRms: real,
    warningPeak: real, dangerPeak: real)
  {
    predicate Valid() {
      && 0.0 <= warningTilt < dangerTilt
      && 0.0 <= warningRms < dangerRms
      && 0.0 <= warningPeak < dangerPeak
    }
  }

  datatype Violation = Violation(metric: string, value: real, threshold: real, severity: Status)

  datatype Decision = Decision(status: Status, violations: seq<Violation>, emit: bool)

  /** A metric together with the two limits it is held against. */
  datatype Reading = Reading(name: string, value: real, warning: real, danger: real) {
    function Severity(): Status {
      if Abs(value) >= danger then Danger else if Abs(value) >= warning then Warning else Normal
    }
  }

  function Readings(t: Thresholds, w: WindowSummary): (r: seq<Reading>)
    ensures |r| == 6
  {
    [ Reading("relativeTiltX", w.top.tiltX - w.bottom.tiltX, t.warningTilt, t.dangerTilt),
      Reading("relativeTiltY", w.top.tiltY - w.bottom.tiltY, t.warningTilt, t.dangerTilt),
      Reading("top.vibrationRms", w.top.vibrationRms, t.warningRms, t.dangerRms),
      Reading("bottom.vibrationRms", w.bottom.vibrationRms, t.warningRms, t.dangerRms),
      Reading("top.peakAcceleration", w.top.peakAcceleration, t.warningPeak, t.dangerPeak),
      Reading("bottom.peakAcceleration", w.bottom.peakAcceleration, t.warningPeak, t.dangerPeak) ]
  }

  function Violations(rs: seq<Reading>): seq<Violation> {
    if rs == [] then []
    else
      var front, r := Violations(rs[..|rs| - 1]), rs[|rs| - 1];
      match r.Severity()
      case Danger => front + [Violation(r.name, r.value, r.danger, Danger)]
      case Warning => front + [Violation(r.name, r.value, r.warning, Warning)]
      case Normal => front
  }

  function Worst(vs: seq<Violation>): Status {
    if vs == [] then Normal
    else
      var front, s := Worst(vs[..|vs| - 1]), vs[|vs| - 1].severity;
      if s.Rank() > front.Rank() then s else front
  }

  function StatusOf(t: Thresholds, w: WindowSummary): Status {
    Worst(Violations(Readings(t, w)))
  }

  function Decide(t: Thresholds, previous: Status, w: WindowSummary): Decision {
    var status := StatusOf(t, w);
    Decision(status, Violations(Readings(t, w)), status.Rank() > previous.Rank())
  }

  // ----- what a status means -----

  lemma WorstOfOneMore(rs: seq<Reading>)
    requires rs != []
    ensures var front, last := Worst(Violations(rs[..|rs| - 1])), rs[|rs| - 1].Severity();
            Worst(Violations(rs)) == if last.Rank() > front.Rank() then last else front
  {
    var front, r := Violations(rs[..|rs| - 1]), rs[|rs| - 1];
    if r.Severity() != Normal {
      var limit := if r.Severity() == Danger then r.danger else r.warning;
      var v := Violation(r.name, r.value, limit, r.Severity());
      assert Violations(rs) == front + [v];
      assert (front + [v])[..|front|] == front;
    }
  }

  ghost function Severities(rs: seq<Reading>): (ss: seq<Status>)
    ensures |ss| == |rs| && forall i :: 0 <= i < |rs| ==> ss[i] == rs[i].Severity()
  {
    seq(|rs|, i requires 0 <= i < |rs| => rs[i].Severity())
  }

  ghost predicate IsMaximum(s: Status, ss: seq<Status>) {
    (forall i :: 0 <= i < |ss| ==> ss[i].Rank() <= s.Rank()) && (s == Normal || s in ss)
  }

  lemma {:induction false} WorstIsMaximum(rs: seq<Reading>)
    ensures IsMaximum(Worst(Violations(rs)), Severities(rs))
  {
    hide IsMaximum, Violations, Worst;
    if rs == [] {
      NothingToViolate();
    } else {
      var front := rs[..|rs| - 1];
      WorstIsMaximum(front);
      WorstOfOneMore(rs);
      MaximumOfOneMore(Worst(Violations(front)), Severities(front), rs[|rs| - 1].Severity());
      assert Severities(rs) == Severities(front) + [rs[|rs| - 1].Severity()];
    }
  }

  lemma NothingToViolate()
    ensures IsMaximum(Worst(Violations([])), Severities([]))
  {}

  lemma MaximumOfOneMore(s: Status, ss: seq<Status>, last: Status)
    requires IsMaximum(s, ss)
    ensures IsMaximum(if last.Rank() > s.Rank() then last else s, ss + [last])
  {}

  /** What a violation says of the reading it comes from: the limit named is the highest one reached. */
  predicate Breach(r: Reading, v: Violation) {
    && v.metric == r.name && v.value == r.value
    && (if Abs(r.value) >= r.danger then v.threshold == r.danger && v.severity == Danger
        else Abs(r.value) >= r.warning && v.threshold == r.warning && v.severity == Warning)
  }

  /** The violations are exactly the breaches among the readings. */
  lemma {:induction false} ViolationsExact(rs: seq<Reading>, v: Violation)
    ensures v in Violations(rs) <==> exists i :: 0 <= i < |rs| && Breach(rs[i], v)
  {
    if rs != [] {
      var front, r := rs[..|rs| - 1], rs[|rs| - 1];
      ViolationsExact(front, v);
      assert Breach(r, v) <==> r.Severity() != Normal && v == Violations(rs)[|Violations(rs)| - 1];
      if i :| 0 <= i < |front| && Breach(front[i], v) {
        assert rs[i] == front[i];
      }
    }
  }

  lemma LastViolation(rs: seq<Reading>)
    requires rs != []
    ensures var n, vs := |rs| - 1, Violations(rs);
            if rs[n].Severity() == Normal then vs == Violations(rs[..n])
            else vs != [] && vs[..|vs| - 1] == Violations(rs[..n]) && Breach(rs[n], vs[|vs| - 1])
  {}

  /** The violations come in the order of the readings, at most one for each. */
  lemma {:induction false} ViolationsInOrder(rs: seq<Reading>) returns (at: seq<nat>)
    ensures |at| == |Violations(rs)| && StrictlyIncreasing(at)
    ensures forall i :: 0 <= i < |at| ==> at[i] < |rs| && Breach(rs[at[i]], Violations(rs)[i])
  {
    if rs == [] {
      at := [];
    } else {
      var front, n := rs[..|rs| - 1], |rs| - 1;
      at := ViolationsInOrder(front);
      LastViolation(rs);
      hide Breach, Violations;
      assert forall i :: 0 <= i < |at| ==> rs[at[i]] == front[at[i]];
      if rs[n].Severity() != Normal {
        at := at + [n];
      }
    }
  }

  // ----- what a decision says of a window, metric by metric -----

  /** The value is as far from zero as the limit, or farther. */
  predicate Reaches(value: real, limit: real) {
    value >= limit || value <= -limit
  }

  /** The window reaches the danger limit in some metric. */
  predicate AnyDanger(t: Thresholds, w: WindowSummary) {
    || Reaches(w.top.tiltX - w.bottom.tiltX, t.dangerTilt) || Reaches(w.top.tiltY - w.bottom.tiltY, t.dangerTilt)
    || Reaches(w.top.vibrationRms, t.dangerRms) || Reaches(w.bottom.vibrationRms, t.dangerRms)
    || Reaches(w.top.peakAcceleration, t.dangerPeak) || Reaches(w.bottom.peakAcceleration, t.dangerPeak)
  }

  /** The window reaches the warning limit in some metric. */
  predicate AnyWarning(t: Thresholds, w: WindowSummary) {
    || Reaches(w.top.tiltX - w.bottom.tiltX, t.warningTilt) || Reaches(w.top.tiltY - w.bottom.tiltY, t.warningTilt)
    || Reaches(w.top.vibrationRms, t.warningRms) || Reaches(w.bottom.vibrationRms, t.warningRms)
    || Reaches(w.top.peakAcceleration, t.warningPeak) || Reaches(w.bottom.peakAcceleration, t.warningPeak)
  }

  /** DANGER exactly if one of the six metrics reaches its danger limit, NORMAL exactly if all stay under their
      warning limits. */
  lemma StatusMeaning(t: Thresholds, w: WindowSummary)
    requires t.Valid()
    ensures StatusOf(t, w) == Danger <==> AnyDanger(t, w)
    ensures StatusOf(t, w) == Normal <==> !AnyWarning(t, w)
  {
    hide Readings, Violations, Worst, IsMaximum, Reaches;
    var rs := Readings(t, w);
    var ss := Severities(rs);
    WorstIsMaximum(rs);
    SixOf(Worst(Violations(rs)), ss);
    ReadingsAre(t, w);
    SeverityMeaning(rs[0]);
    SeverityMeaning(rs[1]);
    SeverityMeaning(rs[2]);
    SeverityMeaning(rs[3]);
    SeverityMeaning(rs[4]);
    SeverityMeaning(rs[5]);
  }

  lemma SixOf(s: Status, ss: seq<Status>)
    requires |ss| == 6 && IsMaximum(s, ss)
    ensures s == Danger
       <==> ss[0] == Danger || ss[1] == Danger || ss[2] == Danger || ss[3] == Danger || ss[4] == Danger
            || ss[5] == Danger
    ensures s == Normal <==> ss[0] == ss[1] == ss[2] == ss[3] == ss[4] == ss[5] == Normal
  {}

  lemma SeverityMeaning(r: Reading)
    requires 0.0 <= r.warning < r.danger
    ensures r.Severity() == Danger <==> Reaches(r.value, r.danger)
    ensures r.Severity() == Normal <==> !Reaches(r.value, r.warning)
  {}

  lemma ReadingsAre(t: Thresholds, w: WindowSummary)
    ensures var rs := Readings(t, w);
            && |rs| == 6
            && rs[0] == Reading("relativeTiltX", w.top.tiltX - w.bottom.tiltX, t.warningTilt, t.dangerTilt)
            && rs[1] == Reading("relativeTiltY", w.top.tiltY - w.bottom.tiltY, t.warningTilt, t.dangerTilt)
            && rs[2] == Reading("top.vibrationRms", w.top.vibrationRms, t.warningRms, t.dangerRms)
            && rs[3] == Reading("bottom.vibrationRms", w.bottom.vibrationRms, t.warningRms, t.dangerRms)
            && rs[4] == Reading("top.peakAcceleration", w.top.peakAcceleration, t.warningPeak, t.dangerPeak)
            && rs[5] == Reading("bottom.peakAcceleration", w.bottom.peakAcceleration, t.warningPeak, t.dangerPeak)
  {}

  /** The violation of a metric with this value and these limits. */
  predicate Violates(v: Violation, metric: string, value: real, warning: real, danger: real) {
    && v.metric == metric && v.value == value
    && (if Reaches(value, danger) then v.threshold == danger && v.severity == Danger
        else Reaches(value, warning) && v.threshold == warning && v.severity == Warning)
  }

  /** The place of a metric in the list of violations. */
  function Place(metric: string): nat {
    if metric == "relativeTiltX" then 0
    else if metric == "relativeTiltY" then 1
    else if metric == "top.vibrationRms" then 2
    else if metric == "bottom.vibrationRms" then 3
    else if metric == "top.peakAcceleration" then 4
    else 5
  }

  /** Each metric has its violation, under its own name and with its own limits, exactly if it reaches one of them;
      the violations come in a fixed order of metrics, and no metric has two. The incident is due exactly if the
      status is above the previous one. */
  lemma DecisionMeaning(t: Thresholds, previous: Status, w: WindowSummary, v: Violation)
    requires t.Valid()
    ensures var d := Decide(t, previous, w);
            && (v in d.violations <==>
                  || Violates(v, "relativeTiltX", w.top.tiltX - w.bottom.tiltX, t.warningTilt, t.dangerTilt)
                  || Violates(v, "relativeTiltY", w.top.tiltY - w.bottom.tiltY, t.warningTilt, t.dangerTilt)
                  || Violates(v, "top.vibrationRms", w.top.vibrationRms, t.warningRms, t.dangerRms)
                  || Violates(v, "bottom.vibrationRms", w.bottom.vibrationRms, t.warningRms, t.dangerRms)
                  || Violates(v, "top.peakAcceleration", w.top.peakAcceleration, t.warningPeak, t.dangerPeak)
                  || Violates(v, "bottom.peakAcceleration", w.bottom.peakAcceleration, t.warningPeak, t.dangerPeak))
            && (forall i, j :: 0 <= i < j < |d.violations| ==>
                  Place(d.violations[i].metric) < Place(d.violations[j].metric))
            && (d.status == Danger <==> AnyDanger(t, w)) && (d.status == Normal <==> !AnyWarning(t, w))
            && (d.emit <==> (d.status == Danger && previous != Danger) || (d.status == Warning && previous == Normal))
  {
    hide Readings, Violations, Worst, AnyDanger, AnyWarning, Breach, Violates, Place;
    StatusMeaning(t, w);
    ViolationsAre(t, w, v);
    var at := ViolationsInOrder(Readings(t, w));
    PlacesIncrease(t, w, at);
  }

  lemma ViolationsAre(t: Thresholds, w: WindowSummary, v: Violation)
    requires t.Valid()
    ensures v in Violations(Readings(t, w)) <==>
              || Violates(v, "relativeTiltX", w.top.tiltX - w.bottom.tiltX, t.warningTilt, t.dangerTilt)
              || Violates(v, "relativeTiltY", w.top.tiltY - w.bottom.tiltY, t.warningTilt, t.dangerTilt)
              || Violates(v, "top.vibrationRms", w.top.vibrationRms, t.warningRms, t.dangerRms)
              || Violates(v, "bottom.vibrationRms", w.bottom.vibrationRms, t.warningRms, t.dangerRms)
              || Violates(v, "top.peakAcceleration", w.top.peakAcceleration, t.warningPeak, t.dangerPeak)
              || Violates(v, "bottom.peakAcceleration", w.bottom.peakAcceleration, t.warningPeak, t.dangerPeak)
  {
    hide Readings, Violations, Breach, Violates;
    var rs := Readings(t, w);
    ReadingsAre(t, w);
    ViolationsExact(rs, v);
    BreachIsViolation(rs[0], v);
    BreachIsViolation(rs[1], v);
    BreachIsViolation(rs[2], v);
    BreachIsViolation(rs[3], v);
    BreachIsViolation(rs[4], v);
    BreachIsViolation(rs[5], v);
    assert (exists i :: 0 <= i < 6 && Breach(rs[i], v))
       <==> Breach(rs[0], v) || Breach(rs[1], v) || Breach(rs[2], v) || Breach(rs[3], v) || Breach(rs[4], v)
            || Breach(rs[5], v);
  }

  lemma BreachIsViolation(r: Reading, v: Violation)
    requires 0.0 <= r.warning < r.danger
    ensures Breach(r, v) <==> Violates(v, r.name, r.value, r.warning, r.danger)
  {}

  lemma PlacesIncrease(t: Thresholds, w: WindowSummary, at: seq<nat>)
    requires var vs, rs := Violations(Readings(t, w)), Readings(t, w);
             && |at| == |vs| && StrictlyIncreasing(at)
             && forall i :: 0 <= i < |at| ==> at[i] < |rs| && Breach(rs[at[i]], vs[i])
    ensures var vs := Violations(Readings(t, w));
            forall i, j :: 0 <= i < j < |vs| ==> Place(vs[i].metric) < Place(vs[j].metric)
  {
    var vs, rs := Violations(Readings(t, w)), Readings(t, w);
    forall i | 0 <= i < |vs| ensures Place(vs[i].metric) == at[i] {
      assert Breach(rs[at[i]], vs[i]);
      PlaceOfReading(t, w, at[i]);
    }
  }

  lemma PlaceOfReading(t: Thresholds, w: WindowSummary, k: nat)
    requires k < 6
    ensures Place(Readings(t, w)[k].name) == k
  {
    ReadingsAre(t, w);
  }

  /** a is no farther from zero than b. */
  predicate NoFarther(a: real, b: real) {
    -b <= a <= b || b <= a <= -b
  }

  /** Larger absolute metrics never lower the rank. */
  lemma StatusMonotone(t: Thresholds, v: WindowSummary, w: WindowSummary)
    requires t.Valid()
    requires NoFarther(v.top.tiltX - v.bottom.tiltX, w.top.tiltX - w.bottom.tiltX)
    requires NoFarther(v.top.tiltY - v.bottom.tiltY, w.top.tiltY - w.bottom.tiltY)
    requires NoFarther(v.top.vibrationRms, w.top.vibrationRms)
    requires NoFarther(v.bottom.vibrationRms, w.bottom.vibrationRms)
    requires NoFarther(v.top.peakAcceleration, w.top.peakAcceleration)
    requires NoFarther(v.bottom.peakAcceleration, w.bottom.peakAcceleration)
    ensures StatusOf(t, v).Rank() <= StatusOf(t, w).Rank()
  {
    var rv, rw := Readings(t, v), Readings(t, w);
    WorstIsMaximum(rv);
    WorstIsMaximum(rw);
    forall i | 0 <= i < 6 ensures Severities(rv)[i].Rank() <= Severities(rw)[i].Rank() {
      SeverityMonotone(rv[i], rw[i]);
    }
    MaximumMonotone(StatusOf(t, v), Severities(rv), StatusOf(t, w), Severities(rw));
  }

  lemma MaximumMonotone(a: Status, aa: seq<Status>, b: Status, bb: seq<Status>)
    requires IsMaximum(a, aa) && IsMaximum(b, bb) && |aa| == |bb|
    requires forall i :: 0 <= i < |aa| ==> aa[i].Rank() <= bb[i].Rank()
    ensures a.Rank() <= b.Rank()
  {
    if a != Normal {
      var k :| 0 <= k < |aa| && aa[k] == a;
      assert bb[k].Rank() <= b.Rank();
    }
  }

  lemma SeverityMonotone(a: Reading, b: Reading)
    requires a.warning == b.warning < a.danger == b.danger && Abs(a.value) <= Abs(b.value)
    ensures a.Severity().Rank() <= b.Severity().Rank()
  {}

  // ----- from raw samples to a status -----

  /** Every sample of the window keeps under all warning limits. */
  ghost predicate Quiet(sqrt: RealFunction, t: Thresholds, xs: seq<PairedSample>) {
    forall i :: 0 <= i < |xs| ==>
      && !Reaches(xs[i].top.tiltX - xs[i].bottom.tiltX, t.warningTilt)
      && !Reaches(xs[i].top.tiltY - xs[i].bottom.tiltY, t.warningTilt)
      && Still(sqrt, t, xs[i].top) && Still(sqrt, t, xs[i].bottom)
  }

  ghost predicate Still(sqrt: RealFunction, t: Thresholds, s: SensorSample) {
    Magnitude(sqrt, s) < t.warningRms && Magnitude(sqrt, s) < t.warningPeak
  }

  lemma StillSensor(sqrt: RealFunction, t: Thresholds, xs: seq<SensorSample>)
    requires IsSqrt(sqrt) && xs != [] && forall i :: 0 <= i < |xs| ==> Still(sqrt, t, xs[i])
    ensures var s := Summarize(sqrt, xs);
            Abs(s.vibrationRms) < t.warningRms && Abs(s.peakAcceleration) < t.warningPeak
  {
    PeakFacts(sqrt, xs);
    RmsAndPeak(sqrt, xs);
    var peak := Summarize(sqrt, xs).peakAcceleration;
    var k :| 0 <= k < |xs| && Magnitude(sqrt, xs[k]) == peak;
    assert Still(sqrt, t, xs[k]);
  }

  lemma QuietWindowIsNormal(sqrt: RealFunction, t: Thresholds, xs: seq<PairedSample>)
    requires IsSqrt(sqrt) && t.Valid() && xs != [] && Quiet(sqrt, t, xs)
    ensures StatusOf(t, AggregateWindow(sqrt, xs, |xs|).value) == Normal
  {
    hide Sum, Largest, StatusOf;
    var w := AggregateWindow(sqrt, xs, |xs|).value;
    StatusMeaning(t, w);
    StillSensor(sqrt, t, Tops(xs));
    StillSensor(sqrt, t, Bottoms(xs));
    RelativeTiltIsMeanDifference(sqrt, xs);
    MeanWithin((p: PairedSample) => p.top.tiltX - p.bottom.tiltX, xs, t.warningTilt);
    MeanWithin((p: PairedSample) => p.top.tiltY - p.bottom.tiltY, xs, t.warningTilt);
  }

  lemma OneShockIsDanger(sqrt: RealFunction, t: Thresholds, xs: seq<PairedSample>, k: nat)
    requires IsSqrt(sqrt) && t.Valid() && k < |xs|
    requires Magnitude(sqrt, xs[k].top) >= t.dangerPeak || Magnitude(sqrt, xs[k].bottom) >= t.dangerPeak
    ensures StatusOf(t, AggregateWindow(sqrt, xs, |xs|).value) == Danger
  {
    var w := AggregateWindow(sqrt, xs, |xs|).value;
    StatusMeaning(t, w);
    PeakFacts(sqrt, Tops(xs));
    PeakFacts(sqrt, Bottoms(xs));
    assert Magnitude(sqrt, Tops(xs)[k]) <= w.top.peakAcceleration;
    assert Magnitude(sqrt, Bottoms(xs)[k]) <= w.bottom.peakAcceleration;
    hide StatusOf;
  }

  // ----- whole runs -----

  function LastStatus(t: Thresholds, initial: Status, ws: seq<WindowSummary>): Status {
    if ws == [] then initial else StatusOf(t, ws[|ws| - 1])
  }

  /** The decisions taken for a sequence of windows. */
  function Decisions(t: Thresholds, initial: Status, ws: seq<WindowSummary>): (ds: seq<Decision>)
    ensures |ds| == |ws|
  {
    if ws == [] then []
    else
      var front := ws[..|ws| - 1];
      Decisions(t, initial, front) + [Decide(t, LastStatus(t, initial, front), ws[|ws| - 1])]
  }

  function Incidents(ds: seq<Decision>): nat {
    if ds == [] then 0 else Incidents(ds[..|ds| - 1]) + if ds[|ds| - 1].emit then 1 else 0
  }

  function Falls(t: Thresholds, initial: Status, ws: seq<WindowSummary>): nat {
    if ws == [] then 0
    else
      var front := ws[..|ws| - 1];
      Falls(t, initial, front)
      + if StatusOf(t, ws[|ws| - 1]).Rank() < LastStatus(t, initial, front).Rank() then 1 else 0
  }

  lemma {:induction false} DecisionAt(t: Thresholds, initial: Status, ws: seq<WindowSummary>, i: nat)
    requires i < |ws|
    ensures Decisions(t, initial, ws)[i] == Decide(t, LastStatus(t, initial, ws[..i]), ws[i])
  {
    var front := ws[..|ws| - 1];
    if i < |front| {
      DecisionAt(t, initial, front, i);
      assert front[..i] == ws[..i];
    }
  }

  /** An incident is announced exactly where the rank of the status sequence rises. */
  lemma IncidentsAreRises(t: Thresholds, initial: Status, ws: seq<WindowSummary>, i: nat)
    requires i < |ws|
    ensures var ds := Decisions(t, initial, ws);
            var before := if i == 0 then initial else ds[i - 1].status;
            && ds[i].status == StatusOf(t, ws[i])
            && (ds[i].emit <==> ds[i].status.Rank() > before.Rank())
            && (ds[i].emit ==> ds[i].status != Normal)
  {
    DecisionAt(t, initial, ws, i);
    if i > 0 {
      DecisionAt(t, initial, ws, i - 1);
      assert ws[..i][|ws[..i]| - 1] == ws[i - 1];
    }
  }

  lemma {:induction false} IncidentsPaidFor(t: Thresholds, initial: Status, ws: seq<WindowSummary>)
    ensures Incidents(Decisions(t, initial, ws)) + initial.Rank()
         <= LastStatus(t, initial, ws).Rank() + 2 * Falls(t, initial, ws)
  {
    if ws != [] {
      var front, ds := ws[..|ws| - 1], Decisions(t, initial, ws);
      IncidentsPaidFor(t, initial, front);
      assert ds[..|ds| - 1] == Decisions(t, initial, front);
      RankBounds(LastStatus(t, initial, front));
      RankBounds(StatusOf(t, ws[|ws| - 1]));
    }
  }

  lemma RankBounds(s: Status)
    ensures 0 <= s.Rank() <= 2
  {}

  /** However the readings move, starting from NORMAL there are at most two incidents per
      fall of the status, plus two. */
  lemma IncidentsBounded(t: Thresholds, ws: seq<WindowSummary>)
    ensures Incidents(Decisions(t, Normal, ws)) <= 2 * (Falls(t, Normal, ws) + 1)
  {
    IncidentsPaidFor(t, Normal, ws);
    RankBounds(LastStatus(t, Normal, ws));
  }

  class RuleEngine {
    const thresholds: Thresholds
    var previous: Status

    constructor (thresholds: Thresholds, previous: Status)
      requires thresholds.Valid()
      ensures this.thresholds == thresholds && this.previous == previous
    {
      this.thresholds, this.previous := thresholds, previous;
    }

    /** Walks the six readings once, collecting violations and the worst severity. */
    method Evaluate(w: WindowSummary) returns (d: Decision)
      modifies this
      ensures d == Decide(thresholds, old(previous), w)
      ensures previous == d.status
    {
      var rs := Readings(thresholds, w);
      var vs: seq<Violation> := [];
      var status := Normal;
      for i := 0 to |rs|
        invariant vs == Violations(rs[..i]) && status == Worst(vs)
      {
        assert rs[..i + 1][..i] == rs[..i];
        var severity := rs[i].Severity();
        if severity != Normal {
          var limit := if severity == Danger then rs[i].danger else rs[i].warning;
          var v := Violation(rs[i].name, rs[i].value, limit, severity);
          assert (vs + [v])[..|vs|] == vs;
          vs := vs + [v];
          if severity.Rank() > status.Rank() {
            status := severity;
          }
        }
      }
      assert rs[..|rs|] == rs;
      d := Decision(status, vs, status.Rank() > previous.Rank());
      previous := status;
    }
  }
}
