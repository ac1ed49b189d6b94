/** EdgePipeline: edge/edge_monitor/pipeline.py. Turns windows, read errors and connection
    transitions into sequenced messages. */
module Pipeline {
  import opened Prelude
  import opened Message
  import opened MessageBuilder
  import opened Sampling
  import opened Rules
  import opened Blackbox
  import opened Health
  import opened Contract

  datatype EdgeConfig = EdgeConfig(
    site: Site, run: string, stream: string,
    thresholds: Thresholds, ruleCode: string, ruleVersion: string,
    limits: Limits, batchSize: nat, queueSize: nat)
  {
    ghost predicate Valid() {
      && site.deviceId != "" && run != "" && stream != ""
      && thresholds.Valid() && limits.Valid() && batchSize > 0 && queueSize > 0
    }
  }

  /** What a message says, before it is written out as fields. */
  datatype Msg =
    | Telemetry(seqNo: nat, summary: WindowSummary, status: Status, producedAt: Stamp)
    | Incident(seqNo: nat, measuredAt: Stamp, status: Status, related: nat, violations: seq<Violation>,
               producedAt: Stamp)
    | SensorError(seqNo: nat, measuredAt: Stamp, error: IncompleteWindow, producedAt: Stamp)
    | Connection(seqNo: nat, measuredAt: Stamp, transition: Transition, producedAt: Stamp)

  function KindOf(m: Msg): Kind {
    if m.Telemetry? then TelemetryKind else EventKind
  }

  function ViolationFields(v: Violation): Json {
    Obj(map[
      "metricName" := Str(v.metric),
      "metricValue" := Float(v.value),
      "thresholdValue" := Float(v.threshold),
      "severity" := Str(v.severity.Name())])
  }

  function IncidentDetails(cfg: EdgeConfig, related: nat, vs: seq<Violation>): map<string, Json> {
    map[
      "relatedSeqNo" := Int(related),
      "ruleCode" := Str(cfg.ruleCode),
      "ruleVersion" := Str(cfg.ruleVersion),
      "violations" := Arr(seq(|vs|, i requires 0 <= i < |vs| => ViolationFields(vs[i])))]
  }

  function ErrorDetails(e: IncompleteWindow): map<string, Json> {
    map[
      "expectedSampleCount" := Int(e.expected),
      "actualSampleCount" := Int(e.actual),
      "interpolatedSampleCount" := Int(0),
      "failureReason" := Str(e.reason)]
  }

  /** The message as the builders write it. */
  function Written(lib: Library, cfg: EdgeConfig, m: Msg): Result<Payload, BuildError> {
    match m
    case Telemetry(n, w, status, at) =>
      BuildTelemetry(lib, cfg.site, w, n, cfg.run, cfg.stream, at, status.Name())
    case Incident(n, measured, status, related, vs, at) =>
      BuildEvent(lib, cfg.site, measured, n, cfg.run, cfg.stream, "THRESHOLD_EXCEEDED", status.Name(),
                 "edge_threshold_exceeded", IncidentDetails(cfg, related, vs), at)
    case SensorError(n, measured, e, at) =>
      BuildEvent(lib, cfg.site, measured, n, cfg.run, cfg.stream, "SENSOR_ERROR", "ERROR",
                 "incomplete_sensor_window", ErrorDetails(e), at)
    case Connection(n, measured, t, at) =>
      BuildEvent(lib, cfg.site, measured, n, cfg.run, cfg.stream, t.EventType(), t.Severity(), t.Reason(), map[], at)
  }

  /** An incident's severity must be one the event builder knows, which NORMAL is not. */
  predicate Writable(m: Msg) {
    m.Incident? ==> m.status != Normal
  }

  lemma WritableIsWritten(lib: Library, cfg: EdgeConfig, m: Msg)
    requires cfg.Valid()
    ensures Written(lib, cfg, m).Ok? <==> Writable(m)
  {
    hide AttachDataHash, TelemetryFields, EventFields, IncidentDetails, ErrorDetails, EventId;
  }

  function Wire(lib: Library, cfg: EdgeConfig, m: Msg): Payload {
    match Written(lib, cfg, m) case Ok(p) => p case Err(_) => map[]
  }

  function EntryOf<P>(cfg: EdgeConfig, m: Msg, payload: P): Entry<P> {
    Entry(cfg.site.deviceId, KindOf(m), m.seqNo, payload)
  }

  function MeasuredAt(m: Msg): Stamp {
    if m.Telemetry? then m.summary.measuredAt else m.measuredAt
  }

  /** A message that reached its destination's checks intact. */
  ghost predicate Arrives(lib: Library, cfg: EdgeConfig, m: Msg, p: Payload) {
    && ProcessMessage(lib, p) == Ok(Processed(p, KindOf(m), Str(cfg.stream)))
    && HasIdentity(p, cfg.run, cfg.stream, m.seqNo) && HasOrigin(p, cfg.site, MeasuredAt(m))
  }

  lemma WireArrives(lib: Library, cfg: EdgeConfig, m: Msg)
    requires cfg.Valid() && Written(lib, cfg, m).Ok?
    ensures Arrives(lib, cfg, m, Wire(lib, cfg, m))
  {
    match m
    case Telemetry(n, w, status, at) =>
      BuiltTelemetryAccepted(lib, cfg.site, w, n, cfg.run, cfg.stream, at, status.Name());
    case Incident(n, measured, status, related, vs, at) =>
      BuiltEventAccepted(lib, cfg.site, measured, n, cfg.run, cfg.stream, "THRESHOLD_EXCEEDED", status.Name(),
                         "edge_threshold_exceeded", IncidentDetails(cfg, related, vs), at);
    case SensorError(n, measured, e, at) =>
      BuiltEventAccepted(lib, cfg.site, measured, n, cfg.run, cfg.stream, "SENSOR_ERROR", "ERROR",
                         "incomplete_sensor_window", ErrorDetails(e), at);
    case Connection(n, measured, t, at) =>
      BuiltEventAccepted(lib, cfg.site, measured, n, cfg.run, cfg.stream, t.EventType(), t.Severity(), t.Reason(),
                         map[], at);
  }

  lemma ArrivedIsPrepared(lib: Library, cfg: EdgeConfig, m: Msg, p: Payload)
    requires cfg.Valid() && Arrives(lib, cfg, m, p)
    ensures Prepare(lib, KindName(KindOf(m)), p) == Ok(EntryOf(cfg, m, p))
  {}

  /** Whatever the pipeline writes is accepted at the bridge and at the consumer, with the kind and
      the identity it was given, and the outbox takes it under the key of its device and number. */
  lemma WireIsAccepted(lib: Library, cfg: EdgeConfig, m: Msg)
    requires cfg.Valid() && Writable(m)
    ensures Arrives(lib, cfg, m, Wire(lib, cfg, m))
    ensures Prepare(lib, KindName(KindOf(m)), Wire(lib, cfg, m)) == Ok(EntryOf(cfg, m, Wire(lib, cfg, m)))
  {
    WritableIsWritten(lib, cfg, m);
    WireArrives(lib, cfg, m);
    ArrivedIsPrepared(lib, cfg, m, Wire(lib, cfg, m));
  }

  // ----- what the written messages say -----

  /** The names of the ranks, as both schemas have them. */
  lemma NamesAre(s: Status)
    ensures s == Normal <==> s.Name() == "NORMAL"
    ensures s == Warning <==> s.Name() == "WARNING"
    ensures s == Danger <==> s.Name() == "DANGER"
  {}

  /** The list holds the violations in order, each with metric, value, limit and severity. */
  ghost predicate ListsViolations(j: Json, vs: seq<Violation>) {
    && j.Arr? && |j.items| == |vs|
    && forall i :: 0 <= i < |vs| ==>
         && Inside(j.items[i], "metricName", Str(vs[i].metric))
         && Inside(j.items[i], "metricValue", Float(vs[i].value))
         && Inside(j.items[i], "thresholdValue", Float(vs[i].threshold))
         && Inside(j.items[i], "severity", Str(vs[i].severity.Name()))
         && j.items[i].fields.Keys == {"metricName", "metricValue", "thresholdValue", "severity"}
  }

  ghost predicate SaysType(p: Payload, eventType: string, severity: string, reason: string) {
    && Says(p, EventTypeField, Str(eventType)) && Says(p, SeverityField, Str(severity))
    && Says(p, ReasonField, Str(reason))
  }

  ghost predicate HasDetails(p: Payload, names: set<string>) {
    DetailsField in p && p[DetailsField].Obj? && p[DetailsField].fields.Keys == names
  }

  ghost predicate SaysIncident(cfg: EdgeConfig, p: Payload, status: Status, related: nat, vs: seq<Violation>) {
    && SaysType(p, "THRESHOLD_EXCEEDED", status.Name(), "edge_threshold_exceeded")
    && HasDetails(p, {"relatedSeqNo", "ruleCode", "ruleVersion", "violations"})
    && Inside(p[DetailsField], "relatedSeqNo", Int(related))
    && Inside(p[DetailsField], "ruleCode", Str(cfg.ruleCode))
    && Inside(p[DetailsField], "ruleVersion", Str(cfg.ruleVersion))
    && ListsViolations(p[DetailsField].fields["violations"], vs)
  }

  ghost predicate SaysSensorError(p: Payload, e: IncompleteWindow) {
    && SaysType(p, "SENSOR_ERROR", "ERROR", "incomplete_sensor_window")
    && HasDetails(p, {"expectedSampleCount", "actualSampleCount", "interpolatedSampleCount", "failureReason"})
    && Inside(p[DetailsField], "expectedSampleCount", Int(e.expected))
    && Inside(p[DetailsField], "actualSampleCount", Int(e.actual))
    && Inside(p[DetailsField], "interpolatedSampleCount", Int(0))
    && Inside(p[DetailsField], "failureReason", Str(e.reason))
  }

  ghost predicate SaysTransition(p: Payload, t: Transition) {
    && (t == Lost ==> SaysType(p, "CONNECTION_LOST", "ERROR", "edge_transport_unavailable"))
    && (t == Recovered ==> SaysType(p, "CONNECTION_RECOVERED", "INFO", "edge_transport_recovered"))
    && HasDetails(p, {})
  }

  ghost predicate SaysOrigin(cfg: EdgeConfig, p: Payload, measuredAt: Stamp, seqNo: nat, producedAt: Stamp) {
    SaysCommon(p, cfg.site, measuredAt, seqNo, cfg.run, cfg.stream, producedAt)
  }

  /** What a payload must say to be the written form of a message. */
  ghost predicate SaysMessage(cfg: EdgeConfig, m: Msg, p: Payload) {
    match m
    case Telemetry(n, w, status, at) =>
      SaysOrigin(cfg, p, w.measuredAt, n, at) && SaysWindow(p, w, status.Name()) && p.Keys == COMMON + TELEMETRY
    case Incident(n, measured, status, related, vs, at) =>
      SaysOrigin(cfg, p, measured, n, at) && SaysIncident(cfg, p, status, related, vs) && p.Keys == COMMON + EVENT
    case SensorError(n, measured, e, at) =>
      SaysOrigin(cfg, p, measured, n, at) && SaysSensorError(p, e) && p.Keys == COMMON + EVENT
    case Connection(n, measured, t, at) =>
      SaysOrigin(cfg, p, measured, n, at) && SaysTransition(p, t) && p.Keys == COMMON + EVENT
  }

  /** Whatever is written says in its fields what the message is about, and nothing more. */
  lemma WireSays(lib: Library, cfg: EdgeConfig, m: Msg)
    requires cfg.Valid() && Writable(m)
    ensures SaysMessage(cfg, m, Wire(lib, cfg, m)) && Sealed(lib, Wire(lib, cfg, m))
  {
    WritableIsWritten(lib, cfg, m);
    hide SaysOrigin, SaysType, SaysIncident, SaysSensorError, SaysTransition, SaysWindow, Sealed;
    hide COMMON, TELEMETRY, EVENT;
    hide BuildTelemetry, BuildEvent, IncidentDetails, ErrorDetails;
    match m
    case Telemetry(n, w, status, at) => TelemetryWire(lib, cfg, n, w, status, at);
    case Incident(n, measured, status, related, vs, at) =>
      var p := Wire(lib, cfg, m);
      EventWire(lib, cfg, measured, n, "THRESHOLD_EXCEEDED", status.Name(), "edge_threshold_exceeded",
                IncidentDetails(cfg, related, vs), at, p);
      IncidentDetailsSay(cfg, p, status, related, vs);
    case SensorError(n, measured, e, at) =>
      var p := Wire(lib, cfg, m);
      EventWire(lib, cfg, measured, n, "SENSOR_ERROR", "ERROR", "incomplete_sensor_window", ErrorDetails(e), at, p);
      ErrorDetailsSay(p, e);
    case Connection(n, measured, t, at) =>
      var p := Wire(lib, cfg, m);
      EventWire(lib, cfg, measured, n, t.EventType(), t.Severity(), t.Reason(), map[], at, p);
      TransitionSays(p, t);
  }

  lemma TelemetryWire(lib: Library, cfg: EdgeConfig, n: nat, w: WindowSummary, status: Status, at: Stamp)
    requires cfg.Valid()
    ensures var p := Wire(lib, cfg, Telemetry(n, w, status, at));
            && SaysOrigin(cfg, p, w.measuredAt, n, at) && SaysWindow(p, w, status.Name())
            && p.Keys == COMMON + TELEMETRY && Sealed(lib, p)
  {
    hide SaysCommon, SaysWindow, COMMON, TELEMETRY, Sealed, BuildTelemetry;
    TelemetrySays(lib, cfg.site, w, n, cfg.run, cfg.stream, at, status.Name());
  }

  lemma EventWire(lib: Library, cfg: EdgeConfig, measured: Stamp, n: nat, eventType: string, severity: string,
                  reason: string, details: map<string, Json>, at: Stamp, p: Payload)
    requires BuildEvent(lib, cfg.site, measured, n, cfg.run, cfg.stream, eventType, severity, reason, details, at)
          == Ok(p)
    ensures SaysOrigin(cfg, p, measured, n, at) && SaysType(p, eventType, severity, reason)
    ensures Says(p, DetailsField, Obj(details)) && p.Keys == COMMON + EVENT && Sealed(lib, p)
  {
    hide SaysCommon, COMMON, EVENT, Sealed, BuildEvent, InEventEnum, InSeverityEnum;
    EventSays(lib, cfg.site, measured, n, cfg.run, cfg.stream, eventType, severity, reason, details, at);
  }

  lemma IncidentDetailsSay(cfg: EdgeConfig, p: Payload, status: Status, related: nat, vs: seq<Violation>)
    requires SaysType(p, "THRESHOLD_EXCEEDED", status.Name(), "edge_threshold_exceeded")
    requires Says(p, DetailsField, Obj(IncidentDetails(cfg, related, vs)))
    ensures SaysIncident(cfg, p, status, related, vs)
  {
    hide ListsViolations, SaysType;
    ViolationsListed(vs, IncidentDetails(cfg, related, vs)["violations"]);
  }

  lemma ErrorDetailsSay(p: Payload, e: IncompleteWindow)
    requires SaysType(p, "SENSOR_ERROR", "ERROR", "incomplete_sensor_window")
    requires Says(p, DetailsField, Obj(ErrorDetails(e)))
    ensures SaysSensorError(p, e)
  {
    hide SaysType;
  }

  lemma TransitionSays(p: Payload, t: Transition)
    requires SaysType(p, t.EventType(), t.Severity(), t.Reason()) && Says(p, DetailsField, Obj(map[]))
    ensures SaysTransition(p, t)
  {
    hide SaysType;
  }

  lemma ViolationsListed(vs: seq<Violation>, j: Json)
    requires j == Arr(seq(|vs|, i requires 0 <= i < |vs| => ViolationFields(vs[i])))
    ensures ListsViolations(j, vs)
  {}

  /** Everything written keeps the published schemas exactly if the configuration does. */
  lemma WireConforms(lib: Library, cfg: EdgeConfig, m: Msg)
    requires cfg.Valid() && Writable(m) && HexDigest(lib)
    requires m.Telemetry? ==>
               && 0.0 <= m.summary.top.vibrationRms <= m.summary.top.peakAcceleration
               && 0.0 <= m.summary.bottom.vibrationRms <= m.summary.bottom.peakAcceleration
    ensures (if m.Telemetry? then TelemetrySchema(Wire(lib, cfg, m)) else EventSchema(Wire(lib, cfg, m)))
       <==> Publishable(cfg.site, cfg.run, cfg.stream)
  {
    WritableIsWritten(lib, cfg, m);
    hide TelemetrySchema, EventSchema, HexDigest, Publishable, BuildTelemetry, BuildEvent;
    match m
    case Telemetry(n, w, status, at) =>
      TelemetryConforms(lib, cfg.site, w, n, cfg.run, cfg.stream, at, status.Name());
    case Incident(n, measured, status, related, vs, at) =>
      EventConforms(lib, cfg.site, measured, n, cfg.run, cfg.stream, "THRESHOLD_EXCEEDED", status.Name(),
                    "edge_threshold_exceeded", IncidentDetails(cfg, related, vs), at);
    case SensorError(n, measured, e, at) =>
      EventConforms(lib, cfg.site, measured, n, cfg.run, cfg.stream, "SENSOR_ERROR", "ERROR",
                    "incomplete_sensor_window", ErrorDetails(e), at);
    case Connection(n, measured, t, at) =>
      EventConforms(lib, cfg.site, measured, n, cfg.run, cfg.stream, t.EventType(), t.Severity(), t.Reason(), map[],
                    at);
  }

  /** The messages one decided window becomes: its telemetry, then the incident if there is one. */
  function WindowMessages(n: nat, w: WindowSummary, d: Decision, at: Stamp): seq<Msg> {
    [Telemetry(n, w, d.status, at)]
    + if d.emit then [Incident(n + 1, w.measuredAt, d.status, n, d.violations, at)] else []
  }

  function WireAll(lib: Library, cfg: EdgeConfig, ms: seq<Msg>): (ps: seq<Payload>)
    ensures |ps| == |ms| && forall i :: 0 <= i < |ms| ==> ps[i] == Wire(lib, cfg, ms[i])
  {
    seq(|ms|, i requires 0 <= i < |ms| => Wire(lib, cfg, ms[i]))
  }

  /** What telemetry and events of one window say: the telemetry has the number given and the window's values; an
      event is there exactly if one is due, has the next number, points back at the telemetry, repeats its status
      and times, and lists the violations. */
  ghost predicate SaysOutput(cfg: EdgeConfig, telemetry: Payload, events: seq<Payload>, n: nat, w: WindowSummary,
                             d: Decision, at: Stamp) {
    && SaysOrigin(cfg, telemetry, w.measuredAt, n, at) && SaysWindow(telemetry, w, d.status.Name())
    && (if d.emit then
          && |events| == 1
          && SaysOrigin(cfg, events[0], w.measuredAt, n + 1, at)
          && SaysIncident(cfg, events[0], d.status, n, d.violations)
          && Inside(events[0][DetailsField], "relatedSeqNo", telemetry[SeqNoField])
          && Says(events[0], SeverityField, telemetry[StatusField])
          && Says(events[0], MeasuredAtField, telemetry[MeasuredAtField])
        else events == [])
  }

  lemma WindowSays(lib: Library, cfg: EdgeConfig, n: nat, w: WindowSummary, d: Decision, at: Stamp)
    requires cfg.Valid() && (d.emit ==> d.status != Normal)
    ensures var ps := WireAll(lib, cfg, WindowMessages(n, w, d, at));
            SaysOutput(cfg, ps[0], ps[1..], n, w, d, at)
  {
    var ms := WindowMessages(n, w, d, at);
    var ps := WireAll(lib, cfg, ms);
    hide Wire, Sealed, WireAll;
    WireSays(lib, cfg, ms[0]);
    if d.emit {
      WireSays(lib, cfg, ms[1]);
      PointsBack(cfg, ps[0], ps[1], n, w, d, at);
    }
    hide SaysOrigin, SaysWindow, SaysIncident, COMMON, TELEMETRY, EVENT;
  }

  lemma PointsBack(cfg: EdgeConfig, telemetry: Payload, event: Payload, n: nat, w: WindowSummary, d: Decision,
                   at: Stamp)
    requires SaysOrigin(cfg, telemetry, w.measuredAt, n, at) && SaysWindow(telemetry, w, d.status.Name())
    requires SaysOrigin(cfg, event, w.measuredAt, n + 1, at) && SaysIncident(cfg, event, d.status, n, d.violations)
    ensures SeqNoField in telemetry && StatusField in telemetry && MeasuredAtField in telemetry && DetailsField in event
    ensures Inside(event[DetailsField], "relatedSeqNo", telemetry[SeqNoField])
    ensures Says(event, SeverityField, telemetry[StatusField])
    ensures Says(event, MeasuredAtField, telemetry[MeasuredAtField])
  {
    hide ListsViolations, SaysSensor;
  }

  datatype Output = Output(telemetry: Payload, events: seq<Payload>, decision: Decision) {
    /** The telemetry message followed by its events. */
    function All(): seq<Payload> { [telemetry] + events }
  }

  lemma RisesOnly(t: Thresholds, previous: Status, w: WindowSummary)
    ensures var d := Decide(t, previous, w); d.emit ==> d.status != Normal
  {}

  datatype LatestState = LatestState(status: string, lastMeasuredAt: Option<string>, tiltX: real, tiltY: real)

  class EdgePipeline {
    const lib: Library
    const cfg: EdgeConfig
    const rules: RuleEngine
    const provider: SQLiteBlackbox
    var latest: LatestState

    ghost predicate Valid() {
      cfg.Valid() && rules.thresholds == cfg.thresholds
    }

    ghost function LastNumber(): nat
      reads provider
    {
      LastSequence(provider.Contents(), cfg.site.deviceId)
    }

    constructor (lib: Library, cfg: EdgeConfig, rules: RuleEngine, provider: SQLiteBlackbox)
      requires cfg.Valid() && rules.thresholds == cfg.thresholds
      ensures Valid() && this.cfg == cfg && this.lib == lib && this.rules == rules && this.provider == provider
      ensures latest == LatestState("INITIALIZING", None, 0.0, 0.0)
    {
      this.lib, this.cfg, this.rules, this.provider := lib, cfg, rules, provider;
      latest := LatestState("INITIALIZING", None, 0.0, 0.0);
    }

    method NextSequence() returns (n: nat)
      requires Valid()
      modifies provider`sequences
      ensures n == LastNumber() == old(LastNumber()) + 1
      ensures provider.Contents() == Reserve(old(provider.Contents()), cfg.site.deviceId)
    {
      var r := provider.NextSequence(cfg.site.deviceId);
      n := r.value;
    }

    /** The output is the written form of the window's messages, numbered from the next free number:
        the incident directly follows its telemetry and points back at it. */
    method Process(w: WindowSummary, now: Stamp) returns (out: Output)
      requires Valid()
      modifies this`latest, rules, provider`sequences
      ensures out.decision == Decide(cfg.thresholds, old(rules.previous), w) && rules.previous == out.decision.status
      ensures out.All() == WireAll(lib, cfg, WindowMessages(old(LastNumber()) + 1, w, out.decision, now))
      ensures SaysOutput(cfg, out.telemetry, out.events, old(LastNumber()) + 1, w, out.decision, now)
      ensures provider.Contents() == ReserveMany(old(provider.Contents()), cfg.site.deviceId, |out.All()|)
      ensures LastNumber() == old(LastNumber()) + |out.All()|
      ensures latest == LatestState(out.decision.status.Name(), Some(w.measuredAt),
                                    w.top.tiltX - w.bottom.tiltX, w.top.tiltY - w.bottom.tiltY)
    {
      hide Wire, Reserve, SaysOutput;
      RisesOnly(cfg.thresholds, rules.previous, w);
      hide Decide;
      ghost var before := provider.Contents();
      assert ReserveMany(before, cfg.site.deviceId, 1) == Reserve(before, cfg.site.deviceId);
      var decision := rules.Evaluate(w);
      var n := NextSequence();
      var telemetry := Telemetry(n, w, decision.status, now);
      var messages := [telemetry];
      if decision.emit {
        var m := NextSequence();
        messages := messages + [Incident(m, w.measuredAt, decision.status, n, decision.violations, now)];
      }
      latest := LatestState(decision.status.Name(), Some(w.measuredAt), w.top.tiltX - w.bottom.tiltX,
                            w.top.tiltY - w.bottom.tiltY);
      var written := WireAll(lib, cfg, messages);
      out := Output(written[0], written[1..], decision);
      assert messages == WindowMessages(n, w, decision, now);
      WindowSays(lib, cfg, n, w, decision, now);
    }

    method BuildSensorError(e: IncompleteWindow, measuredAt: Stamp, now: Stamp) returns (p: Payload)
      requires Valid()
      modifies provider`sequences
      ensures provider.Contents() == Reserve(old(provider.Contents()), cfg.site.deviceId)
      ensures LastNumber() == old(LastNumber()) + 1
      ensures p == Wire(lib, cfg, SensorError(LastNumber(), measuredAt, e, now))
      ensures SaysOrigin(cfg, p, measuredAt, LastNumber(), now) && SaysSensorError(p, e)
    {
      hide SaysOrigin, SaysSensorError, Wire;
      var n := NextSequence();
      WireSays(lib, cfg, SensorError(n, measuredAt, e, now));
      p := Wire(lib, cfg, SensorError(n, measuredAt, e, now));
    }

    method BuildConnectionEvent(t: Transition, measuredAt: Stamp, now: Stamp) returns (p: Payload)
      requires Valid()
      modifies provider`sequences
      ensures provider.Contents() == Reserve(old(provider.Contents()), cfg.site.deviceId)
      ensures LastNumber() == old(LastNumber()) + 1
      ensures p == Wire(lib, cfg, Connection(LastNumber(), measuredAt, t, now))
      ensures SaysOrigin(cfg, p, measuredAt, LastNumber(), now) && SaysTransition(p, t)
    {
      hide SaysOrigin, SaysTransition, Wire;
      var n := NextSequence();
      WireSays(lib, cfg, Connection(n, measuredAt, t, now));
      p := Wire(lib, cfg, Connection(n, measuredAt, t, now));
    }
  }
}
