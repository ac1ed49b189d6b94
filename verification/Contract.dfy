/** What the built messages say, field by field, and when they keep the published message contract:
    contracts/edge-telemetry-v3.schema.json and contracts/edge-event-v3.schema.json. */
module Contract {
  import opened Prelude
  import opened Message
  import opened Sampling
  import opened MessageBuilder

  // ----- what the fields hold -----

  ghost predicate Says(m: Payload, f: Field, v: Json) {
    f in m && m[f] == v
  }

  /** The value of a name inside a JSON object. */
  ghost predicate Inside(j: Json, name: string, v: Json) {
    j.Obj? && name in j.fields && j.fields[name] == v
  }

  const COMMON: set<Field> := {
    SiteIdField, SectionIdField, DeviceIdField, SourceTypeField, MeasuredAtField, SeqNoField, DataHashField,
    EventIdField, StreamIdField, SchemaVersionField, ProducedAtField, TestRunIdField }
  const TELEMETRY: set<Field> := {SensorsField, RelativeTiltXField, RelativeTiltYField, StatusField}
  const EVENT: set<Field> := {EventTypeField, SeverityField, ReasonField, DetailsField}

  ghost predicate SaysCommon(m: Payload, site: Site, measuredAt: string, seqNo: nat, run: string, stream: string,
                             producedAt: string) {
    && Says(m, SiteIdField, Str(site.siteId))
    && Says(m, SectionIdField, Str(site.sectionId))
    && Says(m, DeviceIdField, Str(site.deviceId))
    && Says(m, SourceTypeField, Str(site.sourceType))
    && Says(m, MeasuredAtField, Str(measuredAt))
    && Says(m, ProducedAtField, Str(producedAt))
    && Says(m, SchemaVersionField, Int(3))
    && Says(m, TestRunIdField, Str(run))
    && Says(m, StreamIdField, Str(stream))
    && Says(m, SeqNoField, Int(seqNo))
    && Says(m, EventIdField, Str(run + ":" + stream + ":" + Decimal(seqNo)))
  }

  ghost predicate SaysSensor(sensors: Json, name: string, address: string, s: SensorSummary) {
    && sensors.Obj? && name in sensors.fields
    && var j := sensors.fields[name];
       && j.Obj? && j.fields.Keys == {"i2cAddress", "tiltX", "tiltY", "vibrationRms", "peakAcceleration"}
       && Inside(j, "i2cAddress", Str(address))
       && Inside(j, "tiltX", Float(s.tiltX)) && Inside(j, "tiltY", Float(s.tiltY))
       && Inside(j, "vibrationRms", Float(s.vibrationRms))
       && Inside(j, "peakAcceleration", Float(s.peakAcceleration))
  }

  ghost predicate SaysWindow(m: Payload, w: WindowSummary, status: string) {
    && SensorsField in m && m[SensorsField].Obj? && m[SensorsField].fields.Keys == {"top", "bottom"}
    && SaysSensor(m[SensorsField], "top", "0x69", w.top)
    && SaysSensor(m[SensorsField], "bottom", "0x68", w.bottom)
    && Says(m, RelativeTiltXField, Float(w.top.tiltX - w.bottom.tiltX))
    && Says(m, RelativeTiltYField, Float(w.top.tiltY - w.bottom.tiltY))
    && Says(m, StatusField, Str(status))
  }

  ghost predicate SaysEvent(m: Payload, eventType: string, severity: string, reason: string,
                            details: map<string, Json>) {
    && Says(m, EventTypeField, Str(eventType)) && Says(m, SeverityField, Str(severity))
    && Says(m, ReasonField, Str(reason)) && Says(m, DetailsField, Obj(details))
  }

  lemma CommonFieldsSay(site: Site, measuredAt: string, seqNo: int, run: string, stream: string, producedAt: string)
    ensures var r := CommonFields(site, measuredAt, seqNo, run, stream, producedAt);
            if seqNo >= 0 && run != "" && stream != ""
            then r.Ok? && SaysCommon(r.value, site, measuredAt, seqNo, run, stream, producedAt)
                 && r.value.Keys == COMMON - {DataHashField}
            else r.Err?
  {
    hide Decimal;
  }

  /** Fields are kept when others are added and the hash is attached. */
  lemma Carried(lib: Library, common: Payload, extra: Payload)
    requires common.Keys !! extra.Keys && DataHashField !in common && DataHashField !in extra
    ensures var m := AttachDataHash(lib, common + extra);
            && m.Keys == common.Keys + extra.Keys + {DataHashField} && Sealed(lib, m)
            && (forall f :: f in common ==> m[f] == common[f]) && (forall f :: f in extra ==> m[f] == extra[f])
  {
    var m := AttachDataHash(lib, common + extra);
    AttachedHashVerifies(lib, common + extra);
    SealedIsVerified(lib, m);
    hide DataHash, VerifyDataHash, Sealed;
  }

  lemma StillSays(m: Payload, m': Payload, site: Site, measuredAt: string, seqNo: nat, run: string, stream: string,
                  producedAt: string)
    requires SaysCommon(m, site, measuredAt, seqNo, run, stream, producedAt)
    requires forall f :: f in m ==> f in m' && m'[f] == m[f]
    ensures SaysCommon(m', site, measuredAt, seqNo, run, stream, producedAt)
  {
    hide Decimal;
  }

  /** A telemetry message can be built exactly for a known status, a number and named run and stream; and then
      it says what the window says, each value under its own name, and nothing else. */
  lemma TelemetrySays(lib: Library, site: Site, w: WindowSummary, seqNo: int, run: string, stream: string,
                      producedAt: string, status: string)
    ensures var r := BuildTelemetry(lib, site, w, seqNo, run, stream, producedAt, status);
            && (r.Ok? <==> (status == "NORMAL" || status == "WARNING" || status == "DANGER")
                           && seqNo >= 0 && run != "" && stream != "")
            && (r.Ok? ==>
                  && SaysCommon(r.value, site, w.measuredAt, seqNo, run, stream, producedAt)
                  && SaysWindow(r.value, w, status)
                  && r.value.Keys == COMMON + TELEMETRY && Sealed(lib, r.value))
  {
    hide CommonFields, SaysCommon, SaysWindow, TelemetryFields, AttachDataHash, Sealed;
    CommonFieldsSay(site, w.measuredAt, seqNo, run, stream, producedAt);
    var r := BuildTelemetry(lib, site, w, seqNo, run, stream, producedAt, status);
    if r.Ok? {
      var common := CommonFields(site, w.measuredAt, seqNo, run, stream, producedAt).value;
      var extra := TelemetryFields(w, status);
      WindowFieldsSay(w, status);
      Carried(lib, common, extra);
      StillSays(common, r.value, site, w.measuredAt, seqNo, run, stream, producedAt);
      StillSaysWindow(extra, r.value, w, status);
    }
  }

  lemma WindowFieldsSay(w: WindowSummary, status: string)
    ensures SaysWindow(TelemetryFields(w, status), w, status) && TelemetryFields(w, status).Keys == TELEMETRY
  {}

  lemma StillSaysWindow(m: Payload, m': Payload, w: WindowSummary, status: string)
    requires SaysWindow(m, w, status)
    requires forall f :: f in m ==> f in m' && m'[f] == m[f]
    ensures SaysWindow(m', w, status)
  {
    hide SaysSensor;
  }

  /** The same for events. */
  lemma EventSays(lib: Library, site: Site, measuredAt: string, seqNo: int, run: string, stream: string,
                  eventType: string, severity: string, reason: string, details: map<string, Json>, producedAt: string)
    ensures var r := BuildEvent(lib, site, measuredAt, seqNo, run, stream, eventType, severity, reason, details,
                                producedAt);
            && (r.Ok? <==> InEventEnum(eventType) && InSeverityEnum(severity)
                           && seqNo >= 0 && run != "" && stream != "")
            && (r.Ok? ==>
                  && SaysCommon(r.value, site, measuredAt, seqNo, run, stream, producedAt)
                  && SaysEvent(r.value, eventType, severity, reason, details)
                  && r.value.Keys == COMMON + EVENT && Sealed(lib, r.value))
  {
    hide CommonFields, SaysCommon, AttachDataHash, EventFields, InEventEnum, InSeverityEnum, SaysEvent, Sealed;
    hide EVENT_TYPES, SEVERITIES, EVENT;
    EnumsAgree(eventType, severity);
    CommonFieldsSay(site, measuredAt, seqNo, run, stream, producedAt);
    var r := BuildEvent(lib, site, measuredAt, seqNo, run, stream, eventType, severity, reason, details, producedAt);
    if r.Ok? {
      var common := CommonFields(site, measuredAt, seqNo, run, stream, producedAt).value;
      var extra := EventFields(eventType, severity, reason, details);
      EventFieldsSay(eventType, severity, reason, details);
      Carried(lib, common, extra);
      StillSays(common, r.value, site, measuredAt, seqNo, run, stream, producedAt);
      StillSaysEvent(extra, r.value, eventType, severity, reason, details);
    }
  }

  lemma EnumsAgree(eventType: string, severity: string)
    ensures eventType in EVENT_TYPES <==> InEventEnum(eventType)
    ensures severity in SEVERITIES <==> InSeverityEnum(severity)
  {}

  lemma EventFieldsSay(eventType: string, severity: string, reason: string, details: map<string, Json>)
    ensures var m := EventFields(eventType, severity, reason, details);
            SaysEvent(m, eventType, severity, reason, details) && m.Keys == EVENT && EVENT !! COMMON
  {}

  lemma StillSaysEvent(m: Payload, m': Payload, eventType: string, severity: string, reason: string,
                       details: map<string, Json>)
    requires SaysEvent(m, eventType, severity, reason, details)
    requires forall f :: f in m ==> f in m' && m'[f] == m[f]
    ensures SaysEvent(m', eventType, severity, reason, details)
  {}

  // ----- the published schemas -----

  predicate InEventEnum(s: string) {
    || s == "DEVICE_STARTED" || s == "DEVICE_STOPPED" || s == "CALIBRATION_COMPLETED" || s == "CALIBRATION_FAILED"
    || s == "THRESHOLD_EXCEEDED" || s == "CONNECTION_LOST" || s == "CONNECTION_RECOVERED"
    || s == "LOCAL_BUFFERING_STARTED" || s == "LOCAL_BUFFERING_STOPPED" || s == "RETRANSMISSION_STARTED"
    || s == "RETRANSMISSION_COMPLETED" || s == "RETRANSMISSION_FAILED" || s == "SENSOR_ERROR"
  }

  predicate InSeverityEnum(s: string) {
    s == "INFO" || s == "WARNING" || s == "DANGER" || s == "ERROR"
  }

  ghost predicate IsText(m: Payload, f: Field) {
    f in m && m[f].Str? && m[f].s != ""
  }

  /** A lower-case hexadecimal text of 64 digits. */
  predicate IsDigest(s: string) {
    |s| == 64 && forall i :: 0 <= i < |s| ==> '0' <= s[i] <= '9' || 'a' <= s[i] <= 'f'
  }

  /** Three parts joined by colons: two that are not empty and have no colon, and digits. */
  ghost predicate IdPattern(s: string) {
    exists a: string, b: string, c: string ::
      && s == a + ":" + b + ":" + c
      && a != "" && ':' !in a && b != "" && ':' !in b
      && c != "" && forall i :: 0 <= i < |c| ==> '0' <= c[i] <= '9'
  }

  ghost predicate CommonSchema(m: Payload) {
    && IsText(m, SiteIdField) && IsText(m, SectionIdField) && IsText(m, DeviceIdField)
    && (Says(m, SourceTypeField, Str("physical")) || Says(m, SourceTypeField, Str("simulator")))
    && MeasuredAtField in m && m[MeasuredAtField].Str? && ProducedAtField in m && m[ProducedAtField].Str?
    && SeqNoField in m && m[SeqNoField].Int? && m[SeqNoField].n >= 0
    && DataHashField in m && m[DataHashField].Str? && IsDigest(m[DataHashField].s)
    && EventIdField in m && m[EventIdField].Str? && IdPattern(m[EventIdField].s)
    && IsText(m, StreamIdField) && IsText(m, TestRunIdField)
    && Says(m, SchemaVersionField, Int(3))
  }

  ghost predicate SensorSchema(j: Json, address: string) {
    && j.Obj? && j.fields.Keys == {"i2cAddress", "tiltX", "tiltY", "vibrationRms", "peakAcceleration"}
    && j.fields["i2cAddress"] == Str(address) && j.fields["tiltX"].Float? && j.fields["tiltY"].Float?
    && j.fields["vibrationRms"].Float? && j.fields["vibrationRms"].r >= 0.0
    && j.fields["peakAcceleration"].Float? && j.fields["peakAcceleration"].r >= 0.0
  }

  ghost predicate TelemetrySchema(m: Payload) {
    && m.Keys == COMMON + TELEMETRY && CommonSchema(m)
    && m[SensorsField].Obj? && m[SensorsField].fields.Keys == {"top", "bottom"}
    && SensorSchema(m[SensorsField].fields["top"], "0x69")
    && SensorSchema(m[SensorsField].fields["bottom"], "0x68")
    && m[RelativeTiltXField].Float? && m[RelativeTiltYField].Float?
    && (m[StatusField] == Str("NORMAL") || m[StatusField] == Str("WARNING") || m[StatusField] == Str("DANGER"))
  }

  ghost predicate EventSchema(m: Payload) {
    && m.Keys == COMMON + EVENT && CommonSchema(m)
    && m[EventTypeField].Str? && InEventEnum(m[EventTypeField].s)
    && m[SeverityField].Str? && InSeverityEnum(m[SeverityField].s)
    && IsText(m, ReasonField) && m[DetailsField].Obj?
  }

  // ----- when they are kept -----

  /** The digest is a SHA-256 in lower-case hexadecimal. */
  ghost predicate HexDigest(lib: Library) {
    forall m: Payload :: IsDigest(lib.digest(m))
  }

  /** What the schemas demand of the configuration, which the code does not check. */
  predicate Publishable(site: Site, run: string, stream: string) {
    && site.siteId != "" && site.sectionId != "" && site.deviceId != ""
    && (site.sourceType == "physical" || site.sourceType == "simulator")
    && ':' !in run && ':' !in stream
  }

  /** The id of a built message has the published form exactly if run and stream have no colon. */
  lemma IdPatternExact(run: string, stream: string, n: nat)
    requires run != "" && stream != ""
    ensures IdPattern(run + ":" + stream + ":" + Decimal(n)) <==> ':' !in run && ':' !in stream
  {
    var s := run + ":" + stream + ":" + Decimal(n);
    DecimalReads(n);
    if IdPattern(s) {
      var a: string, b: string, c: string :| s == a + ":" + b + ":" + c && ':' !in a && ':' !in b
          && c != "" && forall i :: 0 <= i < |c| ==> '0' <= c[i] <= '9';
      SplitAtLastColon(run + ":" + stream, Decimal(n), a + ":" + b, c);
      OneColon(run, stream, a, b);
    }
  }

  lemma OneColon(x: string, y: string, a: string, b: string)
    requires x + ":" + y == a + ":" + b && ':' !in a && ':' !in b
    ensures x == a && y == b
  {
    var s := a + ":" + b;
    assert s == x + ":" + y;
    assert s[|x|] == ':' && s[|a|] == ':';
    assert forall i :: 0 <= i < |s| && i != |a| ==> s[i] != ':';
    assert x == s[..|x|] && y == s[|x| + 1..] && b == s[|a| + 1..];
  }

  lemma CommonConforms(lib: Library, m: Payload, site: Site, measuredAt: string, seqNo: nat, run: string,
                       stream: string, producedAt: string)
    requires HexDigest(lib) && Sealed(lib, m) && run != "" && stream != ""
    requires SaysCommon(m, site, measuredAt, seqNo, run, stream, producedAt)
    ensures CommonSchema(m) <==> Publishable(site, run, stream)
  {
    hide IdPattern, Decimal, IsDigest;
    IdPatternExact(run, stream, seqNo);
  }

  /** A built telemetry message keeps its schema exactly if the configuration names site, section and device, has a
      known source type and no colon in run and stream; the vibration values of a window are never negative. */
  lemma TelemetryConforms(lib: Library, site: Site, w: WindowSummary, seqNo: int, run: string, stream: string,
                          producedAt: string, status: string)
    requires HexDigest(lib) && BuildTelemetry(lib, site, w, seqNo, run, stream, producedAt, status).Ok?
    requires 0.0 <= w.top.vibrationRms <= w.top.peakAcceleration
    requires 0.0 <= w.bottom.vibrationRms <= w.bottom.peakAcceleration
    ensures TelemetrySchema(BuildTelemetry(lib, site, w, seqNo, run, stream, producedAt, status).value)
       <==> Publishable(site, run, stream)
  {
    hide BuildTelemetry, SaysCommon, CommonSchema, COMMON, TELEMETRY, Sealed;
    TelemetrySays(lib, site, w, seqNo, run, stream, producedAt, status);
    var m := BuildTelemetry(lib, site, w, seqNo, run, stream, producedAt, status).value;
    CommonConforms(lib, m, site, w.measuredAt, seqNo, run, stream, producedAt);
  }

  lemma EventConforms(lib: Library, site: Site, measuredAt: string, seqNo: int, run: string, stream: string,
                      eventType: string, severity: string, reason: string, details: map<string, Json>,
                      producedAt: string)
    requires HexDigest(lib) && reason != ""
    requires BuildEvent(lib, site, measuredAt, seqNo, run, stream, eventType, severity, reason, details, producedAt).Ok?
    ensures EventSchema(BuildEvent(lib, site, measuredAt, seqNo, run, stream, eventType, severity, reason, details,
                                   producedAt).value)
       <==> Publishable(site, run, stream)
  {
    hide BuildEvent, SaysCommon, CommonSchema, COMMON, EVENT, Sealed;
    EventSays(lib, site, measuredAt, seqNo, run, stream, eventType, severity, reason, details, producedAt);
    var m := BuildEvent(lib, site, measuredAt, seqNo, run, stream, eventType, severity, reason, details,
                        producedAt).value;
    CommonConforms(lib, m, site, measuredAt, seqNo, run, stream, producedAt);
  }
}
