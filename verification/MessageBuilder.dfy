/** The message builders: edge/edge_monitor/contracts/message_builder.py and hashing.py. */
module MessageBuilder {
  import opened Prelude
  import opened Message
  import opened Sampling

  datatype Site = Site(siteId: string, sectionId: string, deviceId: string, sourceType: string)

  datatype BuildError = BadSeqNo | EmptyIdentity | BadStatus | BadEventType | BadSeverity

  const EVENT_TYPES := {
    "DEVICE_STARTED", "DEVICE_STOPPED", "CALIBRATION_COMPLETED", "CALIBRATION_FAILED",
    "THRESHOLD_EXCEEDED", "CONNECTION_LOST", "CONNECTION_RECOVERED", "LOCAL_BUFFERING_STARTED",
    "LOCAL_BUFFERING_STOPPED", "RETRANSMISSION_STARTED", "RETRANSMISSION_COMPLETED",
    "RETRANSMISSION_FAILED", "SENSOR_ERROR" }
  const SEVERITIES := {"INFO", "WARNING", "DANGER", "ERROR"}
  const STATUSES := {"NORMAL", "WARNING", "DANGER"}

  function AttachDataHash(lib: Library, m: Payload): Payload {
    m[DataHashField := Str(DataHash(lib, m))]
  }

  function CommonFields(site: Site, measuredAt: string, seqNo: int, run: string, stream: string,
                        producedAt: string): (r: Result<Payload, BuildError>)
    ensures r.Ok? ==>
              && seqNo >= 0 && EventTypeField !in r.value
              && HasIdentity(r.value, run, stream, seqNo) && HasOrigin(r.value, site, measuredAt)
  {
    if seqNo < 0 then Err(BuildError.BadSeqNo)
    else if run == "" || stream == "" then Err(EmptyIdentity)
    else Ok(map[
      SiteIdField := Str(site.siteId),
      SectionIdField := Str(site.sectionId),
      DeviceIdField := Str(site.deviceId),
      SourceTypeField := Str(site.sourceType),
      MeasuredAtField := Str(measuredAt),
      SeqNoField := Int(seqNo),
      EventIdField := Str(EventId(run, stream, seqNo)),
      StreamIdField := Str(stream),
      SchemaVersionField := Int(3),
      ProducedAtField := Str(producedAt),
      TestRunIdField := Str(run)])
  }

  function SensorFields(address: string, s: SensorSummary): Json {
    Obj(map[
      "i2cAddress" := Str(address),
      "tiltX" := Float(s.tiltX),
      "tiltY" := Float(s.tiltY),
      "vibrationRms" := Float(s.vibrationRms),
      "peakAcceleration" := Float(s.peakAcceleration)])
  }

  /** Fields that say nothing about identity, origin and hash. */
  predicate LeavesIdentity(m: Payload) {
    && TestRunIdField !in m && StreamIdField !in m && SeqNoField !in m
    && SchemaVersionField !in m && EventIdField !in m && DataHashField !in m
    && SiteIdField !in m && SectionIdField !in m && DeviceIdField !in m && MeasuredAtField !in m
  }

  function TelemetryFields(w: WindowSummary, status: string): (m: Payload)
    ensures LeavesIdentity(m) && EventTypeField !in m
    ensures StatusField in m && m[StatusField] == Str(status)
  {
    map[
      SensorsField := Obj(map["top" := SensorFields("0x69", w.top), "bottom" := SensorFields("0x68", w.bottom)]),
      RelativeTiltXField := Float(w.top.tiltX - w.bottom.tiltX),
      RelativeTiltYField := Float(w.top.tiltY - w.bottom.tiltY),
      StatusField := Str(status)]
  }

  function EventFields(eventType: string, severity: string, reason: string, details: map<string, Json>): (m: Payload)
    ensures LeavesIdentity(m)
    ensures EventTypeField in m && m[EventTypeField] == Str(eventType)
  {
    map[
      EventTypeField := Str(eventType),
      SeverityField := Str(severity),
      ReasonField := Str(reason),
      DetailsField := Obj(details)]
  }

  function BuildTelemetry(lib: Library, site: Site, w: WindowSummary, seqNo: int, run: string, stream: string,
                          producedAt: string, status: string): Result<Payload, BuildError>
  {
    if status !in STATUSES then Err(BadStatus)
    else match CommonFields(site, w.measuredAt, seqNo, run, stream, producedAt)
      case Err(e) => Err(e)
      case Ok(common) => Ok(AttachDataHash(lib, common + TelemetryFields(w, status)))
  }

  function BuildEvent(lib: Library, site: Site, measuredAt: string, seqNo: int, run: string, stream: string,
                      eventType: string, severity: string, reason: string, details: map<string, Json>,
                      producedAt: string): Result<Payload, BuildError>
  {
    if eventType !in EVENT_TYPES then Err(BadEventType)
    else if severity !in SEVERITIES then Err(BadSeverity)
    else match CommonFields(site, measuredAt, seqNo, run, stream, producedAt)
      case Err(e) => Err(e)
      case Ok(common) => Ok(AttachDataHash(lib, common + EventFields(eventType, severity, reason, details)))
  }

  lemma AttachedHashVerifies(lib: Library, m: Payload)
    ensures VerifyDataHash(lib, AttachDataHash(lib, m))
  {
    assert AttachDataHash(lib, m) - {DataHashField} == m - {DataHashField};
  }

  predicate HasIdentity(m: Payload, run: string, stream: string, seqNo: nat) {
    && TestRunIdField in m && m[TestRunIdField] == Str(run)
    && StreamIdField in m && m[StreamIdField] == Str(stream)
    && SeqNoField in m && m[SeqNoField] == Int(seqNo)
    && SchemaVersionField in m && m[SchemaVersionField] == Int(3)
    && EventIdField in m && m[EventIdField] == Str(EventId(run, stream, seqNo))
  }

  predicate HasOrigin(m: Payload, site: Site, measuredAt: string) {
    && SiteIdField in m && m[SiteIdField] == Str(site.siteId)
    && SectionIdField in m && m[SectionIdField] == Str(site.sectionId)
    && DeviceIdField in m && m[DeviceIdField] == Str(site.deviceId)
    && MeasuredAtField in m && m[MeasuredAtField] == Str(measuredAt)
  }

  /** What builder and acceptance predicate must agree on, whatever else the message carries. */
  lemma HashedIdentityAccepted(lib: Library, common: Payload, extra: Payload, run: string, stream: string,
                               seqNo: nat, site: Site, measuredAt: string)
    requires HasIdentity(common, run, stream, seqNo) && HasOrigin(common, site, measuredAt)
    requires LeavesIdentity(extra)
    ensures var m := AttachDataHash(lib, common + extra);
            && HasIdentity(m, run, stream, seqNo) && HasOrigin(m, site, measuredAt)
            && ProcessMessage(lib, m) == Ok(Processed(m, MessageKind(common + extra), Str(stream)))
            && forall k :: k in extra ==> k in m && m[k] == extra[k]
  {
    AttachedHashVerifies(lib, common + extra);
  }

  /** Every telemetry message that can be built is accepted downstream, as telemetry keyed by its stream. */
  lemma BuiltTelemetryAccepted(lib: Library, site: Site, w: WindowSummary, seqNo: int, run: string, stream: string,
                               producedAt: string, status: string)
    requires BuildTelemetry(lib, site, w, seqNo, run, stream, producedAt, status).Ok?
    ensures var m := BuildTelemetry(lib, site, w, seqNo, run, stream, producedAt, status).value;
            && seqNo >= 0 && HasIdentity(m, run, stream, seqNo) && HasOrigin(m, site, w.measuredAt)
            && ProcessMessage(lib, m) == Ok(Processed(m, TelemetryKind, Str(stream)))
            && StatusField in m && m[StatusField] == Str(status)
  {
    HashedIdentityAccepted(lib, CommonFields(site, w.measuredAt, seqNo, run, stream, producedAt).value,
                           TelemetryFields(w, status), run, stream, seqNo, site, w.measuredAt);
  }

  /** The same for events. */
  lemma BuiltEventAccepted(lib: Library, site: Site, measuredAt: string, seqNo: int, run: string, stream: string,
                           eventType: string, severity: string, reason: string, details: map<string, Json>,
                           producedAt: string)
    requires BuildEvent(lib, site, measuredAt, seqNo, run, stream, eventType, severity, reason, details, producedAt).Ok?
    ensures var m := BuildEvent(lib, site, measuredAt, seqNo, run, stream, eventType, severity, reason, details,
                                producedAt).value;
            && seqNo >= 0 && HasIdentity(m, run, stream, seqNo) && HasOrigin(m, site, measuredAt)
            && ProcessMessage(lib, m) == Ok(Processed(m, EventKind, Str(stream)))
            && EventTypeField in m && m[EventTypeField] == Str(eventType)
  {
    HashedIdentityAccepted(lib, CommonFields(site, measuredAt, seqNo, run, stream, producedAt).value,
                           EventFields(eventType, severity, reason, details), run, stream, seqNo, site, measuredAt);
  }
}
