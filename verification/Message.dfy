/** The message contract shared by the bridge and the consumers:
    streaming/common/message.py and streaming/bridge/processor.py. */
module Message {
  import opened Prelude

  /** A decoded JSON value. */
  datatype Json =
    | Null
    | Bool(b: bool)
    | Int(n: int)
    | Float(r: real)
    | Str(s: string)
    | Arr(items: seq<Json>)
    | Obj(fields: map<string, Json>)

  /** The fields of a message; any other field is carried by name. */
  datatype Field =
    | SiteIdField | SectionIdField | DeviceIdField | SourceTypeField
    | MeasuredAtField | ProducedAtField | SeqNoField | EventIdField
    | StreamIdField | TestRunIdField | SchemaVersionField | DataHashField
    | SensorsField | RelativeTiltXField | RelativeTiltYField | StatusField
    | EventTypeField | SeverityField | ReasonField | DetailsField
    | OtherField(name: string)

  type Payload = map<Field, Json>

  /** Library code the model does not open: the digest of a canonical serialization,
      and Python's text form of the values for which it is not written out below. */
  datatype Library = Library(digest: Payload -> string, render: Json -> string)

  datatype Error =
    | IdentityFieldMissing
    | BadSchemaVersion
    | BadSeqNo
    | EventIdMismatch
    | DataHashMismatch

  datatype Kind = TelemetryKind | EventKind

  datatype Processed = Processed(message: Payload, kind: Kind, kafkaKey: Json)

  // ----- text of values -----

  function Digit(d: nat): (c: char)
    requires d < 10
    ensures c != ':'
  {
    "0123456789"[d]
  }

  function Decimal(n: nat): (s: string)
    ensures |s| > 0
    ensures ':' !in s
  {
    if n < 10 then [Digit(n)] else Decimal(n / 10) + [Digit(n % 10)]
  }

  function Text(lib: Library, v: Json): string {
    match v
    case Null => "None"
    case Bool(b) => if b then "True" else "False"
    case Int(n) => if n < 0 then "-" + Decimal(-n) else Decimal(n)
    case Str(s) => s
    case _ => lib.render(v)
  }

  /** The identity every message carries: run, stream and sequence number joined by colons. */
  function EventId(run: string, stream: string, seqNo: nat): string {
    run + ":" + stream + ":" + Decimal(seqNo)
  }

  // ----- validation -----

  function Identity(lib: Library, m: Payload): Option<Error> {
    if !({EventIdField, TestRunIdField, StreamIdField, SchemaVersionField, SeqNoField} <= m.Keys) then
      Some(IdentityFieldMissing)
    else if !(m[SchemaVersionField] == Int(3) || m[SchemaVersionField] == Float(3.0)) then Some(BadSchemaVersion)
    else if !(m[SeqNoField].Int? && m[SeqNoField].n >= 0) then Some(BadSeqNo)
    else if m[EventIdField]
            != Str(EventId(Text(lib, m[TestRunIdField]), Text(lib, m[StreamIdField]), m[SeqNoField].n))
      then Some(EventIdMismatch)
    else None
  }

  function DataHash(lib: Library, m: Payload): string {
    lib.digest(m - {DataHashField})
  }

  predicate VerifyDataHash(lib: Library, m: Payload) {
    DataHashField in m && m[DataHashField] == Str(DataHash(lib, m))
  }

  function MessageKind(m: Payload): Kind {
    if EventTypeField in m then EventKind else TelemetryKind
  }

  function ProcessMessage(lib: Library, m: Payload): Result<Processed, Error> {
    match Identity(lib, m)
    case Some(e) => Err(e)
    case None =>
      if !VerifyDataHash(lib, m) then Err(DataHashMismatch)
      else Ok(Processed(m, MessageKind(m), m[StreamIdField]))
  }

  predicate Accepted(lib: Library, m: Payload) {
    ProcessMessage(lib, m).Ok?
  }

  // ----- what is accepted, and what is refused -----

  /** The number a text of digits stands for. */
  function ValueOf(digits: string): int {
    if digits == "" then 0
    else 10 * ValueOf(digits[..|digits| - 1]) + (digits[|digits| - 1] as int - '0' as int)
  }

  /** A decimal is made of digits, has no leading zero, and reads back. */
  lemma {:induction false} DecimalReads(n: nat)
    ensures ValueOf(Decimal(n)) == n
    ensures forall i :: 0 <= i < |Decimal(n)| ==> '0' <= Decimal(n)[i] <= '9'
    ensures n > 0 ==> Decimal(n)[0] != '0'
  {
    if n >= 10 {
      DecimalReads(n / 10);
      assert Decimal(n)[..|Decimal(n)| - 1] == Decimal(n / 10);
    } else {
      assert Decimal(n)[..0] == "";
    }
  }

  /** The text of a value in an event id: a text stands for itself, an integer for its signed decimal. */
  lemma TextMeans(lib: Library, v: Json)
    ensures v.Str? ==> Text(lib, v) == v.s
    ensures v.Int? && v.n >= 0 ==> ValueOf(Text(lib, v)) == v.n && '-' !in Text(lib, v)
    ensures v.Int? && v.n < 0 ==> Text(lib, v)[0] == '-' && ValueOf(Text(lib, v)[1..]) == -v.n
    ensures v == Null ==> Text(lib, v) == "None"
    ensures v.Bool? ==> Text(lib, v) == if v.b then "True" else "False"
  {
    if v.Int? {
      DecimalReads(if v.n < 0 then -v.n else v.n);
    }
  }

  /** The message is of version 3 and carries run, stream and number, and the id that joins these three. */
  ghost predicate Identified(lib: Library, m: Payload) {
    && TestRunIdField in m && StreamIdField in m && SeqNoField in m && SchemaVersionField in m && EventIdField in m
    && (m[SchemaVersionField] == Int(3) || m[SchemaVersionField] == Float(3.0))
    && m[SeqNoField].Int? && 0 <= m[SeqNoField].n
    && m[EventIdField] == Str(Text(lib, m[TestRunIdField]) + ":" + Text(lib, m[StreamIdField]) + ":"
                              + Decimal(m[SeqNoField].n))
  }

  /** It carries the digest of all its other fields. */
  ghost predicate Sealed(lib: Library, m: Payload) {
    DataHashField in m && m[DataHashField] == Str(lib.digest(map f | f in m && f != DataHashField :: m[f]))
  }

  lemma SealedIsVerified(lib: Library, m: Payload)
    ensures VerifyDataHash(lib, m) <==> Sealed(lib, m)
  {
    assert m - {DataHashField} == map f | f in m && f != DataHashField :: m[f];
  }

  /** A message is accepted exactly if it is identified and sealed, and it is passed on as it is, keyed by its
      stream, as an event exactly if it has an event type. Otherwise the error names the first check it fails. */
  lemma AcceptedExactly(lib: Library, m: Payload)
    ensures Accepted(lib, m) <==> Identified(lib, m) && Sealed(lib, m)
    ensures match ProcessMessage(lib, m)
            case Ok(p) =>
              && Identified(lib, m) && Sealed(lib, m)
              && p.message == m && p.kafkaKey == m[StreamIdField] && (p.kind == EventKind <==> EventTypeField in m)
            case Err(DataHashMismatch) => Identified(lib, m) && !Sealed(lib, m)
            case Err(IdentityFieldMissing) =>
              TestRunIdField !in m || StreamIdField !in m || SeqNoField !in m || SchemaVersionField !in m
              || EventIdField !in m
            case Err(BadSchemaVersion) =>
              SchemaVersionField in m && m[SchemaVersionField] != Int(3) && m[SchemaVersionField] != Float(3.0)
            case Err(BadSeqNo) => SeqNoField in m && (m[SeqNoField].Int? ==> m[SeqNoField].n < 0)
            case Err(EventIdMismatch) =>
              && SeqNoField in m && m[SeqNoField].Int? && m[SeqNoField].n >= 0
              && TestRunIdField in m && StreamIdField in m && EventIdField in m
              && m[EventIdField] != Str(Text(lib, m[TestRunIdField]) + ":" + Text(lib, m[StreamIdField]) + ":"
                                        + Decimal(m[SeqNoField].n))
  {
    SealedIsVerified(lib, m);
    hide VerifyDataHash, Text, Decimal;
  }

  /** What is changed after the digest was taken is refused, whatever field it is, unless the digest of the
      changed message is the old one. */
  lemma ChangedIsRefused(lib: Library, m: Payload, f: Field, v: Json)
    requires Accepted(lib, m) && f != DataHashField
    requires lib.digest(m[f := v] - {DataHashField}) != lib.digest(m - {DataHashField})
    ensures ProcessMessage(lib, m[f := v]).Err?
    ensures f !in {EventIdField, TestRunIdField, StreamIdField, SchemaVersionField, SeqNoField} ==>
              ProcessMessage(lib, m[f := v]) == Err(DataHashMismatch)
  {
    hide Text, EventId;
  }

  // ----- the event id determines the identity, exactly as far as colons allow -----

  lemma {:induction false} DecimalInjective(m: nat, n: nat)
    ensures Decimal(m) == Decimal(n) <==> m == n
  {
    var s, t := Decimal(m), Decimal(n);
    assert s[|s| - 1] == Digit(m % 10) && t[|t| - 1] == Digit(n % 10);
    assert |s| == 1 <==> m < 10;
    assert |t| == 1 <==> n < 10;
    if s == t && m >= 10 {
      assert Decimal(m / 10) == s[..|s| - 1] == t[..|t| - 1] == Decimal(n / 10);
      DecimalInjective(m / 10, n / 10);
    }
  }

  /** A colon-free tail can be read back from the right. */
  lemma SplitAtLastColon(a: string, x: string, b: string, y: string)
    requires ':' !in x && ':' !in y
    ensures a + ":" + x == b + ":" + y <==> a == b && x == y
  {
    var s, t := a + ":" + x, b + ":" + y;
    assert s[|a|] == ':' && forall i :: |a| < i < |s| ==> s[i] != ':';
    assert t[|b|] == ':' && forall i :: |b| < i < |t| ==> t[i] != ':';
    if s == t {
      assert a == s[..|a|] == t[..|b|] == b;
      assert x == s[|a| + 1..] == t[|b| + 1..] == y;
    }
  }

  /** A colon-free head can be read back from the left. */
  lemma SplitAtFirstColon(a: string, x: string, b: string, y: string)
    requires ':' !in a && ':' !in b
    ensures a + ":" + x == b + ":" + y <==> a == b && x == y
  {
    var s, t := a + ":" + x, b + ":" + y;
    assert s[|a|] == ':' && forall i :: 0 <= i < |a| ==> s[i] != ':';
    assert t[|b|] == ':' && forall i :: 0 <= i < |b| ==> t[i] != ':';
    if s == t {
      assert a == s[..|a|] == t[..|b|] == b;
      assert x == s[|a| + 1..] == t[|b| + 1..] == y;
    }
  }

  /** Without any assumption the id fixes the sequence number and the joined run and stream. */
  lemma EventIdExact(run: string, stream: string, n: nat, run': string, stream': string, n': nat)
    ensures EventId(run, stream, n) == EventId(run', stream', n')
       <==> n == n' && run + ":" + stream == run' + ":" + stream'
  {
    SplitAtLastColon(run + ":" + stream, Decimal(n), run' + ":" + stream', Decimal(n'));
    DecimalInjective(n, n');
  }

  /** It fixes all three parts as soon as either the runs or the streams are colon-free. */
  lemma EventIdDeterminesIdentity(run: string, stream: string, n: nat, run': string, stream': string, n': nat)
    requires (':' !in run && ':' !in run') || (':' !in stream && ':' !in stream')
    ensures EventId(run, stream, n) == EventId(run', stream', n') <==> (run, stream, n) == (run', stream', n')
  {
    EventIdExact(run, stream, n, run', stream', n');
    if ':' !in run && ':' !in run' {
      SplitAtFirstColon(run, stream, run', stream');
    } else {
      SplitAtLastColon(run, stream, run', stream');
    }
  }

  /** Nothing in the code forbids colons, and then two different identities can share an id. */
  lemma EventIdCollision()
    ensures EventId("a:b", "c", 1) == EventId("a", "b:c", 1)
  {
    assert "a:b" + ":" + "c" == "a" + ":" + "b:c";
    EventIdExact("a:b", "c", 1, "a", "b:c", 1);
  }
}
