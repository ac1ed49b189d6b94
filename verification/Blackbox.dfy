/** The durable outbox and the sequence allocator: edge/edge_monitor/storage/blackbox.py.
    The functions say what one committed statement or transaction does to the two tables;
    the class updates the tables in place and is proved against them. */
module Blackbox {
  import opened Prelude
  import opened Message

  /** One outbox row, with the columns that are read back or constrained. */
  datatype Row<P> = Row(id: nat, entry: Entry<P>, attempts: nat)

  /** What an insert supplies; device, kind and sequence number form the UNIQUE key. */
  datatype Entry<P> = Entry(deviceId: string, kind: Kind, seqNo: nat, payload: P)

  datatype Box<P> = Box(rows: seq<Row<P>>, nextId: nat, sequences: map<string, nat>)

  datatype BoxError = BadMessageType | BadDataHash | FieldMissing | BadSeqNo | BadDeviceId | BadMeasuredAt

  predicate SameKey<P>(a: Entry<P>, b: Entry<P>) {
    a.deviceId == b.deviceId && a.kind == b.kind && a.seqNo == b.seqNo
  }

  predicate Clashes<P>(rows: seq<Row<P>>, e: Entry<P>) {
    exists i :: 0 <= i < |rows| && SameKey(rows[i].entry, e)
  }

  /** INSERT OR IGNORE of one row. */
  function Insert<P>(box: Box<P>, e: Entry<P>): Box<P> {
    if Clashes(box.rows, e) then box
    else box.(rows := box.rows + [Row(box.nextId, e, 0)], nextId := box.nextId + 1)
  }

  /** One transaction inserting several rows in order. */
  function InsertAll<P>(box: Box<P>, es: seq<Entry<P>>): Box<P> {
    if es == [] then box else Insert(InsertAll(box, es[..|es| - 1]), es[|es| - 1])
  }

  function Pending<P>(box: Box<P>, limit: int): seq<Row<P>> {
    if limit <= 0 then [] else if limit < |box.rows| then box.rows[..limit] else box.rows
  }

  function Without<P>(rows: seq<Row<P>>, id: nat): seq<Row<P>> {
    if rows == [] then [] else (if rows[0].id == id then [] else [rows[0]]) + Without(rows[1..], id)
  }

  function Bumped<P>(rows: seq<Row<P>>, id: nat): (r: seq<Row<P>>)
    ensures |r| == |rows|
    ensures forall i :: 0 <= i < |rows| ==>
              r[i] == if rows[i].id == id then rows[i].(attempts := rows[i].attempts + 1) else rows[i]
  {
    seq(|rows|, i requires 0 <= i < |rows| =>
      if rows[i].id == id then rows[i].(attempts := rows[i].attempts + 1) else rows[i])
  }

  function LastSequence<P>(box: Box<P>, deviceId: string): nat {
    if deviceId in box.sequences then box.sequences[deviceId] else 0
  }

  /** Reserves the number after LastSequence. */
  function Reserve<P>(box: Box<P>, deviceId: string): Box<P> {
    box.(sequences := box.sequences[deviceId := LastSequence(box, deviceId) + 1])
  }

  /** n numbers reserved one after another. */
  function ReserveMany<P>(box: Box<P>, deviceId: string, n: nat): Box<P> {
    if n == 0 then box else Reserve(ReserveMany(box, deviceId, n - 1), deviceId)
  }

  // ----- what the tables always satisfy -----

  ghost predicate Ordered<P>(box: Box<P>) {
    && (forall i :: 0 <= i < |box.rows| ==> box.rows[i].id < box.nextId)
    && (forall i, j :: 0 <= i < j < |box.rows| ==> box.rows[i].id < box.rows[j].id)
    && (forall i, j :: 0 <= i < j < |box.rows| ==> !SameKey(box.rows[i].entry, box.rows[j].entry))
  }

  lemma InsertKeepsOrder<P>(box: Box<P>, e: Entry<P>)
    requires Ordered(box)
    ensures Ordered(Insert(box, e))
    ensures box.rows <= Insert(box, e).rows
    ensures Clashes(Insert(box, e).rows, e)
    ensures Insert(Insert(box, e), e) == Insert(box, e)
  {
    var after := Insert(box, e);
    if !Clashes(box.rows, e) {
      assert SameKey(after.rows[|box.rows|].entry, e);
    }
  }

  /** A transaction only appends, and every row it was given is in the table afterwards. */
  lemma {:induction false} InsertAllKeepsOrder<P>(box: Box<P>, es: seq<Entry<P>>)
    requires Ordered(box)
    ensures Ordered(InsertAll(box, es))
    ensures box.rows <= InsertAll(box, es).rows
    ensures forall i :: 0 <= i < |es| ==> Clashes(InsertAll(box, es).rows, es[i])
    ensures InsertAll(box, es).sequences == box.sequences
  {
    if es != [] {
      var front := es[..|es| - 1];
      InsertAllKeepsOrder(box, front);
      var mid := InsertAll(box, front);
      InsertKeepsOrder(mid, es[|es| - 1]);
      forall i | 0 <= i < |es| ensures Clashes(InsertAll(box, es).rows, es[i]) {
        if i < |es| - 1 {
          assert Clashes(mid.rows, front[i]);
          var j :| 0 <= j < |mid.rows| && SameKey(mid.rows[j].entry, front[i]);
          assert InsertAll(box, es).rows[j] == mid.rows[j];
        }
      }
    }
  }

  /** The rows a transaction adds when none of its keys is taken. */
  function NewRows<P>(firstId: nat, es: seq<Entry<P>>): (rs: seq<Row<P>>)
    ensures |rs| == |es| && forall i :: 0 <= i < |es| ==> rs[i] == Row(firstId + i, es[i], 0)
  {
    seq(|es|, i requires 0 <= i < |es| => Row(firstId + i, es[i], 0))
  }

  lemma {:induction false} InsertAllFresh<P>(box: Box<P>, es: seq<Entry<P>>)
    requires forall i, j :: 0 <= i < |box.rows| && 0 <= j < |es| ==> !SameKey(box.rows[i].entry, es[j])
    requires forall i, j :: 0 <= i < j < |es| ==> !SameKey(es[i], es[j])
    ensures InsertAll(box, es)
         == box.(rows := box.rows + NewRows(box.nextId, es), nextId := box.nextId + |es|)
  {
    if es == [] {
      assert box.rows + NewRows(box.nextId, es) == box.rows;
    } else {
      var front := es[..|es| - 1];
      InsertAllFresh(box, front);
      var mid := InsertAll(box, front);
      assert !Clashes(mid.rows, es[|es| - 1]);
      assert NewRows(box.nextId, es) == NewRows(box.nextId, front) + [Row(mid.nextId, es[|es| - 1], 0)];
    }
  }

  /** Acknowledging deletes the row with that id, keeps all others, and keeps their order. */
  lemma {:induction false} WithoutExact<P>(rows: seq<Row<P>>, id: nat, k: nat)
    requires forall i, j :: 0 <= i < j < |rows| ==> rows[i].id < rows[j].id
    requires k < |rows| && rows[k].id == id
    ensures Without(rows, id) == rows[..k] + rows[k + 1..]
  {
    if k == 0 {
      WithoutAbsent(rows[1..], id);
    } else {
      WithoutExact(rows[1..], id, k - 1);
      assert rows[..k] + rows[k + 1..] == [rows[0]] + (rows[1..][..k - 1] + rows[1..][k..]);
    }
  }

  lemma {:induction false} WithoutAbsent<P>(rows: seq<Row<P>>, id: nat)
    requires forall i :: 0 <= i < |rows| ==> rows[i].id != id
    ensures Without(rows, id) == rows
  {
    if rows != [] {
      WithoutAbsent(rows[1..], id);
      assert rows == [rows[0]] + rows[1..];
    }
  }

  /** Reserving n times moves the device's number on by n and touches nothing else. */
  lemma {:induction false} ReserveManyMoves<P>(box: Box<P>, deviceId: string, n: nat)
    ensures var b := ReserveMany(box, deviceId, n);
            && LastSequence(b, deviceId) == LastSequence(box, deviceId) + n
            && (forall d :: d != deviceId ==> LastSequence(b, d) == LastSequence(box, d))
            && b.rows == box.rows && b.nextId == box.nextId
  {
    if n > 0 {
      ReserveManyMoves(box, deviceId, n - 1);
    }
  }

  // ----- validation before an insert -----

  function KindName(kind: Kind): string {
    match kind case TelemetryKind => "telemetry" case EventKind => "event"
  }

  function Prepare(lib: Library, messageType: string, m: Payload): Result<Entry<Payload>, BoxError> {
    if messageType !in {"telemetry", "event"} then Err(BadMessageType)
    else if !VerifyDataHash(lib, m) then Err(BadDataHash)
    else if !({DeviceIdField, SeqNoField, MeasuredAtField} <= m.Keys) then Err(FieldMissing)
    else if !(m[SeqNoField].Int? && m[SeqNoField].n >= 0) then Err(BoxError.BadSeqNo)
    else if !(m[DeviceIdField].Str? && m[DeviceIdField].s != "") then Err(BadDeviceId)
    else if !(m[MeasuredAtField].Str? && m[MeasuredAtField].s != "") then Err(BadMeasuredAt)
    else Ok(Entry(m[DeviceIdField].s, if messageType == "telemetry" then TelemetryKind else EventKind,
                  m[SeqNoField].n, m))
  }

  /** The message may be buffered under this type: it is sealed and names device, number and time. */
  ghost predicate Bufferable(lib: Library, messageType: string, m: Payload) {
    && (messageType == "telemetry" || messageType == "event")
    && Sealed(lib, m)
    && DeviceIdField in m && m[DeviceIdField].Str? && m[DeviceIdField].s != ""
    && SeqNoField in m && m[SeqNoField].Int? && m[SeqNoField].n >= 0
    && MeasuredAtField in m && m[MeasuredAtField].Str? && m[MeasuredAtField].s != ""
  }

  /** The message is prepared exactly if it is bufferable, under its own device, number and the type given. */
  lemma PrepareMeans(lib: Library, messageType: string, m: Payload)
    ensures match Prepare(lib, messageType, m)
            case Ok(e) =>
              && Bufferable(lib, messageType, m)
              && Str(e.deviceId) == m[DeviceIdField] && Int(e.seqNo) == m[SeqNoField] && e.payload == m
              && (e.kind == TelemetryKind <==> messageType == "telemetry")
            case Err(e) =>
              && !Bufferable(lib, messageType, m)
              && (e == BadDataHash <==> (messageType == "telemetry" || messageType == "event") && !Sealed(lib, m))
  {
    hide Sealed, VerifyDataHash;
    SealedIsVerified(lib, m);
  }

  /** A row of the same device, type and number is there. */
  ghost predicate Taken<P>(rows: seq<Row<P>>, e: Entry<P>) {
    exists i :: 0 <= i < |rows| && rows[i].entry.deviceId == e.deviceId && rows[i].entry.kind == e.kind
        && rows[i].entry.seqNo == e.seqNo
  }

  /** An insert adds one row under the next id, without attempts, unless device, type and number are taken. */
  lemma InsertMeans<P>(box: Box<P>, e: Entry<P>)
    ensures Clashes(box.rows, e) <==> Taken(box.rows, e)
    ensures Insert(box, e).sequences == box.sequences
    ensures Taken(box.rows, e) ==> Insert(box, e) == box
    ensures !Taken(box.rows, e) ==>
              && Insert(box, e).nextId == box.nextId + 1
              && Insert(box, e).rows == box.rows + [Row(box.nextId, e, 0)]
  {
    if Clashes(box.rows, e) {
      var i :| 0 <= i < |box.rows| && SameKey(box.rows[i].entry, e);
    }
  }

  /** A list is prepared exactly if each of its messages may be buffered, each under its own key and in order. */
  lemma {:induction false} PrepareAllMeans(lib: Library, ms: seq<(string, Payload)>)
    ensures match PrepareAll(lib, ms)
            case Ok(es) =>
              && |es| == |ms|
              && forall i :: 0 <= i < |ms| ==>
                   Bufferable(lib, ms[i].0, ms[i].1) && Prepare(lib, ms[i].0, ms[i].1) == Ok(es[i])
            case Err(_) => exists i :: 0 <= i < |ms| && !Bufferable(lib, ms[i].0, ms[i].1)
  {
    hide Prepare, Bufferable;
    if ms != [] {
      var front, last := ms[..|ms| - 1], ms[|ms| - 1];
      PrepareAllMeans(lib, front);
      PrepareMeans(lib, last.0, last.1);
      if PrepareAll(lib, front).Err? {
        var i :| 0 <= i < |front| && !Bufferable(lib, front[i].0, front[i].1);
        assert ms[i] == front[i];
      } else {
        assert forall i :: 0 <= i < |front| ==> ms[i] == front[i];
      }
    }
  }

  /** Prepares a whole list, or stops at its first invalid member. */
  function PrepareAll(lib: Library, ms: seq<(string, Payload)>): Result<seq<Entry<Payload>>, BoxError> {
    if ms == [] then Ok([])
    else match PrepareAll(lib, ms[..|ms| - 1])
      case Err(e) => Err(e)
      case Ok(es) =>
        var last := ms[|ms| - 1];
        match Prepare(lib, last.0, last.1)
        case Err(e) => Err(e)
        case Ok(e) => Ok(es + [e])
  }

  lemma {:induction false} PrepareAllStops(lib: Library, ms: seq<(string, Payload)>, k: nat)
    requires k <= |ms|
    requires PrepareAll(lib, ms[..k]).Err?
    ensures PrepareAll(lib, ms) == PrepareAll(lib, ms[..k])
  {
    if k < |ms| {
      assert ms[..|ms| - 1][..k] == ms[..k];
      PrepareAllStops(lib, ms[..|ms| - 1], k);
    } else {
      assert ms[..k] == ms;
    }
  }

  // ----- the store object -----

  class SQLiteBlackbox {
    const lib: Library
    var rows: seq<Row<Payload>>
    var nextId: nat
    var sequences: map<string, nat>

    ghost function Contents(): Box<Payload>
      reads this
    {
      Box(rows, nextId, sequences)
    }

    constructor (lib: Library)
      ensures this.lib == lib
      ensures Contents() == Box([], 1, map[])
    {
      this.lib := lib;
      rows, nextId, sequences := [], 1, map[];
    }

    method NextSequence(deviceId: string) returns (r: Result<nat, BoxError>)
      modifies this`sequences
      ensures deviceId == "" ==> r == Err(BadDeviceId) && Contents() == old(Contents())
      ensures deviceId != "" ==>
                && Contents() == Reserve(old(Contents()), deviceId)
                && r == Ok(LastSequence(old(Contents()), deviceId) + 1)
    {
      if deviceId == "" {
        return Err(BadDeviceId);
      }
      var next := if deviceId in sequences then sequences[deviceId] + 1 else 1;
      sequences := sequences[deviceId := next];
      r := Ok(next);
    }

    method InsertOrIgnore(e: Entry<Payload>) returns (inserted: bool)
      modifies this`rows, this`nextId
      ensures Contents() == Insert(old(Contents()), e)
      ensures inserted == !Clashes(old(rows), e)
    {
      inserted := !Clashes(rows, e);
      if inserted {
        rows, nextId := rows + [Row(nextId, e, 0)], nextId + 1;
      }
    }

    method Enqueue(messageType: string, m: Payload) returns (r: Result<bool, BoxError>)
      modifies this`rows, this`nextId
      ensures match Prepare(lib, messageType, m)
              case Err(e) => r == Err(e) && Contents() == old(Contents())
              case Ok(e) => r == Ok(!Clashes(old(rows), e)) && Contents() == Insert(old(Contents()), e)
      ensures r.Ok? <==> Bufferable(lib, messageType, m)
      ensures r.Ok? ==>
                var kind := if messageType == "telemetry" then TelemetryKind else EventKind;
                var e := Entry(m[DeviceIdField].s, kind, m[SeqNoField].n, m);
                && r.value == !Taken(old(rows), e)
                && rows == old(rows) + if r.value then [Row(old(nextId), e, 0)] else []
    {
      PrepareMeans(lib, messageType, m);
      if Prepare(lib, messageType, m).Ok? {
        InsertMeans(Contents(), Prepare(lib, messageType, m).value);
      }
      hide Prepare, Insert, Clashes, Bufferable;
      match Prepare(lib, messageType, m)
      case Err(e) => r := Err(e);
      case Ok(e) =>
        var inserted := InsertOrIgnore(e);
        r := Ok(inserted);
    }

    /** All or nothing: one invalid message and the tables keep their old contents. */
    method EnqueueMany(ms: seq<(string, Payload)>) returns (r: Result<nat, BoxError>)
      modifies this`rows, this`nextId
      ensures match PrepareAll(lib, ms)
              case Err(e) => r == Err(e) && Contents() == old(Contents())
              case Ok(es) =>
                && Contents() == InsertAll(old(Contents()), es)
                && r == Ok(|rows| - |old(rows)|)
      ensures r.Ok? <==> forall i :: 0 <= i < |ms| ==> Bufferable(lib, ms[i].0, ms[i].1)
    {
      hide Bufferable, Prepare;
      PrepareAllMeans(lib, ms);
      var es: seq<Entry<Payload>> := [];
      for i := 0 to |ms|
        invariant PrepareAll(lib, ms[..i]) == Ok(es)
      {
        assert ms[..i + 1][..i] == ms[..i];
        match Prepare(lib, ms[i].0, ms[i].1)
        case Err(e) =>
          PrepareAllStops(lib, ms, i + 1);
          return Err(e);
        case Ok(e) => es := es + [e];
      }
      assert ms[..|ms|] == ms;
      var inserted := 0;
      for i := 0 to |es|
        invariant Contents() == InsertAll(old(Contents()), es[..i])
        invariant |rows| == |old(rows)| + inserted
      {
        assert es[..i + 1][..i] == es[..i];
        var added := InsertOrIgnore(es[i]);
        if added {
          inserted := inserted + 1;
        }
      }
      assert es[..|es|] == es;
      r := Ok(inserted);
    }

    method GetPending(limit: int) returns (batch: seq<Row<Payload>>)
      ensures batch == Pending(Contents(), limit)
      ensures batch <= rows && (limit > 0 && rows != [] ==> batch != [])
      ensures if limit <= 0 then batch == [] else |batch| <= limit && (|batch| == limit || batch == rows)
    {
      if limit <= 0 {
        return [];
      }
      batch := if limit < |rows| then rows[..limit] else rows;
    }

    /** The row with that id goes, and the others keep their place; an unknown id changes nothing. */
    method Acknowledge(id: nat)
      modifies this`rows
      ensures rows == Without(old(rows), id)
      ensures Ordered(old(Contents())) ==>
                forall k :: 0 <= k < |old(rows)| && old(rows)[k].id == id ==>
                  rows == old(rows)[..k] + old(rows)[k + 1..]
      ensures (forall i :: 0 <= i < |old(rows)| ==> old(rows)[i].id != id) ==> rows == old(rows)
    {
      ghost var before := rows;
      rows := Without(rows, id);
      if forall i :: 0 <= i < |before| ==> before[i].id != id {
        WithoutAbsent(before, id);
      }
      if Ordered(old(Contents())) {
        forall k | 0 <= k < |before| && before[k].id == id ensures rows == before[..k] + before[k + 1..] {
          WithoutExact(before, id, k);
        }
      }
    }

    /** The row with that id has one more attempt, and nothing else changes. */
    method RecordFailure(id: nat)
      modifies this`rows
      ensures rows == Bumped(old(rows), id)
      ensures |rows| == |old(rows)|
      ensures forall i :: 0 <= i < |rows| ==>
                && rows[i].id == old(rows)[i].id && rows[i].entry == old(rows)[i].entry
                && rows[i].attempts == old(rows)[i].attempts + if rows[i].id == id then 1 else 0
      ensures Ordered(old(Contents())) ==> Ordered(Contents())
    {
      rows := Bumped(rows, id);
    }

    method Count() returns (n: nat)
      ensures n == |rows|
    {
      n := |rows|;
    }
  }
}
