/** The idempotent sink: streaming/consumers/telemetry_storage.py. */
module Store {
  import opened Prelude
  import opened Message
  import opened Bridge
  import MessageBuilder

  datatype StoreError =
    | Rejected(error: Error)      // the message fails its own checks
    | NotTelemetry
    | FieldMissing
    | Unbindable                  // a container where a column value is expected
    | BadArguments

  /** One row of the telemetry table. The key column may hold NULL, and then never conflicts. */
  datatype Stored = Stored(key: Option<string>, siteId: Json, sectionId: Json, deviceId: Json, seqNo: Json,
                           measuredAt: Json, payload: Payload)

  type Table = seq<Stored>

  // ----- one insert -----

  predicate Bindable(v: Json) {
    !v.Arr? && !v.Obj?
  }

  /** A value as the text column keeps it: numbers become text, NULL stays NULL. */
  function KeyText(lib: Library, v: Json): Option<string> {
    match v
    case Null => None
    case Bool(b) => Some(if b then "1" else "0")
    case _ => Some(Text(lib, v))
  }

  predicate HasColumns(m: Payload) {
    && EventIdField in m && SiteIdField in m && SectionIdField in m
    && DeviceIdField in m && SeqNoField in m && MeasuredAtField in m
  }

  predicate ColumnsBindable(m: Payload)
    requires HasColumns(m)
  {
    && Bindable(m[EventIdField]) && Bindable(m[SiteIdField]) && Bindable(m[SectionIdField])
    && Bindable(m[DeviceIdField]) && Bindable(m[SeqNoField]) && Bindable(m[MeasuredAtField])
  }

  /** None of the NOT NULL columns would be NULL. */
  predicate NotNull(m: Payload)
    requires HasColumns(m)
  {
    && m[SiteIdField] != Null && m[SectionIdField] != Null
    && m[DeviceIdField] != Null && m[SeqNoField] != Null && m[MeasuredAtField] != Null
  }

  predicate HasKey(t: Table, key: Option<string>) {
    key.Some? && exists i :: 0 <= i < |t| && t[i].key == key
  }

  function RowOf(lib: Library, m: Payload): Stored
    requires HasColumns(m)
  {
    Stored(KeyText(lib, m[EventIdField]), m[SiteIdField], m[SectionIdField], m[DeviceIdField], m[SeqNoField],
           m[MeasuredAtField], m)
  }

  predicate IsEvent(m: Payload) {
    EventTypeField in m && m[EventTypeField] != Null
  }

  /** INSERT OR IGNORE: a row that breaks a NOT NULL constraint is skipped like one whose key is taken. */
  function Insert(lib: Library, t: Table, m: Payload): Result<(Table, bool), StoreError> {
    if IsEvent(m) then Err(NotTelemetry)
    else if !HasColumns(m) then Err(FieldMissing)
    else if !ColumnsBindable(m) then Err(Unbindable)
    else if !NotNull(m) || HasKey(t, KeyText(lib, m[EventIdField])) then Ok((t, false))
    else Ok((t + [RowOf(lib, m)], true))
  }

  /** A bound value as SQLite hands it over for a text column. */
  lemma KeyTextMeans(lib: Library, v: Json)
    ensures KeyText(lib, v).None? <==> v == Null
    ensures v.Str? ==> KeyText(lib, v) == Some(v.s)
    ensures v.Int? && v.n >= 0 ==> ValueOf(KeyText(lib, v).value) == v.n
    ensures v.Bool? ==> KeyText(lib, v) == Some(if v.b then "1" else "0")
  {
    TextMeans(lib, v);
  }

  /** What one insert does, column by column: it raises for an event, a missing column or a container; it leaves the
      table as it is if a column that must not be null is, or the key is taken; otherwise one row goes to the end. */
  lemma InsertMeans(lib: Library, t: Table, m: Payload)
    ensures var columns := {EventIdField, SiteIdField, SectionIdField, DeviceIdField, SeqNoField, MeasuredAtField};
            match Insert(lib, t, m)
            case Err(NotTelemetry) => EventTypeField in m && m[EventTypeField] != Null
            case Err(FieldMissing) => !(columns <= m.Keys)
            case Err(Unbindable) => exists f :: f in columns && f in m && (m[f].Arr? || m[f].Obj?)
            case Err(_) => false
            case Ok((t', added)) =>
              && (EventTypeField in m ==> m[EventTypeField] == Null) && columns <= m.Keys
              && (forall f :: f in columns ==> !m[f].Arr? && !m[f].Obj?)
              && (added <==>
                    && (forall f :: f in columns && f != EventIdField ==> m[f] != Null)
                    && (m[EventIdField] != Null ==>
                          forall i :: 0 <= i < |t| ==> t[i].key != KeyText(lib, m[EventIdField])))
              && (!added ==> t' == t)
              && (added ==>
                    && |t'| == |t| + 1 && t'[..|t|] == t
                    && t'[|t|].key == KeyText(lib, m[EventIdField])
                    && t'[|t|].siteId == m[SiteIdField] && t'[|t|].sectionId == m[SectionIdField]
                    && t'[|t|].deviceId == m[DeviceIdField] && t'[|t|].seqNo == m[SeqNoField]
                    && t'[|t|].measuredAt == m[MeasuredAtField] && t'[|t|].payload == m)
  {
    hide KeyText;
    KeyTextMeans(lib, if EventIdField in m then m[EventIdField] else Null);
  }

  // ----- the consumer -----

  /** One message through the checks into the table. */
  function Take(lib: Library, t: Table, m: Payload): Result<(Table, bool), StoreError> {
    match ProcessMessage(lib, m)
    case Err(e) => Err(Rejected(e))
    case Ok(p) => if p.kind != TelemetryKind then Err(NotTelemetry) else Insert(lib, t, p.message)
  }

  /** What is taken is identified, sealed and no event; anything else raises, and the table stays as it is. */
  lemma TakeMeans(lib: Library, t: Table, m: Payload)
    ensures Take(lib, t, m).Ok? ==> Identified(lib, m) && Sealed(lib, m) && EventTypeField !in m
    ensures Take(lib, t, m).Ok? ==> Take(lib, t, m) == Insert(lib, t, m)
    ensures !Identified(lib, m) || !Sealed(lib, m) ==> Take(lib, t, m).Err? && Take(lib, t, m).error.Rejected?
    ensures Identified(lib, m) && Sealed(lib, m) && EventTypeField in m ==> Take(lib, t, m) == Err(NotTelemetry)
    ensures Identified(lib, m) && Sealed(lib, m) && EventTypeField !in m ==> Take(lib, t, m) == Insert(lib, t, m)
  {
    hide Identified, Sealed, Insert;
    AcceptedExactly(lib, m);
  }

  /** A stretch that contains a message that is not identified and sealed, or an event, raises, with the table that
      the messages before it leave. */
  lemma FeedRefuses(lib: Library, t: Table, ms: seq<Payload>, k: nat)
    requires k < |ms| && (!Identified(lib, ms[k]) || !Sealed(lib, ms[k]) || EventTypeField in ms[k])
    ensures Feed(lib, t, ms).error.Some?
    ensures Feed(lib, t, ms[..k]).error.None? ==> Feed(lib, t, ms).table == Feed(lib, t, ms[..k]).table
  {
    hide Identified, Sealed, Insert, Take;
    FeedOneMore(lib, t, ms, k);
    TakeMeans(lib, Feed(lib, t, ms[..k]).table, ms[k]);
    assert ms[..k + 1][..k] == ms[..k];
    FeedStops(lib, t, ms, k + 1);
  }

  /** What became of a stretch of messages, up to its first error. */
  datatype Fed = Fed(table: Table, stored: nat, duplicates: nat, error: Option<StoreError>)

  function Feed(lib: Library, t: Table, ms: seq<Payload>): Fed {
    if ms == [] then Fed(t, 0, 0, None)
    else
      var f := Feed(lib, t, ms[..|ms| - 1]);
      if f.error.Some? then f
      else match Take(lib, f.table, ms[|ms| - 1])
        case Err(e) => f.(error := Some(e))
        case Ok((t', added)) => if added then f.(table := t', stored := f.stored + 1)
            else f.(duplicates := f.duplicates + 1)
  }

  datatype Consumed = Consumed(nextOffset: nat, stored: nat, duplicates: nat)

  /** The slice values[offset : offset + limit]. */
  function Slice(values: seq<Payload>, offset: nat, limit: nat): seq<Payload> {
    if offset >= |values| then []
    else if offset + limit >= |values| then values[offset..]
    else values[offset..offset + limit]
  }

  function Consume(lib: Library, t: Table, values: seq<Payload>, offset: int, limit: int)
    : (Table, Result<Consumed, StoreError>)
  {
    if offset < 0 || limit <= 0 then (t, Err(BadArguments))
    else
      var ms := Slice(values, offset, limit);
      var f := Feed(lib, t, ms);
      (f.table, if f.error.Some? then Err(f.error.value) else Ok(Consumed(offset + |ms|, f.stored, f.duplicates)))
  }

  // ----- stretches, step by step -----

  lemma FeedOneMore(lib: Library, t: Table, ms: seq<Payload>, i: nat)
    requires i < |ms|
    ensures var f := Feed(lib, t, ms[..i]);
            f.error.None? ==>
              Feed(lib, t, ms[..i + 1]) ==
                match Take(lib, f.table, ms[i])
                case Err(e) => f.(error := Some(e))
                case Ok((t', added)) => if added then f.(table := t', stored := f.stored + 1)
                    else f.(duplicates := f.duplicates + 1)
  {
    assert ms[..i + 1][..i] == ms[..i];
  }

  /** Nothing after the first error is looked at. */
  lemma {:induction false} FeedStops(lib: Library, t: Table, ms: seq<Payload>, k: nat)
    requires k <= |ms| && Feed(lib, t, ms[..k]).error.Some?
    ensures Feed(lib, t, ms) == Feed(lib, t, ms[..k])
  {
    if k < |ms| {
      assert ms[..|ms| - 1][..k] == ms[..k];
      FeedStops(lib, t, ms[..|ms| - 1], k);
    } else {
      assert ms[..k] == ms;
    }
  }

  // ----- taking a message twice -----

  /** The table would not change if it were given the message again. */
  predicate Covered(lib: Library, t: Table, m: Payload) {
    Take(lib, t, m) == Ok((t, false))
  }

  lemma TakeCovers(lib: Library, t: Table, m: Payload)
    requires Take(lib, t, m).Ok?
    ensures var (t', added) := Take(lib, t, m).value;
            t <= t' && |t'| == |t| + (if added then 1 else 0) && (!added ==> t' == t) && Covered(lib, t', m)
  {
    if Take(lib, t, m).value.1 {
      AcceptedHasId(lib, m);
      var t' := Take(lib, t, m).value.0;
      assert t'[|t|].key == KeyText(lib, m[EventIdField]);
    }
  }

  lemma CoveredStays(lib: Library, t: Table, t': Table, m: Payload)
    requires Covered(lib, t, m) && t <= t'
    ensures Covered(lib, t', m)
  {
    if NotNull(m) {
      var i :| 0 <= i < |t| && t[i].key == KeyText(lib, m[EventIdField]);
      assert t'[i] == t[i];
    }
  }

  lemma {:induction false} FeedCovers(lib: Library, t: Table, ms: seq<Payload>)
    ensures var f := Feed(lib, t, ms);
            && t <= f.table && |f.table| == |t| + f.stored
            && (f.error.None? ==>
                  && f.stored + f.duplicates == |ms|
                  && forall i :: 0 <= i < |ms| ==> Covered(lib, f.table, ms[i]))
  {
    hide Take, Covered;
    if ms != [] {
      var front, m := ms[..|ms| - 1], ms[|ms| - 1];
      FeedCovers(lib, t, front);
      var before, after := Feed(lib, t, front), Feed(lib, t, ms);
      if after.error.None? {
        TakeCovers(lib, before.table, m);
        forall i | 0 <= i < |ms| ensures Covered(lib, after.table, ms[i]) {
          if i < |front| {
            CoveredStays(lib, before.table, after.table, front[i]);
          }
        }
      }
    }
  }

  lemma {:induction false} FeedAppend(lib: Library, t: Table, xs: seq<Payload>, ys: seq<Payload>)
    requires Feed(lib, t, xs).error.None?
    ensures var f, g := Feed(lib, t, xs), Feed(lib, Feed(lib, t, xs).table, ys);
            Feed(lib, t, xs + ys) == Fed(g.table, f.stored + g.stored, f.duplicates + g.duplicates, g.error)
  {
    hide Take;
    if ys == [] {
      assert xs + ys == xs;
    } else {
      assert (xs + ys)[..|xs + ys| - 1] == xs + ys[..|ys| - 1];
      FeedAppend(lib, t, xs, ys[..|ys| - 1]);
    }
  }

  /** Feeding a stretch of messages the table already covers changes nothing. */
  lemma {:induction false} FeedAgain(lib: Library, t: Table, ms: seq<Payload>)
    requires forall i :: 0 <= i < |ms| ==> Covered(lib, t, ms[i])
    ensures Feed(lib, t, ms) == Fed(t, 0, |ms|, None)
  {
    if ms != [] {
      FeedAgain(lib, t, ms[..|ms| - 1]);
    }
  }

  // ----- chunks, replays and retries -----

  /** The table is what one pass over the first `reached` messages leaves, and that pass succeeds. */
  ghost predicate OnePass(lib: Library, values: seq<Payload>, reached: nat, t: Table) {
    && reached <= |values|
    && Feed(lib, [], values[..reached]).error.None?
    && t == Feed(lib, [], values[..reached]).table
  }

  /** Any successful call from an offset at or below the reached one, whatever its limit, leaves the
      table that one pass over the covered prefix leaves. */
  lemma ConsumeKeepsOnePass(lib: Library, values: seq<Payload>, reached: nat, t: Table, offset: nat, limit: nat)
    requires OnePass(lib, values, reached, t) && offset <= reached && limit > 0
    ensures var (t', r) := Consume(lib, t, values, offset, limit);
            && t <= t'
            && (r.Ok? ==>
                  && r.value.stored + r.value.duplicates == r.value.nextOffset - offset
                  && r.value.nextOffset <= |values| && r.value.nextOffset <= offset + limit
                  && (r.value.nextOffset == |values| || r.value.nextOffset == offset + limit)
                  && r.value.stored == |t'| - |t|
                  && OnePass(lib, values, Max(reached, r.value.nextOffset), t'))
  {
    hide Feed, Covered;
    var ms := Slice(values, offset, limit);
    FeedCovers(lib, t, ms);
    FeedCovers(lib, [], values[..reached]);
    var end := offset + |ms|;
    if end <= reached {
      assert ms == values[offset..end];
      forall i | 0 <= i < |ms| ensures Covered(lib, t, ms[i]) {
        assert ms[i] == values[..reached][offset + i];
      }
      FeedAgain(lib, t, ms);
    } else {
      var again, more := values[offset..reached], values[reached..end];
      assert ms == again + more;
      forall i | 0 <= i < |again| ensures Covered(lib, t, again[i]) {
        assert again[i] == values[..reached][offset + i];
      }
      FeedAgain(lib, t, again);
      FeedAppend(lib, t, again, more);
      FeedAppend(lib, [], values[..reached], more);
      assert values[..end] == values[..reached] + more;
    }
  }

  /** Impossible arguments are refused without effect, and beyond the end there is nothing to do. */
  lemma ConsumeEdges(lib: Library, t: Table, values: seq<Payload>, offset: int, limit: int)
    ensures offset < 0 || limit <= 0 ==> Consume(lib, t, values, offset, limit) == (t, Err(BadArguments))
    ensures offset >= |values| && limit > 0 ==>
              Consume(lib, t, values, offset, limit) == (t, Ok(Consumed(offset, 0, 0)))
  {}

  /** Over a topic that can be read in one pass, no call of the consumer raises. */
  lemma ConsumeSucceeds(lib: Library, values: seq<Payload>, reached: nat, t: Table, offset: nat, limit: nat)
    requires OnePass(lib, values, reached, t) && offset <= reached && limit > 0
    requires Feed(lib, [], values).error.None?
    ensures Consume(lib, t, values, offset, limit).1.Ok?
  {
    hide Feed, Covered;
    var ms := Slice(values, offset, limit);
    var end := offset + |ms|;
    FeedCovers(lib, [], values[..reached]);
    var again := values[offset..if end <= reached then end else reached];
    forall i | 0 <= i < |again| ensures Covered(lib, t, again[i]) {
      assert again[i] == values[..reached][offset + i];
    }
    FeedAgain(lib, t, again);
    if end <= reached {
      assert ms == again;
    } else {
      var more := values[reached..end];
      assert ms == again + more && values[..end] == values[..reached] + more;
      FeedAppend(lib, t, again, more);
      FeedAppend(lib, [], values[..reached], more);
      PrefixSucceeds(lib, [], values, end);
    }
  }

  lemma PrefixSucceeds(lib: Library, t: Table, ms: seq<Payload>, k: nat)
    requires k <= |ms| && Feed(lib, t, ms).error.None?
    ensures Feed(lib, t, ms[..k]).error.None?
  {
    if Feed(lib, t, ms[..k]).error.Some? {
      FeedStops(lib, t, ms, k);
    }
  }

  datatype Call = Call(offset: nat, limit: nat)

  /** Successive calls over one topic; a call that raises, or whose offset skips ahead, ends the run. */
  function Calls(lib: Library, values: seq<Payload>, calls: seq<Call>): Option<(Table, nat)> {
    if calls == [] then Some(([], 0))
    else match Calls(lib, values, calls[..|calls| - 1])
      case None => None
      case Some((t, reached)) =>
        var call := calls[|calls| - 1];
        if call.offset > reached || call.limit == 0 then None
        else match Consume(lib, t, values, call.offset, call.limit)
          case (t', Ok(r)) => Some((t', Max(reached, r.nextOffset)))
          case (_, Err(_)) => None
  }

  /** Chunking and replay do not matter: any sequence of successful calls, with restarts from any
      offset at or below the reached one, leaves the store that one pass over the covered prefix leaves. */
  lemma {:induction false} ChunksAndReplays(lib: Library, values: seq<Payload>, calls: seq<Call>)
    requires Calls(lib, values, calls).Some?
    ensures var (t, reached) := Calls(lib, values, calls).value;
            OnePass(lib, values, reached, t)
  {
    if calls == [] {
      assert values[..0] == [];
    } else {
      ChunksAndReplays(lib, values, calls[..|calls| - 1]);
      var (t, reached) := Calls(lib, values, calls[..|calls| - 1]).value;
      var call := calls[|calls| - 1];
      ConsumeKeepsOnePass(lib, values, reached, t, call.offset, call.limit);
    }
  }

  /** A call interrupted after k messages leaves a table on which a retry from the same offset ends
      exactly as an undisturbed call would have, with the same error if there is one. */
  lemma RetryCompletes(lib: Library, t: Table, ms: seq<Payload>, k: nat)
    requires k <= |ms| && Feed(lib, t, ms[..k]).error.None?
    ensures var half := Feed(lib, t, ms[..k]).table;
            var retry, undisturbed := Feed(lib, half, ms), Feed(lib, t, ms);
            && t <= half && retry.table == undisturbed.table && retry.error == undisturbed.error
            && retry.stored == undisturbed.stored - (|half| - |t|)
  {
    var done, rest := ms[..k], ms[k..];
    var half := Feed(lib, t, done).table;
    assert ms == done + rest;
    FeedCovers(lib, t, done);
    FeedAgain(lib, half, done);
    FeedAppend(lib, t, done, rest);
    FeedAppend(lib, half, done, rest);
  }

  // ----- what is in the table -----

  /** The message would be stored, were its key free. */
  predicate Storable(lib: Library, m: Payload) {
    && Accepted(lib, m) && MessageKind(m) == TelemetryKind
    && HasColumns(m) && ColumnsBindable(m) && NotNull(m)
  }

  /** Row r of the table is the first storable message with its id. */
  ghost predicate FirstWith(lib: Library, ms: seq<Payload>, row: Stored, k: nat) {
    && k < |ms| && Storable(lib, ms[k]) && row == RowOf(lib, ms[k])
    && forall j :: 0 <= j < k && Storable(lib, ms[j]) ==> IdOf(ms[j]) != IdOf(ms[k])
  }

  ghost predicate IsFirst(lib: Library, ms: seq<Payload>, row: Stored) {
    exists k :: FirstWith(lib, ms, row, k)
  }

  /** The table holds, for each event id, the first storable message that carries it, and nothing else. */
  ghost predicate FirstWriteWins(lib: Library, ms: seq<Payload>, t: Table) {
    && (forall i :: 0 <= i < |t| ==> IsFirst(lib, ms, t[i]))
    && (forall i, j :: 0 <= i < j < |t| ==> t[i].key != t[j].key)
    && (forall k :: 0 <= k < |ms| && Storable(lib, ms[k]) ==> HasKey(t, Some(IdOf(ms[k]))))
  }

  lemma NothingYet(lib: Library)
    ensures FirstWriteWins(lib, [], [])
  {}

  lemma {:induction false} FeedIsFirstWriteWins(lib: Library, ms: seq<Payload>)
    requires Feed(lib, [], ms).error.None?
    ensures FirstWriteWins(lib, ms, Feed(lib, [], ms).table)
  {
    hide Take, FirstWriteWins;
    if ms == [] {
      NothingYet(lib);
    } else {
      var front, m := ms[..|ms| - 1], ms[|ms| - 1];
      FeedIsFirstWriteWins(lib, front);
      var t, t' := Feed(lib, [], front).table, Feed(lib, [], ms).table;
      TakeCovers(lib, t, m);
      TakeKeepsFirst(lib, front, m, t, t');
      assert front + [m] == ms;
    }
  }

  lemma FirstStays(lib: Library, front: seq<Payload>, m: Payload, row: Stored, k: nat)
    requires FirstWith(lib, front, row, k)
    ensures FirstWith(lib, front + [m], row, k)
  {
    hide Storable;
    assert (front + [m])[k] == front[k];
    forall j | 0 <= j < k && Storable(lib, (front + [m])[j]) ensures IdOf((front + [m])[j]) != IdOf((front + [m])[k]) {
      assert (front + [m])[j] == front[j];
    }
  }

  lemma TakeKeepsFirst(lib: Library, front: seq<Payload>, m: Payload, t: Table, t': Table)
    requires FirstWriteWins(lib, front, t) && Take(lib, t, m).Ok? && t' == Take(lib, t, m).value.0
    ensures FirstWriteWins(lib, front + [m], t')
  {
    hide Take, Storable, RowOf, IdOf;
    TakeAppends(lib, t, m);
    var ms := front + [m];
    forall i | 0 <= i < |t'| ensures IsFirst(lib, ms, t'[i]) {
      if i < |t| {
        var k :| FirstWith(lib, front, t[i], k);
        FirstStays(lib, front, m, t[i], k);
      } else {
        NewRowIsFirst(lib, front, m, t);
      }
    }
    forall i, j | 0 <= i < j < |t'| ensures t'[i].key != t'[j].key {
      if j == |t| {
        assert t[i].key != Some(IdOf(m));
      }
    }
    forall k | 0 <= k < |ms| && Storable(lib, ms[k]) ensures HasKey(t', Some(IdOf(ms[k]))) {
      if k < |front| {
        assert HasKey(t, Some(IdOf(front[k])));
        var i :| 0 <= i < |t| && t[i].key == Some(IdOf(front[k]));
        assert t'[i].key == Some(IdOf(ms[k]));
      }
    }
  }

  /** A successful take appends the message's row if it is storable and its id is free, and nothing else. */
  lemma TakeAppends(lib: Library, t: Table, m: Payload)
    requires Take(lib, t, m).Ok?
    ensures var t' := Take(lib, t, m).value.0;
            if Storable(lib, m) && !HasKey(t, Some(IdOf(m)))
            then t' == t + [RowOf(lib, m)] && t'[|t|].key == Some(IdOf(m)) && HasKey(t', Some(IdOf(m)))
            else t' == t
  {
    AcceptedHasId(lib, m);
    if Storable(lib, m) && !HasKey(t, Some(IdOf(m))) {
      assert (t + [RowOf(lib, m)])[|t|].key == Some(IdOf(m));
    }
  }

  lemma NewRowIsFirst(lib: Library, front: seq<Payload>, m: Payload, t: Table)
    requires FirstWriteWins(lib, front, t) && Storable(lib, m) && !HasKey(t, Some(IdOf(m)))
    ensures FirstWith(lib, front + [m], RowOf(lib, m), |front|)
  {
    hide Storable, RowOf, IdOf;
    forall j | 0 <= j < |front| && Storable(lib, (front + [m])[j]) ensures IdOf((front + [m])[j]) != IdOf(m) {
      assert (front + [m])[j] == front[j];
      assert HasKey(t, Some(IdOf(front[j])));
    }
  }

  /** When does a consumed message end up in the table? Exactly when its id was there already, or none of
      its site, section, device and time is null: a message that passes every check but has a null there
      is skipped by the insert and counted as a duplicate. */
  lemma ConsumedMeansStored(lib: Library, t: Table, m: Payload)
    requires Take(lib, t, m).Ok?
    ensures var (t', added) := Take(lib, t, m).value;
            && EventIdField in m && HasColumns(m)
            && (HasKey(t', Some(IdOf(m))) <==>
                  || HasKey(t, Some(IdOf(m)))
                  || (m[SiteIdField] != Null && m[SectionIdField] != Null && m[DeviceIdField] != Null
                      && m[MeasuredAtField] != Null))
            && (added <==> Storable(lib, m) && !HasKey(t, Some(IdOf(m))))
  {
    AcceptedHasId(lib, m);
    var (t', added) := Take(lib, t, m).value;
    if added {
      assert t'[|t|].key == Some(IdOf(m));
    }
  }

  /** A message whose site is null and which is otherwise in order. */
  function NullSite(lib: Library): Payload {
    MessageBuilder.AttachDataHash(lib, NullSiteFields())
  }

  function NullSiteFields(): Payload {
    map[
      SiteIdField := Null, SectionIdField := Str("s"), DeviceIdField := Str("d"), MeasuredAtField := Str("t"),
      SeqNoField := Int(0), EventIdField := Str(EventId("r", "q", 0)), StreamIdField := Str("q"),
      SchemaVersionField := Int(3), TestRunIdField := Str("r")]
  }

  lemma NullSiteIsAccepted(lib: Library)
    ensures Accepted(lib, NullSite(lib)) && MessageKind(NullSite(lib)) == TelemetryKind
    ensures HasColumns(NullSite(lib)) && ColumnsBindable(NullSite(lib)) && NullSite(lib)[SiteIdField] == Null
  {
    hide VerifyDataHash, EventId;
    MessageBuilder.AttachedHashVerifies(lib, NullSiteFields());
  }

  /** So a call can succeed, report one duplicate, and leave the store empty. */
  lemma NullIsCountedNotStored(lib: Library)
    ensures Consume(lib, [], [NullSite(lib)], 0, 1) == ([], Ok(Consumed(1, 0, 1)))
  {
    hide NullSite, Accepted, ProcessMessage;
    var m := NullSite(lib);
    NullSiteIsAccepted(lib);
    AcceptedHasId(lib, m);
    assert Take(lib, [], m) == Ok(([], false));
    FeedOneMore(lib, [], [m], 0);
    assert [m][..0] == [] && [m][..1] == [m] && Slice([m], 0, 1) == [m];
  }

  // ----- the objects -----

  class SQLiteTelemetryStore {
    const lib: Library
    var rows: Table

    constructor (lib: Library)
      ensures this.lib == lib && rows == []
    {
      this.lib := lib;
      rows := [];
    }

    method InsertMessage(m: Payload) returns (r: Result<bool, StoreError>)
      modifies this
      ensures match Insert(lib, old(rows), m)
              case Err(e) => r == Err(e) && rows == old(rows)
              case Ok((t, added)) => r == Ok(added) && rows == t
    {
      if EventTypeField in m && m[EventTypeField] != Null {
        return Err(NotTelemetry);
      }
      if !HasColumns(m) {
        return Err(FieldMissing);
      }
      if !ColumnsBindable(m) {
        return Err(Unbindable);
      }
      var ignored := !NotNull(m) || HasKey(rows, KeyText(lib, m[EventIdField]));
      if !ignored {
        rows := rows + [RowOf(lib, m)];
      }
      r := Ok(!ignored);
    }
  }

  class TelemetryStorageConsumer {
    const store: SQLiteTelemetryStore

    constructor (store: SQLiteTelemetryStore)
      ensures this.store == store
    {
      this.store := store;
    }

    method ConsumeTopic(topic: InMemoryTopic, offset: int, limit: int) returns (r: Result<Consumed, StoreError>)
      modifies store
      ensures (store.rows, r) == Consume(store.lib, old(store.rows), topic.values, offset, limit)
    {
      if offset < 0 || limit <= 0 {
        return Err(BadArguments);
      }
      ghost var before := store.rows;
      var ms := Slice(topic.values, offset, limit);
      var nextOffset, stored, duplicates := offset, 0, 0;
      for i := 0 to |ms|
        invariant nextOffset == offset + i
        invariant Feed(store.lib, before, ms[..i]) == Fed(store.rows, stored, duplicates, None)
      {
        FeedOneMore(store.lib, before, ms, i);
        var processed := ProcessMessage(store.lib, ms[i]);
        if processed.Err? {
          FeedStops(store.lib, before, ms, i + 1);
          return Err(Rejected(processed.error));
        }
        if processed.value.kind != TelemetryKind {
          FeedStops(store.lib, before, ms, i + 1);
          return Err(NotTelemetry);
        }
        var inserted := store.InsertMessage(processed.value.message);
        if inserted.Err? {
          FeedStops(store.lib, before, ms, i + 1);
          return Err(inserted.error);
        }
        if inserted.value {
          stored := stored + 1;
        } else {
          duplicates := duplicates + 1;
        }
        nextOffset := nextOffset + 1;
      }
      assert ms[..|ms|] == ms;
      r := Ok(Consumed(nextOffset, stored, duplicates));
    }
  }
}
