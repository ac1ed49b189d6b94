/** The Kafka storage consumer: streaming/consumers/kafka_storage.py. One partition: a log, the
    session's read position, and the committed offset from which a restarted session reads. */
module Kafka {
  import opened Prelude
  import opened Message
  import opened Retry
  import opened Store
  import Bridge

  /** The consumer's settings, and the text of an exception it may raise. A store that is not on disk ends
      with its process. */
  datatype Settings = Settings(
    lib: Library, topic: string, maxAttempts: int, hasPublisher: bool, onDisk: bool,
    describe: StoreError -> string)

  /** What the database does to one attempt: nothing unusual, an error before the insert took place,
      or an error after it. */
  datatype Fault = Fine | Before(error: string) | After(error: string)

  /** The circumstances of one record: a fault for each attempt, and whether publishing a letter fails. */
  datatype Circumstance = Circumstance(faults: seq<Fault>, publishFails: bool) {
    function At(attempt: nat): Fault { if 1 <= attempt <= |faults| then faults[attempt - 1] else Fine }
  }

  /** The table with the counters that the handler updates. */
  datatype Tally = Tally(table: Table, stored: nat, duplicates: nat)

  function Handle(c: Settings, m: Payload, e: Circumstance, t: Tally, attempt: nat): (Tally, Option<string>) {
    match e.At(attempt)
    case Before(error) => (t, Some(error))
    case After(error) => (
      match Take(c.lib, t.table, m)
      case Err(x) => (t, Some(c.describe(x)))
      case Ok((table, _)) => (t.(table := table), Some(error)))
    case Fine => (
      match Take(c.lib, t.table, m)
      case Err(x) => (t, Some(c.describe(x)))
      case Ok((table, added)) =>
        (if added then t.(table := table, stored := t.stored + 1) else t.(duplicates := t.duplicates + 1), None))
  }

  function HandlerFor(c: Settings, m: Payload, e: Circumstance): Handler<Tally> {
    (t, attempt: nat) => Handle(c, m, e, t, attempt)
  }

  function MetadataFor(c: Settings, m: Payload, offset: nat): Metadata {
    Metadata(c.topic, offset, if EventIdField in m then m[EventIdField] else Null, c.maxAttempts,
             "consumer processing failed")
  }

  /** A batch in progress; raised means that poll_once ended in an exception. */
  datatype Progress = Progress(tally: Tally, letters: seq<DeadLetter>, dead: nat, raised: bool)

  function HandleRecord(c: Settings, p: Progress, m: Payload, offset: nat, e: Circumstance): Progress {
    match WithRetry(HandlerFor(c, m, e), p.tally, m, Some(MetadataFor(c, m, offset)), c.maxAttempts)
    case Done(t, _) => p.(tally := t)
    case BadLimit => p.(raised := true)
    case Dead(t, _, letter) =>
      if !c.hasPublisher || e.publishFails then p.(tally := t, raised := true)
      else p.(tally := t, letters := p.letters + [letter], dead := p.dead + 1)
  }

  /** The records from..from + |es| in order, up to the first that makes poll_once raise. */
  function HandleBatch(c: Settings, p: Progress, values: seq<Payload>, from: nat, es: seq<Circumstance>): Progress
    requires from + |es| <= |values|
    decreases |es|
  {
    if es == [] then p
    else
      var q := HandleBatch(c, p, values, from, es[..|es| - 1]);
      if q.raised then q else HandleRecord(c, q, values[from + |es| - 1], from + |es| - 1, es[|es| - 1])
  }

  datatype Session = Session(table: Table, letters: seq<DeadLetter>, position: nat, committed: nat)

  datatype PollResult = Polled(stored: nat, duplicates: nat, dead: nat) | Raised

  /** How many records the broker hands out, given how many it is willing to. */
  function Available(values: seq<Payload>, position: nat, maxRecords: nat, willing: nat): (n: nat)
    requires position <= |values|
    ensures n <= maxRecords && n <= willing && position + n <= |values|
    ensures n == maxRecords || n == willing || position + n == |values|
  {
    var most := if willing < maxRecords then willing else maxRecords;
    if position + most <= |values| then most else |values| - position
  }

  /** One poll: the position moves past every record handed out, even if the call then raises; the
      offset is committed only if no record raised, and then the commit itself may still fail. */
  function PollOnce(c: Settings, s: Session, values: seq<Payload>, maxRecords: int, es: seq<Circumstance>,
                    commitFails: bool): (Session, PollResult)
    requires s.position <= |values|
  {
    if maxRecords <= 0 then (s, Raised)
    else
      var n := Available(values, s.position, maxRecords, |es|);
      var p := HandleBatch(c, Progress(Tally(s.table, 0, 0), s.letters, 0, false), values, s.position, es[..n]);
      var s' := s.(table := p.tally.table, letters := p.letters, position := s.position + n);
      if p.raised || (n > 0 && commitFails) then (s', Raised)
      else (if n > 0 then s'.(committed := s'.position) else s', Polled(p.tally.stored, p.tally.duplicates, p.dead))
  }

  /** A new session of the same consumer group over the same storage path. */
  function Restart(c: Settings, s: Session): Session {
    s.(position := s.committed, table := if c.onDisk then s.table else [])
  }

  // ----- one record -----

  /** The record is in the table, was skipped by it, or is in a dead letter of its own. */
  ghost predicate Handled(lib: Library, table: Table, letters: seq<DeadLetter>, values: seq<Payload>, i: nat)
    requires i < |values|
  {
    || Covered(lib, table, values[i])
    || exists k :: 0 <= k < |letters| && letters[k].offset == Some(i) && letters[k].payload == values[i]
  }

  lemma HandledStays(lib: Library, table: Table, letters: seq<DeadLetter>, table': Table, letters': seq<DeadLetter>,
                     values: seq<Payload>, i: nat)
    requires i < |values| && table <= table' && letters <= letters'
    requires Handled(lib, table, letters, values, i)
    ensures Handled(lib, table', letters', values, i)
  {
    hide Covered;
    if Covered(lib, table, values[i]) {
      CoveredStays(lib, table, table', values[i]);
    } else {
      var k :| 0 <= k < |letters| && letters[k].offset == Some(i) && letters[k].payload == values[i];
      assert letters'[k] == letters[k];
    }
  }

  /** One attempt only appends to the table, counts at most once, and counts exactly when it succeeds. */
  lemma HandleAppends(c: Settings, m: Payload, e: Circumstance, t: Tally, attempt: nat)
    ensures var (t', error) := Handle(c, m, e, t, attempt);
            && t.table <= t'.table && t'.stored - t.stored <= |t'.table| - |t.table|
            && (error.None? ==> t'.stored + t'.duplicates == t.stored + t.duplicates + 1 && Covered(c.lib, t'.table, m))
            && (error.Some? ==> t'.stored == t.stored && t'.duplicates == t.duplicates)
  {
    hide Take, Covered;
    if Take(c.lib, t.table, m).Ok? {
      TakeCovers(c.lib, t.table, m);
    }
  }

  lemma {:induction false} FailedAttemptsAppend(c: Settings, m: Payload, e: Circumstance, t: Tally, k: nat)
    requires 1 <= k
    requires forall j :: 1 <= j < k ==> Fails(HandlerFor(c, m, e), t, 1, j)
    ensures var t' := StateAt(HandlerFor(c, m, e), t, 1, k);
            t.table <= t'.table && t'.stored == t.stored && t'.duplicates == t.duplicates
    decreases k
  {
    hide Handle;
    if k > 1 {
      FailedAttemptsAppend(c, m, e, t, k - 1);
      HandleAppends(c, m, e, StateAt(HandlerFor(c, m, e), t, 1, k - 1), k - 1);
      assert Fails(HandlerFor(c, m, e), t, 1, k - 1);
    }
  }

  /** A record ends in exactly one of four ways: stored or duplicate, and then covered by the table;
      dead, with one more letter that bears its offset and payload, exactly when every attempt failed
      and the letter could be published; or poll_once raises, exactly when it could not, or no attempt is allowed. */
  lemma RecordEndsOnce(c: Settings, p: Progress, values: seq<Payload>, offset: nat, e: Circumstance)
    requires offset < |values| && !p.raised
    ensures var q := HandleRecord(c, p, values[offset], offset, e);
            var h := HandlerFor(c, values[offset], e);
            && p.tally.table <= q.tally.table && q.tally.stored - p.tally.stored <= |q.tally.table| - |p.tally.table|
            && p.letters <= q.letters && |q.letters| - |p.letters| == q.dead - p.dead
            && (q.raised <==>
                  || c.maxAttempts <= 0
                  || ((!c.hasPublisher || e.publishFails)
                      && forall k :: 1 <= k <= c.maxAttempts ==> Fails(h, p.tally, 1, k)))
            && (!q.raised ==>
                  && q.tally.stored + q.tally.duplicates + q.dead == p.tally.stored + p.tally.duplicates + p.dead + 1
                  && Handled(c.lib, q.tally.table, q.letters, values, offset)
                  && c.maxAttempts > 0
                  && (q.dead == p.dead + 1 <==> forall k :: 1 <= k <= c.maxAttempts ==> Fails(h, p.tally, 1, k)))
  {
    hide Handle, Covered, Attempts, StateAt;
    var m := values[offset];
    var h := HandlerFor(c, m, e);
    if c.maxAttempts > 0 {
      RetryEndsOnce(h, p.tally, m, Some(MetadataFor(c, m, offset)), c.maxAttempts);
      match WithRetry(h, p.tally, m, Some(MetadataFor(c, m, offset)), c.maxAttempts)
      case Done(t, n) =>
        FailedAttemptsAppend(c, m, e, p.tally, n);
        HandleAppends(c, m, e, StateAt(h, p.tally, 1, n), n);
        StateAfter(h, p.tally, n);
      case Dead(t, _, letter) =>
        FailedAttemptsAppend(c, m, e, p.tally, c.maxAttempts + 1);
        assert (p.letters + [letter])[|p.letters|] == letter;
      case BadLimit =>
    }
  }

  lemma StateAfter<S>(handler: Handler<S>, s: S, n: nat)
    requires n >= 1
    ensures StateAt(handler, s, 1, n + 1) == handler(StateAt(handler, s, 1, n), n).0
  {}

  // ----- one poll -----

  lemma {:induction false} BatchHandled(c: Settings, p: Progress, values: seq<Payload>, from: nat,
                                        es: seq<Circumstance>)
    requires from + |es| <= |values| && !p.raised
    ensures var q := HandleBatch(c, p, values, from, es);
            && p.tally.table <= q.tally.table && q.tally.stored - p.tally.stored <= |q.tally.table| - |p.tally.table|
            && p.letters <= q.letters && |q.letters| - |p.letters| == q.dead - p.dead
            && (!q.raised ==>
                  && q.tally.stored + q.tally.duplicates + q.dead == p.tally.stored + p.tally.duplicates + p.dead + |es|
                  && forall i :: from <= i < from + |es| ==> Handled(c.lib, q.tally.table, q.letters, values, i))
    decreases |es|
  {
    hide HandleRecord, Handled;
    if es != [] {
      var front, last := es[..|es| - 1], from + |es| - 1;
      BatchHandled(c, p, values, from, front);
      var mid, q := HandleBatch(c, p, values, from, front), HandleBatch(c, p, values, from, es);
      if !mid.raised {
        RecordEndsOnce(c, mid, values, last, es[|es| - 1]);
        if !q.raised {
          forall i | from <= i < last ensures Handled(c.lib, q.tally.table, q.letters, values, i) {
            HandledStays(c.lib, mid.tally.table, mid.letters, q.tally.table, q.letters, values, i);
          }
        }
      }
    }
  }

  ghost predicate HandledUpTo(lib: Library, s: Session, values: seq<Payload>, from: nat, to: nat)
    requires to <= |values|
  {
    forall i :: from <= i < to ==> Handled(lib, s.table, s.letters, values, i)
  }

  /** Commit implies handled: a poll that returns accounts for every record it was given, as stored,
      duplicate or dead, and commits past exactly these; a poll that raises commits nothing. Rows and
      letters already there are never changed. */
  lemma PollAccounts(c: Settings, s: Session, values: seq<Payload>, maxRecords: int, es: seq<Circumstance>,
                     commitFails: bool)
    requires s.position <= |values|
    ensures var (s', r) := PollOnce(c, s, values, maxRecords, es, commitFails);
            && s.table <= s'.table && s.letters <= s'.letters
            && s.position <= s'.position <= |values|
            && (if maxRecords <= 0 then s' == s && r.Raised?
                else
                  && s'.position - s.position <= maxRecords && s'.position - s.position <= |es|
                  && (s'.position - s.position == maxRecords || s'.position - s.position == |es|
                      || s'.position == |values|))
            && (r.Raised? ==> s'.committed == s.committed)
            && (r.Polled? ==>
                  && r.stored + r.duplicates + r.dead == s'.position - s.position
                  && r.stored <= |s'.table| - |s.table| && |s'.letters| - |s.letters| == r.dead
                  && HandledUpTo(c.lib, s', values, s.position, s'.position)
                  && s'.committed == if s'.position > s.position then s'.position else s.committed)
  {
    if maxRecords > 0 {
      var n := Available(values, s.position, maxRecords, |es|);
      var start := Progress(Tally(s.table, 0, 0), s.letters, 0, false);
      BatchHandled(c, start, values, s.position, es[..n]);
    }
  }

  // ----- the letters -----

  /** The letter of the record at offset i: its payload, topic and offset, its event id if it has one, the number of
      attempts, and at most the first 1000 characters of an error. */
  ghost predicate LetterOf(c: Settings, values: seq<Payload>, i: nat, letter: DeadLetter, error: string)
    requires i < |values|
  {
    && letter.payload == values[i] && letter.topic == c.topic && letter.offset == Some(i)
    && letter.retryCount == c.maxAttempts
    && (if EventIdField in values[i] then letter.eventId == values[i][EventIdField] else letter.eventId == Null)
    && (if |error| <= 1000 then letter.error == error else |letter.error| == 1000 && letter.error <= error)
  }

  /** A record whose every attempt failed leaves the letter of its last error. */
  lemma DeadRecordsLetter(c: Settings, p: Progress, values: seq<Payload>, i: nat, e: Circumstance)
    requires i < |values| && !p.raised && c.maxAttempts > 0
    ensures var q, h := HandleRecord(c, p, values[i], i, e), HandlerFor(c, values[i], e);
            if q.dead > p.dead then
              && q.dead == p.dead + 1 && |q.letters| == |p.letters| + 1 && q.letters[..|p.letters|] == p.letters
              && h(StateAt(h, p.tally, 1, c.maxAttempts), c.maxAttempts).1.Some?
              && LetterOf(c, values, i, q.letters[|p.letters|],
                          h(StateAt(h, p.tally, 1, c.maxAttempts), c.maxAttempts).1.value)
            else q.letters == p.letters
  {
    hide Handle, Covered, Attempts, StateAt, Fails;
    RetryEndsOnce(HandlerFor(c, values[i], e), p.tally, values[i], Some(MetadataFor(c, values[i], i)), c.maxAttempts);
  }

  /** The letter of some record in this stretch. */
  ghost predicate LetterWithin(c: Settings, values: seq<Payload>, letter: DeadLetter, from: nat, to: nat)
    requires to <= |values|
  {
    && letter.offset.Some? && from <= letter.offset.value < to
    && exists error :: LetterOf(c, values, letter.offset.value, letter, error)
  }

  /** The letters beyond the first `known` are of records in this stretch, in order, at most one for each. */
  ghost predicate LettersInTurn(c: Settings, values: seq<Payload>, letters: seq<DeadLetter>, known: nat, from: nat,
                                to: nat)
    requires to <= |values|
  {
    && known <= |letters|
    && (forall k :: known <= k < |letters| ==> LetterWithin(c, values, letters[k], from, to))
    && (forall j, k :: known <= j < k < |letters| && letters[j].offset.Some? && letters[k].offset.Some? ==>
          letters[j].offset.value < letters[k].offset.value)
  }

  lemma OneMoreLetter(c: Settings, values: seq<Payload>, letters: seq<DeadLetter>, known: nat, from: nat, to: nat,
                      letter: DeadLetter, error: string)
    requires from <= to < |values| && LettersInTurn(c, values, letters, known, from, to)
    requires LetterOf(c, values, to, letter, error)
    ensures LettersInTurn(c, values, letters + [letter], known, from, to + 1)
  {
    hide LetterOf;
    WithinOneMore(c, values, letter, from, to, error);
    var more := letters + [letter];
    forall k | known <= k < |more| ensures LetterWithin(c, values, more[k], from, to + 1) {
      if k < |letters| {
        assert LetterWithin(c, values, letters[k], from, to);
      }
    }
    forall j, k | known <= j < k < |more| ensures more[j].offset.value < more[k].offset.value {
      assert LetterWithin(c, values, letters[j], from, to);
    }
  }

  lemma WithinOneMore(c: Settings, values: seq<Payload>, letter: DeadLetter, from: nat, to: nat, error: string)
    requires from <= to < |values| && LetterOf(c, values, to, letter, error)
    ensures letter.offset == Some(to) && LetterWithin(c, values, letter, from, to + 1)
  {
    assert LetterOf(c, values, letter.offset.value, letter, error);
  }

  lemma {:induction false} BatchLetters(c: Settings, p: Progress, values: seq<Payload>, from: nat,
                                        es: seq<Circumstance>)
    requires from + |es| <= |values| && !p.raised && c.maxAttempts > 0
    ensures LettersInTurn(c, values, HandleBatch(c, p, values, from, es).letters, |p.letters|, from, from + |es|)
    decreases |es|
  {
    hide HandleRecord, LetterOf;
    if es != [] {
      var front, i := es[..|es| - 1], from + |es| - 1;
      BatchLetters(c, p, values, from, front);
      var mid, q := HandleBatch(c, p, values, from, front), HandleBatch(c, p, values, from, es);
      if !mid.raised {
        DeadRecordsLetter(c, mid, values, i, es[|es| - 1]);
        if q.dead > mid.dead {
          var h := HandlerFor(c, values[i], es[|es| - 1]);
          assert q.letters == mid.letters + [q.letters[|mid.letters|]];
          OneMoreLetter(c, values, mid.letters, |p.letters|, from, i, q.letters[|mid.letters|],
                        h(StateAt(h, mid.tally, 1, c.maxAttempts), c.maxAttempts).1.value);
        }
      }
    }
  }

  /** The letters of a poll are those of the records it took, in order and at most one for each. */
  lemma PolledLetters(c: Settings, s: Session, values: seq<Payload>, maxRecords: int, es: seq<Circumstance>,
                    commitFails: bool)
    requires s.position <= |values| && c.maxAttempts > 0
    ensures var s' := PollOnce(c, s, values, maxRecords, es, commitFails).0;
            s'.position <= |values| && LettersInTurn(c, values, s'.letters, |s.letters|, s.position, s'.position)
  {
    hide HandleBatch, LetterOf;
    if maxRecords > 0 {
      var n := Available(values, s.position, maxRecords, |es|);
      BatchLetters(c, Progress(Tally(s.table, 0, 0), s.letters, 0, false), values, s.position, es[..n]);
    }
  }

  // ----- an undisturbed poll -----

  /** Nothing unusual happens to these records. */
  predicate Undisturbed(es: seq<Circumstance>) {
    forall i :: 0 <= i < |es| ==> es[i].faults == []
  }

  lemma UndisturbedRecord(c: Settings, p: Progress, m: Payload, offset: nat, e: Circumstance)
    requires c.maxAttempts > 0 && e.faults == [] && Take(c.lib, p.tally.table, m).Ok?
    ensures var (table, added) := Take(c.lib, p.tally.table, m).value;
            HandleRecord(c, p, m, offset, e)
            == p.(tally := if added then Tally(table, p.tally.stored + 1, p.tally.duplicates)
                           else Tally(p.tally.table, p.tally.stored, p.tally.duplicates + 1))
  {
    hide Take;
  }

  lemma {:induction false} UndisturbedBatch(c: Settings, p: Progress, values: seq<Payload>, from: nat,
                                            es: seq<Circumstance>)
    requires from + |es| <= |values| && c.maxAttempts > 0 && Undisturbed(es) && !p.raised
    requires Feed(c.lib, p.tally.table, values[from..from + |es|]).error.None?
    ensures var f := Feed(c.lib, p.tally.table, values[from..from + |es|]);
            HandleBatch(c, p, values, from, es)
            == p.(tally := Tally(f.table, p.tally.stored + f.stored, p.tally.duplicates + f.duplicates))
    decreases |es|
  {
    hide HandleRecord, Take;
    if es != [] {
      var front, n := es[..|es| - 1], |es| - 1;
      var ms := values[from..from + |es|];
      assert ms[..n] == values[from..from + n];
      UndisturbedBatch(c, p, values, from, front);
      var f := Feed(c.lib, p.tally.table, ms[..n]);
      TakeCovers(c.lib, f.table, ms[n]);
      UndisturbedRecord(c, HandleBatch(c, p, values, from, front), values[from + n], from + n, es[n]);
    }
  }

  /** If nothing unusual happens, a poll of messages that can be stored does what one call of the storage consumer
      does with the same stretch: same table, same counts, and the commit moves past it. */
  lemma UndisturbedPollConsumes(c: Settings, s: Session, values: seq<Payload>, maxRecords: nat,
                                es: seq<Circumstance>)
    requires s.position <= |values| && c.maxAttempts > 0 && maxRecords > 0 && Undisturbed(es)
    requires var n := Available(values, s.position, maxRecords, |es|);
             n > 0 && Feed(c.lib, s.table, values[s.position..s.position + n]).error.None?
    ensures var n := Available(values, s.position, maxRecords, |es|);
            var (table, r) := Consume(c.lib, s.table, values, s.position, n);
            && r.Ok?
            && PollOnce(c, s, values, maxRecords, es, false)
            == (Session(table, s.letters, r.value.nextOffset, r.value.nextOffset),
                Polled(r.value.stored, r.value.duplicates, 0))
  {
    hide HandleBatch, Feed, Available, PollOnce, Consume, Undisturbed;
    var n := Available(values, s.position, maxRecords, |es|);
    var f := Feed(c.lib, s.table, values[s.position..s.position + n]);
    UndisturbedFront(es, n);
    UndisturbedBatch(c, Progress(Tally(s.table, 0, 0), s.letters, 0, false), values, s.position, es[..n]);
    PollFromBatch(c, s, values, maxRecords, es, Progress(Tally(f.table, f.stored, f.duplicates), s.letters, 0, false));
    ConsumeFromFeed(c.lib, s.table, values, s.position, n, f);
  }

  lemma UndisturbedFront(es: seq<Circumstance>, n: nat)
    requires Undisturbed(es) && n <= |es|
    ensures Undisturbed(es[..n])
  {}

  lemma PollFromBatch(c: Settings, s: Session, values: seq<Payload>, maxRecords: nat, es: seq<Circumstance>,
                      q: Progress)
    requires s.position <= |values| && maxRecords > 0 && !q.raised
    requires var n := Available(values, s.position, maxRecords, |es|);
             && n > 0
             && q == HandleBatch(c, Progress(Tally(s.table, 0, 0), s.letters, 0, false), values, s.position, es[..n])
    ensures var end := s.position + Available(values, s.position, maxRecords, |es|);
            PollOnce(c, s, values, maxRecords, es, false)
            == (Session(q.tally.table, q.letters, end, end), Polled(q.tally.stored, q.tally.duplicates, q.dead))
  {
    hide HandleBatch, Available;
  }

  lemma ConsumeFromFeed(lib: Library, t: Table, values: seq<Payload>, offset: nat, n: nat, f: Fed)
    requires 0 < n && offset + n <= |values| && f == Feed(lib, t, values[offset..offset + n]) && f.error.None?
    ensures Consume(lib, t, values, offset, n) == (f.table, Ok(Consumed(offset + n, f.stored, f.duplicates)))
  {
    hide Feed, Slice;
    SliceIs(values, offset, n);
  }

  lemma SliceIs(values: seq<Payload>, offset: nat, n: nat)
    requires 0 < n && offset + n <= |values|
    ensures Slice(values, offset, n) == values[offset..offset + n]
  {}

  /** After a restart over a store on disk one such poll of everything left catches up: it begins where the last
      commit left off. */
  lemma RestartCatchesUp(c: Settings, s: Session, values: seq<Payload>, es: seq<Circumstance>)
    requires s.committed < |values| && c.maxAttempts > 0 && c.onDisk
    requires Undisturbed(es) && |es| >= |values| - s.committed
    requires Feed(c.lib, s.table, values[s.committed..]).error.None?
    ensures var f := Feed(c.lib, s.table, values[s.committed..]);
            PollOnce(c, Restart(c, s), values, |values|, es, false)
            == (Session(f.table, s.letters, |values|, |values|), Polled(f.stored, f.duplicates, 0))
  {
    hide Feed, PollOnce, Slice;
    var n := |values| - s.committed;
    assert values[s.committed..s.committed + n] == values[s.committed..];
    SliceIs(values, s.committed, n);
    UndisturbedPollConsumes(c, Restart(c, s), values, |values|, es);
  }

  // ----- sessions -----

  datatype Move = Poll(maxRecords: int, circumstances: seq<Circumstance>, commitFails: bool) | RestartSession

  function Act(c: Settings, s: Session, values: seq<Payload>, a: Move): Session
    requires s.position <= |values|
  {
    match a
    case Poll(maxRecords, es, commitFails) => PollOnce(c, s, values, maxRecords, es, commitFails).0
    case RestartSession => Restart(c, s)
  }

  function Start(): Session {
    Session([], [], 0, 0)
  }

  function Sessions(c: Settings, values: seq<Payload>, moves: seq<Move>): (s: Session)
    ensures s.position <= |values| && s.committed <= s.position
    decreases |moves|
  {
    if moves == [] then Start()
    else
      var before := Sessions(c, values, moves[..|moves| - 1]);
      MoveKeepsOffsets(c, before, values, moves[|moves| - 1]);
      Act(c, before, values, moves[|moves| - 1])
  }

  lemma MoveKeepsOffsets(c: Settings, s: Session, values: seq<Payload>, a: Move)
    requires s.position <= |values| && s.committed <= s.position
    ensures var s' := Act(c, s, values, a);
            && s'.committed <= s'.position <= |values|
            && s.letters <= s'.letters && s.committed <= s'.committed
            && (a.Poll? || c.onDisk ==> s.table <= s'.table)
  {
    if a.Poll? {
      PollAccounts(c, s, values, a.maxRecords, a.circumstances, a.commitFails);
    }
  }

  /** Every poll reads from the committed offset: a session in which a poll raised is restarted first. Restarts
      may come anywhere. */
  ghost predicate PollsFromCommitted(c: Settings, values: seq<Payload>, moves: seq<Move>) {
    forall k :: 0 <= k < |moves| && moves[k].Poll? ==>
      Sessions(c, values, moves[..k]).position == Sessions(c, values, moves[..k]).committed
  }

  lemma PrefixPollsFromCommitted(c: Settings, values: seq<Payload>, moves: seq<Move>)
    requires moves != [] && PollsFromCommitted(c, values, moves)
    ensures PollsFromCommitted(c, values, moves[..|moves| - 1])
  {
    var front := moves[..|moves| - 1];
    forall k | 0 <= k < |front| && front[k].Poll?
      ensures Sessions(c, values, front[..k]).position == Sessions(c, values, front[..k]).committed
    {
      assert front[..k] == moves[..k] && front[k] == moves[k];
    }
  }

  /** In addition the consumer is restarted only over a store on disk. */
  ghost predicate Careful(c: Settings, values: seq<Payload>, moves: seq<Move>) {
    PollsFromCommitted(c, values, moves) && (RestartSession in moves ==> c.onDisk)
  }

  lemma CarefulMove(c: Settings, s: Session, values: seq<Payload>, a: Move)
    requires s.committed <= s.position <= |values| && HandledUpTo(c.lib, s, values, 0, s.committed)
    requires if a.Poll? then s.position == s.committed else c.onDisk
    ensures var s' := Act(c, s, values, a);
            s'.committed <= |values| && HandledUpTo(c.lib, s', values, 0, s'.committed)
  {
    hide PollOnce, Handled;
    var s' := Act(c, s, values, a);
    if a.Poll? {
      PollAccounts(c, s, values, a.maxRecords, a.circumstances, a.commitFails);
      StaysHandled(c.lib, s, s', values, 0, s.committed);
    }
  }

  lemma StaysHandled(lib: Library, s: Session, s': Session, values: seq<Payload>, from: nat, to: nat)
    requires to <= |values| && s.table <= s'.table && s.letters <= s'.letters
    requires HandledUpTo(lib, s, values, from, to)
    ensures HandledUpTo(lib, s', values, from, to)
  {
    hide Handled;
    forall i | from <= i < to ensures Handled(lib, s'.table, s'.letters, values, i) {
      HandledStays(lib, s.table, s.letters, s'.table, s'.letters, values, i);
    }
  }

  /** In any run of polls and restarts in which each raised poll is followed by a restart, over a store on
      disk if there are restarts, everything below the committed offset has been handled. */
  lemma {:induction false} CommittedIsHandled(c: Settings, values: seq<Payload>, moves: seq<Move>)
    requires Careful(c, values, moves)
    ensures var s := Sessions(c, values, moves);
            HandledUpTo(c.lib, s, values, 0, s.committed)
    decreases |moves|
  {
    if moves != [] {
      var front, a := moves[..|moves| - 1], moves[|moves| - 1];
      PrefixPollsFromCommitted(c, values, moves);
      assert a in moves;
      CommittedIsHandled(c, values, front);
      CarefulMove(c, Sessions(c, values, front), values, a);
    }
  }

  // ----- restarts and the store -----

  ghost predicate HasLetter(letters: seq<DeadLetter>, values: seq<Payload>, i: nat)
    requires i < |values|
  {
    exists k :: 0 <= k < |letters| && letters[k].offset == Some(i) && letters[k].payload == values[i]
  }

  predicate Refused(lib: Library, m: Payload) {
    Take(lib, [], m).Err?
  }

  /** The record leaves no row that could be lost: it has a letter, or it is one that the insert skips. */
  ghost predicate Settled(lib: Library, letters: seq<DeadLetter>, values: seq<Payload>, i: nat)
    requires i < |values|
  {
    HasLetter(letters, values, i) || (!Refused(lib, values[i]) && !Storable(lib, values[i]))
  }

  /** Whether a message is refused has nothing to do with the table, and one that is neither refused nor
      storable is skipped by every table. */
  lemma TakeByMessage(lib: Library, t: Table, m: Payload)
    ensures Take(lib, t, m).Err? <==> Refused(lib, m)
    ensures Covered(lib, t, m) ==> !Refused(lib, m)
    ensures !Refused(lib, m) && !Storable(lib, m) ==> Covered(lib, t, m)
    ensures Storable(lib, m) ==> !Refused(lib, m) && !Covered(lib, [], m)
  {
    if Accepted(lib, m) {
      Bridge.AcceptedHasId(lib, m);
    }
  }

  /** Restarting keeps what was handled below the committed offset exactly if the store is on disk or every
      record there has a letter of its own or is one that the insert skips. */
  lemma RestartIsSafeIff(c: Settings, s: Session, values: seq<Payload>)
    requires s.committed <= |values| && HandledUpTo(c.lib, s, values, 0, s.committed)
    ensures HandledUpTo(c.lib, Restart(c, s), values, 0, s.committed) <==>
            c.onDisk || forall i :: 0 <= i < s.committed ==> Settled(c.lib, s.letters, values, i)
  {
    hide Covered, Refused, Storable;
    forall i | 0 <= i < s.committed
      ensures Handled(c.lib, [], s.letters, values, i) <==> Settled(c.lib, s.letters, values, i)
    {
      TakeByMessage(c.lib, [], values[i]);
    }
  }

  /** A storable record can never be committed: no record can at all, or, without a publisher, a refused one
      stands before it. */
  ghost predicate OutOfReach(c: Settings, values: seq<Payload>, i: nat)
    requires i < |values|
  {
    !c.hasPublisher && exists k :: 0 <= k < i && Refused(c.lib, values[k])
  }

  ghost predicate NothingToForget(c: Settings, values: seq<Payload>) {
    || c.onDisk || c.maxAttempts <= 0
    || forall i :: 0 <= i < |values| && Storable(c.lib, values[i]) ==> OutOfReach(c, values, i)
  }

  /** Without a publisher there are no letters. */
  lemma {:induction false} NoPublisherNoLetters(c: Settings, p: Progress, values: seq<Payload>, from: nat,
                                                es: seq<Circumstance>)
    requires from + |es| <= |values| && !c.hasPublisher
    ensures HandleBatch(c, p, values, from, es).letters == p.letters
    decreases |es|
  {
    if es != [] {
      NoPublisherNoLetters(c, p, values, from, es[..|es| - 1]);
    }
  }

  ghost predicate AllSettled(c: Settings, s: Session, values: seq<Payload>)
    requires s.committed <= |values|
  {
    && (forall i :: 0 <= i < s.committed ==> Settled(c.lib, s.letters, values, i))
    && (!c.hasPublisher ==> s.letters == [])
  }

  lemma LettersStay(letters: seq<DeadLetter>, letters': seq<DeadLetter>, values: seq<Payload>, i: nat)
    requires i < |values| && letters <= letters' && HasLetter(letters, values, i)
    ensures HasLetter(letters', values, i)
  {
    var k :| 0 <= k < |letters| && letters[k].offset == Some(i) && letters[k].payload == values[i];
    assert letters'[k] == letters[k];
  }

  lemma RefusedNeedsLetter(lib: Library, table: Table, values: seq<Payload>, k: nat)
    requires k < |values| && Refused(lib, values[k])
    ensures !Handled(lib, table, [], values, k) && !Settled(lib, [], values, k)
  {
    hide Covered, Refused;
    TakeByMessage(lib, table, values[k]);
  }

  /** A record that a committing poll has handled is settled, if storable records are out of reach. */
  lemma HandledIsSettled(c: Settings, s: Session, values: seq<Payload>, i: nat)
    requires i < s.committed <= |values| && (!c.hasPublisher ==> s.letters == [])
    requires forall k :: 0 <= k <= i ==>
        Handled(c.lib, s.table, s.letters, values, k) || Settled(c.lib, s.letters, values, k)
    requires Storable(c.lib, values[i]) ==> OutOfReach(c, values, i)
    ensures Settled(c.lib, s.letters, values, i)
  {
    hide Covered, Refused, Storable;
    TakeByMessage(c.lib, s.table, values[i]);
    if Storable(c.lib, values[i]) && !HasLetter(s.letters, values, i) {
      var k :| 0 <= k < i && Refused(c.lib, values[k]);
      RefusedNeedsLetter(c.lib, s.table, values, k);
      assert false;
    }
  }

  lemma MoveSettles(c: Settings, s: Session, values: seq<Payload>, a: Move)
    requires !c.onDisk && c.maxAttempts > 0 && NothingToForget(c, values)
    requires s.committed <= s.position <= |values| && AllSettled(c, s, values)
    requires a.Poll? ==> s.position == s.committed
    ensures var s' := Act(c, s, values, a); s'.committed <= |values| && AllSettled(c, s', values)
  {
    hide PollOnce, Handled, Refused, Storable, OutOfReach, HasLetter;
    var s' := Act(c, s, values, a);
    if a.Poll? {
      PollAccounts(c, s, values, a.maxRecords, a.circumstances, a.commitFails);
      PollLetters(c, s, values, a.maxRecords, a.circumstances, a.commitFails);
      forall i | 0 <= i < s.committed ensures Settled(c.lib, s'.letters, values, i) {
        assert Settled(c.lib, s.letters, values, i);
        if HasLetter(s.letters, values, i) {
          LettersStay(s.letters, s'.letters, values, i);
        }
      }
      forall i | s.committed <= i < s'.committed ensures Settled(c.lib, s'.letters, values, i) {
        HandledIsSettled(c, s', values, i);
      }
    }
  }

  lemma PollLetters(c: Settings, s: Session, values: seq<Payload>, maxRecords: int, es: seq<Circumstance>,
                    commitFails: bool)
    requires s.position <= |values|
    ensures !c.hasPublisher ==> PollOnce(c, s, values, maxRecords, es, commitFails).0.letters == s.letters
  {
    if maxRecords > 0 && !c.hasPublisher {
      var n := Available(values, s.position, maxRecords, |es|);
      NoPublisherNoLetters(c, Progress(Tally(s.table, 0, 0), s.letters, 0, false), values, s.position, es[..n]);
    }
  }

  lemma {:induction false} AlwaysSettled(c: Settings, values: seq<Payload>, moves: seq<Move>)
    requires !c.onDisk && c.maxAttempts > 0 && NothingToForget(c, values) && PollsFromCommitted(c, values, moves)
    ensures AllSettled(c, Sessions(c, values, moves), values)
    decreases |moves|
  {
    hide AllSettled, NothingToForget, Act;
    if moves == [] {
      NothingCommitted(c, values);
    } else {
      var front := moves[..|moves| - 1];
      PrefixPollsFromCommitted(c, values, moves);
      AlwaysSettled(c, values, front);
      MoveSettles(c, Sessions(c, values, front), values, moves[|moves| - 1]);
    }
  }

  lemma NothingCommitted(c: Settings, values: seq<Payload>)
    ensures AllSettled(c, Start(), values)
  {}

  /** With no attempt allowed nothing is ever committed. */
  lemma {:induction false} NoAttemptNoCommit(c: Settings, values: seq<Payload>, moves: seq<Move>)
    requires c.maxAttempts <= 0
    ensures Sessions(c, values, moves).committed == 0
    decreases |moves|
  {
    hide PollOnce;
    if moves != [] {
      var front, a := moves[..|moves| - 1], moves[|moves| - 1];
      NoAttemptNoCommit(c, values, front);
      var s := Sessions(c, values, front);
      if a.Poll? && PollOnce(c, s, values, a.maxRecords, a.circumstances, a.commitFails).0.committed != s.committed {
        HeadWasTaken(c, s, values, a.maxRecords, a.circumstances, a.commitFails);
      }
    }
  }

  /** A poll that commits the next record: with a publisher as a dead letter, otherwise by taking it. */
  function CommitNext(c: Settings): Move {
    Poll(1, if c.hasPublisher then AllFail(c) else [Circumstance([], false)], false)
  }

  function CommitFirst(c: Settings, n: nat): seq<Move> {
    if n == 0 then [] else CommitFirst(c, n - 1) + [CommitNext(c)]
  }

  ghost predicate CommittedAlone(s: Session, n: nat) {
    && s.position == n && s.committed == n
    && forall k :: 0 <= k < |s.letters| ==> s.letters[k].offset.Some? && s.letters[k].offset.value < n
  }

  lemma CommitsNext(c: Settings, s: Session, values: seq<Payload>, n: nat)
    requires c.maxAttempts > 0 && n < |values| && CommittedAlone(s, n)
    requires c.hasPublisher || !Refused(c.lib, values[n])
    ensures CommittedAlone(Act(c, s, values, CommitNext(c)), n + 1)
  {
    hide PollOnce, AllFail;
    if c.hasPublisher {
      FailingPoll(c, s, values);
      var s' := Act(c, s, values, CommitNext(c));
      var letter :| s'.letters == s.letters + [letter] && letter.offset == Some(n);
    } else {
      TakeByMessage(c.lib, s.table, values[n]);
      hide Take;
      TakingPoll(c, s, values, Circumstance([], false));
    }
  }

  lemma {:induction false} FirstAreCommitted(c: Settings, values: seq<Payload>, n: nat)
    requires c.maxAttempts > 0 && n <= |values|
    requires c.hasPublisher || forall k :: 0 <= k < n ==> !Refused(c.lib, values[k])
    ensures CommittedAlone(Sessions(c, values, CommitFirst(c, n)), n)
    ensures PollsFromCommitted(c, values, CommitFirst(c, n))
    decreases n
  {
    hide Refused, Act, CommitNext, PollsFromCommitted;
    if n == 0 {
      NoPollYet(c, values);
    } else {
      var front := CommitFirst(c, n - 1);
      FirstAreCommitted(c, values, n - 1);
      CommitsNext(c, Sessions(c, values, front), values, n - 1);
      PollComesNext(c, values, front, CommitNext(c));
      assert (front + [CommitNext(c)])[..|front|] == front;
    }
  }

  lemma NoPollYet(c: Settings, values: seq<Payload>)
    ensures CommittedAlone(Sessions(c, values, []), 0) && PollsFromCommitted(c, values, [])
  {}

  lemma PollComesNext(c: Settings, values: seq<Payload>, front: seq<Move>, a: Move)
    requires PollsFromCommitted(c, values, front)
    requires a.Poll? ==> Sessions(c, values, front).position == Sessions(c, values, front).committed
    ensures PollsFromCommitted(c, values, front + [a])
  {
    hide Sessions;
    var moves := front + [a];
    forall k | 0 <= k < |moves| && moves[k].Poll?
      ensures Sessions(c, values, moves[..k]).position == Sessions(c, values, moves[..k]).committed
    {
      assert moves[..k] == if k < |front| then front[..k] else front;
    }
  }

  /** A storable record within reach is stored, committed and forgotten. */
  lemma ForgettingRun(c: Settings, values: seq<Payload>, i: nat) returns (moves: seq<Move>)
    requires !c.onDisk && c.maxAttempts > 0 && i < |values| && Storable(c.lib, values[i]) && !OutOfReach(c, values, i)
    ensures PollsFromCommitted(c, values, moves)
    ensures var s := Sessions(c, values, moves); i < s.committed && !Handled(c.lib, s.table, s.letters, values, i)
  {
    hide PollOnce, Refused, Take, Storable, Covered, PollsFromCommitted;
    var front, one := CommitFirst(c, i), Poll(1, [Circumstance([], false)], false);
    FirstAreCommitted(c, values, i);
    var before := Sessions(c, values, front);
    TakeByMessage(c.lib, before.table, values[i]);
    TakingPoll(c, before, values, Circumstance([], false));
    PollComesNext(c, values, front, one);
    PollComesNext(c, values, front + [one], RestartSession);
    moves := front + [one] + [RestartSession];
    assert (front + [one])[..|front|] == front && moves[..|front| + 1] == front + [one];
    assert Sessions(c, values, moves) == Restart(c, Act(c, before, values, one));
  }

  /** Commit implies handled, whatever restarts there are, exactly if the store is on disk, no attempt is
      allowed, or the topic has no storable record within reach: every run that polls from the committed offset
      only and restarts anywhere keeps everything below that offset handled, or some run does not. */
  lemma CommittedStaysHandledIff(c: Settings, values: seq<Payload>)
    ensures NothingToForget(c, values) <==>
            forall moves :: PollsFromCommitted(c, values, moves) ==>
              var s := Sessions(c, values, moves); HandledUpTo(c.lib, s, values, 0, s.committed)
  {
    hide PollsFromCommitted, HandledUpTo, Sessions, NothingToForget;
    if NothingToForget(c, values) {
      forall moves | PollsFromCommitted(c, values, moves)
        ensures var s := Sessions(c, values, moves); HandledUpTo(c.lib, s, values, 0, s.committed)
      {
        StaysHandledThroughout(c, values, moves);
      }
    } else {
      SomeRunForgets(c, values);
    }
  }

  lemma SomeRunForgets(c: Settings, values: seq<Payload>)
    requires !NothingToForget(c, values)
    ensures exists moves :: PollsFromCommitted(c, values, moves)
              && var s := Sessions(c, values, moves); !HandledUpTo(c.lib, s, values, 0, s.committed)
  {
    hide PollsFromCommitted, Sessions, Storable, OutOfReach, Handled;
    var i :| 0 <= i < |values| && Storable(c.lib, values[i]) && !OutOfReach(c, values, i);
    var moves := ForgettingRun(c, values, i);
  }

  lemma StaysHandledThroughout(c: Settings, values: seq<Payload>, moves: seq<Move>)
    requires NothingToForget(c, values) && PollsFromCommitted(c, values, moves)
    ensures var s := Sessions(c, values, moves); HandledUpTo(c.lib, s, values, 0, s.committed)
  {
    hide Sessions, Covered, Storable, Refused;
    if c.onDisk {
      CommittedIsHandled(c, values, moves);
    } else if c.maxAttempts <= 0 {
      NoAttemptNoCommit(c, values, moves);
    } else {
      AlwaysSettled(c, values, moves);
      var s := Sessions(c, values, moves);
      forall i | 0 <= i < s.committed ensures Handled(c.lib, s.table, s.letters, values, i) {
        assert Settled(c.lib, s.letters, values, i);
        TakeByMessage(c.lib, s.table, values[i]);
      }
    }
  }

  /** With the store in memory, which is the default, a stored and committed record is gone after a restart. */
  lemma MemoryForgets(c: Settings, values: seq<Payload>)
    requires c.maxAttempts > 0 && !c.onDisk && |values| == 1 && Storable(c.lib, values[0])
    ensures var s := Sessions(c, values, [Poll(1, [Circumstance([], false)], false), RestartSession]);
            s.committed == 1 && s.table == [] && !Handled(c.lib, s.table, s.letters, values, 0)
  {
    var one := Poll(1, [Circumstance([], false)], false);
    GoodPolls(c, Start(), values, Circumstance([], false));
    assert [one, RestartSession][..1] == [one] && [one][..0] == [];
    assert Sessions(c, values, []) == Start();
    assert Sessions(c, values, [one]) == Session([RowOf(c.lib, values[0])], [], 1, 1);
  }

  /** Whatever the polls, and whatever the restarts over a store on disk, rows once written are never changed
      or lost; letters never are. */
  lemma {:induction false} RowsAreKept(c: Settings, values: seq<Payload>, moves: seq<Move>, more: seq<Move>)
    ensures c.onDisk || RestartSession !in more ==>
              Sessions(c, values, moves).table <= Sessions(c, values, moves + more).table
    ensures Sessions(c, values, moves).letters <= Sessions(c, values, moves + more).letters
    ensures Sessions(c, values, moves).committed <= Sessions(c, values, moves + more).committed
    decreases |more|
  {
    hide Act;
    if more == [] {
      assert moves + more == moves;
    } else {
      var front := more[..|more| - 1];
      assert (moves + more)[..|moves + more| - 1] == moves + front;
      RowsAreKept(c, values, moves, front);
      MoveKeepsOffsets(c, Sessions(c, values, moves + front), values, more[|more| - 1]);
      assert more[|more| - 1] in more;
    }
  }

  // ----- polling on after a poll that raised -----

  /** A poll of one record whose attempts all fail before the insert and whose letter is published. */
  function AllFail(c: Settings): seq<Circumstance> {
    [Circumstance(seq(if c.maxAttempts > 0 then c.maxAttempts else 0, i => Before("")), false)]
  }

  lemma {:induction false} FailingAttempts(c: Settings, m: Payload, t: Tally, first: nat, lastError: string)
    requires 1 <= first <= c.maxAttempts
    ensures Attempts(HandlerFor(c, m, AllFail(c)[0]), t, first, c.maxAttempts, lastError) == Exhausted(t, "")
    decreases c.maxAttempts - first
  {
    assert AllFail(c)[0].At(first) == Before("");
    if first < c.maxAttempts {
      FailingAttempts(c, m, t, first + 1, "");
    }
  }

  lemma OneRecord(c: Settings, p: Progress, values: seq<Payload>, from: nat, e: Circumstance)
    requires from < |values| && !p.raised
    ensures [e][..1] == [e] && HandleBatch(c, p, values, from, [e]) == HandleRecord(c, p, values[from], from, e)
  {
    assert [e][..0] == [];
  }

  lemma FailingPoll(c: Settings, s: Session, values: seq<Payload>)
    requires c.maxAttempts > 0 && c.hasPublisher && s.position < |values|
    ensures var (s', r) := PollOnce(c, s, values, 1, AllFail(c), false);
            && r == Polled(0, 0, 1) && s'.table == s.table && s'.committed == s'.position == s.position + 1
            && exists letter :: s'.letters == s.letters + [letter] && letter.offset == Some(s.position)
  {
    var p := Progress(Tally(s.table, 0, 0), s.letters, 0, false);
    var m := values[s.position];
    FailingAttempts(c, m, p.tally, 1, "unknown processing error");
    OneRecord(c, p, values, s.position, AllFail(c)[0]);
    var letter := LetterFor(m, c.maxAttempts, "", Some(MetadataFor(c, m, s.position)));
    assert PollOnce(c, s, values, 1, AllFail(c), false).0.letters == s.letters + [letter];
  }

  /** The table after the next record has been taken, if it can be taken at all. */
  function AfterNext(c: Settings, s: Session, values: seq<Payload>): Option<Table>
    requires s.position < |values|
  {
    match Take(c.lib, s.table, values[s.position]) case Ok((t, _)) => Some(t) case Err(_) => None
  }

  /** When a session may poll on. Nothing can go wrong if there is nothing to poll or no poll can return.
      With a publisher the next record may end in a dead letter, so the records between the committed offset
      and the position must have been handled already. Without one the next record is either refused, and
      then no poll returns, or taken, which may be what handles them. */
  ghost predicate MayPollOn(c: Settings, s: Session, values: seq<Payload>)
    requires s.position <= |values|
  {
    || c.maxAttempts <= 0 || s.position == |values|
    || HandledUpTo(c.lib, s, values, s.committed, s.position)
    || (!c.hasPublisher && AfterNext(c, s, values).None?)
    || (!c.hasPublisher && HandledUpTo(c.lib, s.(table := AfterNext(c, s, values).value), values, s.committed,
                                       s.position))
  }

  ghost predicate NextPollIsSafe(c: Settings, s: Session, values: seq<Payload>, maxRecords: int, es: seq<Circumstance>,
                                 commitFails: bool)
    requires s.position <= |values|
  {
    var s' := PollOnce(c, s, values, maxRecords, es, commitFails).0;
    s'.committed <= |values| && HandledUpTo(c.lib, s', values, 0, s'.committed)
  }

  /** A session may poll on exactly under that condition: then whatever the next poll does, everything below the
      committed offset is still handled, and otherwise some poll commits past a record nobody handled. */
  lemma PollingOnIsSafeIff(c: Settings, s: Session, values: seq<Payload>)
    requires s.committed <= s.position <= |values| && HandledUpTo(c.lib, s, values, 0, s.committed)
    ensures MayPollOn(c, s, values) <==>
            forall maxRecords: int, es: seq<Circumstance>, commitFails: bool ::
              NextPollIsSafe(c, s, values, maxRecords, es, commitFails)
  {
    hide NextPollIsSafe, MayPollOn;
    if MayPollOn(c, s, values) {
      forall maxRecords: int, es: seq<Circumstance>, commitFails: bool
        ensures NextPollIsSafe(c, s, values, maxRecords, es, commitFails)
      {
        PollsOnSafely(c, s, values, maxRecords, es, commitFails);
      }
    } else {
      PollsOnUnsafely(c, s, values);
    }
  }

  /** The check a caller can make: a session that has raised nothing since it started, so that its position is
      the committed offset, may poll on. */
  lemma CaughtUpMayPollOn(c: Settings, s: Session, values: seq<Payload>)
    requires s.committed == s.position <= |values| && HandledUpTo(c.lib, s, values, 0, s.committed)
    ensures forall maxRecords: int, es: seq<Circumstance>, commitFails: bool ::
              NextPollIsSafe(c, s, values, maxRecords, es, commitFails)
  {
    hide NextPollIsSafe;
    PollingOnIsSafeIff(c, s, values);
  }

  lemma PollsOnSafely(c: Settings, s: Session, values: seq<Payload>, maxRecords: int, es: seq<Circumstance>,
                      commitFails: bool)
    requires s.committed <= s.position <= |values| && HandledUpTo(c.lib, s, values, 0, s.committed)
    requires MayPollOn(c, s, values)
    ensures NextPollIsSafe(c, s, values, maxRecords, es, commitFails)
  {
    hide PollOnce, Handled, AfterNext;
    PollAccounts(c, s, values, maxRecords, es, commitFails);
    var (s', r) := PollOnce(c, s, values, maxRecords, es, commitFails);
    StaysHandled(c.lib, s, s', values, 0, s.committed);
    if s'.committed != s.committed {
      HeadWasTaken(c, s, values, maxRecords, es, commitFails);
      if HandledUpTo(c.lib, s, values, s.committed, s.position) {
        StaysHandled(c.lib, s, s', values, s.committed, s.position);
      } else {
        StaysHandled(c.lib, s.(table := AfterNext(c, s, values).value), s', values, s.committed, s.position);
      }
    }
  }

  /** A poll that commits has a limit on attempts and a record; without a publisher it has taken that record. */
  lemma HeadWasTaken(c: Settings, s: Session, values: seq<Payload>, maxRecords: int, es: seq<Circumstance>,
                     commitFails: bool)
    requires s.position <= |values|
    requires PollOnce(c, s, values, maxRecords, es, commitFails).0.committed != s.committed
    ensures c.maxAttempts > 0 && s.position < |values|
    ensures !c.hasPublisher ==>
              && AfterNext(c, s, values).Some?
              && AfterNext(c, s, values).value <= PollOnce(c, s, values, maxRecords, es, commitFails).0.table
  {
    hide HandleRecord;
    var n := Available(values, s.position, maxRecords, |es|);
    var p := Progress(Tally(s.table, 0, 0), s.letters, 0, false);
    assert n > 0 && !HandleBatch(c, p, values, s.position, es[..n]).raised;
    HeadOfBatch(c, p, values, s.position, es[..n]);
    RecordEndsOnce(c, p, values, s.position, es[0]);
    if !c.hasPublisher {
      RecordTaken(c, p, values[s.position], s.position, es[0]);
    }
  }

  /** A batch that raised nothing has been through its first record, and only appended since. */
  lemma {:induction false} HeadOfBatch(c: Settings, p: Progress, values: seq<Payload>, from: nat, es: seq<Circumstance>)
    requires es != [] && from + |es| <= |values| && !p.raised
    requires !HandleBatch(c, p, values, from, es).raised
    ensures var head := HandleRecord(c, p, values[from], from, es[0]);
            !head.raised && head.tally.table <= HandleBatch(c, p, values, from, es).tally.table
    decreases |es|
  {
    hide HandleRecord;
    var front := es[..|es| - 1];
    var q := HandleBatch(c, p, values, from, front);
    if front == [] {
      assert q == p;
    } else {
      HeadOfBatch(c, p, values, from, front);
      RecordEndsOnce(c, q, values, from + |es| - 1, es[|es| - 1]);
    }
  }

  /** Without a publisher, a record that does not raise has been taken. */
  lemma RecordTaken(c: Settings, p: Progress, m: Payload, offset: nat, e: Circumstance)
    requires c.maxAttempts > 0 && !c.hasPublisher && !p.raised && !HandleRecord(c, p, m, offset, e).raised
    ensures Take(c.lib, p.tally.table, m).Ok?
    ensures HandleRecord(c, p, m, offset, e).tally.table == Take(c.lib, p.tally.table, m).value.0
  {
    AttemptsTake(c, m, e, p.tally, p.tally.table, 1, "unknown processing error");
  }

  /** While attempts fail the table is the first one or what taking the message makes of it; a success leaves
      the latter. */
  lemma {:induction false} AttemptsTake(c: Settings, m: Payload, e: Circumstance, t: Tally, first: Table, k: nat,
                                        lastError: string)
    requires 1 <= k <= c.maxAttempts
    requires t.table == first || (Take(c.lib, first, m).Ok? && t.table == Take(c.lib, first, m).value.0)
    ensures var r := Attempts(HandlerFor(c, m, e), t, k, c.maxAttempts, lastError);
            r.Succeeded? ==> Take(c.lib, first, m).Ok? && r.state.table == Take(c.lib, first, m).value.0
    decreases c.maxAttempts - k
  {
    hide Take;
    if Take(c.lib, first, m).Ok? {
      TakeCovers(c.lib, first, m);
    }
    var (t', error) := Handle(c, m, e, t, k);
    if error.Some? && k < c.maxAttempts {
      AttemptsTake(c, m, e, t', first, k + 1, error.value);
    }
  }

  /** If the condition fails, a poll of one record commits past one that nobody handled. */
  lemma PollsOnUnsafely(c: Settings, s: Session, values: seq<Payload>)
    requires s.committed <= s.position <= |values| && !MayPollOn(c, s, values)
    ensures exists es: seq<Circumstance> :: !NextPollIsSafe(c, s, values, 1, es, false)
  {
    hide PollOnce, Handled, AllFail, Take;
    if c.hasPublisher {
      FailingPoll(c, s, values);
      var s' := PollOnce(c, s, values, 1, AllFail(c), false).0;
      var i :| s.committed <= i < s.position && !Handled(c.lib, s.table, s.letters, values, i);
      StillUnhandled(c.lib, s, s', values, i);
      assert !NextPollIsSafe(c, s, values, 1, AllFail(c), false);
    } else {
      var es := [Circumstance([], false)];
      TakingPoll(c, s, values, es[0]);
      var t := AfterNext(c, s, values).value;
      var i :| s.committed <= i < s.position && !Handled(c.lib, t, s.letters, values, i);
      assert !NextPollIsSafe(c, s, values, 1, es, false);
    }
  }

  /** Undisturbed, a poll of one record that can be taken takes it and commits. */
  lemma TakingPoll(c: Settings, s: Session, values: seq<Payload>, e: Circumstance)
    requires c.maxAttempts > 0 && e.faults == [] && s.position < |values| && AfterNext(c, s, values).Some?
    ensures var (s', r) := PollOnce(c, s, values, 1, [e], false);
            && r.Polled? && r.dead == 0 && r.stored + r.duplicates == 1
            && s' == s.(table := AfterNext(c, s, values).value, position := s.position + 1, committed := s.position + 1)
  {
    hide Take;
    var p := Progress(Tally(s.table, 0, 0), s.letters, 0, false);
    var m := values[s.position];
    TakeCovers(c.lib, s.table, m);
    var (t, error) := Handle(c, m, e, p.tally, 1);
    assert error.None? && t.table == AfterNext(c, s, values).value;
    OneRecord(c, p, values, s.position, e);
  }

  lemma StillUnhandled(lib: Library, s: Session, s': Session, values: seq<Payload>, i: nat)
    requires i < s.position < |values| && !Handled(lib, s.table, s.letters, values, i)
    requires s'.table == s.table
    requires exists letter :: s'.letters == s.letters + [letter] && letter.offset == Some(s.position)
    ensures !Handled(lib, s'.table, s'.letters, values, i)
  {
    hide Covered;
    forall k | 0 <= k < |s'.letters| ensures !(s'.letters[k].offset == Some(i) && s'.letters[k].payload == values[i]) {
      if k < |s.letters| {
        assert s'.letters[k] == s.letters[k];
      }
    }
  }

  /** That does happen: without a publisher, which is the default, a poll that meets a rejected message raises,
      and the next poll of the same session stores the message after it and commits past both. */
  lemma RejectedMessageSkipped(c: Settings, values: seq<Payload>)
    requires c.maxAttempts > 0 && !c.hasPublisher
    requires |values| == 2 && !Accepted(c.lib, values[0]) && Storable(c.lib, values[1])
    ensures var one := Poll(1, [Circumstance([], false)], false);
            var s := Sessions(c, values, [one, one]);
            && s.committed == 2 && |s.table| == 1 && s.letters == []
            && !Handled(c.lib, s.table, s.letters, values, 0)
  {
    var es := [Circumstance([], false)];
    var one := Poll(1, es, false);
    RejectedRaises(c, Start(), values, es[0]);
    var mid := Session([], [], 1, 0);
    GoodPolls(c, mid, values, es[0]);
    assert [one, one][..1] == [one] && [one][..0] == [];
    assert Sessions(c, values, []) == Start();
    assert Sessions(c, values, [one]) == mid;
  }

  lemma {:induction false} RejectedAttempts(c: Settings, m: Payload, e: Circumstance, t: Tally, first: nat,
                                            lastError: string)
    requires !Accepted(c.lib, m) && e.faults == [] && 1 <= first <= c.maxAttempts
    ensures exists error :: Attempts(HandlerFor(c, m, e), t, first, c.maxAttempts, lastError) == Exhausted(t, error)
    decreases c.maxAttempts - first
  {
    var (t', r) := Handle(c, m, e, t, first);
    assert t' == t && r.Some?;
    if first < c.maxAttempts {
      RejectedAttempts(c, m, e, t, first + 1, r.value);
    }
  }

  lemma RejectedRaises(c: Settings, s: Session, values: seq<Payload>, e: Circumstance)
    requires c.maxAttempts > 0 && !c.hasPublisher && e.faults == []
    requires s.position < |values| && !Accepted(c.lib, values[s.position])
    ensures PollOnce(c, s, values, 1, [e], false) == (s.(position := s.position + 1), Raised)
  {
    var p := Progress(Tally(s.table, 0, 0), s.letters, 0, false);
    RejectedAttempts(c, values[s.position], e, p.tally, 1, "unknown processing error");
    OneRecord(c, p, values, s.position, e);
  }

  lemma GoodPolls(c: Settings, s: Session, values: seq<Payload>, e: Circumstance)
    requires c.maxAttempts > 0 && e.faults == [] && s.table == []
    requires s.position < |values| && Storable(c.lib, values[s.position])
    ensures PollOnce(c, s, values, 1, [e], false).0
         == s.(table := [RowOf(c.lib, values[s.position])], position := s.position + 1, committed := s.position + 1)
  {
    var m := values[s.position];
    assert [] + [RowOf(c.lib, m)] == [RowOf(c.lib, m)];
    assert Take(c.lib, [], m) == Ok(([RowOf(c.lib, m)], true));
    TakingPoll(c, s, values, e);
  }

  // ----- the object -----

  class KafkaTelemetryConsumer {
    const settings: Settings
    const store: SQLiteTelemetryStore
    var letters: seq<DeadLetter>
    var position: nat
    var committed: nat

    ghost function State(): Session
      reads this, store
    {
      Session(store.rows, letters, position, committed)
    }

    constructor (settings: Settings, store: SQLiteTelemetryStore)
      ensures this.settings == settings && this.store == store
      ensures State() == Session(store.rows, [], 0, 0)
    {
      this.settings, this.store := settings, store;
      letters, position, committed := [], 0, 0;
    }

    /** One record: the retries, and the dead letter if they are exhausted. */
    method ProcessRecord(m: Payload, offset: nat, e: Circumstance, t: Tally, dead: nat)
      returns (t': Tally, dead': nat, raised: bool)
      requires t.table == store.rows
      modifies this`letters, store
      ensures Progress(t', letters, dead', raised)
          == HandleRecord(settings, Progress(t, old(letters), dead, false), m, offset, e)
      ensures store.rows == t'.table
    {
      var outcome := ProcessWithRetry(HandlerFor(settings, m, e), t, m, Some(MetadataFor(settings, m, offset)),
                                      settings.maxAttempts);
      if outcome.BadLimit? {
        return t, dead, true;
      }
      t', dead', raised := outcome.state, dead, false;
      store.rows := t'.table;
      if outcome.Dead? {
        if !settings.hasPublisher || e.publishFails {
          raised := true;
        } else {
          letters, dead' := letters + [outcome.letter], dead + 1;
        }
      }
    }

    /** The broker is willing to hand out one record per circumstance given. */
    method Poll(values: seq<Payload>, maxRecords: int, es: seq<Circumstance>, commitFails: bool) returns (r: PollResult)
      requires position <= |values|
      modifies this, store
      ensures (State(), r) == PollOnce(settings, old(State()), values, maxRecords, es, commitFails)
    {
      hide HandleBatch, HandleRecord;
      if maxRecords <= 0 {
        return Raised;
      }
      var from := position;
      var n := Available(values, from, maxRecords, |es|);
      position := position + n;
      var tally, dead := Tally(store.rows, 0, 0), 0;
      ghost var start := Progress(tally, letters, 0, false);
      BatchNone(settings, start, values, from, es);
      for i := 0 to n
        invariant position == from + n && committed == old(committed) && store.rows == tally.table
        invariant HandleBatch(settings, start, values, from, es[..i]) == Progress(tally, letters, dead, false)
      {
        BatchOneMore(settings, start, values, from, es, i);
        var raised;
        tally, dead, raised := ProcessRecord(values[from + i], from + i, es[i], tally, dead);
        if raised {
          assert es[..n][..i + 1] == es[..i + 1];
          BatchStops(settings, start, values, from, es[..n], i + 1);
          return Raised;
        }
      }
      if n > 0 {
        if commitFails {
          return Raised;
        }
        committed := position;
      }
      r := Polled(tally.stored, tally.duplicates, dead);
    }
  }

  lemma BatchNone(c: Settings, p: Progress, values: seq<Payload>, from: nat, es: seq<Circumstance>)
    requires from <= |values|
    ensures HandleBatch(c, p, values, from, es[..0]) == p
  {}

  lemma BatchOneMore(c: Settings, p: Progress, values: seq<Payload>, from: nat, es: seq<Circumstance>, i: nat)
    requires i < |es| && from + i < |values|
    ensures var q := HandleBatch(c, p, values, from, es[..i]);
            !q.raised ==>
              HandleBatch(c, p, values, from, es[..i + 1])
              == HandleRecord(c, q, values[from + i], from + i, es[i])
  {
    assert es[..i + 1][..i] == es[..i];
  }

  /** Nothing after the record that makes the call raise is looked at. */
  lemma {:induction false} BatchStops(c: Settings, p: Progress, values: seq<Payload>, from: nat,
                                      es: seq<Circumstance>, k: nat)
    requires k <= |es| && from + |es| <= |values| && HandleBatch(c, p, values, from, es[..k]).raised
    ensures HandleBatch(c, p, values, from, es) == HandleBatch(c, p, values, from, es[..k])
    decreases |es|
  {
    if k < |es| {
      assert es[..|es| - 1][..k] == es[..k];
      BatchStops(c, p, values, from, es[..|es| - 1], k);
    } else {
      assert es[..k] == es;
    }
  }
}
