/** The bounded retry policy of streaming/common/retry.py, for any handler with effects on a state. */
module Retry {
  import opened Prelude
  import opened Message

  /** How the attempts ended: at the first success, or with the last error. */
  datatype Ended<S> = Succeeded(state: S, attempts: nat) | Exhausted(state: S, error: string)

  /** The handler is given the state and the number of the attempt; an error text means it raised. */
  type Handler<!S> = (S, nat) -> (S, Option<string>)

  /** What the caller adds to a dead letter about its origin. */
  datatype Metadata = Metadata(topic: string, offset: nat, eventId: Json, retryCount: int, error: string)

  datatype DeadLetter = DeadLetter(
    eventId: Json, retryCount: int, error: string, payload: Payload, topic: string, offset: Option<nat>)

  datatype Outcome<S> = Done(state: S, attempts: nat) | Dead(state: S, error: string, letter: DeadLetter) | BadLimit

  /** Attempts first, first + 1, ..., max, as long as they fail. */
  function Attempts<S>(handler: Handler<S>, s: S, first: nat, max: nat, lastError: string): Ended<S>
    decreases max - first
  {
    if first > max then Exhausted(s, lastError)
    else match handler(s, first)
      case (s', None) => Succeeded(s', first)
      case (s', Some(error)) => if first == max then Exhausted(s', error)
          else Attempts(handler, s', first + 1, max, error)
  }

  /** The state after attempts first, ..., k - 1. */
  function StateAt<S>(handler: Handler<S>, s: S, first: nat, k: nat): S
    requires first <= k
    decreases k - first
  {
    if k == first then s else handler(StateAt(handler, s, first, k - 1), k - 1).0
  }

  predicate Fails<S>(handler: Handler<S>, s: S, first: nat, k: nat)
    requires first <= k
  {
    handler(StateAt(handler, s, first, k), k).1.Some?
  }

  lemma {:induction false} StateAtShift<S>(handler: Handler<S>, s: S, first: nat, k: nat)
    requires first < k
    ensures StateAt(handler, s, first, k) == StateAt(handler, handler(s, first).0, first + 1, k)
    decreases k
  {
    if k > first + 1 {
      StateAtShift(handler, s, first, k - 1);
    }
  }

  /** The attempts stop at the first success, of which there is at most one, and are exhausted exactly
      when every one up to the limit failed; then the error is that of the last attempt. */
  lemma {:induction false} AttemptsExact<S>(handler: Handler<S>, s: S, first: nat, max: nat, lastError: string)
    requires first <= max
    ensures match Attempts(handler, s, first, max, lastError)
            case Succeeded(s', n) =>
              && first <= n <= max && !Fails(handler, s, first, n) && s' == StateAt(handler, s, first, n + 1)
              && (forall k :: first <= k < n ==> Fails(handler, s, first, k))
            case Exhausted(s', error) =>
              && s' == StateAt(handler, s, first, max + 1)
              && handler(StateAt(handler, s, first, max), max).1 == Some(error)
              && (forall k :: first <= k <= max ==> Fails(handler, s, first, k))
    decreases max - first
  {
    var (s', r) := handler(s, first);
    assert StateAt(handler, s, first, first + 1) == s';
    if r.Some? && first < max {
      AttemptsExact(handler, s', first + 1, max, r.value);
      forall k | first < k <= max + 1 ensures StateAt(handler, s, first, k) == StateAt(handler, s', first + 1, k) {
        StateAtShift(handler, s, first, k);
      }
      forall k | first < k <= max ensures Fails(handler, s, first, k) == Fails(handler, s', first + 1, k) {}
      assert Fails(handler, s, first, first);
    }
  }

  function Trimmed(error: string): string {
    if |error| > 1000 then error[..1000] else error
  }

  /** The caller's metadata wins over the default fields, except for the error text. */
  function LetterFor(m: Payload, max: nat, lastError: string, metadata: Option<Metadata>): DeadLetter {
    match metadata
    case None =>
      DeadLetter(if EventIdField in m then m[EventIdField] else Null, max, Trimmed(lastError), m, "", None)
    case Some(d) => DeadLetter(d.eventId, d.retryCount, Trimmed(lastError), m, d.topic, Some(d.offset))
  }

  function WithRetry<S>(handler: Handler<S>, s: S, m: Payload, metadata: Option<Metadata>, max: int): Outcome<S> {
    if max <= 0 then BadLimit
    else match Attempts(handler, s, 1, max, "unknown processing error")
      case Succeeded(s', n) => Done(s', n)
      case Exhausted(s', error) => Dead(s', error, LetterFor(m, max, error, metadata))
  }

  /** The letter for a message whose last error was this: the whole message, at most the first 1000 characters of
      the error, and where it came from. What the caller says of event id, retry count and origin goes before the
      message's own id and the limit; what the caller says of the error does not count. */
  ghost predicate Reports(letter: DeadLetter, m: Payload, max: nat, error: string, metadata: Option<Metadata>) {
    && letter.payload == m
    && (|error| <= 1000 ==> letter.error == error)
    && (|error| > 1000 ==> |letter.error| == 1000 && letter.error <= error)
    && match metadata
       case None =>
         && letter.retryCount == max && letter.topic == "" && letter.offset == None
         && (EventIdField in m ==> letter.eventId == m[EventIdField])
         && (EventIdField !in m ==> letter.eventId == Null)
       case Some(d) =>
         && letter.retryCount == d.retryCount && letter.topic == d.topic && letter.offset == Some(d.offset)
         && letter.eventId == d.eventId
  }

  /** Every call with a positive limit ends in exactly one of two ways: processed at attempt n, all
      earlier ones having failed, or dead after exactly max failures, with a letter that reports the message
      and the last error. Without one there is no attempt at all. */
  lemma RetryEndsOnce<S>(handler: Handler<S>, s: S, m: Payload, metadata: Option<Metadata>, max: int)
    ensures match WithRetry(handler, s, m, metadata, max)
            case Done(s', n) =>
              && 1 <= n <= max && !Fails(handler, s, 1, n) && s' == StateAt(handler, s, 1, n + 1)
              && (forall k :: 1 <= k < n ==> Fails(handler, s, 1, k))
            case Dead(s', error, letter) =>
              && max > 0
              && (forall k :: 1 <= k <= max ==> Fails(handler, s, 1, k)) && s' == StateAt(handler, s, 1, max + 1)
              && handler(StateAt(handler, s, 1, max), max).1 == Some(error)
              && Reports(letter, m, max, error, metadata)
            case BadLimit => max <= 0
  {
    if max > 0 {
      AttemptsExact(handler, s, 1, max, "unknown processing error");
    }
  }

  /** The loop of process_with_retry; the caller publishes the letter it is left with. */
  method ProcessWithRetry<S>(handler: Handler<S>, s: S, m: Payload, metadata: Option<Metadata>, max: int)
    returns (r: Outcome<S>)
    ensures r == WithRetry(handler, s, m, metadata, max)
  {
    if max <= 0 {
      return BadLimit;
    }
    var state, lastError := s, "unknown processing error";
    var attempt: nat := 1;
    while attempt <= max
      invariant 1 <= attempt <= max + 1
      invariant Attempts(handler, s, 1, max, "unknown processing error")
          == Attempts(handler, state, attempt, max, lastError)
    {
      var (state', error) := handler(state, attempt);
      if error.None? {
        return Done(state', attempt);
      }
      state, lastError, attempt := state', error.value, attempt + 1;
    }
    r := Dead(state, lastError, LetterFor(m, max, lastError, metadata));
  }
}
