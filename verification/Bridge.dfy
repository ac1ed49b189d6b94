/** The in-memory transport: streaming/bridge/in_memory.py. Append-only topics, routing by message
    kind, and detection of repeated event ids. */
module Bridge {
  import opened Prelude
  import opened Message
  import MessageBuilder

  datatype Receipt = Receipt(topic: string, offset: nat, kafkaKey: Json, eventId: string, duplicate: bool)

  /** What the bridge holds: one append-only log per kind, and the event ids it has appended. */
  datatype Topics = Topics(telemetry: seq<Payload>, events: seq<Payload>, seen: set<string>) {
    function Of(kind: Kind): seq<Payload> { if kind == TelemetryKind then telemetry else events }
  }

  function TopicName(kind: Kind): string {
    match kind case TelemetryKind => "gapguard.telemetry.v1" case EventKind => "gapguard.alert.v1"
  }

  /** The event id of a message whose identity has been validated. */
  function IdOf(m: Payload): string {
    if EventIdField in m && m[EventIdField].Str? then m[EventIdField].s else ""
  }

  function Publish(lib: Library, b: Topics, m: Payload): (Topics, Result<Receipt, Error>) {
    match ProcessMessage(lib, m)
    case Err(e) => (b, Err(e))
    case Ok(p) =>
      var id := IdOf(m);
      var b' := if p.kind == TelemetryKind then b.(telemetry := b.telemetry + [m], seen := b.seen + {id})
                else b.(events := b.events + [m], seen := b.seen + {id});
      (b', Ok(Receipt(TopicName(p.kind), |b.Of(p.kind)|, p.kafkaKey, id, id in b.seen)))
  }

  /** A fresh bridge after a sequence of publishes. */
  function Published(lib: Library, ms: seq<Payload>): Topics {
    if ms == [] then Topics([], [], {})
    else Publish(lib, Published(lib, ms[..|ms| - 1]), ms[|ms| - 1]).0
  }

  /** The in-order filter of accepted messages of one kind. */
  function AcceptedOf(lib: Library, kind: Kind, ms: seq<Payload>): seq<Payload> {
    if ms == [] then []
    else
      var front, m := AcceptedOf(lib, kind, ms[..|ms| - 1]), ms[|ms| - 1];
      if Accepted(lib, m) && MessageKind(m) == kind then front + [m] else front
  }

  lemma AcceptedHasId(lib: Library, m: Payload)
    requires Accepted(lib, m)
    ensures EventIdField in m && m[EventIdField] == Str(IdOf(m))
    ensures ProcessMessage(lib, m) == Ok(Processed(m, MessageKind(m), m[StreamIdField]))
  {}

  /** An accepted message of this history carries the id. */
  ghost predicate AppendedIn(lib: Library, ms: seq<Payload>, id: string) {
    exists i :: 0 <= i < |ms| && Accepted(lib, ms[i]) && IdOf(ms[i]) == id
  }

  lemma PublishAppends(lib: Library, b: Topics, m: Payload)
    ensures var b' := Publish(lib, b, m).0;
            if Accepted(lib, m) then b'.Of(MessageKind(m)) == b.Of(MessageKind(m)) + [m]
                && b'.seen == b.seen + {IdOf(m)}
                                     && forall kind :: kind != MessageKind(m) ==> b'.Of(kind) == b.Of(kind)
            else b' == b
  {}

  /** Each topic is the in-order filter of the accepted messages of its kind. */
  lemma {:induction false} TopicsAreFilters(lib: Library, ms: seq<Payload>)
    ensures Published(lib, ms).Of(TelemetryKind) == AcceptedOf(lib, TelemetryKind, ms)
    ensures Published(lib, ms).Of(EventKind) == AcceptedOf(lib, EventKind, ms)
    ensures forall id :: id in Published(lib, ms).seen <==> AppendedIn(lib, ms, id)
  {
    hide Publish, Accepted, MessageKind, IdOf;
    if ms != [] {
      var front, m := ms[..|ms| - 1], ms[|ms| - 1];
      TopicsAreFilters(lib, front);
      PublishAppends(lib, Published(lib, front), m);
      assert ms == front + [m];
      forall id
        ensures id in Published(lib, ms).seen <==> AppendedIn(lib, ms, id)
      {
        SeenOneMore(lib, front, m, id);
      }
    }
  }

  lemma SeenOneMore(lib: Library, front: seq<Payload>, m: Payload, id: string)
    ensures AppendedIn(lib, front + [m], id) <==> AppendedIn(lib, front, id) || (Accepted(lib, m) && IdOf(m) == id)
  {
    var ms := front + [m];
    if i :| 0 <= i < |front| && Accepted(lib, front[i]) && IdOf(front[i]) == id {
      assert ms[i] == front[i];
    }
    if Accepted(lib, m) && IdOf(m) == id {
      assert ms[|front|] == m;
    }
  }

  /** The answer to any publish, after any history: a message that is not identified and sealed changes nothing;
      any other goes to the end of the topic of its kind and of no other, and is flagged as a duplicate
      exactly when its event id was appended earlier, to either topic. */
  lemma PublishAnswers(lib: Library, history: seq<Payload>, m: Payload)
    ensures var b := Published(lib, history);
            var (b', r) := Publish(lib, b, m);
            && (r.Ok? <==> Identified(lib, m) && Sealed(lib, m))
            && (r.Err? ==> b' == b)
            && (r.Ok? ==>
                  && r.value.offset == |AcceptedOf(lib, MessageKind(m), history)|
                  && (if EventTypeField in m then
                        r.value.topic == "gapguard.alert.v1" && b'.telemetry == b.telemetry
                        && b'.events == b.events + [m]
                      else
                        r.value.topic == "gapguard.telemetry.v1" && b'.telemetry == b.telemetry + [m]
                        && b'.events == b.events)
                  && r.value.kafkaKey == m[StreamIdField] && Str(r.value.eventId) == m[EventIdField]
                  && (r.value.duplicate <==>
                        exists i :: 0 <= i < |history| && Identified(lib, history[i]) && Sealed(lib, history[i])
                            && history[i][EventIdField] == m[EventIdField]))
  {
    hide Identified, Sealed;
    TopicsAreFilters(lib, history);
    AcceptedExactly(lib, m);
    forall i | 0 <= i < |history|
      ensures Accepted(lib, history[i]) <==> Identified(lib, history[i]) && Sealed(lib, history[i])
    {
      AcceptedExactly(lib, history[i]);
    }
    if Accepted(lib, m) {
      AcceptedHasId(lib, m);
      forall i | 0 <= i < |history| && Accepted(lib, history[i])
        ensures IdOf(history[i]) == IdOf(m) <==> history[i][EventIdField] == m[EventIdField]
      {
        AcceptedHasId(lib, history[i]);
      }
    }
  }

  datatype Origin = Origin(run: string, stream: string, seqNo: nat)

  /** For built messages whose runs are colon-free, as the message schema demands of runs and streams,
      a duplicate is the same run, stream and sequence number, not just the same id. */
  lemma DuplicateMeansSameIdentity(lib: Library, history: seq<Payload>, who: seq<Origin>, m: Payload,
                                   me: Origin)
    requires |who| == |history| && Accepted(lib, m) && MessageBuilder.HasIdentity(m, me.run, me.stream, me.seqNo)
    requires ':' !in me.run
    requires forall i :: 0 <= i < |history| ==>
               && Accepted(lib, history[i]) && ':' !in who[i].run
               && MessageBuilder.HasIdentity(history[i], who[i].run, who[i].stream, who[i].seqNo)
    ensures Publish(lib, Published(lib, history), m).1.value.duplicate <==> me in who
  {
    hide Identified, Sealed, Accepted, Publish, Published, EventId;
    PublishAnswers(lib, history, m);
    AcceptedExactly(lib, m);
    forall i | 0 <= i < |history|
      ensures Identified(lib, history[i]) && Sealed(lib, history[i])
      ensures history[i][EventIdField] == m[EventIdField] <==> who[i] == me
    {
      AcceptedExactly(lib, history[i]);
      EventIdDeterminesIdentity(who[i].run, who[i].stream, who[i].seqNo, me.run, me.stream, me.seqNo);
    }
  }

  /** Publishing more never disturbs what a topic already holds. */
  lemma {:induction false} TopicsOnlyGrow(lib: Library, ms: seq<Payload>, more: seq<Payload>)
    ensures Published(lib, ms).telemetry <= Published(lib, ms + more).telemetry
    ensures Published(lib, ms).events <= Published(lib, ms + more).events
  {
    if more == [] {
      assert ms + more == ms;
    } else {
      var front := more[..|more| - 1];
      TopicsOnlyGrow(lib, ms, front);
      assert (ms + more)[..|ms + more| - 1] == ms + front;
    }
  }

  // ----- the objects -----

  class InMemoryTopic {
    var values: seq<Payload>

    constructor ()
      ensures values == []
    {
      values := [];
    }

    method Append(value: Payload) returns (offset: nat)
      modifies this
      ensures values == old(values) + [value] && offset == |old(values)|
    {
      values := values + [value];
      offset := |values| - 1;
    }
  }

  class InMemoryBridge {
    const lib: Library
    var topics: map<string, InMemoryTopic>
    var seen: set<string>

    ghost predicate Valid()
      reads this
    {
      && topics.Keys <= {TopicName(TelemetryKind), TopicName(EventKind)}
      && (TopicName(TelemetryKind) in topics && TopicName(EventKind) in topics ==>
            topics[TopicName(TelemetryKind)] != topics[TopicName(EventKind)])
    }

    ghost function Repr(): set<object>
      reads this
    {
      {this} + topics.Values
    }

    function Values(kind: Kind): seq<Payload>
      reads this, topics.Values
    {
      if TopicName(kind) in topics then topics[TopicName(kind)].values else []
    }

    ghost function State(): Topics
      reads this, topics.Values
    {
      Topics(Values(TelemetryKind), Values(EventKind), seen)
    }

    constructor (lib: Library)
      ensures Valid() && this.lib == lib && State() == Published(lib, []) && fresh(Repr())
    {
      this.lib := lib;
      topics, seen := map[], {};
    }

    method PublishMessage(m: Payload) returns (r: Result<Receipt, Error>)
      requires Valid()
      modifies Repr()
      ensures Valid() && fresh(Repr() - old(Repr()))
      ensures (State(), r) == Publish(lib, old(State()), m)
      ensures r.Ok? <==> Identified(lib, m) && Sealed(lib, m)
      ensures r.Err? ==> State() == old(State())
    {
      hide Identified, Sealed;
      AcceptedExactly(lib, m);
      hide Identity, VerifyDataHash;
      var processed := ProcessMessage(lib, m);
      if processed.Err? {
        return Err(processed.error);
      }
      AcceptedHasId(lib, m);
      var kind := processed.value.kind;
      var name := TopicName(kind);
      assert TopicName(TelemetryKind) != TopicName(EventKind) by {
        assert |TopicName(TelemetryKind)| != |TopicName(EventKind)|;
      }
      if name !in topics {
        var topic := new InMemoryTopic();
        topics := topics[name := topic];
      }
      var id := IdOf(m);
      var duplicate := id in seen;
      var offset := topics[name].Append(m);
      seen := seen + {id};
      r := Ok(Receipt(name, offset, processed.value.kafkaKey, id, duplicate));
    }
  }
}
