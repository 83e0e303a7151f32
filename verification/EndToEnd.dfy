/**
 From one outbox row to one committed effect: the Kafka messages of a row
 (services/worker/src/outbox.ts), what the consumer makes of them, and the two protocols joined.
 */
module EndToEnd {
  import opened Common
  import opened CanonicalJson
  import opened AsyncTask
  import Tables = TaskStore
  import Runs = TaskRuns
  import opened Outbox
  import Consumer
  import Recovery
  import TaskAnswers

  // ---------------------------------------------------------------- objects

  /** Sets a member of an object literal or spread: an existing key keeps its place. */
  function Put(members: seq<Member>, key: Text, value: Json): seq<Member> {
    if members == [] then [Member(key, value)]
    else if members[0].key == key then [Member(key, value)] + members[1..]
    else [members[0]] + Put(members[1..], key, value)
  }

  lemma {:induction false} PutThenLookup(members: seq<Member>, key: Text, value: Json, k: Text)
    ensures Lookup(Put(members, key, value), k) == if k == key then Some(value) else Lookup(members, k)
  {
    if members != [] && members[0].key != key {
      PutThenLookup(members[1..], key, value, k);
      assert Put(members, key, value)[1..] == Put(members[1..], key, value);
    } else if members != [] {
      assert Put(members, key, value)[1..] == members[1..];
    }
  }

  // ---------------------------------------------------------------- the message of an event

  /** JavaScript truthiness of a JSON value. */
  predicate Truthy(j: Json) {
    match j
    case Undefined => false
    case Null => false
    case Bool(b) => b
    case Number(n) => !n.Zero?
    case Str(t) => t != []
    case _ => true
  }

  function Field(members: seq<Member>, key: Text): Json {
    match Lookup(members, key) case None => Undefined case Some(v) => v
  }

  /** asyncTaskPayload: the members of a payload that already is an async task message of this event. */
  function AsyncPayload(e: OutboxEvent): Option<seq<Member>> {
    if !e.payload.Obj? then None else
    var fields := e.payload.members;
    var trace := Field(fields, KEY_TRACE_ID);
    if Field(fields, KEY_EVENT_ID) != Str(e.id) || Field(fields, KEY_EVENT_TYPE) != Str(e.eventType) then None
    else if Lookup(fields, KEY_PAYLOAD).None? then None
    else if Truthy(trace) && trace != Str(e.traceId) then Some(fields)
    else if !Truthy(trace) && e.traceId != [] then None
    else Some(fields)
  }

  function Or(j: Json, fallback: Text): Json {
    if Truthy(j) then j else Str(fallback)
  }

  /** outboxKafkaMessageValue; the attempts number is only in the plain form. */
  function MessageFields(e: OutboxEvent, attempts: Num, occurredAt: Text): seq<Member> {
    match AsyncPayload(e)
    case Some(fields) =>
      Put(Put(Put(Put(Put(fields,
        KEY_EVENT_ID, Or(Field(fields, KEY_EVENT_ID), e.id)),
        KEY_EVENT_TYPE, Or(Field(fields, KEY_EVENT_TYPE), e.eventType)),
        KEY_TRACE_ID, Or(Field(fields, KEY_TRACE_ID), e.traceId)),
        KEY_PAYLOAD, Field(fields, KEY_PAYLOAD)),
        KEY_OCCURRED_AT, Or(Field(fields, KEY_OCCURRED_AT), occurredAt))
    case None =>
      Put(Put(Put(Put(Put(Put([],
        KEY_EVENT_ID, Str(e.id)),
        KEY_EVENT_TYPE, Str(e.eventType)),
        KEY_TRACE_ID, Str(e.traceId)),
        KEY_PAYLOAD, e.payload),
        KEY_ATTEMPTS, Number(attempts)),
        KEY_OCCURRED_AT, Str(occurredAt))
  }

  /** A Kafka record that is a copy of event e. */
  ghost predicate IsCopyOf(m: ConsumerMessage, e: OutboxEvent, dates: Dates) {
    exists attempts: Num, occurredAt: Text ::
      dates(occurredAt).Some? && m.value == Some(Obj(MessageFields(e, attempts, occurredAt)))
  }

  /** Fields two messages may differ in without being parsed differently. */
  ghost predicate SameFields(a: seq<Member>, b: seq<Member>, dates: Dates) {
    && (forall k | k != KEY_ATTEMPTS && k != KEY_OCCURRED_AT :: Lookup(a, k) == Lookup(b, k))
    && (OptionalDate(a, KEY_OCCURRED_AT, dates).Some? <==> OptionalDate(b, KEY_OCCURRED_AT, dates).Some?)
  }

  /** Whatever its attempts and its time of sending, an event is written with the same other fields. */
  lemma CopiesHaveSameFields(e: OutboxEvent, f: OutboxEvent, a: Num, b: Num, s: Text, t: Text, dates: Dates)
    requires SameContent(e, f) && dates(s).Some? && dates(t).Some?
    ensures SameFields(MessageFields(e, a, s), MessageFields(f, b, t), dates)
  {
    hide Put, Lookup;
    var x, y := MessageFields(e, a, s), MessageFields(f, b, t);
    forall k
      ensures k != KEY_ATTEMPTS && k != KEY_OCCURRED_AT ==> Lookup(x, k) == Lookup(y, k)
      ensures k == KEY_OCCURRED_AT ==> OptionalDate(x, k, dates).Some? == OptionalDate(y, k, dates).Some?
    {
      FieldsOf(e, a, s, k);
      FieldsOf(f, b, t, k);
    }
  }

  /** The value of one field of the message of an event. */
  function FieldOf(e: OutboxEvent, attempts: Num, occurredAt: Text, k: Text): Option<Json> {
    match AsyncPayload(e)
    case Some(fields) =>
      if k == KEY_OCCURRED_AT then Some(Or(Field(fields, k), occurredAt))
      else if k == KEY_PAYLOAD then Some(Field(fields, k))
      else if k == KEY_TRACE_ID then Some(Or(Field(fields, k), e.traceId))
      else if k == KEY_EVENT_TYPE then Some(Or(Field(fields, k), e.eventType))
      else if k == KEY_EVENT_ID then Some(Or(Field(fields, k), e.id))
      else Lookup(fields, k)
    case None =>
      if k == KEY_OCCURRED_AT then Some(Str(occurredAt))
      else if k == KEY_ATTEMPTS then Some(Number(attempts))
      else if k == KEY_PAYLOAD then Some(e.payload)
      else if k == KEY_TRACE_ID then Some(Str(e.traceId))
      else if k == KEY_EVENT_TYPE then Some(Str(e.eventType))
      else if k == KEY_EVENT_ID then Some(Str(e.id))
      else None
  }

  lemma FieldsOf(e: OutboxEvent, attempts: Num, occurredAt: Text, k: Text)
    ensures Lookup(MessageFields(e, attempts, occurredAt), k) == FieldOf(e, attempts, occurredAt, k)
  {
    hide Put, Lookup, AsyncPayload;
    NoFields(k);
    if AsyncPayload(e).Some? {
      var f0 := AsyncPayload(e).value;
      var v1, v2, v3 := Or(Field(f0, KEY_EVENT_ID), e.id), Or(Field(f0, KEY_EVENT_TYPE), e.eventType),
          Or(Field(f0, KEY_TRACE_ID), e.traceId);
      var f1 := Put(f0, KEY_EVENT_ID, v1);
      var f2 := Put(f1, KEY_EVENT_TYPE, v2);
      var f3 := Put(f2, KEY_TRACE_ID, v3);
      var f4 := Put(f3, KEY_PAYLOAD, Field(f0, KEY_PAYLOAD));
      PutThenLookup(f0, KEY_EVENT_ID, v1, k);
      PutThenLookup(f1, KEY_EVENT_TYPE, v2, k);
      PutThenLookup(f2, KEY_TRACE_ID, v3, k);
      PutThenLookup(f3, KEY_PAYLOAD, Field(f0, KEY_PAYLOAD), k);
      PutThenLookup(f4, KEY_OCCURRED_AT, Or(Field(f0, KEY_OCCURRED_AT), occurredAt), k);
    } else {
      var f1 := Put([], KEY_EVENT_ID, Str(e.id));
      var f2 := Put(f1, KEY_EVENT_TYPE, Str(e.eventType));
      var f3 := Put(f2, KEY_TRACE_ID, Str(e.traceId));
      var f4 := Put(f3, KEY_PAYLOAD, e.payload);
      var f5 := Put(f4, KEY_ATTEMPTS, Number(attempts));
      PutThenLookup([], KEY_EVENT_ID, Str(e.id), k);
      PutThenLookup(f1, KEY_EVENT_TYPE, Str(e.eventType), k);
      PutThenLookup(f2, KEY_TRACE_ID, Str(e.traceId), k);
      PutThenLookup(f3, KEY_PAYLOAD, e.payload, k);
      PutThenLookup(f4, KEY_ATTEMPTS, Number(attempts), k);
      PutThenLookup(f5, KEY_OCCURRED_AT, Str(occurredAt), k);
    }
  }

  lemma NoFields(k: Text)
    ensures Lookup([], k) == None
  {
  }

  /** Messages with the same fields are parsed to the same event. */
  lemma SameFieldsParseAlike(a: Json, b: Json, dates: Dates)
    requires a.Obj? && b.Obj? && SameFields(a.members, b.members, dates)
    ensures ParseEvent(a, dates) == ParseEvent(b, dates)
  {
    hide Lookup, ParseIdentifier, PositiveInteger;
    Recovery.FieldNamesDiffer();
  }

  /** All copies of one row are parsed to one key, one type and one payload, or none of them is parsed. */
  lemma CopiesParseAlike(m: ConsumerMessage, n: ConsumerMessage, e: OutboxEvent, f: OutboxEvent, group: Text,
      dates: Dates)
    requires IsCopyOf(m, e, dates) && IsCopyOf(n, f, dates) && SameContent(e, f)
    ensures var x, y := Consumer.Identified(m, group, dates), Consumer.Identified(n, group, dates);
            && x.Some? == y.Some?
            && (x.Some? ==> KeyOf(x.value) == KeyOf(y.value))
            && (x.Some? ==> x.value.taskType == y.value.taskType && x.value.payload == y.value.payload)
  {
    hide MessageFields, ParseEvent, RowKey, ParseIdentifier, StorableEvent;
    var a, s :| dates(s).Some? && m.value == Some(Obj(MessageFields(e, a, s)));
    var b, t :| dates(t).Some? && n.value == Some(Obj(MessageFields(f, b, t)));
    CopiesHaveSameFields(e, f, a, b, s, t, dates);
    SameFieldsParseAlike(m.value.value, n.value.value, dates);
  }

  // ---------------------------------------------------------------- what a message stands for

  /** The task a copy of a plain row stands for: the row's id, type and payload, under the key type:id. */
  lemma PlainRowsTask(m: ConsumerMessage, e: OutboxEvent, group: Text, dates: Dates)
    requires IsCopyOf(m, e, dates) && AsyncPayload(e).None? && Consumer.Identified(m, group, dates).Some?
    ensures var t := Consumer.Identified(m, group, dates).value;
            && t.sourceEventId == Trim(e.id) && t.taskId == Trim(e.id) && t.taskType == Trim(e.eventType)
            && t.traceId == Trim(e.traceId) && t.payload == e.payload
            && t.attemptCount == 1 && t.maxAttempts == 5 && t.nextRetryAt == None
            && KeyOf(t) == TaskKey(group, Trim(e.eventType) + [COLON] + Trim(e.id))
  {
    hide MessageFields, Trim, Utf8Length, ParseMessage, Put;
    var a, s :| dates(s).Some? && m.value == Some(Obj(MessageFields(e, a, s)));
    var fields := MessageFields(e, a, s);
    ParsedFields(m, group, 0, 0, dates);
    KeyHasGroup(m, group, 0, 0, dates);
    PlainFields(e, a, s);
    hide Lookup;
  }

  lemma KeyHasGroup(m: ConsumerMessage, group: Text, now: int, attempts: nat, dates: Dates)
    requires ParseMessage(m, group, now, attempts, dates).Some?
    ensures var t := ParseMessage(m, group, now, attempts, dates).value;
            KeyOf(t) == TaskKey(group, t.idempotencyKey)
  {
    hide ParseEvent, RowKey, ParseIdentifier, StorableEvent;
  }

  lemma PlainFields(e: OutboxEvent, a: Num, s: Text)
    requires AsyncPayload(e).None?
    ensures var fields := MessageFields(e, a, s);
            && Lookup(fields, KEY_EVENT_ID) == Some(Str(e.id))
            && Lookup(fields, KEY_EVENT_TYPE) == Some(Str(e.eventType))
            && Lookup(fields, KEY_TRACE_ID) == Some(Str(e.traceId))
            && Lookup(fields, KEY_PAYLOAD) == Some(e.payload)
            && Lookup(fields, KEY_TASK_ID) == None && Lookup(fields, KEY_IDEMPOTENCY_KEY) == None
            && Lookup(fields, KEY_ATTEMPT_COUNT) == None && Lookup(fields, KEY_MAX_ATTEMPTS) == None
            && Lookup(fields, KEY_NEXT_RETRY_AT) == None
  {
    hide MessageFields, Lookup, AsyncPayload;
    Recovery.FieldNamesDiffer();
    FieldsOf(e, a, s, KEY_EVENT_ID);
    FieldsOf(e, a, s, KEY_EVENT_TYPE);
    FieldsOf(e, a, s, KEY_TRACE_ID);
    FieldsOf(e, a, s, KEY_PAYLOAD);
    FieldsOf(e, a, s, KEY_TASK_ID);
    FieldsOf(e, a, s, KEY_IDEMPOTENCY_KEY);
    FieldsOf(e, a, s, KEY_ATTEMPT_COUNT);
    FieldsOf(e, a, s, KEY_MAX_ATTEMPTS);
    FieldsOf(e, a, s, KEY_NEXT_RETRY_AT);
  }

  /**
   Two different rows of one type stand for two tasks: copies of plain rows have one key exactly when they
   carry the same id.
   */
  lemma DifferentRowsHaveDifferentKeys(m: ConsumerMessage, n: ConsumerMessage, e: OutboxEvent, f: OutboxEvent,
      group: Text, dates: Dates)
    requires IsCopyOf(m, e, dates) && IsCopyOf(n, f, dates) && AsyncPayload(e).None? && AsyncPayload(f).None?
    requires e.eventType == f.eventType
    requires Consumer.Identified(m, group, dates).Some? && Consumer.Identified(n, group, dates).Some?
    ensures KeyOf(Consumer.Identified(m, group, dates).value) == KeyOf(Consumer.Identified(n, group, dates).value)
            <==> Trim(e.id) == Trim(f.id)
  {
    hide IsCopyOf, AsyncPayload, Consumer.Identified, Trim;
    PlainRowsTask(m, e, group, dates);
    PlainRowsTask(n, f, group, dates);
    var prefix := Trim(e.eventType) + [COLON];
    if prefix + Trim(e.id) == prefix + Trim(f.id) {
      SameLengthCancels(prefix, prefix, Trim(e.id), Trim(f.id));
    }
  }

  /**
   A plain row is accepted by the consumers exactly when its id, type and trace are identifiers that
   PostgreSQL can store, its payload can be stored, and the serialized key fits.
   */
  lemma PlainRowsParseExactlyWhen(m: ConsumerMessage, e: OutboxEvent, group: Text, dates: Dates)
    requires IsCopyOf(m, e, dates) && AsyncPayload(e).None?
    ensures var id, kind, trace := Trim(e.id), Trim(e.eventType), Trim(e.traceId);
            Consumer.Identified(m, group, dates).Some? <==>
              && IsIdentifier(id) && IsIdentifier(kind) && IsIdentifier(trace)
              && StorableText(id) && StorableText(kind) && StorableText(trace) && Storable(e.payload)
              && Utf8Length(RowKey(TaskKey(group, kind + [COLON] + id))) <= IDENTIFIER_BYTES
  {
    hide MessageFields, Put, AsyncPayload, Trim, Utf8Length, StorableText, Storable;
    var a, s :| dates(s).Some? && m.value == Some(Obj(MessageFields(e, a, s)));
    PlainFields(e, a, s);
    FieldsOf(e, a, s, KEY_OCCURRED_AT);
    TrimParses(e.id);
    TrimParses(e.eventType);
    TrimParses(e.traceId);
    RowKeyParses(TaskKey(group, Trim(e.eventType) + [COLON] + Trim(e.id)));
    hide Lookup, ParseIdentifier, RowKey, IsIdentifier;
  }

  lemma TrimParses(s: Text)
    ensures ParseIdentifier(s) == if IsIdentifier(Trim(s)) then Some(Trim(s)) else None
  {
    hide Utf8Length;
  }

  /** A serialized key starts and ends with a bracket, so only its length decides. */
  lemma RowKeyParses(k: TaskKey)
    ensures ParseIdentifier(RowKey(k)).Some? <==> Utf8Length(RowKey(k)) <= IDENTIFIER_BYTES
  {
    var s := RowKey(k);
    assert s[0] == OPEN_BRACKET && s[|s| - 1] == CLOSE_BRACKET;
    TrimEndOf(s, []);
    assert s + [] == s;
    LengthWithinBytes(s);
    hide RowKey, Utf8Length;
  }

  lemma {:induction false} LengthWithinBytes(s: Text)
    ensures |s| <= Utf8Length(s)
    decreases |s|
  {
    if s != [] {
      LengthWithinBytes(if StartsWithPair(s) then s[2..] else s[1..]);
    }
  }

  /** A claim of this task, its payload read back as it was written. */
  function FirstClaim(task: Envelope): Tables.ClaimInput {
    Tables.ClaimInput(task, task.payload, [], [], 0, 0, 1, 1)
  }

  lemma ParsedCanBeClaimed(m: ConsumerMessage, group: Text, dates: Dates)
    requires m.Valid() && Consumer.Identified(m, group, dates).Some?
    ensures Tables.ValidInput(FirstClaim(Consumer.Identified(m, group, dates).value))
  {
    hide ParseMessage;
    ParseGuarantees(m, group, 0, 0, dates);
    var payload := Consumer.Identified(m, group, dates).value.payload;
    CanonicalIffEqual(payload, payload);
  }

  /** So both can take effect: there is a run in which they do. */
  lemma DifferentRowsBothTakeEffect(m: ConsumerMessage, n: ConsumerMessage, e: OutboxEvent, f: OutboxEvent,
      group: Text, dates: Dates)
    requires IsCopyOf(m, e, dates) && IsCopyOf(n, f, dates) && AsyncPayload(e).None? && AsyncPayload(f).None?
    requires e.eventType == f.eventType && Trim(e.id) != Trim(f.id) && m.Valid() && n.Valid()
    requires !e.payload.Undefined? && !f.payload.Undefined?
    requires Consumer.Identified(m, group, dates).Some? && Consumer.Identified(n, group, dates).Some?
    ensures exists states: seq<Runs.Sys>, actions: seq<Runs.Action> ::
              Runs.IsRun(states, actions) && states[|states| - 1].effects ==
                [KeyOf(Consumer.Identified(m, group, dates).value), KeyOf(Consumer.Identified(n, group, dates).value)]
  {
    hide IsCopyOf, AsyncPayload, Consumer.Identified, Trim, Tables.ValidInput, Runs.Step;
    PlainRowsTask(m, e, group, dates);
    PlainRowsTask(n, f, group, dates);
    DifferentRowsHaveDifferentKeys(m, n, e, f, group, dates);
    ParsedCanBeClaimed(m, group, dates);
    ParsedCanBeClaimed(n, group, dates);
    var x, y := Consumer.Identified(m, group, dates).value, Consumer.Identified(n, group, dates).value;
    TaskAnswers.TwoKeysTakeEffect(Runs.START, FirstClaim(x), FirstClaim(y), Null, Null);
    var states: seq<Runs.Sys>, actions: seq<Runs.Action> :|
      TaskAnswers.IsPath(Runs.START, states, actions) &&
      states[|states| - 1].effects == Runs.START.effects + [KeyOf(x), KeyOf(y)];
    assert Runs.IsRun(states, actions);
  }

  /** A row whose payload already is the message of its event is sent as that message: nothing is wrapped twice. */
  lemma NestingIsInvisible(e: OutboxEvent, a: Num, s: Text, b: Num, t: Text, dates: Dates)
    requires AsyncPayload(e).None? && dates(s).Some? && dates(t).Some?
    ensures var nested := e.(payload := Obj(MessageFields(e, a, s)));
            && AsyncPayload(nested) == Some(MessageFields(e, a, s))
            && ParseEvent(Obj(MessageFields(nested, b, t)), dates) == ParseEvent(Obj(MessageFields(e, a, s)), dates)
  {
    hide MessageFields, Lookup;
    var nested := e.(payload := Obj(MessageFields(e, a, s)));
    PlainFields(e, a, s);
    var x, y := MessageFields(nested, b, t), MessageFields(e, a, s);
    forall k
      ensures k != KEY_ATTEMPTS && k != KEY_OCCURRED_AT ==> Lookup(x, k) == Lookup(y, k)
      ensures k == KEY_OCCURRED_AT ==> OptionalDate(x, k, dates).Some? == OptionalDate(y, k, dates).Some?
    {
      FieldsOf(e, a, s, k);
      FieldsOf(nested, b, t, k);
    }
    SameFieldsParseAlike(Obj(x), Obj(y), dates);
  }

  // ---------------------------------------------------------------- the two protocols together

  /**
   End to end: whatever the publishers did, every pair of Kafka copies of one outbox row stands for one
   task key, and in every state of every run of the consumers that key has taken effect at most once.
   */
  lemma OneRowOneEffect(
    published: seq<Outbox.Sys>, publishing: seq<Outbox.Action>, i: nat, x: nat, y: nat,
    m: ConsumerMessage, n: ConsumerMessage,
    states: seq<Runs.Sys>, actions: seq<Runs.Action>, j: nat, group: Text, dates: Dates)
    requires Outbox.IsRun(published, publishing) && i < |published|
    requires x < |published[i].copies| && y < |published[i].copies|
    requires published[i].copies[x].event.id == published[i].copies[y].event.id
    requires IsCopyOf(m, published[i].copies[x].event, dates) && IsCopyOf(n, published[i].copies[y].event, dates)
    requires Runs.IsRun(states, actions) && j < |states|
    ensures Consumer.Identified(m, group, dates).Some? <==> Consumer.Identified(n, group, dates).Some?
    ensures Consumer.Identified(m, group, dates).Some? ==>
              var k := KeyOf(Consumer.Identified(m, group, dates).value);
              && k == KeyOf(Consumer.Identified(n, group, dates).value)
              && (forall p, q | 0 <= p < |states[j].effects| && 0 <= q < |states[j].effects| ::
                    states[j].effects[p] == k && states[j].effects[q] == k ==> p == q)
  {
    hide IsCopyOf, Consumer.Identified, Outbox.Step, Runs.Step;
    Outbox.CopiesAgree(published, publishing, i, x, y);
    CopiesParseAlike(m, n, published[i].copies[x].event, published[i].copies[y].event, group, dates);
    Runs.EffectsHappenOnce(states, actions, j);
  }

  /**
   Once the row of a copy exists, no claim of any other copy of the same outbox row is taken for a
   conflict, in any later state; it can only be refused when its key has been isolated.
   */
  lemma CopiesNeverConflict(
    states: seq<Runs.Sys>, actions: seq<Runs.Action>, i: nat, j: nat, first: Tables.ClaimInput,
        other: Tables.ClaimInput)
    requires Runs.IsRun(states, actions) && i <= j < |states|
    requires Tables.ValidInput(first) && Tables.ValidInput(other)
    requires KeyOf(first.task) == KeyOf(other.task)
    requires first.task.taskType == other.task.taskType && first.task.payload == other.task.payload
    requires KeyOf(first.task) in states[i].db.rows &&
              states[i].db.rows[KeyOf(first.task)].hash == Tables.TaskHash(first.task)
    ensures !Tables.ClaimResult(states[j].db, other).Conflict?
    ensures Tables.ClaimResult(states[j].db, other).Unverifiable? ==> KeyOf(other.task) in states[j].db.isolated
  {
    hide WellFormed, PayloadHash, Tables.StoredTask, Parsed, Tables.ReadsBack, WellIdentified, Runs.Step;
    var k := KeyOf(first.task);
    Runs.RunIsLater(states, actions, i, j);
    Runs.RunKeeps(states, actions, j);
    var row := states[j].db.rows[k];
    assert Runs.RowOk(k, row);
    if row.data.Stored? {
      Runs.EnvelopeIsStoredTask(k, row);
    }
  }
}
