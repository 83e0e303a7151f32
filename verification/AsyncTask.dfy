/** Kafka messages, task envelopes and the failure transition of a task (services/worker/src/async-task.ts). */
module AsyncTask {
  import opened Common
  import opened CanonicalJson

  // ---------------------------------------------------------------- identifiers

  /** The white space String.prototype.trim removes. */
  predicate IsSpace(u: Unit) {
    9 <= u <= 13 || u == 32 || u == 0xA0 || u == 0x1680 || 0x2000 <= u <= 0x200A || u == 0x2028 || u == 0x2029 ||
    u == 0x202F || u == 0x205F || u == 0x3000 || u == 0xFEFF
  }

  function TrimStart(s: Text): (t: Text)
    ensures t != [] ==> !IsSpace(t[0])
  {
    if s != [] && IsSpace(s[0]) then TrimStart(s[1..]) else s
  }

  function TrimEnd(s: Text): (t: Text)
    ensures t != [] ==> !IsSpace(t[|t| - 1])
    ensures t != [] ==> s != [] && t[0] == s[0]
  {
    if s != [] && IsSpace(s[|s| - 1]) then TrimEnd(s[..|s| - 1]) else s
  }

  function Trim(s: Text): Text {
    TrimEnd(TrimStart(s))
  }

  /** Bytes TextEncoder writes; an unpaired surrogate becomes a three-byte replacement character. */
  function Utf8Length(s: Text): nat {
    if s == [] then 0
    else if StartsWithPair(s) then 4 + Utf8Length(s[2..])
    else (if s[0] < 0x80 then 1 else if s[0] < 0x800 then 2 else 3) + Utf8Length(s[1..])
  }

  const IDENTIFIER_BYTES := 2000

  /** asyncIdentifierSchema: trimmed, not empty, at most 2000 UTF-8 bytes. */
  function ParseIdentifier(raw: Text): (r: Option<Text>)
    ensures r.Some? ==> IsIdentifier(r.value)
  {
    var t := Trim(raw);
    if t == [] || |t| > IDENTIFIER_BYTES || Utf8Length(t) > IDENTIFIER_BYTES then None else Some(t)
  }

  predicate IsIdentifier(s: Text) {
    && s != []
    && !IsSpace(s[0])
    && !IsSpace(s[|s| - 1])
    && |s| <= IDENTIFIER_BYTES
    && Utf8Length(s) <= IDENTIFIER_BYTES
  }

  predicate AllSpace(s: Text) {
    forall i | 0 <= i < |s| :: IsSpace(s[i])
  }

  lemma {:induction false} TrimStartCuts(s: Text) returns (p: Text)
    ensures AllSpace(p) && s == p + TrimStart(s)
  {
    p := [];
    if s != [] && IsSpace(s[0]) {
      var q := TrimStartCuts(s[1..]);
      p := [s[0]] + q;
    }
  }

  lemma {:induction false} TrimEndCuts(s: Text) returns (q: Text)
    ensures AllSpace(q) && s == TrimEnd(s) + q
  {
    q := [];
    if s != [] && IsSpace(s[|s| - 1]) {
      var p := TrimEndCuts(s[..|s| - 1]);
      q := p + [s[|s| - 1]];
    }
  }

  lemma {:induction false} TrimStartOf(p: Text, s: Text)
    requires AllSpace(p) && (s != [] ==> !IsSpace(s[0]))
    ensures TrimStart(p + s) == s
  {
    if p == [] {
      assert p + s == s;
    } else {
      assert (p + s)[1..] == p[1..] + s;
      TrimStartOf(p[1..], s);
    }
  }

  lemma {:induction false} TrimEndOf(s: Text, q: Text)
    requires AllSpace(q) && (s != [] ==> !IsSpace(s[|s| - 1]))
    ensures TrimEnd(s + q) == s
  {
    if q == [] {
      assert s + q == s;
    } else {
      assert (s + q)[..|s + q| - 1] == s + q[..|q| - 1];
      TrimEndOf(s, q[..|q| - 1]);
    }
  }

  /** The text is s with white space around it. */
  ghost predicate Surrounds(raw: Text, s: Text) {
    exists p, q :: AllSpace(p) && AllSpace(q) && raw == p + s + q
  }

  /** A text is accepted as the identifier s exactly when s is one and the text is s with white space around it. */
  lemma ParsesExactlySurrounded(raw: Text, s: Text)
    ensures ParseIdentifier(raw) == Some(s) <==> IsIdentifier(s) && Surrounds(raw, s)
  {
    hide Utf8Length, TrimStart, TrimEnd, AllSpace, IsSpace;
    if ParseIdentifier(raw) == Some(s) {
      var p := TrimStartCuts(raw);
      var q := TrimEndCuts(TrimStart(raw));
      assert raw == p + s + q;
    }
    if IsIdentifier(s) && Surrounds(raw, s) {
      var p, q :| AllSpace(p) && AllSpace(q) && raw == p + s + q;
      assert raw == p + (s + q);
      TrimStartOf(p, s + q);
      TrimEndOf(s, q);
    }
  }

  lemma IdentifierParsesToItself(s: Text)
    requires IsIdentifier(s)
    ensures ParseIdentifier(s) == Some(s)
  {
  }

  /** A task key: one consumer group and one idempotency key. */
  datatype TaskKey = TaskKey(group: Text, id: Text)

  /** The row key JSON.stringify([group, id]). */
  function RowKey(k: TaskKey): Text {
    Canonical(Arr([Str(k.group), Str(k.id)]))
  }

  /** Distinct pairs have distinct row keys, so a pair stands for its row key in the models. */
  lemma RowKeyInjective(a: TaskKey, b: TaskKey)
    requires RowKey(a) == RowKey(b)
    ensures a == b
  {
    var s, t := Arr([Str(a.group), Str(a.id)]), Arr([Str(b.group), Str(b.id)]);
    CanonicalInjective(s, t);
    assert Equal(s.items[0], t.items[0]) && Equal(s.items[1], t.items[1]);
  }

  lemma RowKeyText(k: TaskKey)
    ensures RowKey(k) == ([OPEN_BRACKET] + Quote(k.group) + [COMMA, QUOTE]) + (QuoteBody(k.id) + [QUOTE, CLOSE_BRACKET])
  {
    var items := [Str(k.group), Str(k.id)];
    var texts := ItemTexts(items);
    assert texts == [Quote(k.group), Quote(k.id)];
    assert texts[1..] == [Quote(k.id)];
    assert Join(texts) == Quote(k.group) + [COMMA] + Quote(k.id);
    assert Quote(k.id) == [QUOTE] + QuoteBody(k.id) + [QUOTE];
  }

  lemma {:induction false} Utf8OfSuffix(p: Text, s: Text)
    ensures Utf8Length(p + s) >= Utf8Length(s)
    decreases |p|
  {
    if p == [] {
      assert p + s == s;
    } else {
      var t := p + s;
      assert t[1..] == p[1..] + s;
      Utf8OfSuffix(p[1..], s);
      if StartsWithPair(t) {
        assert t[2..] == t[1..][1..];
        assert t[1..][0] == t[1];
      }
    }
  }

  lemma {:induction false} Utf8OfQuoted(s: Text, x: Text)
    ensures Utf8Length(QuoteBody(s) + ([QUOTE] + x)) >= Utf8Length(s)
    ensures Utf8Length(s) >= |s|
    decreases |s|
  {
    if s != [] {
      var rest := QuoteBody(s[Width(s)..]) + ([QUOTE] + x);
      Utf8OfQuoted(s[Width(s)..], x);
      BodyStep(s, [QUOTE] + x);
      var t := Chunk(s) + rest;
      if StartsWithPair(s) {
        assert t[2..] == rest;
      } else if |Escape(s[0])| == 1 {
        assert t[1..] == rest;
      } else {
        Utf8OfEscape(s[0], rest);
      }
    }
  }

  /** An escape is written in ASCII, one byte for each of its two or six units. */
  lemma Utf8OfEscape(u: Unit, rest: Text)
    requires |Escape(u)| > 1
    ensures Utf8Length(Escape(u) + rest) >= 2 + Utf8Length(rest)
    ensures u >= 0x80 ==> Utf8Length(Escape(u) + rest) >= 6 + Utf8Length(rest)
  {
    AsciiPrefix(Escape(u), rest);
  }

  lemma {:induction false} AsciiPrefix(p: Text, rest: Text)
    requires forall i | 0 <= i < |p| :: p[i] < 0x80
    ensures Utf8Length(p + rest) == |p| + Utf8Length(rest)
    decreases |p|
  {
    if p == [] {
      assert p + rest == rest;
    } else {
      assert (p + rest)[1..] == p[1..] + rest;
      AsciiPrefix(p[1..], rest);
    }
  }

  /** The limit on the serialized row key also limits the key inside it. */
  lemma KeyFitsWhenRowKeyFits(k: TaskKey)
    requires ParseIdentifier(RowKey(k)).Some?
    ensures Utf8Length(k.id) <= IDENTIFIER_BYTES && |k.id| <= IDENTIFIER_BYTES
  {
    RowKeyText(k);
    var row := RowKey(k);
    assert row[0] == OPEN_BRACKET && row[|row| - 1] == CLOSE_BRACKET;
    assert Trim(row) == row;
    assert QuoteBody(k.id) + [QUOTE, CLOSE_BRACKET] == QuoteBody(k.id) + ([QUOTE] + [CLOSE_BRACKET]);
    Utf8OfSuffix([OPEN_BRACKET] + Quote(k.group) + [COMMA, QUOTE], QuoteBody(k.id) + [QUOTE, CLOSE_BRACKET]);
    Utf8OfQuoted(k.id, [CLOSE_BRACKET]);
  }

  // ---------------------------------------------------------------- text PostgreSQL can store

  /** validateJsonStorage on a string: no null character and no unpaired surrogate. */
  predicate StorableText(s: Text) {
    if s == [] then true
    else if StartsWithPair(s) then StorableText(s[2..])
    else s[0] != 0 && !IsHigh(s[0]) && !IsLow(s[0]) && StorableText(s[1..])
  }

  /** validateJsonStorage on a value: every string and every member name at every depth. */
  predicate Storable(j: Json) {
    match j
    case Str(text) => StorableText(text)
    case Arr(items) => forall i | 0 <= i < |items| :: Storable(items[i])
    case Obj(members) => forall i | 0 <= i < |members| :: StorableText(members[i].key) && Storable(members[i].value)
    case _ => true
  }

  lemma {:induction false} StorableUpToOrder(a: Json, b: Json)
    requires Equal(a, b) && Storable(a)
    ensures Storable(b)
    decreases a
  {
    if !WrittenAsNull(a) {
      match a
      case Arr(items) =>
        forall i | 0 <= i < |items|
          ensures Storable(b.items[i])
        {
          StorableUpToOrder(items[i], b.items[i]);
        }
      case Obj(members) =>
        forall j | 0 <= j < |b.members|
          ensures StorableText(b.members[j].key) && Storable(b.members[j].value)
        {
          assert HasMember(b.members, b.members[j].key);
          var i :| 0 <= i < |members| && members[i].key == b.members[j].key;
          StorableUpToOrder(members[i].value, b.members[j].value);
        }
      case _ =>
    }
  }

  /** Values equal up to member order can be stored both or neither. */
  lemma StorableExactlyUpToOrder(a: Json, b: Json)
    requires Equal(a, b)
    ensures Storable(a) <==> Storable(b)
  {
    EqualIsSymmetric(a, b);
    if Storable(a) {
      StorableUpToOrder(a, b);
    }
    if Storable(b) {
      StorableUpToOrder(b, a);
    }
  }

  // ---------------------------------------------------------------- payload identity

  /**
   A stored payload hash. SHA-256 is taken to be injective, so a digest is represented by the text
   it was taken of.
   */
  datatype Digest = V2(preimage: Text) | Legacy(preimage: Text) | UnsupportedDigest

  const KEY_EVENT_ID: Text := [101, 118, 101, 110, 116, 73, 100]
  const KEY_EVENT_TYPE: Text := [101, 118, 101, 110, 116, 84, 121, 112, 101]
  const KEY_TRACE_ID: Text := [116, 114, 97, 99, 101, 73, 100]
  const KEY_TASK_ID: Text := [116, 97, 115, 107, 73, 100]
  const KEY_IDEMPOTENCY_KEY: Text := [105, 100, 101, 109, 112, 111, 116, 101, 110, 99, 121, 75, 101, 121]
  const KEY_ATTEMPT_COUNT: Text := [97, 116, 116, 101, 109, 112, 116, 67, 111, 117, 110, 116]
  const KEY_MAX_ATTEMPTS: Text := [109, 97, 120, 65, 116, 116, 101, 109, 112, 116, 115]
  const KEY_NEXT_RETRY_AT: Text := [110, 101, 120, 116, 82, 101, 116, 114, 121, 65, 116]
  const KEY_OCCURRED_AT: Text := [111, 99, 99, 117, 114, 114, 101, 100, 65, 116]
  const KEY_PAYLOAD: Text := [112, 97, 121, 108, 111, 97, 100]
  const KEY_ATTEMPTS: Text := [97, 116, 116, 101, 109, 112, 116, 115]
  const KEY_TYPE: Text := [116, 121, 112, 101]

  function Identity(taskType: Text, payload: Json): (j: Json)
    requires WellFormed(payload)
    ensures WellFormed(j)
  {
    assert KEY_TYPE[0] != KEY_PAYLOAD[0];
    Obj([Member(KEY_TYPE, Str(taskType)), Member(KEY_PAYLOAD, payload)])
  }

  /** payloadHash. */
  function PayloadHash(taskType: Text, payload: Json): Digest
    requires WellFormed(payload)
  {
    V2(Canonical(Identity(taskType, payload)))
  }

  lemma SameIdentity(s: Text, p: Json, t: Text, q: Json)
    requires WellFormed(p) && WellFormed(q) && Equal(Identity(s, p), Identity(t, q))
    ensures s == t && Equal(p, q)
  {
    var a, b := Identity(s, p), Identity(t, q);
    assert a.members[0].key == b.members[0].key ==> Equal(a.members[0].value, b.members[0].value);
    assert a.members[1].key == b.members[1].key ==> Equal(a.members[1].value, b.members[1].value);
    assert Equal(Str(s), Str(t));
  }

  lemma IdentityOfSame(s: Text, p: Json, q: Json)
    requires WellFormed(p) && WellFormed(q) && Equal(p, q)
    ensures Equal(Identity(s, p), Identity(s, q))
  {
    var a, b := Identity(s, p), Identity(s, q);
    assert KEY_TYPE[0] != KEY_PAYLOAD[0];
    hide WellFormed;
    assert Equal(Str(s), Str(s));
    forall k
      ensures HasMember(a.members, k) <==> HasMember(b.members, k)
    {
      if HasMember(a.members, k) {
        var i :| 0 <= i < |a.members| && a.members[i].key == k;
        assert b.members[i].key == k;
      }
      if HasMember(b.members, k) {
        var i :| 0 <= i < |b.members| && b.members[i].key == k;
        assert a.members[i].key == k;
      }
    }
  }

  /** Two tasks have one payload hash exactly when type and payload agree up to member order. */
  lemma PayloadHashIdentifies(s: Text, p: Json, t: Text, q: Json)
    requires WellFormed(p) && WellFormed(q)
    ensures PayloadHash(s, p) == PayloadHash(t, q) <==> s == t && Equal(p, q)
  {
    hide Equal, WellFormed, Canonical;
    CanonicalIffEqual(Identity(s, p), Identity(t, q));
    if Equal(Identity(s, p), Identity(t, q)) {
      SameIdentity(s, p, t, q);
    }
    if s == t && Equal(p, q) {
      IdentityOfSame(s, p, q);
    }
  }

  // ---------------------------------------------------------------- messages and envelopes

  datatype Status = Pending | Running | Processing | Succeeded | Failed | DeadLetter | Canceled

  /** A Kafka record. The value is the result of JSON.parse, or None when it is null or not JSON. */
  datatype ConsumerMessage = ConsumerMessage(topic: Text, partition: nat, offset: nat, value: Option<Json>)
  {
    predicate Valid() {
      value.Some? ==> WellFormed(value.value)
    }
  }

  /** Where a task came from. */
  datatype Source = Source(eventId: Text, eventType: Text, topic: Text, partition: nat, offset: nat, group: Text)

  datatype ErrorCode = RetryPending | DeadLettered

  /** A task envelope. Times are milliseconds. */
  datatype Envelope = Envelope(
    taskId: Text,
    taskType: Text,
    traceId: Text,
    status: Status,
    payload: Json,
    idempotencyKey: Text,
    attemptCount: int,
    maxAttempts: int,
    nextRetryAt: Option<int>,
    sourceEventId: Text,
    source: Source,
    createdAt: int,
    updatedAt: int,
    lockedBy: Option<Text>,
    errorCode: Option<ErrorCode>,
    errorMessage: Option<Text>)

  function KeyOf(task: Envelope): TaskKey {
    TaskKey(task.source.group, task.idempotencyKey)
  }

  /** Reads an ISO date-time as milliseconds, or None when the text is not one. */
  type Dates = Text -> Option<int>

  function Lookup(members: seq<Member>, key: Text): Option<Json> {
    if members == [] then None
    else if members[0].key == key then Some(members[0].value)
    else Lookup(members[1..], key)
  }

  /** Some(v) is a valid field; the inner option says whether it is there. */
  function OptionalIdentifier(members: seq<Member>, key: Text): (r: Option<Option<Text>>)
    ensures r.Some? && r.value.Some? ==> IsIdentifier(r.value.value)
  {
    match Lookup(members, key)
    case None => Some(None)
    case Some(Undefined) => Some(None)
    case Some(Str(text)) => (match ParseIdentifier(text) case None => None case Some(t) => Some(Some(t)))
    case Some(_) => None
  }

  function RequiredIdentifier(members: seq<Member>, key: Text): (r: Option<Text>)
    ensures r.Some? ==> IsIdentifier(r.value)
  {
    match Lookup(members, key)
    case Some(Str(text)) => ParseIdentifier(text)
    case _ => None
  }

  function DigitsValue(digits: seq<Digit>): nat {
    if digits == [] then 0 else 10 * DigitsValue(digits[..|digits| - 1]) + digits[|digits| - 1]
  }

  /** z.number().int().positive(): a positive safe integer. */
  function PositiveInteger(n: Num): Option<int> {
    if n.Finite? && !n.negative && |n.digits| <= n.point <= 16 then
      var value := DigitsValue(n.digits + seq(n.point - |n.digits|, _ => 0));
      if 0 < value <= 0x1F_FFFF_FFFF_FFFF then Some(value) else None
    else None
  }

  function OptionalCount(members: seq<Member>, key: Text): (r: Option<Option<int>>)
    ensures r.Some? && r.value.Some? ==> r.value.value > 0
  {
    match Lookup(members, key)
    case None => Some(None)
    case Some(Undefined) => Some(None)
    case Some(Number(n)) => (match PositiveInteger(n) case None => None case Some(v) => Some(Some(v)))
    case Some(_) => None
  }

  function OptionalDate(members: seq<Member>, key: Text, dates: Dates): Option<Option<int>> {
    match Lookup(members, key)
    case None => Some(None)
    case Some(Undefined) => Some(None)
    case Some(Str(text)) => (match dates(text) case None => None case Some(v) => Some(Some(v)))
    case Some(_) => None
  }

  /** asyncTaskEventMessageSchema. */
  datatype Event = Event(
    eventId: Text,
    eventType: Text,
    traceId: Text,
    taskId: Option<Text>,
    idempotencyKey: Option<Text>,
    attemptCount: Option<int>,
    maxAttempts: Option<int>,
    nextRetryAt: Option<int>,
    payload: Json)

  function ParseEvent(value: Json, dates: Dates): Option<Event> {
    if !value.Obj? then None else
    var fields := value.members;
    var eventId :- RequiredIdentifier(fields, KEY_EVENT_ID);
    var eventType :- RequiredIdentifier(fields, KEY_EVENT_TYPE);
    var traceId :- RequiredIdentifier(fields, KEY_TRACE_ID);
    var taskId :- OptionalIdentifier(fields, KEY_TASK_ID);
    var idempotencyKey :- OptionalIdentifier(fields, KEY_IDEMPOTENCY_KEY);
    var attemptCount :- OptionalCount(fields, KEY_ATTEMPT_COUNT);
    var maxAttempts :- OptionalCount(fields, KEY_MAX_ATTEMPTS);
    var nextRetryAt :- OptionalDate(fields, KEY_NEXT_RETRY_AT, dates);
    var occurredAt :- OptionalDate(fields, KEY_OCCURRED_AT, dates);
    var payload := match Lookup(fields, KEY_PAYLOAD) case None => Undefined case Some(v) => v;
    Some(Event(eventId, eventType, traceId, taskId, idempotencyKey, attemptCount, maxAttempts, nextRetryAt, payload))
  }

  function OrElse<T>(o: Option<T>, default: T): T {
    match o case None => default case Some(v) => v
  }

  /** asyncTaskIdempotencyKey. */
  function IdempotencyKey(e: Event): Text {
    OrElse(e.idempotencyKey, e.eventType + [COLON] + e.eventId)
  }

  /** A key that is given is used as it is. */
  lemma GivenKeyIsUsed(e: Event)
    requires e.idempotencyKey.Some?
    ensures IdempotencyKey(e) == e.idempotencyKey.value
  {
  }

  /**
   Events that bring no key of their own get different keys: for one type exactly the same event has the
   same key, for one event exactly the same type, and as long as types contain no colon both must agree.
   */
  lemma DerivedKeysTellApart(a: Event, b: Event)
    requires a.idempotencyKey.None? && b.idempotencyKey.None?
    ensures a.eventType == b.eventType ==> (IdempotencyKey(a) == IdempotencyKey(b) <==> a.eventId == b.eventId)
    ensures a.eventId == b.eventId ==> (IdempotencyKey(a) == IdempotencyKey(b) <==> a.eventType == b.eventType)
    ensures COLON !in a.eventType && COLON !in b.eventType ==>
              (IdempotencyKey(a) == IdempotencyKey(b) <==> a.eventType == b.eventType && a.eventId == b.eventId)
  {
    if IdempotencyKey(a) == IdempotencyKey(b) {
      if a.eventType == b.eventType {
        SameLengthCancels(a.eventType + [COLON], b.eventType + [COLON], a.eventId, b.eventId);
      }
      if a.eventId == b.eventId {
        assert IdempotencyKey(a) == a.eventType + ([COLON] + a.eventId);
        assert IdempotencyKey(b) == b.eventType + ([COLON] + b.eventId);
        assert |IdempotencyKey(a)| == |IdempotencyKey(b)|;
        SameLengthCancels(a.eventType, b.eventType, [COLON] + a.eventId, [COLON] + b.eventId);
      }
      if COLON !in a.eventType && COLON !in b.eventType {
        CutAt(a.eventType, b.eventType, a.eventId, b.eventId, COLON);
      }
    }
  }

  predicate StorableEvent(e: Event) {
    && StorableText(e.eventId)
    && StorableText(e.eventType)
    && StorableText(e.traceId)
    && (e.taskId.Some? ==> StorableText(e.taskId.value))
    && (e.idempotencyKey.Some? ==> StorableText(e.idempotencyKey.value))
    && Storable(e.payload)
  }

  const DEFAULT_MAX_ATTEMPTS := 5

  /** parseAsyncTaskMessage; None is a thrown error, which the consumer quarantines. */
  function ParseMessage(m: ConsumerMessage, group: Text, now: int, defaultMaxAttempts: nat,
      dates: Dates): Option<Envelope>
  {
    var value :- m.value;
    var event :- ParseEvent(value, dates);
    var key := IdempotencyKey(event);
    if !StorableEvent(event) || ParseIdentifier(RowKey(TaskKey(group, key))).None? then None
    else Some(Envelope(
      OrElse(event.taskId, event.eventId), event.eventType, event.traceId, Pending, event.payload, key,
      OrElse(event.attemptCount, 1),
      OrElse(event.maxAttempts, if defaultMaxAttempts == 0 then DEFAULT_MAX_ATTEMPTS else defaultMaxAttempts),
      event.nextRetryAt, event.eventId,
      Source(event.eventId, event.eventType, m.topic, m.partition, m.offset, group),
      now, now, None, None, None))
  }

  /** What parsing guarantees of a task, apart from its status and counters. */
  predicate WellIdentified(task: Envelope) {
    && IsIdentifier(task.taskId) && StorableText(task.taskId)
    && IsIdentifier(task.taskType) && StorableText(task.taskType)
    && IsIdentifier(task.traceId) && StorableText(task.traceId)
    && IsIdentifier(task.idempotencyKey) && StorableText(task.idempotencyKey)
    && IsIdentifier(task.sourceEventId) && StorableText(task.sourceEventId)
    && ParseIdentifier(RowKey(KeyOf(task))).Some?
    && task.source.eventId == task.sourceEventId
    && task.source.eventType == task.taskType
    && WellFormed(task.payload)
    && Storable(task.payload)
    && task.maxAttempts > 0
  }

  predicate Parsed(task: Envelope) {
    && WellIdentified(task)
    && task.status == Pending
    && task.attemptCount > 0
  }

  lemma LookupWellFormed(members: seq<Member>, key: Text)
    requires forall i | 0 <= i < |members| :: WellFormed(members[i].value)
    ensures Lookup(members, key).Some? ==> WellFormed(Lookup(members, key).value)
  {
  }

  lemma {:induction false} StorableConcat(a: Text, b: Text)
    requires StorableText(a) && StorableText(b)
    ensures StorableText(a + b)
    decreases |a|
  {
    if a == [] {
      assert a + b == b;
    } else if StartsWithPair(a) {
      assert (a + b)[2..] == a[2..] + b;
      StorableConcat(a[2..], b);
    } else {
      assert (a + b)[1..] == a[1..] + b;
      StorableConcat(a[1..], b);
    }
  }

  predicate ValidEvent(e: Event) {
    && IsIdentifier(e.eventId)
    && IsIdentifier(e.eventType)
    && IsIdentifier(e.traceId)
    && (e.taskId.Some? ==> IsIdentifier(e.taskId.value))
    && (e.idempotencyKey.Some? ==> IsIdentifier(e.idempotencyKey.value))
    && (e.attemptCount.Some? ==> e.attemptCount.value > 0)
    && (e.maxAttempts.Some? ==> e.maxAttempts.value > 0)
    && WellFormed(e.payload)
  }

  lemma EventIsValid(value: Json, dates: Dates)
    requires WellFormed(value)
    ensures var r := ParseEvent(value, dates); r.Some? ==> ValidEvent(r.value)
  {
    hide Trim, PositiveInteger, ParseIdentifier, IsIdentifier;
    if value.Obj? {
      LookupWellFormed(value.members, KEY_PAYLOAD);
    }
  }

  /** The key is an identifier too, whether it was given or put together from type and event. */
  lemma KeyIsIdentifier(e: Event, group: Text)
    requires ValidEvent(e) && StorableEvent(e)
    requires ParseIdentifier(RowKey(TaskKey(group, IdempotencyKey(e)))).Some?
    ensures IsIdentifier(IdempotencyKey(e)) && StorableText(IdempotencyKey(e))
  {
    var key := IdempotencyKey(e);
    KeyFitsWhenRowKeyFits(TaskKey(group, key));
    if e.idempotencyKey.None? {
      assert StorableText([COLON]) by { assert [COLON][1..] == []; }
      StorableConcat(e.eventType, [COLON]);
      StorableConcat(e.eventType + [COLON], e.eventId);
      assert key[0] == e.eventType[0] && key[|key| - 1] == e.eventId[|e.eventId| - 1];
    }
  }

  predicate From(task: Envelope, m: ConsumerMessage, group: Text) {
    var source := task.source;
    source.group == group && source.topic == m.topic && source.partition == m.partition && source.offset == m.offset
  }

  /** Every parsed task satisfies what the store later demands of a stored task. */
  lemma ParseGuarantees(m: ConsumerMessage, group: Text, now: int, defaultMaxAttempts: nat, dates: Dates)
    requires m.Valid()
    requires ParseMessage(m, group, now, defaultMaxAttempts, dates).Some?
    ensures Parsed(ParseMessage(m, group, now, defaultMaxAttempts, dates).value)
    ensures From(ParseMessage(m, group, now, defaultMaxAttempts, dates).value, m, group)
  {
    EventIsValid(m.value.value, dates);
    KeyIsIdentifier(ParseEvent(m.value.value, dates).value, group);
  }

  /**
   What a parsed task says in terms of the message's fields: each one that may be absent is the given value
   or its default, and the key is the given one or type, colon and event id.
   */
  lemma ParsedFields(m: ConsumerMessage, group: Text, now: int, defaultMaxAttempts: nat, dates: Dates)
    requires ParseMessage(m, group, now, defaultMaxAttempts, dates).Some?
    ensures m.value.Some? && m.value.value.Obj?
    ensures var fields := m.value.value.members;
            var t := ParseMessage(m, group, now, defaultMaxAttempts, dates).value;
            && RequiredIdentifier(fields, KEY_EVENT_ID) == Some(t.sourceEventId)
            && RequiredIdentifier(fields, KEY_EVENT_TYPE) == Some(t.taskType)
            && RequiredIdentifier(fields, KEY_TRACE_ID) == Some(t.traceId)
            && (match OptionalIdentifier(fields, KEY_TASK_ID)
                case Some(Some(id)) => t.taskId == id
                case _ => t.taskId == t.sourceEventId)
            && (match OptionalIdentifier(fields, KEY_IDEMPOTENCY_KEY)
                case Some(Some(key)) => t.idempotencyKey == key
                case _ => t.idempotencyKey == t.taskType + [COLON] + t.sourceEventId)
            && (match OptionalCount(fields, KEY_ATTEMPT_COUNT)
                case Some(Some(n)) => t.attemptCount == n
                case _ => t.attemptCount == 1)
            && (match OptionalCount(fields, KEY_MAX_ATTEMPTS)
                case Some(Some(n)) => t.maxAttempts == n
                case _ => t.maxAttempts == if defaultMaxAttempts > 0 then defaultMaxAttempts else 5)
            && (match OptionalDate(fields, KEY_NEXT_RETRY_AT, dates)
                case Some(next) => t.nextRetryAt == next
                case None => false)
            && t.payload == (match Lookup(fields, KEY_PAYLOAD) case Some(p) => p case None => Undefined)
            && t.status == Pending && t.createdAt == now && t.updatedAt == now
  {
    hide Lookup, RequiredIdentifier, OptionalIdentifier, OptionalCount, OptionalDate, StorableEvent, RowKey,
        ParseIdentifier;
  }

  // ---------------------------------------------------------------- failures

  function Pow2(n: nat): (p: nat)
    ensures p > 0
  {
    if n == 0 then 1 else 2 * Pow2(n - 1)
  }

  /** retryDelayMs. Powers of two are exact in floating point until they exceed every maximum. */
  function RetryDelay(attempt: int, baseMs: nat, maxMs: nat): int {
    Min(baseMs * Pow2(Max(1, attempt) - 1), maxMs)
  }

  /** Delays never shrink from one attempt to the next and never exceed the maximum. */
  lemma {:induction false} RetryDelayGrows(a: int, b: int, baseMs: nat, maxMs: nat)
    requires a <= b
    ensures 0 <= RetryDelay(a, baseMs, maxMs) <= RetryDelay(b, baseMs, maxMs) <= maxMs
    decreases b - a
  {
    var m, n := Max(1, a) - 1, Max(1, b) - 1;
    Pow2Grows(m, n);
    var p, q := Pow2(m), Pow2(n);
    assert 0 <= baseMs * p <= baseMs * q by {
      assert baseMs * q == baseMs * p + baseMs * (q - p);
    }
  }

  /**
   The backoff: the first attempt waits for the base, every further one twice as long as the one before,
   and both are cut off at the maximum.
   */
  lemma RetryDelayDoubles(attempt: int, baseMs: nat, maxMs: nat)
    ensures attempt <= 1 ==> RetryDelay(attempt, baseMs, maxMs) == Min(baseMs, maxMs)
    ensures attempt >= 1 ==>
              RetryDelay(attempt + 1, baseMs, maxMs) == Min(2 * RetryDelay(attempt, baseMs, maxMs), maxMs)
  {
    if attempt >= 1 {
      var p := Pow2(attempt - 1);
      assert baseMs * Pow2(attempt) == 2 * (baseMs * p);
    }
  }

  lemma {:induction false} Pow2Grows(m: nat, n: nat)
    requires m <= n
    ensures Pow2(m) <= Pow2(n)
    decreases n
  {
    if m < n {
      Pow2Grows(m, n - 1);
    }
  }

  /** failAsyncTask. */
  function FailTask(task: Envelope, message: Text, now: int, baseMs: nat, maxMs: nat): Envelope {
    var dead := task.attemptCount >= task.maxAttempts;
    var next := task.attemptCount + 1;
    task.(
      status := if dead then DeadLetter else Failed,
      attemptCount := if dead then task.attemptCount else next,
      nextRetryAt := Some(if dead then now else now + RetryDelay(next, baseMs, maxMs)),
      errorCode := Some(if dead then DeadLettered else RetryPending),
      errorMessage := Some(message),
      updatedAt := now)
  }

  /**
   A failure that is not the last one counts as an attempt and puts the next one off by its delay; the
   last one keeps its count. Whatever identifies the task stays.
   */
  lemma FailTaskCounts(task: Envelope, message: Text, now: int, baseMs: nat, maxMs: nat)
    ensures var failed := FailTask(task, message, now, baseMs, maxMs);
            var last := task.attemptCount >= task.maxAttempts;
            && (failed.status == DeadLetter <==> last) && (failed.status == Failed <==> !last)
            && failed.attemptCount == task.attemptCount + (if last then 0 else 1)
            && failed.nextRetryAt == Some(if last then now else now + RetryDelay(failed.attemptCount, baseMs, maxMs))
            && failed.errorMessage == Some(message) &&
                 failed.errorCode == Some(if last then DeadLettered else RetryPending)
            && KeyOf(failed) == KeyOf(task) && failed.payload == task.payload && failed.taskType == task.taskType
            && failed.taskId == task.taskId && failed.maxAttempts == task.maxAttempts &&
                 failed.lockedBy == task.lockedBy
  {
    hide RetryDelay;
  }
}
