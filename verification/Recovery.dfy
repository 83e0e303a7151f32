/**
 What compaction and the recovery scan may rely on: stored envelopes always match their row, so a
 compacted row answers like the full one and a reconstructed message is the original task again.
 */
module Recovery {
  import opened Common
  import opened CanonicalJson
  import opened AsyncTask
  import opened TaskStore
  import opened TaskRuns

  // ---------------------------------------------------------------- compaction

  /** claim answers from the hash alone exactly as it answers from the full envelope. */
  lemma CompactedVerdict(k: TaskKey, row: Row, c: ClaimInput)
    requires RowOk(k, row) && row.status.Succeeded? && ValidInput(c) && KeyOf(c.task) == k
    ensures Verdict(row, c) == Verdict(row.(data := Compacted), c)
  {
    hide IsIdentifier, RowKey, Storable, StorableText, WellFormed, ParseIdentifier, PayloadHash, StoredTask;
    if row.data.Stored? {
      EnvelopeIsStoredTask(k, row);
    }
  }

  ghost predicate AllSucceeded(db: Db, keys: set<TaskKey>) {
    forall k | k in keys :: k in db.rows && db.rows[k].status.Succeeded?
  }

  /** What retention selects in a reachable state is succeeded. */
  lemma SucceededKeys(s: Sys, keys: set<TaskKey>, before: int, now: int)
    requires Inv(s) && CanCompact(s.db, keys, before, now)
    ensures AllSucceeded(s.db, keys)
  {
    forall k | k in keys
      ensures s.db.rows[k].status.Succeeded?
    {
      assert RowOk(k, s.db.rows[k]);
    }
  }

  /** Writing a row that is not compacted commutes with compaction. */
  lemma CompactPut(rows: map<TaskKey, Row>, keys: set<TaskKey>, k: TaskKey, row: Row)
    requires k !in keys
    ensures CompactRows(rows[k := row], keys) == CompactRows(rows, keys)[k := row]
  {
    var a, b := CompactRows(rows[k := row], keys), CompactRows(rows, keys)[k := row];
    assert a.Keys == b.Keys;
  }

  lemma CompactSame(rows: map<TaskKey, Row>, keys: set<TaskKey>, k: TaskKey)
    requires k in rows
    ensures rows[k := rows[k]] == rows
    ensures CompactRows(rows, keys)[k := CompactRows(rows, keys)[k]] == CompactRows(rows, keys)
  {
    assert rows[k := rows[k]].Keys == rows.Keys;
    assert CompactRows(rows, keys)[k := CompactRows(rows, keys)[k]].Keys == CompactRows(rows, keys).Keys;
  }

  /** claim gives the same verdict before and after compaction, and leaves corresponding tables. */
  lemma CompactionInvisibleToClaim(s: Sys, keys: set<TaskKey>, c: ClaimInput)
    requires Inv(s) && AllSucceeded(s.db, keys) && ValidInput(c)
    ensures ClaimResult(Compact(s.db, keys), c) == ClaimResult(s.db, c)
    ensures Claim(Compact(s.db, keys), c) == Compact(Claim(s.db, c), keys)
  {
    hide NewRow, RowOk, Parsed, ReadsBack, PayloadHash, WellFormed, CompactRows, Verdict;
    var k := KeyOf(c.task);
    CompactLookup(s.db.rows, keys, k);
    if k in keys {
      assert RowOk(k, s.db.rows[k]);
      CompactedVerdict(k, s.db.rows[k], c);
      TerminalRowIsNotClaimed(s.db.rows[k], c);
      CompactSame(s.db.rows, keys, k);
    } else if ClaimResult(s.db, c).Claimed? {
      CompactPut(s.db.rows, keys, k, TakenRow(LockedRow(s.db, c), c, ClaimResult(s.db, c).lease));
    } else {
      CompactPut(s.db.rows, keys, k, LockedRow(s.db, c));
    }
  }

  lemma TerminalRowIsNotClaimed(row: Row, c: ClaimInput)
    requires WellFormed(c.task.payload) && IsTerminal(row.status)
    ensures Verdict(row, c).Terminal? || Throws(Verdict(row, c))
  {
  }

  lemma CompactLookup(rows: map<TaskKey, Row>, keys: set<TaskKey>, k: TaskKey)
    ensures k in CompactRows(rows, keys) <==> k in rows
    ensures k in rows ==> CompactRows(rows, keys)[k] == if k in keys then rows[k].(data := Compacted) else rows[k]
  {
  }

  lemma CompactTwice(rows: map<TaskKey, Row>, keys: set<TaskKey>, others: set<TaskKey>)
    ensures CompactRows(CompactRows(rows, keys), others) == CompactRows(CompactRows(rows, others), keys)
  {
    var a, b := CompactRows(CompactRows(rows, keys), others), CompactRows(CompactRows(rows, others), keys);
    assert a.Keys == b.Keys == rows.Keys;
  }

  /**
   Compaction is invisible: every action of every worker does to the compacted tables what it does
   to the full ones, and hands out the same leases.
   */
  lemma CompactionInvisible(s: Sys, keys: set<TaskKey>, a: Action)
    requires Inv(s) && AllSucceeded(s.db, keys) && Enabled(s, a)
    ensures var compacted := s.(db := Compact(s.db, keys));
            Next(compacted, a) == Next(s, a).(db := Compact(Next(s, a).db, keys))
  {
    hide CompactRows, Inv, Verdict, OwnsLease, Execute, ExecuteResult, Fail, Replay, CanReplay, Isolate, Claim,
        ClaimResult,
         CompactReceipts, Quarantine, FailTask, Parsed;
    match a
    case DoClaim(c) =>
      CompactionInvisibleToClaim(s, keys, c);
      CompactLookup(s.db.rows, keys, KeyOf(c.task));
      CompactLookup(Claim(s.db, c).rows, keys, KeyOf(c.task));
    case DoExecute(lease, result, t) => CompactionInvisibleToExecute(s, keys, lease, result, t);
    case DoFail(lease, message, clock, baseMs, maxMs, t) =>
      FailKeepsKey(lease, message, clock, baseMs, maxMs);
      CompactionInvisibleToFail(s.db, keys, lease, FailedLease(lease, message, clock, baseMs, maxMs), t);
    case DoReplay(k) => CompactionInvisibleToReplay(s.db, keys, k);
    case DoQuarantine(record, group, code) => CompactionInvisibleToQuarantine(s.db, keys, record, group, code);
    case DoIsolate(k, group, t) => CompactionInvisibleToIsolate(s.db, keys, k, group, t);
    case DoCompact(others, _, _) => CompactTwice(s.db.rows, keys, others);
    case DoCompactReceipts(others) => CompactionInvisibleToReceipts(s.db, keys, others);
  }

  lemma CompactionInvisibleToExecute(s: Sys, keys: set<TaskKey>, lease: LeasedTask, result: Option<Json>, now: int)
    requires AllSucceeded(s.db, keys)
    ensures ExecuteResult(Compact(s.db, keys), lease, result, now) == ExecuteResult(s.db, lease, result, now)
    ensures Execute(Compact(s.db, keys), lease, result, now) == Compact(Execute(s.db, lease, result, now), keys)
  {
    hide CompactRows;
    var k := KeyOf(lease.task);
    CompactLookup(s.db.rows, keys, k);
    if ExecuteResult(s.db, lease, result, now) == Done {
      CompactPut(s.db.rows, keys, k, Finish(s.db, SucceededTask(lease.task)).rows[k]);
    }
  }

  lemma CompactionInvisibleToFail(db: Db, keys: set<TaskKey>, lease: LeasedTask, failed: LeasedTask, now: int)
    requires AllSucceeded(db, keys) && KeyOf(failed.task) == KeyOf(lease.task)
    ensures OwnsLease(Compact(db, keys), lease, now) == OwnsLease(db, lease, now)
    ensures Fail(Compact(db, keys), failed, now) == Compact(Fail(db, failed, now), keys)
  {
    hide CompactRows;
    var k := KeyOf(failed.task);
    CompactLookup(db.rows, keys, k);
    if OwnsLease(db, failed, now) {
      CompactPut(db.rows, keys, k, Finish(db, failed.task).rows[k]);
    }
  }

  lemma CompactionInvisibleToReplay(db: Db, keys: set<TaskKey>, k: TaskKey)
    requires AllSucceeded(db, keys)
    ensures CanReplay(Compact(db, keys), k) == CanReplay(db, k)
    ensures Replay(Compact(db, keys), k) == Compact(Replay(db, k), keys)
  {
    hide CompactRows;
    CompactLookup(db.rows, keys, k);
    if CanReplay(db, k) {
      CompactPut(db.rows, keys, k, Replay(db, k).rows[k]);
    }
  }

  lemma CompactionInvisibleToIsolate(db: Db, keys: set<TaskKey>, k: TaskKey, group: Text, now: int)
    requires AllSucceeded(db, keys)
    ensures Isolate(Compact(db, keys), k, group, now) == Compact(Isolate(db, k, group, now), keys)
  {
    hide CompactRows;
    CompactLookup(db.rows, keys, k);
  }

  lemma CompactionInvisibleToQuarantine(db: Db, keys: set<TaskKey>, m: ConsumerMessage, group: Text,
      code: QuarantineCode)
    ensures Quarantine(Compact(db, keys), m, group, code) == Compact(Quarantine(db, m, group, code), keys)
  {
  }

  lemma CompactionInvisibleToReceipts(db: Db, keys: set<TaskKey>, others: set<TaskKey>)
    ensures CompactReceipts(Compact(db, keys), others) == Compact(CompactReceipts(db, others), keys)
  {
    var a, b := CompactReceipts(Compact(db, keys), others).receipts, CompactReceipts(db, others).receipts;
    assert a.Keys == b.Keys;
  }

  function WithCompacted(s: Sys, keys: set<TaskKey>): Sys {
    s.(db := Compact(s.db, keys))
  }

  /** Retention does not select a compacted row again. */
  function Adjusted(a: Action, keys: set<TaskKey>): Action {
    if a.DoCompact? then a.(keys := a.keys - keys) else a
  }

  lemma CompactRest(rows: map<TaskKey, Row>, keys: set<TaskKey>, others: set<TaskKey>)
    ensures CompactRows(CompactRows(rows, keys), others - keys) == CompactRows(CompactRows(rows, others), keys)
  {
    var a, b := CompactRows(CompactRows(rows, keys), others - keys), CompactRows(CompactRows(rows, others), keys);
    assert a.Keys == b.Keys == rows.Keys;
  }

  lemma AdjustedStep(s: Sys, a: Action, t: Sys, keys: set<TaskKey>)
    requires Inv(s) && AllSucceeded(s.db, keys) && Step(s, a, t)
    ensures Step(WithCompacted(s, keys), Adjusted(a, keys), WithCompacted(t, keys))
  {
    hide Inv, CompactRows, Claim, ClaimResult, Execute, ExecuteResult, Fail, Replay, CanReplay, Isolate,
        CompactReceipts,
         Quarantine, ValidInput, OwnsLease;
    CompactionInvisible(s, keys, a);
    if a.DoCompact? {
      CompactRest(s.db.rows, keys, a.keys);
      forall k | k in a.keys - keys {
        CompactLookup(s.db.rows, keys, k);
      }
    }
  }

  /** The run with a compaction of these keys inserted behind its first i actions. */
  function StatesWith(states: seq<Sys>, i: nat, keys: set<TaskKey>): (r: seq<Sys>)
    requires i < |states|
    ensures |r| == |states| + 1
    ensures forall j | 0 <= j <= i :: r[j] == states[j]
    ensures forall j | i <= j < |states| :: r[j + 1] == WithCompacted(states[j], keys)
  {
    states[..i + 1] + seq(|states| - i, j requires 0 <= j < |states| - i => WithCompacted(states[i + j], keys))
  }

  function ActionsWith(actions: seq<Action>, i: nat, compaction: Action): (r: seq<Action>)
    requires i <= |actions| && compaction.DoCompact?
    ensures |r| == |actions| + 1 && r[i] == compaction
    ensures forall j | 0 <= j < i :: r[j] == actions[j]
    ensures forall j | i <= j < |actions| :: r[j + 1] == Adjusted(actions[j], compaction.keys)
  {
    actions[..i] + [compaction] +
    seq(|actions| - i, j requires 0 <= j < |actions| - i => Adjusted(actions[i + j], compaction.keys))
  }

  /** Succeeded rows stay, so what could be compacted once is finished for good. */
  lemma StillSucceeded(states: seq<Sys>, actions: seq<Action>, i: nat, j: nat, keys: set<TaskKey>, before: int,
      now: int)
    requires IsRun(states, actions) && i <= j < |states| && CanCompact(states[i].db, keys, before, now)
    ensures Inv(states[j]) && AllSucceeded(states[j].db, keys)
  {
    hide Step;
    RunKeeps(states, actions, i);
    RunKeeps(states, actions, j);
    SucceededKeys(states[i], keys, before, now);
    RunIsLater(states, actions, i, j);
  }

  /**
   A compaction can be inserted at any point of any run: the rest of the run goes on as before, with the
   same leases, effects, receipts and budgets, and every claim in every later state gets the same verdict.
   */
  lemma CompactionInvisibleInRuns(states: seq<Sys>, actions: seq<Action>, i: nat, keys: set<TaskKey>, before: int,
      now: int)
    requires IsRun(states, actions) && i < |states| && CanCompact(states[i].db, keys, before, now)
    ensures IsRun(StatesWith(states, i, keys), ActionsWith(actions, i, DoCompact(keys, before, now)))
    ensures forall j, c | i <= j < |states| && ValidInput(c) ::
              ClaimResult(StatesWith(states, i, keys)[j + 1].db, c) == ClaimResult(states[j].db, c)
  {
    hide Step, CanCompact, ClaimResult, StatesWith, ActionsWith, Inv, AllSucceeded, Parsed, ReadsBack;
    var states', actions' := StatesWith(states, i, keys), ActionsWith(actions, i, DoCompact(keys, before, now));
    forall j | 0 <= j < |actions'|
      ensures Step(states'[j], actions'[j], states'[j + 1])
    {
      InsertedStep(states, actions, i, keys, before, now, j);
    }
    forall j, c | i <= j < |states| && ValidInput(c)
      ensures ClaimResult(states'[j + 1].db, c) == ClaimResult(states[j].db, c)
    {
      StillSucceeded(states, actions, i, j, keys, before, now);
      CompactionInvisibleToClaim(states[j], keys, c);
    }
  }

  lemma InsertedStep(states: seq<Sys>, actions: seq<Action>, i: nat, keys: set<TaskKey>, before: int, now: int, j: nat)
    requires IsRun(states, actions) && i < |states| && CanCompact(states[i].db, keys, before, now) && j <= |actions|
    ensures Step(StatesWith(states, i, keys)[j], ActionsWith(actions, i, DoCompact(keys, before, now))[j],
                 StatesWith(states, i, keys)[j + 1])
  {
    hide Step, CanCompact, StatesWith, ActionsWith, Adjusted, WithCompacted, Inv, AllSucceeded;
    if j < i {
      assert Step(states[j], actions[j], states[j + 1]);
    } else if j == i {
      CompactionStep(states[i], keys, before, now);
    } else {
      StillSucceeded(states, actions, i, j - 1, keys, before, now);
      assert Step(states[j - 1], actions[j - 1], states[j]);
      AdjustedStep(states[j - 1], actions[j - 1], states[j], keys);
    }
  }

  lemma CompactionStep(s: Sys, keys: set<TaskKey>, before: int, now: int)
    requires CanCompact(s.db, keys, before, now)
    ensures Step(s, DoCompact(keys, before, now), WithCompacted(s, keys))
  {
  }

  // ---------------------------------------------------------------- the recovered message

  /** The Kafka message reconstructRecovery builds from a stored envelope. */
  function RecoveredValue(e: Envelope): Json {
    Obj([Member(KEY_EVENT_ID, Str(e.sourceEventId)),
         Member(KEY_EVENT_TYPE, Str(e.taskType)),
         Member(KEY_TRACE_ID, Str(e.traceId)),
         Member(KEY_TASK_ID, Str(e.taskId)),
         Member(KEY_IDEMPOTENCY_KEY, Str(e.idempotencyKey)),
         Member(KEY_PAYLOAD, e.payload)])
  }

  function RecoveredMessage(e: Envelope): ConsumerMessage {
    ConsumerMessage(e.source.topic, e.source.partition, e.source.offset, Some(RecoveredValue(e)))
  }

  /** Length and first letter tell the names of the message fields apart. */
  lemma FieldNamesDiffer()
    ensures |KEY_EVENT_ID| == |KEY_TRACE_ID| == |KEY_PAYLOAD| == 7
    ensures KEY_EVENT_ID[0] != KEY_TRACE_ID[0] && KEY_EVENT_ID[0] != KEY_PAYLOAD[0] && KEY_TRACE_ID[0] != KEY_PAYLOAD[0]
    ensures |KEY_EVENT_TYPE| == 9 && |KEY_TASK_ID| == 6 && |KEY_IDEMPOTENCY_KEY| == 14
    ensures |KEY_ATTEMPT_COUNT| == 12 && |KEY_MAX_ATTEMPTS| == 11 && |KEY_NEXT_RETRY_AT| == 11 &&
              |KEY_OCCURRED_AT| == 10
    ensures |KEY_ATTEMPTS| == 8
    ensures KEY_MAX_ATTEMPTS[0] != KEY_NEXT_RETRY_AT[0]
  {
  }

  lemma {:induction false} LookupFinds(members: seq<Member>, i: nat)
    requires i < |members| && DistinctKeys(members)
    ensures Lookup(members, members[i].key) == Some(members[i].value)
  {
    if i > 0 {
      assert members[0].key != members[i].key;
      assert members[1..][i - 1] == members[i];
      LookupFinds(members[1..], i - 1);
    }
  }

  lemma {:induction false} LookupMisses(members: seq<Member>, key: Text)
    requires forall i | 0 <= i < |members| :: members[i].key != key
    ensures Lookup(members, key) == None
  {
    if members != [] {
      assert forall i | 0 <= i < |members| - 1 :: members[1..][i] == members[i + 1];
      LookupMisses(members[1..], key);
    }
  }

  /** The fields of a recovered message are the ones it was built from, and there are no others. */
  lemma RecoveredFields(e: Envelope)
    ensures var fields := RecoveredValue(e).members;
            && DistinctKeys(fields)
            && Lookup(fields, KEY_EVENT_ID) == Some(Str(e.sourceEventId))
            && Lookup(fields, KEY_EVENT_TYPE) == Some(Str(e.taskType))
            && Lookup(fields, KEY_TRACE_ID) == Some(Str(e.traceId))
            && Lookup(fields, KEY_TASK_ID) == Some(Str(e.taskId))
            && Lookup(fields, KEY_IDEMPOTENCY_KEY) == Some(Str(e.idempotencyKey))
            && Lookup(fields, KEY_PAYLOAD) == Some(e.payload)
            && Lookup(fields, KEY_ATTEMPT_COUNT) == None
            && Lookup(fields, KEY_MAX_ATTEMPTS) == None
            && Lookup(fields, KEY_NEXT_RETRY_AT) == None
            && Lookup(fields, KEY_OCCURRED_AT) == None
  {
    hide Lookup;
    FieldNamesDiffer();
    var fields := RecoveredValue(e).members;
    forall i | 0 <= i < 6 {
      LookupFinds(fields, i);
    }
    LookupFinds(fields, 0);
    LookupFinds(fields, 1);
    LookupFinds(fields, 2);
    LookupFinds(fields, 3);
    LookupFinds(fields, 4);
    LookupFinds(fields, 5);
    LookupMisses(fields, KEY_ATTEMPT_COUNT);
    LookupMisses(fields, KEY_MAX_ATTEMPTS);
    LookupMisses(fields, KEY_NEXT_RETRY_AT);
    LookupMisses(fields, KEY_OCCURRED_AT);
  }

  /** Parsing a recovered message gives the stored task back, with fresh counters. */
  lemma RecoveredMessageParses(e: Envelope, now: int, defaultMaxAttempts: nat, dates: Dates)
    requires WellIdentified(e)
    ensures RecoveredMessage(e).Valid()
    ensures var limit := if defaultMaxAttempts == 0 then DEFAULT_MAX_ATTEMPTS else defaultMaxAttempts;
            ParseMessage(RecoveredMessage(e), e.source.group, now, defaultMaxAttempts, dates) ==
            Some(e.(status := Pending, attemptCount := 1, maxAttempts := limit, nextRetryAt := None, createdAt := now,
                    updatedAt := now, lockedBy := None, errorCode := None, errorMessage := None))
  {
    hide Lookup, IsIdentifier, RowKey, ParseIdentifier, StorableText, Storable;
    RecoveredFields(e);
    IdentifierParsesToItself(e.taskId);
    IdentifierParsesToItself(e.taskType);
    IdentifierParsesToItself(e.traceId);
    IdentifierParsesToItself(e.idempotencyKey);
    IdentifierParsesToItself(e.sourceEventId);
    assert forall i | 0 <= i < 6 :: WellFormed(RecoveredValue(e).members[i].value);
    assert WellFormed(RecoveredValue(e));
  }

  /**
   Recovery round trip: every envelope this code has written is accepted, belongs to its own row and
   parses back to the same key, type and payload hash; claiming the recovered message never throws,
   and a claim it wins continues the stored task with its stored counters.
   */
  lemma RecoveryRoundTrip(
    states: seq<Sys>, actions: seq<Action>, i: nat, k: TaskKey, now: int, defaultMaxAttempts: nat, dates: Dates,
        c: ClaimInput)
    requires IsRun(states, actions) && i < |states|
    requires k in states[i].db.rows && states[i].db.rows[k].data.Stored?
    requires ValidInput(c) && var r := ParseMessage(
               RecoveredMessage(states[i].db.rows[k].data.task), k.group, now, defaultMaxAttempts, dates);
             r.Some? ==> r.value == c.task
    ensures Reconstructs(states[i].db.rows[k].data, k, k.group)
    ensures ParseMessage(RecoveredMessage(states[i].db.rows[k].data.task), k.group, now, defaultMaxAttempts, dates) ==
              Some(c.task)
    ensures KeyOf(c.task) == k && TaskHash(c.task) == states[i].db.rows[k].hash
    ensures k !in states[i].db.isolated ==> !Throws(ClaimResult(states[i].db, c))
    ensures ClaimResult(states[i].db, c).Claimed? ==>
              ClaimResult(states[i].db, c).lease.task ==
              states[i].db.rows[k].data.task.(status := Running, lockedBy := Some(c.worker), updatedAt := c.clock)
  {
    hide WellIdentified, StoredTask, WellFormed, RecoveredMessage, ParseMessage, RowKey;
    RunKeeps(states, actions, i);
    var row := states[i].db.rows[k];
    assert RowOk(k, row);
    RecoveredMessageParses(row.data.task, now, defaultMaxAttempts, dates);
    EnvelopeIsStoredTask(k, row);
  }
}
