/**
 The Kafka consumer over the task store (services/worker/src/async-consumer.ts): a record's offset is
 committed only behind a durable disposition of the record.
 */
module Consumer {
  import opened Common
  import opened CanonicalJson
  import opened AsyncTask
  import opened TaskStore
  import opened TaskRuns
  import opened PostgresTaskStore

  datatype ResultStatus = SkippedDuplicate | DeferredRetry | Quarantined | TaskSucceeded | TaskFailed | TaskDead

  datatype ConsumerResult = ConsumerResult(status: ResultStatus, safeToCommit: bool, nextRetryAt: Option<int>)

  /** The key and payload hash a record stands for, if it can be parsed at all. */
  function Identified(m: ConsumerMessage, group: Text, dates: Dates): Option<Envelope> {
    ParseMessage(m, group, 0, 0, dates)
  }

  /** Only the counters and times of a parsed task depend on when and with which default it is parsed. */
  lemma ParseIdentity(m: ConsumerMessage, group: Text, now: int, attempts: nat, dates: Dates)
    ensures var r, i := ParseMessage(m, group, now, attempts, dates), Identified(m, group, dates);
            && r.Some? == i.Some?
            && (r.Some? ==> KeyOf(r.value) == KeyOf(i.value))
            && (r.Some? ==> r.value.taskType == i.value.taskType && r.value.payload == i.value.payload)
  {
  }

  /** The record is in quarantine, or the row of its key exists and is bound to the record's payload. */
  ghost predicate Disposed(db: Db, m: ConsumerMessage, group: Text, dates: Dates) {
    || SourcePosition(group, m.topic, m.partition, m.offset) in db.quarantine
    || HasRow(db, m, group, dates)
  }

  ghost predicate HasRow(db: Db, m: ConsumerMessage, group: Text, dates: Dates) {
    var i := Identified(m, group, dates);
    && i.Some?
    && WellFormed(i.value.payload)
    && KeyOf(i.value) in db.rows
    && db.rows[KeyOf(i.value)].hash == TaskHash(i.value)
  }

  /** A claim that did not throw found or made the row of its own payload. */
  lemma ClaimBindsPayload(db: Db, c: ClaimInput)
    requires RowsOk(db) && ValidInput(c) && !Throws(ClaimResult(db, c))
    ensures KeyOf(c.task) in Claim(db, c).rows
    ensures Claim(db, c).rows[KeyOf(c.task)].hash == TaskHash(c.task)
  {
    hide WellFormed, PayloadHash, StoredTask, Parsed, ReadsBack;
    var k := KeyOf(c.task);
    if k in db.rows {
      assert RowOk(k, db.rows[k]);
    }
  }

  // ---------------------------------------------------------------- one message, one worker

  datatype Options = Options(
    group: Text, worker: Text, attempts: nat, baseMs: nat, maxMs: nat, ttlMs: int, leaseMs: int, dates: Dates)

  /** What the surroundings contribute to one call: clocks, the stored payload, the handler's result. */
  datatype Surroundings = Surroundings(
    clock: int, claimNow: int, executeNow: int, failNow: int, readBack: Json, legacyText: Text, handler: Option<Json>,
        message: Text)

  function InputFor(task: Envelope, o: Options, e: Surroundings): ClaimInput {
    ClaimInput(task, e.readBack, e.legacyText, o.worker, e.claimNow, e.clock, o.ttlMs, o.leaseMs)
  }

  /** Which result each disposition gives, and what the store holds afterwards. */
  ghost predicate Outcome(before: Db, m: ConsumerMessage, o: Options, e: Surroundings, after: Db,
      r: Option<ConsumerResult>)
  {
    var parsed := ParseMessage(m, o.group, e.clock, o.attempts, o.dates);
    if parsed.None? then
      after == Quarantine(before, m, o.group, InvalidMessage) && r == Some(ConsumerResult(Quarantined, true, None))
    else if !WellFormed(parsed.value.payload) then false
    else
      Decided(before, m, o, e, InputFor(parsed.value, o, e), after, r)
  }

  /** What follows from the verdict of the claim. */
  ghost predicate Decided(before: Db, m: ConsumerMessage, o: Options, e: Surroundings, input: ClaimInput, after: Db,
      r: Option<ConsumerResult>)
    requires WellFormed(input.task.payload)
  {
    var claimed := Claim(before, input);
    match ClaimResult(before, input)
    case Conflict =>
      after == Quarantine(before, m, o.group, IdempotencyConflict) && r == Some(ConsumerResult(Quarantined, true, None))
    case Unverifiable =>
      after == Quarantine(before, m, o.group, IdempotencyUnverifiable) &&
          r == Some(ConsumerResult(Quarantined, true, None))
    case Terminal(_) => after == claimed && r == Some(ConsumerResult(SkippedDuplicate, true, None))
    case Deferred(_, retry) => after == claimed && r == Some(ConsumerResult(DeferredRetry, false, Some(retry)))
    case Claimed(lease) => ClaimedOutcome(claimed, lease, o, e, after, r)
  }

  ghost predicate ClaimedOutcome(before: Db, lease: LeasedTask, o: Options, e: Surroundings, after: Db,
      r: Option<ConsumerResult>)
  {
    match ExecuteResult(before, lease, e.handler, e.executeNow)
    case Done =>
      after == Execute(before, lease, e.handler, e.executeNow) && r == Some(ConsumerResult(TaskSucceeded, true, None))
    case Stale => after == before && r == Some(ConsumerResult(DeferredRetry, false, Some(e.clock + 100)))
    case _ =>
      var failed := FailedLease(lease, e.message, e.clock, o.baseMs, o.maxMs);
      var dead := lease.task.attemptCount >= lease.task.maxAttempts;
      after == Fail(before, failed, e.failNow) &&
      r == (if !OwnsLease(before, failed, e.failNow) then None
            else Some(ConsumerResult(if dead then TaskDead else TaskFailed, dead, failed.task.nextRetryAt)))
  }

  /** Executing or failing a task keeps every row and its payload hash. */
  ghost predicate KeepsHashes(before: Db, after: Db) {
    forall k | k in before.rows :: k in after.rows && after.rows[k].hash == before.rows[k].hash
  }

  /** The second half of processAsyncConsumerMessage: the claimed task is executed, or its failure recorded. */
  method ExecuteClaimed(store: Store, lease: LeasedTask, o: Options, e: Surroundings)
      returns (r: Option<ConsumerResult>)
    modifies store
    ensures ClaimedOutcome(old(store.View()), lease, o, e, store.View(), r)
    ensures KeepsHashes(old(store.View()), store.View())
    ensures r.Some? ==> (r.value.safeToCommit <==> !r.value.status.DeferredRetry? && !r.value.status.TaskFailed?)
    ensures r.Some? && !r.value.safeToCommit ==> r.value.nextRetryAt.Some?
  {
    hide FailTask;
    var executed := store.Execute(lease, e.handler, e.executeNow);
    if executed.Done? {
      return Some(ConsumerResult(TaskSucceeded, true, None));
    }
    if executed.Stale? {
      return Some(ConsumerResult(DeferredRetry, false, Some(e.clock + 100)));
    }
    var failed := FailedLease(lease, e.message, e.clock, o.baseMs, o.maxMs);
    FailKeepsKey(lease, e.message, e.clock, o.baseMs, o.maxMs);
    FailureStatus(lease.task, e.message, e.clock, o.baseMs, o.maxMs);
    var recorded := store.Fail(failed, e.failNow);
    if !recorded {
      return None;
    }
    return Some(ConsumerResult(
      if failed.task.status.DeadLetter? then TaskDead else TaskFailed, failed.task.status.DeadLetter?,
          failed.task.nextRetryAt));
  }

  /**
   processAsyncConsumerMessage; None is an error that propagates, after which nothing is committed.
   A safe result means the record is disposed of; an unsafe one always names the time of the next try.
   */
  method ProcessMessage(store: Store, m: ConsumerMessage, o: Options, e: Surroundings)
      returns (r: Option<ConsumerResult>)
    requires m.Valid() && RowsOk(store.View())
    requires forall t :: ParseMessage(m, o.group, e.clock, o.attempts, o.dates) == Some(t) ==>
              ReadsBack(t.payload, e.readBack)
    modifies store
    ensures r.Some? && r.value.safeToCommit ==> Disposed(store.View(), m, o.group, o.dates)
    ensures r.Some? ==> (r.value.safeToCommit <==> !r.value.status.DeferredRetry? && !r.value.status.TaskFailed?)
    ensures r.Some? && !r.value.safeToCommit ==> r.value.nextRetryAt.Some?
    ensures Outcome(old(store.View()), m, o, e, store.View(), r)
  {
    hide ParseMessage, StoredTask, WellFormed, PayloadHash, RowOk, NewRow, Verdict, Identified, ClaimedOutcome;
    ParseIdentity(m, o.group, e.clock, o.attempts, o.dates);
    var parsed := ParseMessage(m, o.group, e.clock, o.attempts, o.dates);
    if parsed.None? {
      store.QuarantineMessage(m, o.group, InvalidMessage);
      return Some(ConsumerResult(Quarantined, true, None));
    }
    var task := parsed.value;
    ParseGuarantees(m, o.group, e.clock, o.attempts, o.dates);
    var input := InputFor(task, o, e);
    assert ValidInput(input);
    ghost var before := store.View();
    var claim := store.Claim(input);
    if claim.Conflict? {
      store.QuarantineMessage(m, o.group, IdempotencyConflict);
      return Some(ConsumerResult(Quarantined, true, None));
    }
    if claim.Unverifiable? {
      store.QuarantineMessage(m, o.group, IdempotencyUnverifiable);
      return Some(ConsumerResult(Quarantined, true, None));
    }
    ClaimBindsPayload(before, input);
    assert HasRow(store.View(), m, o.group, o.dates);
    if claim.Terminal? {
      return Some(ConsumerResult(SkippedDuplicate, true, None));
    }
    if claim.Deferred? {
      return Some(ConsumerResult(DeferredRetry, false, Some(claim.nextRetryAt)));
    }
    r := ExecuteClaimed(store, claim.lease, o, e);
  }

  lemma FailureStatus(task: Envelope, message: Text, now: int, baseMs: nat, maxMs: nat)
    ensures FailTask(task, message, now, baseMs, maxMs).nextRetryAt.Some?
    ensures FailTask(task, message, now, baseMs, maxMs).status ==
            if task.attemptCount >= task.maxAttempts then DeadLetter else Failed
  {
  }

  datatype Callback = OnDeferredRetry | OnRetryableFailure

  /** nextRetryDelayMs. */
  function NextRetryDelay(nextRetryAt: Option<int>, now: int): int {
    if nextRetryAt.None? then 0 else Max(0, nextRetryAt.value - now)
  }

  /**
   processConsumerMessagesSequentially; results[i] is what the handler gives for messages[i]. Exactly
   the safe prefix is committed, in order; the record that stops the batch is announced as deferred when
   its next try lies in the future, and as a retryable failure otherwise.
   */
  method ProcessSequentially(messages: seq<ConsumerMessage>, results: seq<ConsumerResult>, now: int)
    returns (processed: nat, stopped: bool, committed: seq<ConsumerMessage>, callback: Option<Callback>)
    requires |results| == |messages|
    ensures committed <= messages
    ensures forall i | 0 <= i < |committed| :: results[i].safeToCommit
    ensures if stopped then |committed| < |messages| && !results[|committed|].safeToCommit &&
              processed == |committed| + 1
            else committed == messages && processed == |messages|
    ensures callback.Some? <==> stopped
    ensures stopped ==>
              var next := results[|committed|].nextRetryAt;
              callback == Some(if next.Some? && next.value > now then OnDeferredRetry else OnRetryableFailure)
  {
    processed, stopped, committed, callback := 0, false, [], None;
    while processed < |messages|
      invariant processed <= |messages| && committed == messages[..processed]
      invariant forall i | 0 <= i < processed :: results[i].safeToCommit
    {
      var result := results[processed];
      processed := processed + 1;
      if result.safeToCommit {
        assert messages[..processed] == messages[..processed - 1] + [messages[processed - 1]];
        committed := committed + [messages[processed - 1]];
      } else {
        callback := Some(if NextRetryDelay(result.nextRetryAt, now) > 0 then OnDeferredRetry else OnRetryableFailure);
        return processed, true, committed, callback;
      }
    }
  }
}
