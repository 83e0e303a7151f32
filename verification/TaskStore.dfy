/**
 The transactions of the idempotent task store (services/worker/src/async-task-store.ts).

 Every transaction holds its row lock until it commits, so each one is a single step on the tables.
 A transaction that throws is rolled back: it leaves the tables as they were.
 */
module TaskStore {
  import opened Common
  import opened CanonicalJson
  import opened AsyncTask

  /** The response_data column: a JSON envelope, null after compaction, or JSON that is no envelope. */
  datatype StoredData = Compacted | Corrupt | Stored(task: Envelope)

  datatype Row = Row(
    scope: Text,
    hash: Digest,
    data: StoredData,
    status: Status,
    generation: nat,
    lockedBy: Option<Text>,
    leaseUntil: Option<int>,
    createdAt: int,
    expiresAt: int)

  datatype Receipt = Receipt(taskId: Text, group: Text, eventType: Text, hash: Digest, result: Json)

  datatype QuarantineCode = InvalidMessage | IdempotencyConflict | IdempotencyUnverifiable

  /** The unique index of app_message_quarantine. */
  datatype SourcePosition = SourcePosition(group: Text, topic: Text, partition: nat, offset: nat)

  datatype Db = Db(
    rows: map<TaskKey, Row>,
    receipts: map<TaskKey, Receipt>,
    isolated: map<TaskKey, Row>,
    quarantine: map<SourcePosition, QuarantineCode>)

  /** What claim hands to a worker. */
  datatype LeasedTask = LeasedTask(task: Envelope, generation: nat, hash: Digest)

  datatype ClaimOutcome =
    | Claimed(lease: LeasedTask)
    | Terminal(task: Envelope)
    | Deferred(stored: Envelope, nextRetryAt: int)
    | Conflict
    | Unverifiable

  predicate Throws(o: ClaimOutcome) {
    o.Conflict? || o.Unverifiable?
  }

  /** One call of claim: the message's task, how PostgreSQL reads its payload back, the two clocks. */
  datatype ClaimInput = ClaimInput(
    task: Envelope,
    readBack: Json,
    legacyText: Text,
    worker: Text,
    now: int,
    clock: int,
    ttlMs: int,
    leaseMs: int)

  /** PostgreSQL reorders members but keeps the value; a payload that is undefined is not written at all. */
  ghost predicate ReadsBack(written: Json, read: Json) {
    if written.Undefined? then read.Undefined?
    else WellFormed(read) && Equal(written, read) && !read.Undefined?
  }

  ghost predicate ValidInput(c: ClaimInput) {
    Parsed(c.task) && WellFormed(c.task.payload) && ReadsBack(c.task.payload, c.readBack)
  }

  function TaskHash(task: Envelope): Digest
    requires WellFormed(task.payload)
  {
    PayloadHash(task.taskType, task.payload)
  }

  /** An identifier the stored envelope schema accepts. */
  predicate StoredIdentifier(s: Text, legacy: bool) {
    if legacy then Trim(s) != [] else ParseIdentifier(s).Some?
  }

  /** storedTask: the envelope schema, then the source and metadata checks. */
  predicate StoredTask(data: StoredData, legacy: bool) {
    && data.Stored?
    && var e := data.task;
    && StoredIdentifier(e.taskId, legacy)
    && StoredIdentifier(e.taskType, legacy)
    && StoredIdentifier(e.traceId, legacy)
    && StoredIdentifier(e.idempotencyKey, legacy)
    && StoredIdentifier(e.sourceEventId, legacy)
    && !e.payload.Undefined?
    && WellFormed(e.payload)
    && e.attemptCount > 0
    && e.maxAttempts > 0
    && e.source.eventId == e.sourceEventId
    && e.source.eventType == e.taskType
  }

  predicate IsTerminal(s: Status) {
    s.Succeeded? || s.DeadLetter? || s.Canceled?
  }

  predicate Active(row: Row, now: int) {
    row.leaseUntil.Some? && row.leaseUntil.value > now
  }

  // ---------------------------------------------------------------- claim

  function NewRow(c: ClaimInput): Row
    requires WellFormed(c.task.payload)
  {
    Row(c.task.source.group, TaskHash(c.task), Stored(c.task.(payload := c.readBack)), Pending, 0, None, None,
        c.now, c.now + c.ttlMs)
  }

  /** The decision claim takes once it holds the row lock. */
  function Verdict(row: Row, c: ClaimInput): ClaimOutcome
    requires WellFormed(c.task.payload)
  {
    if row.hash.UnsupportedDigest? then Unverifiable
    else if row.hash.V2? && row.hash != TaskHash(c.task) then Conflict
    else if IsTerminal(row.status) && row.data.Compacted? then
      if row.hash.Legacy? && c.legacyText != row.hash.preimage then Unverifiable else Terminal(c.task)
    else if !StoredTask(row.data, false) then Unverifiable
    else
      var stored := row.data.task;
      if TaskHash(stored) != TaskHash(c.task) then Conflict
      else if KeyOf(stored) != KeyOf(c.task) then Unverifiable
      else if IsTerminal(row.status) then Terminal(c.task)
      else if row.status.Processing? && Active(row, c.now) then Deferred(stored, row.leaseUntil.value)
      else if stored.nextRetryAt.Some? && stored.nextRetryAt.value > c.clock then
        Deferred(stored, stored.nextRetryAt.value)
      else
        Claimed(LeasedTask(
          stored.(status := Running, lockedBy := Some(c.worker), updatedAt := c.clock),
          row.generation + 1, row.hash))
  }

  function TakenRow(row: Row, c: ClaimInput, lease: LeasedTask): Row {
    row.(status := Processing, lockedBy := Some(c.worker), generation := lease.generation,
         leaseUntil := Some(c.now + c.leaseMs), data := Stored(lease.task))
  }

  /** The row claim locks: the stored one, or the one its INSERT has just written. */
  function LockedRow(db: Db, c: ClaimInput): Row
    requires WellFormed(c.task.payload)
  {
    var k := KeyOf(c.task);
    if k in db.rows then db.rows[k] else NewRow(c)
  }

  function ClaimResult(db: Db, c: ClaimInput): ClaimOutcome
    requires WellFormed(c.task.payload)
  {
    if KeyOf(c.task) in db.isolated then Unverifiable else Verdict(LockedRow(db, c), c)
  }

  function Claim(db: Db, c: ClaimInput): Db
    requires WellFormed(c.task.payload)
  {
    var k := KeyOf(c.task);
    var row := LockedRow(db, c);
    match ClaimResult(db, c)
    case Claimed(lease) => db.(rows := db.rows[k := TakenRow(row, c, lease)])
    case Terminal(_) => db.(rows := db.rows[k := row])
    case Deferred(_, _) => db.(rows := db.rows[k := row])
    case _ => db
  }

  // ---------------------------------------------------------------- execute and fail

  /** requireLease. */
  predicate OwnsLease(db: Db, lease: LeasedTask, now: int) {
    && KeyOf(lease.task) in db.rows
    && var row := db.rows[KeyOf(lease.task)];
    && row.status.Processing?
    && row.lockedBy.Some?
    && row.lockedBy == lease.task.lockedBy
    && row.generation == lease.generation
    && Active(row, now)
  }

  function Finish(db: Db, task: Envelope): Db
    requires KeyOf(task) in db.rows
  {
    var row := db.rows[KeyOf(task)];
    db.(rows := db.rows[KeyOf(task) := row.(status := task.status, data := Stored(task), lockedBy := None,
        leaseUntil := None)])
  }

  datatype ExecuteOutcome = Done | Stale | HandlerThrew | ReceiptExists

  function ExecuteResult(db: Db, lease: LeasedTask, result: Option<Json>, now: int): ExecuteOutcome {
    if !OwnsLease(db, lease, now) then Stale
    else if result.None? then HandlerThrew
    else if KeyOf(lease.task) in db.receipts then ReceiptExists
    else Done
  }

  function SucceededTask(task: Envelope): Envelope {
    task.(status := Succeeded, errorCode := None, errorMessage := None, nextRetryAt := None)
  }

  function ReceiptOf(lease: LeasedTask, result: Json): Receipt {
    Receipt(lease.task.taskId, lease.task.source.group, lease.task.taskType, lease.hash, result)
  }

  /** The handler's effects, the receipt and the finished row commit together or not at all. */
  function Execute(db: Db, lease: LeasedTask, result: Option<Json>, now: int): Db {
    if ExecuteResult(db, lease, result, now) == Done then
      var k := KeyOf(lease.task);
      Finish(db, SucceededTask(lease.task)).(receipts := db.receipts[k := ReceiptOf(lease, result.value)])
    else db
  }

  function Fail(db: Db, failed: LeasedTask, now: int): Db {
    if OwnsLease(db, failed, now) then Finish(db, failed.task) else db
  }

  // ---------------------------------------------------------------- quarantine, replay and recovery

  /** INSERT ... ON CONFLICT DO NOTHING. */
  function Quarantine(db: Db, m: ConsumerMessage, group: Text, code: QuarantineCode): Db {
    var p := SourcePosition(group, m.topic, m.partition, m.offset);
    if p in db.quarantine then db else db.(quarantine := db.quarantine[p := code])
  }

  predicate CanReplay(db: Db, k: TaskKey) {
    && k in db.rows
    && (db.rows[k].status.Failed? || db.rows[k].status.DeadLetter?)
    && k !in db.isolated
    && db.rows[k].data.Stored?
  }

  function ReplayedTask(task: Envelope): Envelope {
    task.(status := Pending, attemptCount := 1, nextRetryAt := None, errorCode := None, errorMessage := None)
  }

  /** replay. A row without an envelope has no source to project, so the transaction throws. */
  function Replay(db: Db, k: TaskKey): Db {
    if CanReplay(db, k) then
      var row := db.rows[k];
      db.(rows := db.rows[k := row.(status := Pending, data := Stored(ReplayedTask(row.data.task)),
                                   generation := row.generation + 1, lockedBy := None, leaseUntil := None)])
    else db
  }

  predicate QuarantinedSource(db: Db, row: Row) {
    && row.data.Stored?
    && var source := row.data.task.source;
    && var p := SourcePosition(row.scope, source.topic, source.partition, source.offset);
    && p in db.quarantine
    && !db.quarantine[p].IdempotencyConflict?
  }

  /** The recoveryEligible condition of the recovery queries. */
  predicate Eligible(db: Db, k: TaskKey, now: int) {
    && k in db.rows
    && var row := db.rows[k];
    && (row.status.Pending? || row.status.Failed? || row.status.Processing?)
    && !Active(row, now)
    && k !in db.isolated
    && !QuarantinedSource(db, row)
  }

  /** reconstructRecovery succeeds: the envelope is readable and belongs to this row and group. */
  predicate Reconstructs(data: StoredData, k: TaskKey, group: Text) {
    StoredTask(data, true) && data.task.source.group == group && KeyOf(data.task) == k && k.group == group
  }

  /** isolateInvalidRecovery: re-read the locked row, and set it apart when it cannot be reconstructed. */
  function Isolate(db: Db, k: TaskKey, group: Text, now: int): Db {
    if Eligible(db, k, now) && db.rows[k].scope == group && !Reconstructs(db.rows[k].data, k, group)
    then db.(isolated := db.isolated[k := db.rows[k]])
    else db
  }

  // ---------------------------------------------------------------- retention

  /** Rows the idempotency retention spec selects, before its batch limit and skipped locks. */
  predicate Compactable(row: Row, before: int, now: int) {
    && row.createdAt < before
    && (row.status.Succeeded? || row.status.Canceled?)
    && row.hash.V2?
    && row.expiresAt <= now
    && !row.data.Compacted?
  }

  predicate CanCompact(db: Db, keys: set<TaskKey>, before: int, now: int) {
    forall k | k in keys :: k in db.rows && Compactable(db.rows[k], before, now)
  }

  function CompactRows(rows: map<TaskKey, Row>, keys: set<TaskKey>): map<TaskKey, Row> {
    map k | k in rows :: if k in keys then rows[k].(data := Compacted) else rows[k]
  }

  function Compact(db: Db, keys: set<TaskKey>): Db {
    db.(rows := CompactRows(db.rows, keys))
  }

  /** The receipts retention spec empties results of finished tasks and keeps the receipts. */
  function CompactReceipts(db: Db, keys: set<TaskKey>): Db {
    db.(receipts := map k | k in db.receipts ::
          if k in keys && k in db.rows && (db.rows[k].status.Succeeded? || db.rows[k].status.Canceled?)
          then db.receipts[k].(result := Obj([])) else db.receipts[k])
  }
}
