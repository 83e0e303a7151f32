/**
 Runs of any number of workers over the task store: claims, executions, failures, replays,
 quarantines, isolations and compactions in any order, with arbitrary clocks in every transaction.
 A worker that crashes simply never uses its lease again; a redelivered message claims again.
 */
module TaskRuns {
  import opened Common
  import opened CanonicalJson
  import opened AsyncTask
  import opened TaskStore

  /** Failures recorded since a key was created or last replayed, starting from a given attempt count. */
  datatype Budget = Budget(start: int, limit: int, failures: nat)

  /** The tables, the leases handed out so far, the committed handler effects and the budgets. */
  datatype Sys = Sys(db: Db, leases: set<LeasedTask>, effects: seq<TaskKey>, budgets: map<TaskKey, Budget>)

  datatype Action =
    | DoClaim(input: ClaimInput)
    | DoExecute(lease: LeasedTask, result: Option<Json>, now: int)
    | DoFail(lease: LeasedTask, message: Text, clock: int, baseMs: nat, maxMs: nat, now: int)
    | DoReplay(key: TaskKey)
    | DoQuarantine(record: ConsumerMessage, group: Text, code: QuarantineCode)
    | DoIsolate(key: TaskKey, group: Text, now: int)
    | DoCompact(keys: set<TaskKey>, before: int, now: int)
    | DoCompactReceipts(keys: set<TaskKey>)

  const START := Sys(Db(map[], map[], map[], map[]), {}, [], map[])

  /** The lease a failed handler passes to fail. */
  function FailedLease(lease: LeasedTask, message: Text, clock: int, baseMs: nat, maxMs: nat): LeasedTask {
    lease.(task := FailTask(lease.task, message, clock, baseMs, maxMs))
  }

  ghost predicate Enabled(s: Sys, a: Action) {
    match a
    case DoClaim(input) => ValidInput(input)
    case DoExecute(lease, _, _) => lease in s.leases
    case DoFail(lease, _, _, _, _, _) => lease in s.leases
    case DoCompact(keys, before, now) => CanCompact(s.db, keys, before, now)
    case _ => true
  }

  function Next(s: Sys, a: Action): Sys
    requires a.DoClaim? ==> WellFormed(a.input.task.payload)
  {
    match a
    case DoClaim(c) =>
      var k := KeyOf(c.task);
      var db' := Claim(s.db, c);
      var r := ClaimResult(s.db, c);
      s.(db := db',
         leases := if r.Claimed? then s.leases + {r.lease} else s.leases,
         budgets := if k !in s.db.rows && k in db'.rows
                    then s.budgets[k := Budget(c.task.attemptCount, c.task.maxAttempts, 0)]
                    else s.budgets)
    case DoExecute(lease, result, now) =>
      s.(db := Execute(s.db, lease, result, now),
         effects := if ExecuteResult(s.db, lease, result, now) == Done
                    then s.effects + [KeyOf(lease.task)] else s.effects)
    case DoFail(lease, message, clock, baseMs, maxMs, now) =>
      var k := KeyOf(lease.task);
      s.(db := Fail(s.db, FailedLease(lease, message, clock, baseMs, maxMs), now),
         budgets := if OwnsLease(s.db, lease, now) && k in s.budgets
                    then s.budgets[k := s.budgets[k].(failures := s.budgets[k].failures + 1)]
                    else s.budgets)
    case DoReplay(k) =>
      s.(db := Replay(s.db, k),
         budgets := if CanReplay(s.db, k) && k in s.budgets
                    then s.budgets[k := Budget(1, s.budgets[k].limit, 0)]
                    else s.budgets)
    case DoQuarantine(record, group, code) => s.(db := Quarantine(s.db, record, group, code))
    case DoIsolate(k, group, now) => s.(db := Isolate(s.db, k, group, now))
    case DoCompact(keys, _, _) => s.(db := Compact(s.db, keys))
    case DoCompactReceipts(keys) => s.(db := CompactReceipts(s.db, keys))
  }

  ghost predicate Step(s: Sys, a: Action, s': Sys) {
    Enabled(s, a) && s' == Next(s, a)
  }

  ghost predicate IsRun(states: seq<Sys>, actions: seq<Action>) {
    && |states| == |actions| + 1
    && states[0] == START
    && forall i | 0 <= i < |actions| :: Step(states[i], actions[i], states[i + 1])
  }

  // ---------------------------------------------------------------- the invariant

  predicate StatusMatches(row: Status, task: Status) {
    task == if row.Processing? then Running else row
  }

  /** The stored envelope always matches the row's hash, key and status. */
  ghost predicate RowOk(k: TaskKey, row: Row) {
    && row.scope == k.group
    && row.hash.V2?
    && !row.status.Running? && !row.status.Canceled?
    && !row.data.Corrupt?
    && (row.data.Compacted? ==> row.status.Succeeded?)
    && (if row.status.Processing? then row.lockedBy.Some? && row.leaseUntil.Some? else row.leaseUntil.None?)
    && (row.data.Stored? ==> EnvelopeOk(k, row, row.data.task))
  }

  ghost predicate EnvelopeOk(k: TaskKey, row: Row, e: Envelope) {
    && WellIdentified(e)
    && !e.payload.Undefined?
    && e.attemptCount > 0
    && KeyOf(e) == k
    && TaskHash(e) == row.hash
    && StatusMatches(row.status, e.status)
  }

  /** A lease is either the current one of its row, or an older generation. */
  ghost predicate LeaseOk(db: Db, l: LeasedTask) {
    && KeyOf(l.task) in db.rows
    && var row := db.rows[KeyOf(l.task)];
    && l.generation <= row.generation
    && l.hash == row.hash
    && l.task.lockedBy.Some?
    && (l.generation == row.generation && row.status.Processing? ==>
          row.data == Stored(l.task) && row.lockedBy == l.task.lockedBy)
  }

  predicate Allowed(b: Budget): (r: bool) {
    b.failures == 0 || b.start + b.failures <= b.limit
  }

  /** The number of recorded failures at which a task with this budget is dead. */
  function Limit(b: Budget): int {
    Max(1, b.limit - b.start + 1)
  }

  predicate BudgetOk(row: Row, b: Budget) {
    && b.start > 0
    && (row.data.Stored? ==> row.data.task.maxAttempts == b.limit)
    && (if row.status.DeadLetter? then b.failures == Limit(b)
        else Allowed(b) && (row.data.Stored? ==> row.data.task.attemptCount == b.start + b.failures))
  }

  ghost predicate RowsOk(db: Db) {
    forall k | k in db.rows :: RowOk(k, db.rows[k])
  }

  ghost predicate LeasesOk(s: Sys) {
    && (forall l | l in s.leases :: LeaseOk(s.db, l))
    && (forall l, m | l in s.leases && m in s.leases ::
         KeyOf(l.task) == KeyOf(m.task) && l.generation == m.generation ==> l == m)
  }

  /** A key has a receipt exactly when its row is succeeded, and the receipt carries the row's hash. */
  ghost predicate ReceiptsOk(db: Db) {
    && (forall k | k in db.receipts ::
         k in db.rows && db.rows[k].status.Succeeded? && db.receipts[k].hash == db.rows[k].hash)
    && (forall k | k in db.rows && db.rows[k].status.Succeeded? :: k in db.receipts)
  }

  ghost predicate EffectsOk(s: Sys) {
    && (forall i | 0 <= i < |s.effects| :: s.effects[i] in s.db.receipts)
    && (forall k | k in s.db.receipts :: k in s.effects)
    && (forall i, j | 0 <= i < j < |s.effects| :: s.effects[i] != s.effects[j])
  }

  ghost predicate BudgetsOk(s: Sys) {
    && (forall k | k in s.db.rows :: k in s.budgets && BudgetOk(s.db.rows[k], s.budgets[k]))
  }

  ghost predicate Inv(s: Sys) {
    RowsOk(s.db) && LeasesOk(s) && ReceiptsOk(s.db) && EffectsOk(s) && BudgetsOk(s)
  }

  /** An envelope in good order passes storedTask, strictly and leniently. */
  lemma EnvelopeIsStoredTask(k: TaskKey, row: Row)
    requires RowOk(k, row) && row.data.Stored?
    ensures StoredTask(row.data, false) && StoredTask(row.data, true)
  {
    hide IsIdentifier, RowKey, Storable, StorableText, WellFormed;
    var e := row.data.task;
    BothSchemasAccept(e.taskId);
    BothSchemasAccept(e.taskType);
    BothSchemasAccept(e.traceId);
    BothSchemasAccept(e.idempotencyKey);
    BothSchemasAccept(e.sourceEventId);
  }

  lemma BothSchemasAccept(s: Text)
    requires IsIdentifier(s)
    ensures StoredIdentifier(s, false) && StoredIdentifier(s, true)
  {
    IdentifierParsesToItself(s);
  }

  lemma NewRowOk(c: ClaimInput)
    requires ValidInput(c) && !c.task.payload.Undefined?
    ensures RowOk(KeyOf(c.task), NewRow(c))
  {
    hide IsIdentifier, RowKey, Storable, StorableText, WellFormed;
    StorableUpToOrder(c.task.payload, c.readBack);
    PayloadHashIdentifies(c.task.taskType, c.task.payload, c.task.taskType, c.readBack);
  }

  /** A message without a payload never leaves a row behind. */
  lemma NoRowWithoutPayload(c: ClaimInput)
    requires ValidInput(c) && c.task.payload.Undefined?
    ensures Throws(Verdict(NewRow(c), c))
  {
  }

  // ---------------------------------------------------------------- every step keeps the invariant

  /** After a claim that did not throw, the locked row is in good order. */
  lemma LockedRowOk(s: Sys, c: ClaimInput)
    requires Inv(s) && ValidInput(c) && !Throws(ClaimResult(s.db, c))
    ensures RowOk(KeyOf(c.task), LockedRow(s.db, c))
    ensures BudgetOk(LockedRow(s.db, c), Next(s, DoClaim(c)).budgets[KeyOf(c.task)])
  {
    var k := KeyOf(c.task);
    if k !in s.db.rows {
      if c.task.payload.Undefined? {
        NoRowWithoutPayload(c);
      }
      NewRowOk(c);
    }
  }

  /** The lease of a claim is the locked row's envelope, one generation on. */
  lemma ClaimedRowOk(s: Sys, c: ClaimInput)
    requires Inv(s) && ValidInput(c) && ClaimResult(s.db, c).Claimed?
    ensures var k, lease := KeyOf(c.task), ClaimResult(s.db, c).lease;
            && RowOk(k, TakenRow(LockedRow(s.db, c), c, lease))
            && BudgetOk(TakenRow(LockedRow(s.db, c), c, lease), Next(s, DoClaim(c)).budgets[k])
            && !LockedRow(s.db, c).status.Succeeded?
            && KeyOf(lease.task) == k
            && TaskHash(c.task) == LockedRow(s.db, c).hash
  {
    hide IsIdentifier, RowKey, Storable, StorableText, WellFormed, ParseIdentifier, PayloadHash;
    LockedRowOk(s, c);
  }

  /** Writing a row that is in good order and keeps its hash and its outcome. */
  lemma PutRowKeeps(db: Db, k: TaskKey, row: Row)
    requires RowsOk(db) && ReceiptsOk(db) && RowOk(k, row)
    requires if k in db.rows then row.hash == db.rows[k].hash &&
              (row.status.Succeeded? <==> db.rows[k].status.Succeeded?)
             else !row.status.Succeeded?
    ensures RowsOk(db.(rows := db.rows[k := row])) && ReceiptsOk(db.(rows := db.rows[k := row]))
  {
    hide RowOk;
  }

  /** Writing the row it already is, a row of a later generation or a row nobody works on keeps the leases in order. */
  lemma PutRowKeepsLeases(s: Sys, k: TaskKey, row: Row, t: Sys)
    requires LeasesOk(s) && t.leases == s.leases && t.db.rows == s.db.rows[k := row]
    requires k in s.db.rows ==> row.hash == s.db.rows[k].hash
    requires k in s.db.rows ==>
               || row == s.db.rows[k]
               || row.generation > s.db.rows[k].generation
               || (row.generation == s.db.rows[k].generation && !row.status.Processing?)
    ensures LeasesOk(t)
  {
    forall l | l in s.leases
      ensures LeaseOk(t.db, l)
    {
      assert LeaseOk(s.db, l);
    }
  }

  lemma ClaimKeepsLeases(s: Sys, c: ClaimInput)
    requires Inv(s) && ValidInput(c) && ClaimResult(s.db, c).Claimed?
    ensures LeasesOk(Next(s, DoClaim(c)))
  {
    hide IsIdentifier, RowKey, Storable, StorableText, WellFormed, ParseIdentifier, PayloadHash, WellIdentified,
        StoredTask,
         EnvelopeOk;
    var k, lease := KeyOf(c.task), ClaimResult(s.db, c).lease;
    ClaimedRowOk(s, c);
    PutRowKeepsLeases(s, k, TakenRow(LockedRow(s.db, c), c, lease), s.(db := Claim(s.db, c)));
    forall l | l in s.leases
      ensures KeyOf(l.task) == k ==> l.generation < lease.generation
    {
      assert LeaseOk(s.db, l);
    }
  }

  lemma ClaimKeeps(s: Sys, c: ClaimInput)
    requires Inv(s) && ValidInput(c)
    ensures Inv(Next(s, DoClaim(c)))
  {
    hide IsIdentifier, RowKey, Storable, StorableText, WellFormed, ParseIdentifier, PayloadHash, WellIdentified,
        StoredTask,
         EnvelopeOk, Verdict, NewRow, RowOk, BudgetOk, LeaseOk;
    var k, r := KeyOf(c.task), ClaimResult(s.db, c);
    if !Throws(r) {
      LockedRowOk(s, c);
      if r.Claimed? {
        ClaimedRowOk(s, c);
        ClaimKeepsLeases(s, c);
        PutRowKeeps(s.db, k, TakenRow(LockedRow(s.db, c), c, r.lease));
      } else {
        NewRowIsPending(c);
        PutRowKeeps(s.db, k, LockedRow(s.db, c));
        PutRowKeepsLeases(s, k, LockedRow(s.db, c), Next(s, DoClaim(c)));
      }
    }
  }

  lemma NewRowIsPending(c: ClaimInput)
    requires WellFormed(c.task.payload)
    ensures NewRow(c).status.Pending?
  {
  }

  /** Finishing the current lease's row keeps its envelope in good order. */
  lemma FinishedRowOk(s: Sys, lease: LeasedTask, task: Envelope, now: int)
    requires Inv(s) && lease in s.leases && OwnsLease(s.db, lease, now)
    requires task == lease.task.(status := task.status, attemptCount := task.attemptCount,
              nextRetryAt := task.nextRetryAt,
                                 errorCode := task.errorCode, errorMessage := task.errorMessage,
                                     updatedAt := task.updatedAt)
    requires task.attemptCount > 0 && (task.status.Failed? || task.status.DeadLetter? || task.status.Succeeded?)
    ensures s.db.rows[KeyOf(lease.task)].data == Stored(lease.task)
    ensures KeyOf(task) == KeyOf(lease.task) && RowOk(KeyOf(task), Finish(s.db, task).rows[KeyOf(task)])
  {
    hide IsIdentifier, RowKey, Storable, StorableText, WellFormed, ParseIdentifier, PayloadHash;
    assert LeaseOk(s.db, lease);
    assert RowOk(KeyOf(lease.task), s.db.rows[KeyOf(lease.task)]);
  }

  /** The budget of the key under this lease, before the handler's result is recorded. */
  lemma LeasedBudget(s: Sys, lease: LeasedTask, now: int)
    requires Inv(s) && lease in s.leases && OwnsLease(s.db, lease, now)
    ensures lease.task.attemptCount > 0 && KeyOf(lease.task) in s.budgets
    ensures var b := s.budgets[KeyOf(lease.task)];
            b.start > 0 && Allowed(b) && lease.task.maxAttempts == b.limit &&
                lease.task.attemptCount == b.start + b.failures
  {
    hide WellIdentified, TaskHash, StoredTask;
    assert LeaseOk(s.db, lease);
    assert RowOk(KeyOf(lease.task), s.db.rows[KeyOf(lease.task)]);
  }

  lemma ExecuteKeeps(s: Sys, lease: LeasedTask, result: Option<Json>, now: int)
    requires Inv(s) && lease in s.leases
    ensures Inv(Next(s, DoExecute(lease, result, now)))
    ensures !ExecuteResult(s.db, lease, result, now).ReceiptExists?
  {
    hide RowOk, LeaseOk, Inv;
    if OwnsLease(s.db, lease, now) {
      OwnerHasNoReceipt(s, lease, now);
      if result.Some? {
        DoneKeeps(s, lease, result.value, now);
      }
    }
  }

  lemma OwnerHasNoReceipt(s: Sys, lease: LeasedTask, now: int)
    requires Inv(s) && OwnsLease(s.db, lease, now)
    ensures KeyOf(lease.task) !in s.db.receipts
  {
    hide RowOk, LeaseOk;
  }

  /** The row an execution leaves when it commits. */
  function DoneRow(row: Row, lease: LeasedTask): Row {
    row.(status := Succeeded, data := Stored(SucceededTask(lease.task)), lockedBy := None, leaseUntil := None)
  }

  lemma DoneRowOk(s: Sys, lease: LeasedTask, now: int)
    requires Inv(s) && lease in s.leases && OwnsLease(s.db, lease, now)
    ensures var k := KeyOf(lease.task);
            && k in s.db.rows && k in s.budgets
            && RowOk(k, DoneRow(s.db.rows[k], lease)) && BudgetOk(DoneRow(s.db.rows[k], lease), s.budgets[k])
            && lease.hash == s.db.rows[k].hash
  {
    LeasedBudget(s, lease, now);
    FinishedRowOk(s, lease, SucceededTask(lease.task), now);
    LeaseHash(s, lease);
    hide Inv, RowOk;
  }

  lemma DoneNext(s: Sys, lease: LeasedTask, result: Json, now: int)
    requires OwnsLease(s.db, lease, now) && KeyOf(lease.task) !in s.db.receipts
    ensures var k := KeyOf(lease.task);
            k in s.db.rows &&
            Next(s, DoExecute(lease, Some(result), now)) ==
              s.(db := s.db.(rows := s.db.rows[k := DoneRow(s.db.rows[k], lease)],
                             receipts := s.db.receipts[k := ReceiptOf(lease, result)]),
                 effects := s.effects + [k])
  {
  }

  /** The execution that commits: the row is finished, the receipt and the effect are new. */
  lemma DoneKeeps(s: Sys, lease: LeasedTask, result: Json, now: int)
    requires Inv(s) && lease in s.leases && OwnsLease(s.db, lease, now) && KeyOf(lease.task) !in s.db.receipts
    ensures Inv(Next(s, DoExecute(lease, Some(result), now)))
  {
    hide RowOk, LeaseOk, BudgetOk, OwnsLease, Next, RowsOk, LeasesOk, ReceiptsOk, EffectsOk, BudgetsOk;
    var k := KeyOf(lease.task);
    DoneRowOk(s, lease, now);
    DoneNext(s, lease, result, now);
    PutRowKeepsLeases(s, k, DoneRow(s.db.rows[k], lease), Next(s, DoExecute(lease, Some(result), now)));
    ReceiptKeeps(s, k, DoneRow(s.db.rows[k], lease), ReceiptOf(lease, result));
  }

  /** A succeeded row, its receipt and its effect come together. */
  lemma ReceiptKeeps(s: Sys, k: TaskKey, row: Row, receipt: Receipt)
    requires RowsOk(s.db) && ReceiptsOk(s.db) && EffectsOk(s) && BudgetsOk(s)
    requires k in s.db.rows && k !in s.db.receipts && row.status.Succeeded? && receipt.hash == row.hash && RowOk(k, row)
    requires k in s.budgets && BudgetOk(row, s.budgets[k])
    ensures var db' := s.db.(rows := s.db.rows[k := row], receipts := s.db.receipts[k := receipt]);
            var t := s.(db := db', effects := s.effects + [k]);
            RowsOk(db') && ReceiptsOk(db') && EffectsOk(t) && BudgetsOk(t)
  {
    hide RowOk, BudgetOk;
  }

  lemma LeaseHash(s: Sys, lease: LeasedTask)
    requires Inv(s) && lease in s.leases
    ensures KeyOf(lease.task) in s.db.rows && lease.hash == s.db.rows[KeyOf(lease.task)].hash
  {
    assert LeaseOk(s.db, lease);
  }

  lemma FailKeeps(s: Sys, lease: LeasedTask, message: Text, clock: int, baseMs: nat, maxMs: nat, now: int)
    requires Inv(s) && lease in s.leases
    ensures Inv(Next(s, DoFail(lease, message, clock, baseMs, maxMs, now)))
  {
    hide RowOk, LeaseOk, RetryDelay;
    if OwnsLease(s.db, lease, now) {
      var k, task := KeyOf(lease.task), FailTask(lease.task, message, clock, baseMs, maxMs);
      LeasedBudget(s, lease, now);
      FinishedRowOk(s, lease, task, now);
      PutRowKeeps(s.db, k, Finish(s.db, task).rows[k]);
      PutRowKeepsLeases(s, k, Finish(s.db, task).rows[k], Next(s, DoFail(lease, message, clock, baseMs, maxMs, now)));
    }
  }

  lemma ReplayKeeps(s: Sys, k: TaskKey)
    requires Inv(s)
    ensures Inv(Next(s, DoReplay(k)))
  {
    hide IsIdentifier, RowKey, Storable, StorableText, WellFormed, ParseIdentifier, PayloadHash, LeaseOk;
    if CanReplay(s.db, k) {
      assert RowOk(k, s.db.rows[k]);
      var row := Replay(s.db, k).rows[k];
      PutRowKeeps(s.db, k, row);
      PutRowKeepsLeases(s, k, row, Next(s, DoReplay(k)));
      assert BudgetOk(row, Budget(1, s.budgets[k].limit, 0));
    }
  }

  lemma CompactKeeps(s: Sys, keys: set<TaskKey>, before: int, now: int)
    requires Inv(s) && CanCompact(s.db, keys, before, now)
    ensures Inv(Next(s, DoCompact(keys, before, now)))
  {
    hide IsIdentifier, RowKey, Storable, StorableText, WellFormed, ParseIdentifier, PayloadHash, WellIdentified,
        StoredTask,
         EnvelopeOk, LeaseOk, BudgetOk;
    var db' := Compact(s.db, keys);
    forall k | k in s.db.rows
      ensures RowOk(k, db'.rows[k]) && BudgetOk(db'.rows[k], s.budgets[k])
      ensures db'.rows[k].status == s.db.rows[k].status && db'.rows[k].hash == s.db.rows[k].hash
    {
      assert RowOk(k, s.db.rows[k]);
      if k in keys {
        CompactRowKeeps(s.db.rows[k], s.budgets[k]);
      }
    }
    forall l | l in s.leases
      ensures LeaseOk(db', l)
    {
      CompactLeaseKeeps(s, keys, l);
    }
  }

  lemma CompactRowKeeps(row: Row, b: Budget)
    requires BudgetOk(row, b) && !row.status.DeadLetter?
    ensures BudgetOk(row.(data := Compacted), b)
  {
  }

  lemma CompactLeaseKeeps(s: Sys, keys: set<TaskKey>, l: LeasedTask)
    requires LeaseOk(s.db, l) && RowsOk(s.db)
    requires forall k | k in keys :: k in s.db.rows && !s.db.rows[k].status.Processing?
    ensures LeaseOk(Compact(s.db, keys), l)
  {
    hide RowOk;
  }

  lemma OthersKeep(s: Sys, a: Action)
    requires Inv(s) && (a.DoQuarantine? || a.DoIsolate? || a.DoCompactReceipts?)
    ensures Inv(Next(s, a))
  {
    hide RowOk, BudgetOk, Eligible, Reconstructs;
  }

  /** Every step of every worker keeps the invariant. */
  lemma StepKeeps(s: Sys, a: Action, s': Sys)
    requires Inv(s) && Step(s, a, s')
    ensures Inv(s')
  {
    hide Inv, ValidInput, CanCompact;
    match a
    case DoClaim(c) => ClaimKeeps(s, c);
    case DoExecute(lease, result, now) => ExecuteKeeps(s, lease, result, now);
    case DoFail(lease, message, clock, baseMs, maxMs, now) => FailKeeps(s, lease, message, clock, baseMs, maxMs, now);
    case DoReplay(k) => ReplayKeeps(s, k);
    case DoCompact(keys, before, now) => CompactKeeps(s, keys, before, now);
    case _ => OthersKeep(s, a);
  }

  lemma {:induction false} RunKeeps(states: seq<Sys>, actions: seq<Action>, i: nat)
    requires IsRun(states, actions) && i < |states|
    ensures Inv(states[i])
  {
    if i > 0 {
      RunKeeps(states, actions, i - 1);
      assert Step(states[i - 1], actions[i - 1], states[i]);
      StepKeeps(states[i - 1], actions[i - 1], states[i]);
    }
  }

  // ---------------------------------------------------------------- effects happen once

  /**
   In every reachable state each key has taken effect at most once, the keys with an effect are the
   keys with a receipt, and those are the keys whose row is succeeded.
   */
  lemma EffectsHappenOnce(states: seq<Sys>, actions: seq<Action>, i: nat)
    requires IsRun(states, actions) && i < |states|
    ensures forall m, n | 0 <= m < n < |states[i].effects| :: states[i].effects[m] != states[i].effects[n]
    ensures forall k :: k in states[i].effects <==> k in states[i].db.receipts
    ensures forall k :: k in states[i].db.receipts <==> k in states[i].db.rows && states[i].db.rows[k].status.Succeeded?
  {
    RunKeeps(states, actions, i);
  }

  /** The receipt INSERT of a leased task never meets an existing key. */
  lemma ReceiptInsertNeverCollides(states: seq<Sys>, actions: seq<Action>, i: nat, lease: LeasedTask,
      result: Option<Json>, now: int)
    requires IsRun(states, actions) && i < |states| && lease in states[i].leases
    ensures !ExecuteResult(states[i].db, lease, result, now).ReceiptExists?
  {
    RunKeeps(states, actions, i);
    ExecuteKeeps(states[i], lease, result, now);
  }

  /** What no step undoes: generations never decrease, succeeded rows keep their outcome. */
  predicate RowLater(before: Row, after: Row) {
    && before.generation <= after.generation
    && before.hash == after.hash
    && (before.status.Succeeded? ==> after.status.Succeeded? && after.generation == before.generation)
  }

  /** Rows, leases, effects, receipts and both quarantines are never taken back. */
  ghost predicate Later(s: Sys, t: Sys) {
    && (forall k | k in s.db.rows :: k in t.db.rows && RowLater(s.db.rows[k], t.db.rows[k]))
    && s.leases <= t.leases
    && s.effects <= t.effects
    && s.db.quarantine.Keys <= t.db.quarantine.Keys
    && s.db.isolated.Keys <= t.db.isolated.Keys
    && s.db.receipts.Keys <= t.db.receipts.Keys
  }

  lemma LaterIsTransitive(s: Sys, t: Sys, u: Sys)
    requires Later(s, t) && Later(t, u)
    ensures Later(s, u)
  {
    assert forall k | k in s.db.rows :: k in t.db.rows;
  }

  lemma ClaimIsLater(s: Sys, c: ClaimInput)
    requires Inv(s) && ValidInput(c)
    ensures Later(s, Next(s, DoClaim(c)))
  {
    hide IsIdentifier, RowKey, Storable, StorableText, WellFormed, ParseIdentifier, PayloadHash, WellIdentified,
        StoredTask,
         EnvelopeOk, LeaseOk, BudgetOk, Verdict, RowOk;
    if ClaimResult(s.db, c).Claimed? {
      ClaimedRowOk(s, c);
      ClaimTakesNextGeneration(LockedRow(s.db, c), c);
    }
  }

  lemma ClaimTakesNextGeneration(row: Row, c: ClaimInput)
    requires WellFormed(c.task.payload) && Verdict(row, c).Claimed?
    ensures Verdict(row, c).lease.generation == row.generation + 1
  {
  }

  lemma FinishIsLater(db: Db, lease: LeasedTask, task: Envelope, now: int)
    requires OwnsLease(db, lease, now) && KeyOf(task) == KeyOf(lease.task)
    ensures forall k | k in db.rows :: k in Finish(db, task).rows && RowLater(db.rows[k], Finish(db, task).rows[k])
    ensures Finish(db, task) == db.(rows := Finish(db, task).rows)
  {
  }

  lemma StepIsLater(s: Sys, a: Action, t: Sys)
    requires Inv(s) && Step(s, a, t)
    ensures Later(s, t)
  {
    hide Inv, Finish, FailTask;
    match a
    case DoClaim(c) => ClaimIsLater(s, c);
    case DoExecute(lease, result, now) =>
      if OwnsLease(s.db, lease, now) {
        FinishIsLater(s.db, lease, SucceededTask(lease.task), now);
      }
    case DoFail(lease, message, clock, baseMs, maxMs, now) =>
      var failed := FailedLease(lease, message, clock, baseMs, maxMs);
      FailKeepsKey(lease, message, clock, baseMs, maxMs);
      if OwnsLease(s.db, failed, now) {
        FinishIsLater(s.db, failed, failed.task, now);
      }
    case DoReplay(k) =>
    case DoIsolate(k, group, now) =>
    case DoCompact(keys, before, now) =>
    case DoQuarantine(record, group, code) =>
    case DoCompactReceipts(keys) =>
  }

  lemma FailKeepsKey(lease: LeasedTask, message: Text, clock: int, baseMs: nat, maxMs: nat)
    ensures KeyOf(FailedLease(lease, message, clock, baseMs, maxMs).task) == KeyOf(lease.task)
  {
  }

  lemma {:induction false} RunIsLater(states: seq<Sys>, actions: seq<Action>, i: nat, j: nat)
    requires IsRun(states, actions) && i <= j < |states|
    ensures Later(states[i], states[j])
    decreases j
  {
    hide Step, Inv, RowLater;
    if i < j {
      RunIsLater(states, actions, i, j - 1);
      RunKeeps(states, actions, j - 1);
      StepIsLater(states[j - 1], actions[j - 1], states[j]);
      LaterIsTransitive(states[i], states[j - 1], states[j]);
    } else {
      LaterIsReflexive(states[i]);
    }
  }

  lemma LaterIsReflexive(s: Sys)
    ensures Later(s, s)
  {
  }

  /** A succeeded row is never left, whatever happens later. */
  lemma SucceededForever(states: seq<Sys>, actions: seq<Action>, i: nat, j: nat, k: TaskKey)
    requires IsRun(states, actions) && i <= j < |states|
    requires k in states[i].db.rows && states[i].db.rows[k].status.Succeeded?
    ensures k in states[j].db.rows && states[j].db.rows[k].status.Succeeded?
    ensures k in states[j].db.receipts
  {
    RunIsLater(states, actions, i, j);
    RunKeeps(states, actions, j);
  }

  /** The code a source position was first quarantined with is never changed. */
  lemma {:induction false} QuarantineCodeStays(states: seq<Sys>, actions: seq<Action>, i: nat, j: nat,
      p: SourcePosition)
    requires IsRun(states, actions) && i <= j < |states| && p in states[i].db.quarantine
    ensures p in states[j].db.quarantine && states[j].db.quarantine[p] == states[i].db.quarantine[p]
    decreases j
  {
    hide Step;
    if i < j {
      QuarantineCodeStays(states, actions, i, j - 1, p);
      StepKeepsCode(states[j - 1], actions[j - 1], states[j], p);
    }
  }

  lemma StepKeepsCode(s: Sys, a: Action, t: Sys, p: SourcePosition)
    requires Step(s, a, t) && p in s.db.quarantine
    ensures p in t.db.quarantine && t.db.quarantine[p] == s.db.quarantine[p]
  {
    hide Verdict, WellFormed, NewRow, OwnsLease, FailTask, Eligible, Reconstructs, CanReplay;
  }

  // ---------------------------------------------------------------- fencing

  /** Each claim and each replay of a task raises its generation by one. */
  lemma GenerationsRise(s: Sys, a: Action)
    requires Inv(s) && Enabled(s, a)
    ensures a.DoClaim? && ClaimResult(s.db, a.input).Claimed? ==>
              && KeyOf(a.input.task) in Next(s, a).db.rows
              && Next(s, a).db.rows[KeyOf(a.input.task)].generation ==
                   (if KeyOf(a.input.task) in s.db.rows then s.db.rows[KeyOf(a.input.task)].generation else 0) + 1
    ensures a.DoReplay? && CanReplay(s.db, a.key) ==>
              Next(s, a).db.rows[a.key].generation == s.db.rows[a.key].generation + 1
  {
    hide IsIdentifier, RowKey, Storable, StorableText, WellFormed, ParseIdentifier, PayloadHash, WellIdentified,
        StoredTask;
  }

  /** Of all the leases ever handed out for a key, at most one passes the ownership guard. */
  lemma OneOwner(states: seq<Sys>, actions: seq<Action>, i: nat, l: LeasedTask, m: LeasedTask, now: int, later: int)
    requires IsRun(states, actions) && i < |states|
    requires l in states[i].leases && m in states[i].leases && KeyOf(l.task) == KeyOf(m.task)
    requires OwnsLease(states[i].db, l, now) && OwnsLease(states[i].db, m, later)
    ensures l == m
  {
    RunKeeps(states, actions, i);
  }

  /**
   The ownership guard means more than it reads: a lease that passes it is the newest of its key, the row
   holds exactly its task and hash, and the worker's name is implied by the generation.
   */
  lemma OwnerHoldsNewestLease(states: seq<Sys>, actions: seq<Action>, i: nat, lease: LeasedTask, now: int)
    requires IsRun(states, actions) && i < |states| && lease in states[i].leases
    ensures KeyOf(lease.task) in states[i].db.rows
    ensures var row := states[i].db.rows[KeyOf(lease.task)];
            && (OwnsLease(states[i].db, lease, now) <==>
                  row.status.Processing? && row.generation == lease.generation && Active(row, now))
            && (OwnsLease(states[i].db, lease, now) ==> row.data == Stored(lease.task) && row.hash == lease.hash)
    ensures OwnsLease(states[i].db, lease, now) ==>
              forall m | m in states[i].leases && KeyOf(m.task) == KeyOf(lease.task) && m != lease ::
                  m.generation < lease.generation
  {
    RunKeeps(states, actions, i);
    hide IsRun;
    assert LeaseOk(states[i].db, lease);
    assert RowOk(KeyOf(lease.task), states[i].db.rows[KeyOf(lease.task)]);
    forall m | m in states[i].leases && KeyOf(m.task) == KeyOf(lease.task) && m != lease
      ensures OwnsLease(states[i].db, lease, now) ==> m.generation < lease.generation
    {
      assert LeaseOk(states[i].db, m);
    }
  }

  /** The row has moved past this lease: a later claim or replay, or the lease was used up. */
  predicate Superseded(db: Db, lease: LeasedTask) {
    && KeyOf(lease.task) in db.rows
    && var row := db.rows[KeyOf(lease.task)];
    && (lease.generation < row.generation || (lease.generation == row.generation && !row.status.Processing?))
  }

  /** A row that is not being processed is processed again only in a later generation. */
  predicate NotResumed(before: Row, after: Row) {
    || before.generation < after.generation
    || (before.generation == after.generation && (after.status.Processing? ==> before.status.Processing?))
  }

  ghost predicate NoneResumed(before: Db, after: Db) {
    forall k | k in before.rows :: k in after.rows && NotResumed(before.rows[k], after.rows[k])
  }

  lemma ClaimResumesNone(db: Db, c: ClaimInput)
    requires WellFormed(c.task.payload)
    ensures NoneResumed(db, Claim(db, c))
  {
    hide Verdict, WellFormed, NewRow;
    if Verdict(LockedRow(db, c), c).Claimed? {
      ClaimTakesNextGeneration(LockedRow(db, c), c);
    }
  }

  lemma FinishResumesNone(db: Db, task: Envelope)
    requires KeyOf(task) in db.rows && !task.status.Processing?
    ensures NoneResumed(db, Finish(db, task))
  {
  }

  lemma StepResumesNone(s: Sys, a: Action, t: Sys)
    requires Step(s, a, t)
    ensures NoneResumed(s.db, t.db)
  {
    hide NotResumed, Finish, OwnsLease, FailTask, WellFormed, Verdict;
    match a
    case DoClaim(c) => ClaimResumesNone(s.db, c);
    case DoExecute(lease, result, now) =>
      SameResumesNone(s.db);
      if ExecuteResult(s.db, lease, result, now) == Done {
        OwnedKey(s.db, lease, now);
        FinishResumesNone(s.db, SucceededTask(lease.task));
      }
    case DoFail(lease, message, clock, baseMs, maxMs, now) =>
      var failed := FailedLease(lease, message, clock, baseMs, maxMs);
      SameResumesNone(s.db);
      if OwnsLease(s.db, failed, now) {
        OwnedKey(s.db, failed, now);
        FailedIsNotProcessing(lease.task, message, clock, baseMs, maxMs);
        FinishResumesNone(s.db, failed.task);
      }
    case _ => OthersResumeNone(s, a);
  }

  lemma FailedIsNotProcessing(task: Envelope, message: Text, clock: int, baseMs: nat, maxMs: nat)
    ensures !FailTask(task, message, clock, baseMs, maxMs).status.Processing?
  {
  }

  lemma OwnedKey(db: Db, lease: LeasedTask, now: int)
    requires OwnsLease(db, lease, now)
    ensures KeyOf(lease.task) in db.rows
  {
  }

  lemma SameResumesNone(db: Db)
    ensures NoneResumed(db, db)
  {
  }

  lemma OthersResumeNone(s: Sys, a: Action)
    requires !a.DoClaim? && !a.DoExecute? && !a.DoFail?
    ensures NoneResumed(s.db, Next(s, a).db)
  {
    hide Eligible, Reconstructs;
  }

  lemma SupersededStays(s: Sys, a: Action, t: Sys, lease: LeasedTask)
    requires Step(s, a, t) && Superseded(s.db, lease)
    ensures Superseded(t.db, lease)
  {
    StepResumesNone(s, a, t);
    hide Step;
  }

  lemma {:induction false} SupersededForever(states: seq<Sys>, actions: seq<Action>, i: nat, j: nat, lease: LeasedTask)
    requires IsRun(states, actions) && i <= j < |states|
    requires Superseded(states[i].db, lease)
    ensures Superseded(states[j].db, lease)
    decreases j
  {
    hide Step, Inv, Superseded;
    if i < j {
      SupersededForever(states, actions, i, j - 1, lease);
      SupersededStays(states[j - 1], actions[j - 1], states[j], lease);
    }
  }

  /**
   Fencing: once a newer lease has been handed out for a key, a call that still holds the older one
   changes nothing, in that state and in every later state of the run, whatever the clocks say.
   */
  lemma OlderLeaseChangesNothing(
    states: seq<Sys>, actions: seq<Action>, i: nat, j: nat, older: LeasedTask, newer: LeasedTask,
    result: Option<Json>, message: Text, clock: int, baseMs: nat, maxMs: nat, now: int)
    requires IsRun(states, actions) && i <= j < |states|
    requires older in states[i].leases && newer in states[i].leases
    requires KeyOf(older.task) == KeyOf(newer.task) && older.generation < newer.generation
    ensures ExecuteResult(states[j].db, older, result, now) == Stale
    ensures Next(states[j], DoExecute(older, result, now)) == states[j]
    ensures Next(states[j], DoFail(older, message, clock, baseMs, maxMs, now)) == states[j]
  {
    hide Step, RowsOk, ReceiptsOk, EffectsOk, BudgetsOk, FailTask;
    RunKeeps(states, actions, i);
    assert LeaseOk(states[i].db, newer);
    SupersededForever(states, actions, i, j, older);
    FailKeepsKey(older, message, clock, baseMs, maxMs);
    SupersededOwnsNothing(states[j].db, older, now);
    SupersededOwnsNothing(states[j].db, FailedLease(older, message, clock, baseMs, maxMs), now);
  }

  /** The action records an outcome: the handler's success, or its failure. */
  predicate Records(s: Sys, a: Action, k: TaskKey) {
    || (a.DoExecute? && KeyOf(a.lease.task) == k && ExecuteResult(s.db, a.lease, a.result, a.now) == Done)
    || (a.DoFail? && KeyOf(a.lease.task) == k && OwnsLease(s.db, a.lease, a.now))
  }

  lemma RecordedIsNotProcessing(s: Sys, a: Action, t: Sys, k: TaskKey)
    requires Inv(s) && Step(s, a, t) && Records(s, a, k)
    ensures k in t.db.rows && !t.db.rows[k].status.Processing?
  {
    hide Inv, RetryDelay;
  }

  /**
   A lease records at most one outcome: once one has been recorded for a key, no lease handed out for it
   so far passes the guard again, in any later state and at any time.
   */
  lemma LeaseIsUsedOnce(states: seq<Sys>, actions: seq<Action>, i: nat, j: nat, lease: LeasedTask, now: int)
    requires IsRun(states, actions) && i < |actions| && i < j < |states|
    requires lease in states[i + 1].leases && Records(states[i], actions[i], KeyOf(lease.task))
    ensures !OwnsLease(states[j].db, lease, now)
  {
    hide Records, RowsOk, ReceiptsOk, EffectsOk, BudgetsOk;
    RunKeeps(states, actions, i);
    RunKeeps(states, actions, i + 1);
    RecordedIsNotProcessing(states[i], actions[i], states[i + 1], KeyOf(lease.task));
    hide Step;
    assert LeaseOk(states[i + 1].db, lease);
    SupersededForever(states, actions, i + 1, j, lease);
    SupersededOwnsNothing(states[j].db, lease, now);
  }

  lemma SupersededOwnsNothing(db: Db, lease: LeasedTask, now: int)
    requires Superseded(db, lease)
    ensures !OwnsLease(db, lease, now)
  {
  }

  // ---------------------------------------------------------------- the attempt budget

  /**
   A task whose key was created or last replayed with attempt count a and m attempts allowed is dead
   exactly when max(1, m - a + 1) failures have been recorded since, and never records more.
   */
  lemma DeadAfterExactlyTheLimit(states: seq<Sys>, actions: seq<Action>, i: nat, k: TaskKey)
    requires IsRun(states, actions) && i < |states| && k in states[i].db.rows
    ensures k in states[i].budgets
    ensures var b := states[i].budgets[k];
            && b.failures <= Limit(b)
            && (states[i].db.rows[k].status.DeadLetter? <==> b.failures == Limit(b))
  {
    RunKeeps(states, actions, i);
  }

  /** Only creation, a recorded failure and a replay touch a budget; a replay allows exactly m failures again. */
  lemma BudgetMovesOnlyByFailures(s: Sys, a: Action, t: Sys, k: TaskKey)
    requires Inv(s) && Step(s, a, t) && k in s.db.rows
    ensures k in t.budgets
    ensures t.budgets[k] == s.budgets[k] || a.DoFail? || a.DoReplay?
    ensures a.DoFail? && t.budgets[k] != s.budgets[k] ==>
              && KeyOf(a.lease.task) == k
              && t.budgets[k] == s.budgets[k].(failures := s.budgets[k].failures + 1)
    ensures a.DoReplay? && t.budgets[k] != s.budgets[k] ==>
              a.key == k && t.budgets[k] == Budget(1, s.budgets[k].limit, 0) &&
                  Limit(t.budgets[k]) == Max(1, s.budgets[k].limit)
  {
    hide IsIdentifier, RowKey, Storable, StorableText, WellFormed, ParseIdentifier, PayloadHash, WellIdentified,
        StoredTask;
  }
}
