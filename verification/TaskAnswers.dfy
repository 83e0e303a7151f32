/**
 What the task store answers, in terms of the rows: when claim hands out a lease and for how long, that no
 lease is stolen, and that a task which is claimed or replayed can be carried through.
 */
module TaskAnswers {
  import opened Common
  import opened CanonicalJson
  import opened AsyncTask
  import opened TaskStore
  import opened TaskRuns

  // ---------------------------------------------------------------- the answers of claim

  predicate IsFinished(row: Row) {
    row.status == Succeeded || row.status == DeadLetter || row.status == Canceled
  }

  /** A worker's lease on the row has not run out. */
  predicate IsHeld(row: Row, now: int) {
    row.status == Processing && row.leaseUntil != None && row.leaseUntil.value > now
  }

  /** The next attempt lies in the future. */
  predicate IsPostponed(row: Row, clock: int) {
    row.data.Stored? && row.data.task.nextRetryAt != None && row.data.task.nextRetryAt.value > clock
  }

  predicate IsOpen(row: Row, now: int, clock: int) {
    !IsFinished(row) && !IsHeld(row, now) && !IsPostponed(row, clock)
  }

  /** When a row that is held or postponed is worth another try. */
  function NextTry(row: Row, now: int): Option<int> {
    if IsHeld(row, now) then row.leaseUntil
    else if row.data.Stored? then row.data.task.nextRetryAt
    else None
  }

  /** What claim decides on a row in good order that is bound to the same payload, case by case. */
  lemma VerdictInRowFields(k: TaskKey, row: Row, c: ClaimInput)
    requires RowOk(k, row) && ValidInput(c) && KeyOf(c.task) == k && row.hash == TaskHash(c.task)
    ensures IsFinished(row) ==> Verdict(row, c) == Terminal(c.task)
    ensures !IsFinished(row) && IsHeld(row, c.now) ==>
              row.data.Stored? && Verdict(row, c) == Deferred(row.data.task, row.leaseUntil.value)
    ensures !IsFinished(row) && !IsHeld(row, c.now) && IsPostponed(row, c.clock) ==>
              Verdict(row, c) == Deferred(row.data.task, row.data.task.nextRetryAt.value)
    ensures IsOpen(row, c.now, c.clock) ==>
              row.data.Stored? && Verdict(row, c) == Claimed(LeasedTask(
                row.data.task.(status := Running, lockedBy := Some(c.worker), updatedAt := c.clock), row.generation + 1,
                    row.hash))
  {
    hide WellFormed, PayloadHash, StoredTask, Parsed, ReadsBack, WellIdentified;
    if row.data.Stored? {
      EnvelopeIsStoredTask(k, row);
    }
  }

  /**
   The answer fits the row: a lease exactly for an open row bound to the same payload, and otherwise the
   matching refusal, with the time of the next try.
   */
  ghost predicate Answers(row: Row, isolated: bool, c: ClaimInput, r: ClaimOutcome)
    requires WellFormed(c.task.payload)
  {
    && (r.Claimed? <==> !isolated && row.hash == TaskHash(c.task) && IsOpen(row, c.now, c.clock))
    && (r.Terminal? <==> !isolated && row.hash == TaskHash(c.task) && IsFinished(row))
    && (r.Conflict? <==> !isolated && row.hash != TaskHash(c.task))
    && (r.Unverifiable? <==> isolated)
    && (r.Deferred? ==> Some(r.nextRetryAt) == NextTry(row, c.now))
  }

  lemma VerdictAnswers(k: TaskKey, row: Row, c: ClaimInput)
    requires RowOk(k, row) && ValidInput(c) && KeyOf(c.task) == k
    ensures Answers(row, false, c, Verdict(row, c))
  {
    if row.hash == TaskHash(c.task) {
      VerdictInRowFields(k, row, c);
    } else {
      OtherPayloadConflicts(k, row, c);
    }
    hide Verdict, RowOk, PayloadHash, WellFormed, Parsed, ReadsBack;
  }

  lemma OtherPayloadConflicts(k: TaskKey, row: Row, c: ClaimInput)
    requires RowOk(k, row) && WellFormed(c.task.payload) && row.hash != TaskHash(c.task)
    ensures Verdict(row, c) == Conflict
  {
  }

  lemma ClaimInRowFields(s: Sys, c: ClaimInput)
    requires Inv(s) && ValidInput(c) && KeyOf(c.task) in s.db.rows
    ensures Answers(s.db.rows[KeyOf(c.task)], KeyOf(c.task) in s.db.isolated, c, ClaimResult(s.db, c))
  {
    var k := KeyOf(c.task);
    assert RowOk(k, s.db.rows[k]);
    hide RowOk, Verdict, PayloadHash, WellFormed, Parsed, ReadsBack, Inv;
    VerdictAnswers(k, s.db.rows[k], c);
  }

  /**
   When claim hands out a lease on an existing row: exactly when the row is bound to the same payload, is
   not finished, is not under another worker's unexpired lease, its next attempt is not in the future, and
   it has not been isolated.
   */
  lemma ClaimedExactlyWhenOpen(states: seq<Sys>, actions: seq<Action>, i: nat, c: ClaimInput)
    requires IsRun(states, actions) && i < |states| && ValidInput(c) && KeyOf(c.task) in states[i].db.rows
    ensures Answers(states[i].db.rows[KeyOf(c.task)], KeyOf(c.task) in states[i].db.isolated, c,
              ClaimResult(states[i].db, c))
  {
    RunKeeps(states, actions, i);
    ClaimInRowFields(states[i], c);
  }

  /** A message of a new key gets the lease at once, or waits for its own next attempt. */
  lemma NewKeyIsClaimed(s: Sys, c: ClaimInput)
    requires Inv(s) && ValidInput(c) && KeyOf(c.task) !in s.db.rows && KeyOf(c.task) !in s.db.isolated
    requires !c.task.payload.Undefined?
    ensures ClaimResult(s.db, c).Claimed? <==> c.task.nextRetryAt.None? || c.task.nextRetryAt.value <= c.clock
    ensures ClaimResult(s.db, c).Deferred? <==> c.task.nextRetryAt.Some? && c.task.nextRetryAt.value > c.clock
    ensures ClaimResult(s.db, c).Claimed? ==>
              ClaimResult(s.db, c).lease.task == c.task.(payload := c.readBack, status := Running,
                                                         lockedBy := Some(c.worker), updatedAt := c.clock)
    ensures ClaimResult(s.db, c).Deferred? ==> ClaimResult(s.db, c).nextRetryAt == c.task.nextRetryAt.value
  {
    NewRowOk(c);
    VerdictInRowFields(KeyOf(c.task), NewRow(c), c);
    hide Verdict;
  }

  /** A won claim's lease is good until exactly now + leaseMs, and is nobody else's. */
  lemma LeaseLastsExactly(s: Sys, c: ClaimInput, t: int)
    requires Inv(s) && ValidInput(c) && ClaimResult(s.db, c).Claimed?
    ensures OwnsLease(Claim(s.db, c), ClaimResult(s.db, c).lease, t) <==> t < c.now + c.leaseMs
  {
    hide WellFormed, PayloadHash, StoredTask, Parsed, ReadsBack, RowOk, Verdict;
    ClaimedRowOk(s, c);
    ClaimedByWorker(LockedRow(s.db, c), c);
  }

  lemma ClaimedByWorker(row: Row, c: ClaimInput)
    requires WellFormed(c.task.payload) && Verdict(row, c).Claimed?
    ensures Verdict(row, c).lease.task.lockedBy == Some(c.worker)
  {
  }

  // ---------------------------------------------------------------- leases are not stolen

  predicate WinsClaim(s: Sys, a: Action, k: TaskKey)
    requires a.DoClaim? ==> WellFormed(a.input.task.payload)
  {
    a.DoClaim? && KeyOf(a.input.task) == k && ClaimResult(s.db, a.input).Claimed?
  }

  predicate Replays(s: Sys, a: Action, k: TaskKey) {
    a.DoReplay? && a.key == k && CanReplay(s.db, k)
  }

  predicate IsLeased(s: Sys, k: TaskKey, end: int) {
    k in s.db.rows && s.db.rows[k].status == Processing && s.db.rows[k].leaseUntil == Some(end)
  }

  /** The lease that ends at this time is given up: an outcome, a replay, or a claim not before its end. */
  ghost predicate EndsLease(s: Sys, a: Action, k: TaskKey, end: int) {
    || Records(s, a, k)
    || Replays(s, a, k)
    || (a.DoClaim? && ValidInput(a.input) && WinsClaim(s, a, k) && end <= a.input.now)
  }

  lemma ClaimKeepsLease(s: Sys, c: ClaimInput, t: Sys, k: TaskKey, end: int)
    requires Inv(s) && Step(s, DoClaim(c), t) && IsLeased(s, k, end) && !EndsLease(s, DoClaim(c), k, end)
    ensures IsLeased(t, k, end) && !WinsClaim(s, DoClaim(c), k)
  {
    hide Parsed, ReadsBack, WellFormed, Verdict, RowOk, NewRow, Inv;
    if KeyOf(c.task) == k {
      ClaimInRowFields(s, c);
    }
  }

  lemma StepKeepsLease(s: Sys, a: Action, t: Sys, k: TaskKey, end: int)
    requires Inv(s) && Step(s, a, t) && IsLeased(s, k, end) && !EndsLease(s, a, k, end)
    ensures IsLeased(t, k, end)
    ensures a.DoClaim? ==> !WinsClaim(s, a, k)
  {
    hide RetryDelay, Parsed, ReadsBack, WellFormed, Verdict, RowOk, NewRow, Claim, ClaimResult;
    if a.DoClaim? {
      ClaimKeepsLease(s, a.input, t, k, end);
    } else if a.DoFail? {
      FailKeepsKey(a.lease, a.message, a.clock, a.baseMs, a.maxMs);
    }
  }

  lemma WonClaimLeases(s: Sys, a: Action, t: Sys, k: TaskKey)
    requires Inv(s) && Step(s, a, t) && WinsClaim(s, a, k)
    ensures IsLeased(t, k, a.input.now + a.input.leaseMs)
  {
    hide Parsed, ReadsBack, WellFormed, Verdict, RowOk, NewRow;
  }

  lemma {:induction false} LeaseStays(states: seq<Sys>, actions: seq<Action>, i: nat, j: nat, k: TaskKey, end: int)
    requires IsRun(states, actions) && i <= j < |states| && IsLeased(states[i], k, end)
    requires forall m | i <= m < j :: !EndsLease(states[m], actions[m], k, end)
    ensures IsLeased(states[j], k, end)
    decreases j
  {
    hide Step, IsLeased, EndsLease;
    if i < j {
      LeaseStays(states, actions, i, j - 1, k, end);
      RunKeeps(states, actions, j - 1);
      hide Inv;
      StepKeepsLease(states[j - 1], actions[j - 1], states[j], k, end);
    }
  }

  /**
   No lease is stolen: between two won claims of one key an outcome was recorded, the task was replayed,
   or a claim was made at or after the time at which the first claim's lease ended.
   */
  lemma NoLeaseIsStolen(states: seq<Sys>, actions: seq<Action>, i: nat, j: nat, k: TaskKey)
    requires IsRun(states, actions) && i < j < |actions|
    requires actions[i].DoClaim? && ValidInput(actions[i].input) && WinsClaim(states[i], actions[i], k)
    requires actions[j].DoClaim? && ValidInput(actions[j].input) && WinsClaim(states[j], actions[j], k)
    ensures exists m :: i < m <= j &&
              EndsLease(states[m], actions[m], k, actions[i].input.now + actions[i].input.leaseMs)
  {
    hide WinsClaim, EndsLease, IsLeased, Step, ValidInput, Inv;
    var end := actions[i].input.now + actions[i].input.leaseMs;
    if forall m | i < m <= j :: !EndsLease(states[m], actions[m], k, end) {
      RunKeeps(states, actions, i);
      WonClaimLeases(states[i], actions[i], states[i + 1], k);
      LeaseStays(states, actions, i + 1, j, k, end);
      RunKeeps(states, actions, j);
      StepKeepsLease(states[j], actions[j], states[j + 1], k, end);
    }
  }

  /** Within a generation the end of a lease does not move. */
  lemma {:induction false} LeaseEndStays(states: seq<Sys>, actions: seq<Action>, i: nat, j: nat, k: TaskKey, end: int)
    requires IsRun(states, actions) && i <= j < |states| && IsLeased(states[i], k, end)
    requires k in states[j].db.rows && states[j].db.rows[k].status == Processing
    requires states[j].db.rows[k].generation == states[i].db.rows[k].generation
    ensures IsLeased(states[j], k, end)
    decreases j
  {
    hide Step, Inv;
    if i < j {
      RunIsLater(states, actions, i, j - 1);
      RunIsLater(states, actions, j - 1, j);
      RunKeeps(states, actions, j - 1);
      StepResumesNone(states[j - 1], actions[j - 1], states[j]);
      LeaseEndStays(states, actions, i, j - 1, k, end);
      hide IsRun, Later, NoneResumed;
      assert k in states[j - 1].db.rows;
      GenerationEndsLease(states[j - 1], actions[j - 1], states[j], k, end);
    }
  }

  lemma GenerationEndsLease(s: Sys, a: Action, t: Sys, k: TaskKey, end: int)
    requires Inv(s) && Step(s, a, t) && IsLeased(s, k, end)
    requires k in t.db.rows && t.db.rows[k].status == Processing && t.db.rows[k].generation == s.db.rows[k].generation
    ensures IsLeased(t, k, end)
  {
    if EndsLease(s, a, k, end) {
      if Records(s, a, k) {
        RecordedIsNotProcessing(s, a, t, k);
      } else {
        GenerationsRise(s, a);
      }
    } else {
      StepKeepsLease(s, a, t, k, end);
    }
  }

  lemma LeaseIsOnRow(s: Sys, lease: LeasedTask)
    requires Inv(s) && lease in s.leases
    ensures var k := KeyOf(lease.task);
            k in s.db.rows && (s.db.rows[k].status == Processing && s.db.rows[k].generation == lease.generation ==>
                                 s.db.rows[k].data == Stored(lease.task))
  {
    assert LeaseOk(s.db, lease);
  }

  /** The lease a claim wins is on its row, and its task was ready at the claim's clock. */
  lemma WonClaimRow(s: Sys, c: ClaimInput)
    requires Inv(s) && ValidInput(c) && ClaimResult(s.db, c).Claimed?
    ensures var lease := ClaimResult(s.db, c).lease;
            var k := KeyOf(c.task);
            && KeyOf(lease.task) == k
            && k in Claim(s.db, c).rows
            && Claim(s.db, c).rows[k].generation == lease.generation
            && lease in Next(s, DoClaim(c)).leases
            && (lease.task.nextRetryAt == None || lease.task.nextRetryAt.value <= c.clock)
  {
    ClaimedRowOk(s, c);
    WonIsReady(LockedRow(s.db, c), c);
    hide Verdict, RowOk, NewRow;
  }

  lemma WonIsReady(row: Row, c: ClaimInput)
    requires WellFormed(c.task.payload) && Verdict(row, c).Claimed?
    ensures var t := Verdict(row, c).lease.task.nextRetryAt; t == None || t.value <= c.clock
  {
  }

  /** As long as the row is of a won lease, it keeps that lease's end and a task that was ready. */
  lemma WonRowLater(states: seq<Sys>, actions: seq<Action>, i: nat, j: nat, k: TaskKey)
    requires IsRun(states, actions) && i < j < |states|
    requires actions[i].DoClaim? && ValidInput(actions[i].input) && WinsClaim(states[i], actions[i], k)
    requires k in states[j].db.rows && states[j].db.rows[k].status == Processing
    requires states[j].db.rows[k].generation == ClaimResult(states[i].db, actions[i].input).lease.generation
    ensures var c := actions[i].input;
            var row := states[j].db.rows[k];
            && IsLeased(states[j], k, c.now + c.leaseMs)
            && row.data.Stored?
            && (row.data.task.nextRetryAt == None || row.data.task.nextRetryAt.value <= c.clock)
  {
    hide Inv, Step, ClaimResult, Parsed, ReadsBack, WellFormed, IsLeased, Later;
    RunKeeps(states, actions, i);
    RunKeeps(states, actions, j);
    assert Step(states[i], actions[i], states[i + 1]);
    WonStep(states[i], actions[i], states[i + 1], k);
    LeaseEndStays(states, actions, i + 1, j, k, actions[i].input.now + actions[i].input.leaseMs);
    LeaseIsRemembered(states, actions, i + 1, j, ClaimResult(states[i].db, actions[i].input).lease);
    hide IsRun;
    LeaseIsOnRow(states[j], ClaimResult(states[i].db, actions[i].input).lease);
  }

  lemma LeaseIsRemembered(states: seq<Sys>, actions: seq<Action>, i: nat, j: nat, lease: LeasedTask)
    requires IsRun(states, actions) && i <= j < |states| && lease in states[i].leases
    ensures lease in states[j].leases
  {
    hide IsRun;
    RunIsLater(states, actions, i, j);
  }

  lemma WonStep(s: Sys, a: Action, t: Sys, k: TaskKey)
    requires Inv(s) && Step(s, a, t) && a.DoClaim? && ValidInput(a.input) && WinsClaim(s, a, k)
    ensures var lease := ClaimResult(s.db, a.input).lease;
            && IsLeased(t, k, a.input.now + a.input.leaseMs)
            && KeyOf(lease.task) == k && lease in t.leases && t.db.rows[k].generation == lease.generation
            && (lease.task.nextRetryAt == None || lease.task.nextRetryAt.value <= a.input.clock)
  {
    hide Inv, Claim, ClaimResult, Parsed, ReadsBack, WellFormed;
    WonClaimLeases(s, a, t, k);
    WonClaimRow(s, a.input);
  }

  // ---------------------------------------------------------------- a task can be carried through

  /** An execution within its lease takes effect, with the handler's result and the row's identity on record. */
  lemma ExecutionTakesEffect(s: Sys, lease: LeasedTask, result: Json, now: int)
    requires Inv(s) && lease in s.leases && OwnsLease(s.db, lease, now)
    ensures var k := KeyOf(lease.task);
            var t := Next(s, DoExecute(lease, Some(result), now));
            && t.effects == s.effects + [k]
            && k in t.db.rows && t.db.rows[k].status == Succeeded
            && k in t.db.receipts
            && t.db.receipts[k] == Receipt(lease.task.taskId, k.group, lease.task.taskType, t.db.rows[k].hash, result)
            && t.db.rows == s.db.rows[k := t.db.rows[k]] && t.db.isolated == s.db.isolated
  {
    OwnerHasNoReceipt(s, lease, now);
    LeaseHash(s, lease);
    hide Inv;
    DoneNext(s, lease, result, now);
  }

  /** A task that is claimed and handled within its lease takes effect. */
  lemma LeasedTaskTakesEffect(s: Sys, c: ClaimInput, result: Json, now: int)
    requires Inv(s) && ValidInput(c) && ClaimResult(s.db, c).Claimed? && now < c.now + c.leaseMs
    ensures var k := KeyOf(c.task);
            var t := Next(Next(s, DoClaim(c)), DoExecute(ClaimResult(s.db, c).lease, Some(result), now));
            && t.effects == s.effects + [k]
            && k in t.db.rows && t.db.rows[k].status == Succeeded
            && k in t.db.receipts && t.db.receipts[k].result == result
            && t.db.rows.Keys == s.db.rows.Keys + {k} && t.db.isolated == s.db.isolated && Inv(t)
  {
    hide Verdict, RowOk, NewRow, Inv, Parsed, ReadsBack, WellFormed, OwnsLease, ClaimResult;
    var u := Next(s, DoClaim(c));
    var lease := ClaimResult(s.db, c).lease;
    LeaseLastsExactly(s, c, now);
    WonClaimRow(s, c);
    ClaimKeeps(s, c);
    ClaimAddsKey(s, c);
    hide Claim, Next;
    ExecuteKeeps(u, lease, Some(result), now);
    ExecutionTakesEffect(u, lease, result, now);
  }

  lemma ClaimAddsKey(s: Sys, c: ClaimInput)
    requires WellFormed(c.task.payload) && ClaimResult(s.db, c).Claimed?
    ensures var u := Next(s, DoClaim(c));
            && u.db == Claim(s.db, c) && u.effects == s.effects && u.db.isolated == s.db.isolated
            && u.db.rows.Keys == s.db.rows.Keys + {KeyOf(c.task)}
  {
    hide Verdict, WellFormed, NewRow;
  }

  /**
   Tasks of different keys do not stand in each other's way: from any state two new ones can both take
   effect, one after the other.
   */
  lemma TwoKeysTakeEffect(s: Sys, c: ClaimInput, d: ClaimInput, r: Json, q: Json)
    requires Inv(s) && ValidInput(c) && ValidInput(d) && KeyOf(c.task) != KeyOf(d.task)
    requires KeyOf(c.task) !in s.db.rows && KeyOf(d.task) !in s.db.rows
    requires KeyOf(c.task) !in s.db.isolated && KeyOf(d.task) !in s.db.isolated
    requires !c.task.payload.Undefined? && c.task.nextRetryAt == None && c.leaseMs > 0
    requires !d.task.payload.Undefined? && d.task.nextRetryAt == None && d.leaseMs > 0
    ensures exists states: seq<Sys>, actions: seq<Action> :: IsPath(s, states, actions) &&
              states[|states| - 1].effects == s.effects + [KeyOf(c.task), KeyOf(d.task)]
  {
    hide Verdict, RowOk, NewRow, Inv, Parsed, ReadsBack, WellFormed, OwnsLease, Claim, Next, ClaimResult;
    NewKeyIsClaimed(s, c);
    LeasedTaskTakesEffect(s, c, r, c.now);
    WonClaimRow(s, c);
    var a0, a1 := DoClaim(c), DoExecute(ClaimResult(s.db, c).lease, Some(r), c.now);
    var s1 := Next(s, a0);
    var s2 := Next(s1, a1);
    NewKeyIsClaimed(s2, d);
    LeasedTaskTakesEffect(s2, d, q, d.now);
    WonClaimRow(s2, d);
    var a2, a3 := DoClaim(d), DoExecute(ClaimResult(s2.db, d).lease, Some(q), d.now);
    var s3 := Next(s2, a2);
    var s4 := Next(s3, a3);
    var states, actions := [s, s1, s2, s3, s4], [a0, a1, a2, a3];
    assert IsPath(s, states, actions);
    assert states[|states| - 1] == s4;
    assert s.effects + [KeyOf(c.task)] + [KeyOf(d.task)] == s.effects + [KeyOf(c.task), KeyOf(d.task)];
  }

  /** The actions lead from s through the states. */
  ghost predicate IsPath(s: Sys, states: seq<Sys>, actions: seq<Action>) {
    && |states| == |actions| + 1
    && states[0] == s
    && forall i | 0 <= i < |actions| :: Step(states[i], actions[i], states[i + 1])
  }

  lemma InvRow(s: Sys, k: TaskKey)
    requires Inv(s) && k in s.db.rows
    ensures RowOk(k, s.db.rows[k])
  {
  }

  lemma ReplayOpens(db: Db, k: TaskKey)
    requires k in db.rows && k !in db.isolated && RowOk(k, db.rows[k])
    requires db.rows[k].status == Failed || db.rows[k].status == DeadLetter
    ensures var after := Replay(db, k);
            && k in after.rows && k !in after.isolated && after.rows[k].hash == db.rows[k].hash
            && after.rows[k].status == Pending
            && after.rows[k].data.Stored? && after.rows[k].data.task.nextRetryAt == None
            && after.rows[k].data.task.attemptCount == 1
  {
    hide EnvelopeOk;
  }

  /** A dead or failed task that is not isolated can be replayed, and is then claimed at once, at any time. */
  lemma ReplayedTaskIsClaimed(s: Sys, k: TaskKey, c: ClaimInput)
    requires Inv(s) && ValidInput(c) && KeyOf(c.task) == k && k in s.db.rows && s.db.rows[k].hash == TaskHash(c.task)
    requires (s.db.rows[k].status == Failed || s.db.rows[k].status == DeadLetter) && k !in s.db.isolated
    ensures ClaimResult(Replay(s.db, k), c).Claimed?
  {
    hide RowOk, Inv, ClaimResult, Replay, PayloadHash, Parsed, ReadsBack, WellFormed;
    InvRow(s, k);
    ReplayKeeps(s, k);
    ReplayOpens(s.db, k);
    ClaimInRowFields(Next(s, DoReplay(k)), c);
  }

  /** A task can be replayed exactly when it has failed, for a time or for good, and has not been isolated. */
  lemma ReplayedExactlyWhenFailed(states: seq<Sys>, actions: seq<Action>, i: nat, k: TaskKey)
    requires IsRun(states, actions) && i < |states|
    ensures CanReplay(states[i].db, k) <==>
            && k in states[i].db.rows && k !in states[i].db.isolated
            && (states[i].db.rows[k].status == Failed || states[i].db.rows[k].status == DeadLetter)
  {
    RunKeeps(states, actions, i);
    if k in states[i].db.rows {
      assert RowOk(k, states[i].db.rows[k]);
    }
  }

  /** A finished row with its envelope is emptied by retention exactly when it is old and has expired. */
  lemma EmptiedExactlyWhenOutdated(states: seq<Sys>, actions: seq<Action>, i: nat, k: TaskKey, before: int, now: int)
    requires IsRun(states, actions) && i < |states| && k in states[i].db.rows
    ensures var row := states[i].db.rows[k];
            Compactable(row, before, now) <==>
              (row.status == Succeeded || row.status == Canceled) && row.data.Stored? &&
              row.createdAt < before && row.expiresAt <= now
  {
    RunKeeps(states, actions, i);
    assert RowOk(k, states[i].db.rows[k]);
  }
}
