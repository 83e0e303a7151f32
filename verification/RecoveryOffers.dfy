/**
 Which rows the recovery scan offers, in terms of the rows: exactly the ones a claim of their recovered
 message would win, so that abandoned, failed and forgotten tasks all come back.
 */
module RecoveryOffers {
  import opened Common
  import opened CanonicalJson
  import opened AsyncTask
  import opened TaskStore
  import opened TaskRuns
  import opened TaskAnswers
  import opened PostgresTaskStore
  import opened RecoveryScan
  import Recovery

  /** The source position of the row's message is in quarantine, for another reason than a conflict. */
  predicate IsWithheld(db: Db, row: Row) {
    row.data.Stored? &&
    var source := row.data.task.source;
    var p := SourcePosition(row.scope, source.topic, source.partition, source.offset);
    p in db.quarantine && (db.quarantine[p] == InvalidMessage || db.quarantine[p] == IdempotencyUnverifiable)
  }

  /** The scan selects the row and returns it when it reaches it. */
  predicate IsOffered(db: Db, k: TaskKey, now: int, clock: int) {
    k in db.rows && Eligible(db, k, now) && Due(k, db.rows[k], k.group, clock)
  }

  lemma OfferedInRowFields(s: Sys, k: TaskKey, now: int, clock: int)
    requires Inv(s) && k in s.db.rows
    ensures IsOffered(s.db, k, now, clock) <==>
              k !in s.db.isolated && !IsWithheld(s.db, s.db.rows[k]) && IsOpen(s.db.rows[k], now, clock)
  {
    hide WellFormed, PayloadHash, StoredTask, WellIdentified;
    var row := s.db.rows[k];
    assert RowOk(k, row);
    if row.data.Stored? {
      EnvelopeIsStoredTask(k, row);
    }
  }

  /** In every reachable state the scan offers exactly the open rows that are neither isolated nor withheld. */
  lemma OfferedExactlyWhenOpen(states: seq<Sys>, actions: seq<Action>, i: nat, k: TaskKey, now: int, clock: int)
    requires IsRun(states, actions) && i < |states| && k in states[i].db.rows
    ensures var db := states[i].db;
            IsOffered(db, k, now, clock) <==>
              k !in db.isolated && !IsWithheld(db, db.rows[k]) && IsOpen(db.rows[k], now, clock)
  {
    RunKeeps(states, actions, i);
    OfferedInRowFields(states[i], k, now, clock);
  }

  /**
   The scan and claim agree: a row that is neither isolated nor withheld is offered at a time if and only
   if claiming the message recovered from it at that time is won.
   */
  lemma OfferedExactlyWhenClaimable(
    states: seq<Sys>, actions: seq<Action>, i: nat, k: TaskKey, attempts: nat, dates: Dates, c: ClaimInput)
    requires IsRun(states, actions) && i < |states|
    requires k in states[i].db.rows && states[i].db.rows[k].data.Stored?
    requires k !in states[i].db.isolated && !IsWithheld(states[i].db, states[i].db.rows[k])
    requires ValidInput(c)
    requires ParseMessage(Recovery.RecoveredMessage(states[i].db.rows[k].data.task), k.group, c.clock, attempts, dates)
             == Some(c.task)
    ensures IsOffered(states[i].db, k, c.now, c.clock) <==> ClaimResult(states[i].db, c).Claimed?
  {
    hide ParseMessage, Recovery.RecoveredMessage, ValidInput, IsOffered, IsOpen, IsWithheld, WellFormed;
    Recovery.RecoveryRoundTrip(states, actions, i, k, c.clock, attempts, dates, c);
    OfferedExactlyWhenOpen(states, actions, i, k, c.now, c.clock);
    ClaimedExactlyWhenOpen(states, actions, i, c);
  }

  predicate IsBehindFullPage(db: Db, page: seq<TaskKey>, budget: nat, k: TaskKey)
    requires k in db.rows && forall j | j in page :: j in db.rows
  {
    |page| == budget > 0 && Before(PositionOf(page[budget - 1], db.rows[page[budget - 1]]), PositionOf(k, db.rows[k]))
  }

  /**
   On the page itself: a row within the scan's window is on the page and due exactly when it is open,
   unless a full page ends before it.
   */
  lemma PageHoldsExactlyTheOpenRows(states: seq<Sys>, actions: seq<Action>, i: nat, scan: Scan, now: int, budget: nat,
      page: seq<TaskKey>, clock: int, k: TaskKey)
    requires IsRun(states, actions) && i < |states| && k in states[i].db.rows
    requires PageOf(states[i].db, k.group, scan, now, budget, page)
    requires var p := PositionOf(k, states[i].db.rows[k]); Behind(scan.after, p) && AtMost(p, scan.through)
    requires !IsBehindFullPage(states[i].db, page, budget, k)
    ensures var db := states[i].db;
            (k in page && Due(k, db.rows[k], k.group, clock)) <==>
              k !in db.isolated && !IsWithheld(db, db.rows[k]) && IsOpen(db.rows[k], now, clock)
  {
    OfferedExactlyWhenOpen(states, actions, i, k, now, clock);
    RunKeeps(states, actions, i);
    assert RowOk(k, states[i].db.rows[k]);
    hide IsRun, Inv, RowOk, Eligible, Due, IsOpen, IsWithheld, PositionOf, Before, Behind, AtMost;
    assert IsOffered(states[i].db, k, now, clock) ==> Selected(states[i].db, k.group, scan, now, k);
  }

  /**
   A task whose worker never returns is offered again: from the end of the lease on, whatever else has
   happened in between, as long as the row is still of that lease and neither isolated nor withheld.
   */
  lemma AbandonedTaskIsOffered(states: seq<Sys>, actions: seq<Action>, i: nat, j: nat, k: TaskKey, now: int, clock: int)
    requires IsRun(states, actions) && i < j < |states|
    requires actions[i].DoClaim? && ValidInput(actions[i].input) && WinsClaim(states[i], actions[i], k)
    requires k in states[j].db.rows && states[j].db.rows[k].status == Processing
    requires states[j].db.rows[k].generation == ClaimResult(states[i].db, actions[i].input).lease.generation
    requires k !in states[j].db.isolated && !IsWithheld(states[j].db, states[j].db.rows[k])
    requires actions[i].input.now + actions[i].input.leaseMs <= now && actions[i].input.clock <= clock
    ensures IsOffered(states[j].db, k, now, clock)
  {
    hide Inv, IsOffered, IsWithheld, ClaimResult, Step, Parsed, ReadsBack;
    RunKeeps(states, actions, j);
    WonRowLater(states, actions, i, j, k);
    hide IsRun, ValidInput;
    OfferedInRowFields(states[j], k, now, clock);
  }

  predicate IsDead(task: Envelope) {
    task.attemptCount >= task.maxAttempts
  }

  lemma FailedRow(s: Sys, a: Action, k: TaskKey, t: Sys)
    requires Step(s, a, t) && a.DoFail? && Records(s, a, k)
    ensures k in t.db.rows && t.db.rows[k].data.Stored?
    ensures t.db.rows[k].status == if IsDead(a.lease.task) then DeadLetter else Failed
    ensures t.db.rows[k].data.task.nextRetryAt ==
            Some(if IsDead(a.lease.task) then a.clock
                 else a.clock + RetryDelay(a.lease.task.attemptCount + 1, a.baseMs, a.maxMs))
  {
    hide RetryDelay;
  }

  /**
   A failed task is offered from its next attempt on, which is one retry delay behind the time its failure
   was recorded at; a dead one is never offered.
   */
  lemma FailedTaskIsOffered(s: Sys, a: Action, k: TaskKey, t: Sys, now: int, clock: int)
    requires Inv(s) && Step(s, a, t) && a.DoFail? && Records(s, a, k)
    ensures k in t.db.rows && t.db.rows[k].status == if IsDead(a.lease.task) then DeadLetter else Failed
    ensures IsDead(a.lease.task) ==> !IsOffered(t.db, k, now, clock)
    ensures !IsDead(a.lease.task) && k !in t.db.isolated && !IsWithheld(t.db, t.db.rows[k]) ==>
              (IsOffered(t.db, k, now, clock) <==>
                 a.clock + RetryDelay(a.lease.task.attemptCount + 1, a.baseMs, a.maxMs) <= clock)
  {
    hide Inv, Step, IsOffered, IsWithheld, RetryDelay, Records, IsDead;
    StepKeeps(s, a, t);
    FailedRow(s, a, k, t);
    OfferedInRowFields(t, k, now, clock);
  }
}
