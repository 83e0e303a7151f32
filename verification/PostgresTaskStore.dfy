/**
 The store object of createPostgresAsyncTaskStore: its methods change the tables statement by
 statement and roll back when they throw. Each is proved to be the transaction it stands for.
 */
module PostgresTaskStore {
  import opened Common
  import opened CanonicalJson
  import opened AsyncTask
  import opened Tables = TaskStore
  import opened RecoveryScan
  import Recovery

  /** Where a row stands in the scan order. */
  function PositionOf(k: TaskKey, row: Row): Position {
    Position(row.createdAt, RowKey(k))
  }

  /** The scan returns this row when it reaches it. */
  predicate Due(k: TaskKey, row: Row, group: Text, clock: int) {
    && Reconstructs(row.data, k, group)
    && (row.data.task.nextRetryAt.None? || row.data.task.nextRetryAt.value <= clock)
  }

  function Items(rows: map<TaskKey, Row>, page: seq<TaskKey>, group: Text, clock: int): (items: seq<Item>)
    requires forall k | k in page :: k in rows
    ensures |items| == |page|
    ensures forall i | 0 <= i < |page| ::
              items[i] == Item(PositionOf(page[i], rows[page[i]]), Due(page[i], rows[page[i]], group, clock))
  {
    seq(|page|, i requires 0 <= i < |page| =>
      Item(PositionOf(page[i], rows[page[i]]), Due(page[i], rows[page[i]], group, clock)))
  }

  /** A row the page query of this scan selects. */
  ghost predicate Selected(db: Db, group: Text, scan: Scan, now: int, k: TaskKey) {
    && Eligible(db, k, now)
    && db.rows[k].scope == group
    && Behind(scan.after, PositionOf(k, db.rows[k]))
    && AtMost(PositionOf(k, db.rows[k]), scan.through)
  }

  /** The page query: the first budget selected rows in order. */
  ghost predicate PageOf(db: Db, group: Text, scan: Scan, now: int, budget: nat, page: seq<TaskKey>) {
    && |page| <= budget
    && (forall i | 0 <= i < |page| :: Selected(db, group, scan, now, page[i]))
    && (forall i, j | 0 <= i < j < |page| ::
          Before(PositionOf(page[i], db.rows[page[i]]), PositionOf(page[j], db.rows[page[j]])))
    && (forall k | Selected(db, group, scan, now, k) :: k in page ||
          (|page| == budget > 0 && Before(PositionOf(page[budget - 1], db.rows[page[budget - 1]]),
              PositionOf(k, db.rows[k]))))
  }

  lemma PageIsInTable(db: Db, group: Text, scan: Scan, now: int, budget: nat, page: seq<TaskKey>)
    requires PageOf(db, group, scan, now, budget, page)
    ensures |page| <= budget && forall k | k in page :: k in db.rows
  {
  }

  /** The rows of the page from index i on that the scan takes, in order. */
  function TakeFrom(rows: map<TaskKey, Row>, page: seq<TaskKey>, i: nat, group: Text, clock: int,
      limit: nat): (keys: seq<TaskKey>)
    requires i <= |page| && forall k | k in page :: k in rows
    ensures forall k | k in keys :: k in page && Due(k, rows[k], group, clock)
    decreases |page| - i
  {
    if i == |page| || limit == 0 then []
    else if Due(page[i], rows[page[i]], group, clock)
    then [page[i]] + TakeFrom(rows, page, i + 1, group, clock, limit - 1)
    else TakeFrom(rows, page, i + 1, group, clock, limit)
  }

  /** The messages of a list of rows. */
  function Messages(rows: map<TaskKey, Row>, keys: seq<TaskKey>): seq<ConsumerMessage>
    requires forall k | k in keys :: k in rows && rows[k].data.Stored?
  {
    if keys == [] then []
    else Messages(rows, keys[..|keys| - 1]) + [Recovery.RecoveredMessage(rows[keys[|keys| - 1]].data.task)]
  }

  lemma TakeStep(rows: map<TaskKey, Row>, page: seq<TaskKey>, i: nat, group: Text, clock: int, limit: nat,
                 taken: seq<TaskKey>, all: seq<TaskKey>)
    requires i < |page| && limit > 0 && forall k | k in page :: k in rows
    requires taken + TakeFrom(rows, page, i, group, clock, limit) == all
    ensures if Due(page[i], rows[page[i]], group, clock)
            then taken + [page[i]] + TakeFrom(rows, page, i + 1, group, clock, limit - 1) == all
            else taken + TakeFrom(rows, page, i + 1, group, clock, limit) == all
  {
    hide Due;
  }

  lemma NoneLeft(rows: map<TaskKey, Row>, page: seq<TaskKey>, i: nat, group: Text, clock: int, limit: nat)
    requires i <= |page| && forall k | k in page :: k in rows
    requires i == |page| || limit == 0
    ensures TakeFrom(rows, page, i, group, clock, limit) == []
  {
  }

  lemma MessagesGrow(rows: map<TaskKey, Row>, keys: seq<TaskKey>, k: TaskKey)
    requires forall j | j in keys + [k] :: j in rows && rows[j].data.Stored?
    ensures forall j | j in keys :: j in rows && rows[j].data.Stored?
    ensures Messages(rows, keys + [k]) == Messages(rows, keys) + [Recovery.RecoveredMessage(rows[k].data.task)]
    ensures |Messages(rows, keys)| == |keys|
  {
    assert forall j | j in keys :: j in keys + [k];
    assert (keys + [k])[..|keys|] == keys;
    MessagesLength(rows, keys);
  }

  lemma NoMessages(rows: map<TaskKey, Row>)
    ensures Messages(rows, []) == []
  {
  }

  lemma {:induction false} MessagesLength(rows: map<TaskKey, Row>, keys: seq<TaskKey>)
    requires forall j | j in keys :: j in rows && rows[j].data.Stored?
    ensures |Messages(rows, keys)| == |keys|
  {
    if keys != [] {
      MessagesLength(rows, keys[..|keys| - 1]);
    }
  }

  /** Isolation only adds rows of the page that cannot be reconstructed. */
  ghost predicate IsolatesUnreadable(before: map<TaskKey, Row>, after: map<TaskKey, Row>, rows: map<TaskKey, Row>,
                                     page: seq<TaskKey>, group: Text)
  {
    && (forall k | k in before :: k in after && after[k] == before[k])
    && (forall k | k in after && k !in before ::
         k in page && k in rows && after[k] == rows[k] && !Reconstructs(rows[k].data, k, group))
  }

  lemma NothingIsolated(isolated: map<TaskKey, Row>, rows: map<TaskKey, Row>, page: seq<TaskKey>, group: Text)
    ensures IsolatesUnreadable(isolated, isolated, rows, page, group)
  {
  }

  lemma IsolatesOneMore(before: map<TaskKey, Row>, mid: map<TaskKey, Row>, after: map<TaskKey, Row>,
      rows: map<TaskKey, Row>,
                        page: seq<TaskKey>, group: Text, k: TaskKey)
    requires IsolatesUnreadable(before, mid, rows, page, group) && k in page && k in rows
    requires after == mid || (!Reconstructs(rows[k].data, k, group) && k !in mid && after == mid[k := rows[k]])
    ensures IsolatesUnreadable(before, after, rows, page, group)
  {
    hide Reconstructs;
  }

  const PAGE_BUDGET := 100

  /** Retention leaves a row alone, or takes the envelope of one that is finished, hashed and out of date. */
  predicate OnlyEmptied(before: Row, after: Row, cutoff: int, now: int) {
    || after == before
    || (after.data.Compacted?
        && after == before.(data := after.data)
        && (before.status.Succeeded? || before.status.Canceled?)
        && before.hash.V2?
        && before.createdAt < cutoff && before.expiresAt <= now)
  }

  class Store {
    var rows: map<TaskKey, Row>
    var receipts: map<TaskKey, Receipt>
    var isolated: map<TaskKey, Row>
    var quarantine: map<SourcePosition, QuarantineCode>
    var recoveryScans: map<Text, Scan>

    function View(): Db
      reads this
    {
      Db(rows, receipts, isolated, quarantine)
    }

    constructor ()
      ensures View() == Db(map[], map[], map[], map[]) && recoveryScans == map[]
    {
      rows, receipts, isolated, quarantine, recoveryScans := map[], map[], map[], map[], map[];
    }

    /** What the body of claim's transaction decides once the row is locked; some outcomes are thrown. */
    method DecideClaim(row: Row, c: ClaimInput) returns (r: ClaimOutcome)
      requires WellFormed(c.task.payload)
      ensures r == if KeyOf(c.task) in isolated then Unverifiable else Verdict(row, c)
    {
      hide WellFormed, PayloadHash, ParseIdentifier;
      var k := KeyOf(c.task);
      var hash := TaskHash(c.task);
      if k in isolated {
        return Unverifiable;
      }
      var terminal := row.status.Succeeded? || row.status.DeadLetter? || row.status.Canceled?;
      if row.hash.UnsupportedDigest? {
        return Unverifiable;
      }
      var legacy := row.hash.Legacy?;
      if !legacy && row.hash != hash {
        return Conflict;
      }
      if terminal && row.data.Compacted? {
        if legacy && c.legacyText != row.hash.preimage {
          return Unverifiable;
        }
        return Terminal(c.task);
      }
      if !StoredTask(row.data, false) {
        return Unverifiable;
      }
      var stored := row.data.task;
      if TaskHash(stored) != hash {
        return Conflict;
      }
      if KeyOf(stored) != k {
        return Unverifiable;
      }
      if terminal {
        return Terminal(c.task);
      }
      if row.status.Processing? && row.leaseUntil.Some? && row.leaseUntil.value > c.now {
        return Deferred(stored, row.leaseUntil.value);
      }
      if stored.nextRetryAt.Some? && stored.nextRetryAt.value > c.clock {
        return Deferred(stored, stored.nextRetryAt.value);
      }
      var task := stored.(status := Running, lockedBy := Some(c.worker), updatedAt := c.clock);
      return Claimed(LeasedTask(task, row.generation + 1, row.hash));
    }

    /** claim: the insert, the lock, the decision and the update, rolled back when the decision is an error. */
    method Claim(c: ClaimInput) returns (r: ClaimOutcome)
      requires ValidInput(c)
      modifies this
      ensures r == ClaimResult(old(View()), c) && View() == Tables.Claim(old(View()), c)
      ensures recoveryScans == old(recoveryScans)
    {
      hide WellFormed, PayloadHash, ParseIdentifier, Parsed, ReadsBack, Verdict;
      var k := KeyOf(c.task);
      var committed := rows;
      if k !in rows {
        rows := rows[k := NewRow(c)];
      }
      var row := rows[k];
      r := DecideClaim(row, c);
      if Throws(r) {
        rows := committed;
      } else if r.Claimed? {
        rows := rows[k := row.(status := Processing, lockedBy := Some(c.worker), generation := r.lease.generation,
                               leaseUntil := Some(c.now + c.leaseMs), data := Stored(r.lease.task))];
      }
    }

    /** execute; the handler's result is None when the handler throws. */
    method Execute(lease: LeasedTask, result: Option<Json>, now: int) returns (r: ExecuteOutcome)
      modifies this
      ensures r == ExecuteResult(old(View()), lease, result, now)
      ensures View() == Tables.Execute(old(View()), lease, result, now)
      ensures recoveryScans == old(recoveryScans)
    {
      var k := KeyOf(lease.task);
      var owner := RequireLease(lease, now);
      if !owner {
        return Stale;
      }
      if result.None? {
        return HandlerThrew;
      }
      if k in receipts {
        return ReceiptExists;
      }
      receipts := receipts[k := Receipt(lease.task.taskId, lease.task.source.group, lease.task.taskType, lease.hash,
          result.value)];
      FinishRow(lease.task.(status := Succeeded, errorCode := None, errorMessage := None, nextRetryAt := None));
      return Done;
    }

    method Fail(failed: LeasedTask, now: int) returns (done: bool)
      modifies this
      ensures done == OwnsLease(old(View()), failed, now) && View() == Tables.Fail(old(View()), failed, now)
      ensures recoveryScans == old(recoveryScans)
    {
      done := RequireLease(failed, now);
      if done {
        FinishRow(failed.task);
      }
    }

    method RequireLease(lease: LeasedTask, now: int) returns (owner: bool)
      ensures owner == OwnsLease(View(), lease, now)
    {
      var k := KeyOf(lease.task);
      if k !in rows {
        return false;
      }
      var row := rows[k];
      return row.status.Processing? && row.lockedBy.Some? && row.lockedBy == lease.task.lockedBy &&
             row.generation == lease.generation && row.leaseUntil.Some? && row.leaseUntil.value > now;
    }

    method FinishRow(task: Envelope)
      requires KeyOf(task) in rows
      modifies this`rows
      ensures View() == Finish(old(View()), task)
    {
      var row := rows[KeyOf(task)];
      rows := rows[KeyOf(task) := row.(status := task.status, data := Stored(task), lockedBy := None,
          leaseUntil := None)];
    }

    method QuarantineMessage(m: ConsumerMessage, group: Text, code: QuarantineCode)
      modifies this`quarantine
      ensures View() == Quarantine(old(View()), m, group, code)
    {
      var p := SourcePosition(group, m.topic, m.partition, m.offset);
      if p !in quarantine {
        quarantine := quarantine[p := code];
      }
    }

    method Replay(group: Text, id: Text) returns (replayed: bool)
      modifies this`rows
      ensures replayed == CanReplay(old(View()), TaskKey(group, id))
      ensures View() == Tables.Replay(old(View()), TaskKey(group, id))
    {
      var k := TaskKey(group, id);
      if k !in rows || !(rows[k].status.Failed? || rows[k].status.DeadLetter?) || k in isolated ||
          !rows[k].data.Stored? {
        return false;
      }
      var row := rows[k];
      var task := row.data.task.(status := Pending, attemptCount := 1, nextRetryAt := None, errorCode := None,
          errorMessage := None);
      rows := rows[k := row.(status := Pending, data := Stored(task), generation := row.generation + 1,
                             lockedBy := None, leaseUntil := None)];
      return true;
    }

    /** Re-reads the locked row; gives its envelope if it can be reconstructed after all. */
    method IsolateInvalidRecovery(k: TaskKey, group: Text, now: int) returns (recovered: Option<Envelope>)
      modifies this`isolated
      ensures View() == Isolate(old(View()), k, group, now)
      ensures recovered.Some? ==> k in rows && Reconstructs(rows[k].data, k, group)
      ensures recovered.Some? ==> recovered.value == rows[k].data.task
    {
      if k !in rows || rows[k].scope != group || !Eligible(View(), k, now) {
        return None;
      }
      if Reconstructs(rows[k].data, k, group) {
        return Some(rows[k].data.task);
      }
      isolated := isolated[k := rows[k]];
      return None;
    }

    /**
     dueMessages. upper is the answer to the query for the last row of the group, page the answer to the
     page query; None is the thrown error of an invalid limit.
     */
    method DueMessages(group: Text, limit: int, upper: Option<Position>, page: seq<TaskKey>, now: int, clock: int)
      returns (messages: Option<seq<ConsumerMessage>>)
      requires limit > 0 && (group in recoveryScans || upper.Some?) ==>
                 PageOf(View(), group, if group in recoveryScans then recoveryScans[group] else Scan(None, upper.value),
                        now, Max(PAGE_BUDGET, limit), page)
      modifies this`recoveryScans, this`isolated
      ensures limit < 1 ==> messages == None && recoveryScans == old(recoveryScans) && isolated == old(isolated)
      ensures limit > 0 ==> messages.Some?
      ensures limit > 0 && group !in old(recoveryScans) && upper.None? ==>
                messages == Some([]) && recoveryScans == old(recoveryScans) && isolated == old(isolated)
      ensures limit > 0 && (group in old(recoveryScans) || upper.Some?) ==>
                var scan := if group in old(recoveryScans) then old(recoveryScans)[group] else Scan(None, upper.value);
                var keys := TakeFrom(rows, page, 0, group, clock, limit);
                var next := NextScan(scan, Items(rows, page, group, clock), Max(PAGE_BUDGET, limit));
                && messages == Some(Messages(rows, keys))
                && recoveryScans == (if next.Some? then old(recoveryScans)[group := next.value]
                     else old(recoveryScans) - {group})
      ensures IsolatesUnreadable(old(isolated), isolated, rows, page, group)
    {
      hide PageOf, TakeFrom, Messages, FirstDue, IsolatesUnreadable, RowKey, Reconstructs;
      NothingIsolated(isolated, rows, page, group);
      if limit < 1 {
        return None;
      }
      var scan;
      if group in recoveryScans {
        scan := recoveryScans[group];
      } else {
        if upper.None? {
          return Some([]);
        }
        scan := Scan(None, upper.value);
      }
      var budget := Max(PAGE_BUDGET, limit);
      PageIsInTable(View(), group, scan, now, budget, page);
      var taken, after, beforeFirst := ScanPage(group, limit, scan, page, now, clock);
      if |taken| > 0 {
        recoveryScans := recoveryScans[group := scan.(after := beforeFirst)];
      } else if |page| < budget {
        recoveryScans := recoveryScans - {group};
      } else {
        recoveryScans := recoveryScans[group := scan.(after := after)];
      }
      return Some(taken);
    }

    /** The loop of dueMessages: what it takes, where it ends and where it stood before its first message. */
    method ScanPage(group: Text, limit: nat, scan: Scan, page: seq<TaskKey>, now: int, clock: int)
      returns (taken: seq<ConsumerMessage>, after: Option<Position>, beforeFirst: Option<Position>)
      requires limit > 0 && forall k | k in page :: k in rows
      modifies this`isolated
      ensures taken == Messages(rows, TakeFrom(rows, page, 0, group, clock, limit))
      ensures var items := Items(rows, page, group, clock);
              var first := FirstDue(items);
              && (taken == [] <==> first == |items|)
              && (taken == [] ==> after == CursorAfter(scan, items, |items|))
              && (taken != [] ==> beforeFirst == CursorAfter(scan, items, first))
      ensures IsolatesUnreadable(old(isolated), isolated, rows, page, group)
    {
      hide Reconstructs, Recovery.RecoveredMessage, Eligible, RowKey, TakeFrom, FirstDue, IsolatesUnreadable, Isolate,
          Messages;
      ghost var items := Items(rows, page, group, clock);
      ghost var all := TakeFrom(rows, page, 0, group, clock, limit);
      ghost var keys: seq<TaskKey> := [];
      ghost var first := 0;
      after, beforeFirst, taken := scan.after, None, [];
      var i := 0;
      NothingIsolated(isolated, rows, page, group);
      NoMessages(rows);
      while i < |page| && |taken| < limit
        invariant 0 <= i <= |page| && |taken| <= limit && |keys| == |taken|
        invariant keys + TakeFrom(rows, page, i, group, clock, limit - |taken|) == all
        invariant (forall k | k in keys :: k in rows && rows[k].data.Stored?) && taken == Messages(rows, keys)
        invariant after == CursorAfter(scan, items, i)
        invariant 0 <= first <= i && forall j | 0 <= j < first :: !items[j].due
        invariant taken == [] ==> first == i
        invariant taken != [] ==> first < i && items[first].due && beforeFirst == CursorAfter(scan, items, first)
        invariant IsolatesUnreadable(old(isolated), isolated, rows, page, group)
      {
        var k := page[i];
        ghost var isolatedBefore := isolated;
        TakeStep(rows, page, i, group, clock, limit - |taken|, keys, all);
        var recovered := Recovered(k, group, now);
        IsolatesOneMore(old(isolated), isolatedBefore, isolated, rows, page, group, k);
        if recovered.Some? && (recovered.value.nextRetryAt.None? || recovered.value.nextRetryAt.value <= clock) {
          if |taken| == 0 {
            beforeFirst := after;
          }
          MessagesGrow(rows, keys, k);
          taken := taken + [Recovery.RecoveredMessage(recovered.value)];
          keys := keys + [k];
        } else if |taken| == 0 {
          first := i + 1;
        }
        after := Some(PositionOf(k, rows[k]));
        i := i + 1;
      }
      NoneLeft(rows, page, i, group, clock, limit - |taken|);
      assert keys + [] == keys;
    }

    /** The envelope of a row, or None once the row has been isolated. */
    method Recovered(k: TaskKey, group: Text, now: int) returns (recovered: Option<Envelope>)
      requires k in rows
      modifies this`isolated
      ensures recovered == if Reconstructs(rows[k].data, k, group) then Some(rows[k].data.task) else None
      ensures recovered.Some? ==> rows[k].data.Stored?
      ensures isolated == old(isolated) ||
                (!Reconstructs(rows[k].data, k, group) && k !in old(isolated) &&
                    isolated == old(isolated)[k := rows[k]])
    {
      if Reconstructs(rows[k].data, k, group) {
        recovered := Some(rows[k].data.task);
      } else {
        recovered := IsolateInvalidRecovery(k, group, now);
      }
    }

    /** The idempotency and receipts specs of runRetention, for the rows their queries select. */
    method Retain(keys: set<TaskKey>, finished: set<TaskKey>, before: int, now: int) returns (compacted: nat)
      requires CanCompact(View(), keys, before, now)
      modifies this`rows, this`receipts
      ensures View() == CompactReceipts(Compact(old(View()), keys), finished)
      ensures compacted == |keys|
      ensures rows.Keys == old(rows).Keys && forall k | k in rows :: OnlyEmptied(old(rows)[k], rows[k], before, now)
      ensures receipts.Keys == old(receipts).Keys
      ensures forall k | k in receipts :: receipts[k] == old(receipts)[k] ||
                (k in rows && (rows[k].status.Succeeded? || rows[k].status.Canceled?)
                 && receipts[k] == old(receipts)[k].(result := receipts[k].result))
    {
      rows := map k | k in rows :: if k in keys then rows[k].(data := Compacted) else rows[k];
      compacted := |keys|;
      receipts := map k | k in receipts ::
        if k in finished && k in rows && (rows[k].status.Succeeded? || rows[k].status.Canceled?)
        then receipts[k].(result := Obj([])) else receipts[k];
    }
  }

  /** The answer of the page query is a page of the scan, so the scan theorems apply to every call. */
  lemma QueryGivesPage(db: Db, group: Text, scan: Scan, now: int, budget: nat, page: seq<TaskKey>, clock: int)
    requires PageOf(db, group, scan, now, budget, page)
    ensures IsPage(scan, Items(db.rows, page, group, clock), budget)
  {
  }

  /** A row that is eligible and due is offered to the call, in the sense of EveryDueRowIsReturned. */
  lemma QueryOffersDueRows(db: Db, group: Text, scan: Scan, now: int, budget: nat, limit: nat, page: seq<TaskKey>,
      clock: int, k: TaskKey)
    requires PageOf(db, group, scan, now, budget, page)
    requires Eligible(db, k, now) && db.rows[k].scope == group && Due(k, db.rows[k], group, clock)
    ensures Call(scan, Items(db.rows, page, group, clock), budget, limit).Offers(PositionOf(k, db.rows[k]))
  {
    var items := Items(db.rows, page, group, clock);
    var p := PositionOf(k, db.rows[k]);
    if Behind(scan.after, p) && AtMost(p, scan.through) {
      assert Selected(db, group, scan, now, k);
      if k in page {
        var i :| 0 <= i < |page| && page[i] == k;
        assert items[i] == Item(p, true);
      }
    }
  }

  /** The rows taken from a page are the positions its scan takes. */
  lemma {:induction false} TakenKeysAreTaken(rows: map<TaskKey, Row>, page: seq<TaskKey>, i: nat, group: Text,
      clock: int, limit: nat)
    requires i <= |page| && forall k | k in page :: k in rows
    ensures var keys := TakeFrom(rows, page, i, group, clock, limit);
            var positions := TakeDue(Items(rows, page, group, clock)[i..], limit);
            |keys| == |positions| && forall j | 0 <= j < |keys| ::
                keys[j] in page && positions[j] == PositionOf(keys[j], rows[keys[j]])
    decreases |page| - i
  {
    hide Due, PositionOf;
    if i < |page| && limit > 0 {
      var items := Items(rows, page, group, clock);
      assert items[i..][1..] == items[i + 1..];
      TakenKeysAreTaken(rows, page, i + 1, group, clock, if items[i].due then limit - 1 else limit);
    }
  }
}
