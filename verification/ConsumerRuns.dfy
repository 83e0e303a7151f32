/**
 Any number of consumers of one group over the same partitions, interleaved with every other step on
 the store. Consumers crash, are reassigned, lose leases and see their commits fail or succeed late.
 */
module ConsumerRuns {
  import opened Common
  import opened CanonicalJson
  import opened AsyncTask
  import opened TaskStore
  import opened TaskRuns
  import opened Consumer

  datatype Partition = Partition(topic: Text, number: nat)

  /** Where a consumer stands with the record at its offset. */
  datatype Phase =
    | Fetched
    | ToQuarantine(code: QuarantineCode)
    | Holding(lease: LeasedTask)
    | ToFail(failed: LeasedTask)
    | Safe

  datatype Worker = Worker(partition: Partition, offset: nat, phase: Phase)

  /** values[p][i] is the parsed value of the record at offset i of partition p. */
  datatype World = World(
    store: Sys,
    values: map<Partition, seq<Option<Json>>>,
    committed: map<Partition, nat>,
    workers: map<Text, Worker>)

  datatype Move =
    | Produce(partition: Partition, value: Option<Json>)
    | Assign(worker: Text, partition: Partition)
    | Crash(worker: Text)
    | Receive(worker: Text, clock: int, attempts: nat, input: ClaimInput)
    | DoQuarantineRecord(worker: Text)
    | RunHandler(worker: Text, result: Option<Json>, now: int)
    | RecordFailure(worker: Text, message: Text, clock: int, baseMs: nat, maxMs: nat, now: int)
    | CommitOffset(worker: Text, acknowledged: bool)
    | Elsewhere(action: Action)

  function Record(w: World, p: Partition, offset: nat): ConsumerMessage
    requires p in w.values && offset < |w.values[p]|
  {
    ConsumerMessage(p.topic, p.number, offset, w.values[p][offset])
  }

  /** The consumer has a record to work on. */
  predicate HasRecord(w: World, id: Text) {
    && id in w.workers
    && w.workers[id].partition in w.values
    && w.workers[id].offset < |w.values[w.workers[id].partition]|
  }

  function Current(w: World, id: Text): ConsumerMessage
    requires HasRecord(w, id)
  {
    Record(w, w.workers[id].partition, w.workers[id].offset)
  }

  ghost predicate Possible(w: World, m: Move, group: Text, dates: Dates) {
    match m
    case Produce(_, value) => value.Some? ==> WellFormed(value.value)
    case Assign(_, p) => p in w.committed
    case Crash(_) => true
    case Receive(id, clock, attempts, input) =>
      && HasRecord(w, id)
      && w.workers[id].phase.Fetched?
      && var parsed := ParseMessage(Current(w, id), group, clock, attempts, dates);
      parsed.Some? ==> input.task == parsed.value && ValidInput(input)
    case DoQuarantineRecord(id) => HasRecord(w, id) && w.workers[id].phase.ToQuarantine?
    case RunHandler(id, _, _) => HasRecord(w, id) && w.workers[id].phase.Holding?
    case RecordFailure(id, _, _, _, _, _) => HasRecord(w, id) && w.workers[id].phase.ToFail?
    case CommitOffset(id, _) => HasRecord(w, id) && w.workers[id].phase.Safe?
    case Elsewhere(a) => Enabled(w.store, a)
  }

  function Enter(w: World, id: Text, phase: Phase): World
    requires id in w.workers
  {
    w.(workers := w.workers[id := w.workers[id].(phase := phase)])
  }

  function AfterClaim(r: ClaimOutcome): Phase {
    match r
    case Claimed(lease) => Holding(lease)
    case Terminal(_) => Safe
    case Deferred(_, _) => Fetched
    case Conflict => ToQuarantine(IdempotencyConflict)
    case Unverifiable => ToQuarantine(IdempotencyUnverifiable)
  }

  /** The store action a move performs, if any. */
  function StoreAction(w: World, m: Move, group: Text, dates: Dates): Option<Action> {
    match m
    case Receive(id, clock, attempts, input) =>
      if HasRecord(w, id) && ParseMessage(Current(w, id), group, clock, attempts, dates).Some?
      then Some(DoClaim(input)) else None
    case DoQuarantineRecord(id) =>
      if HasRecord(w, id) && w.workers[id].phase.ToQuarantine?
      then Some(DoQuarantine(Current(w, id), group, w.workers[id].phase.code)) else None
    case RunHandler(id, result, now) =>
      if id in w.workers && w.workers[id].phase.Holding?
      then Some(DoExecute(w.workers[id].phase.lease, result, now)) else None
    case RecordFailure(id, message, clock, baseMs, maxMs, now) =>
      if id in w.workers && w.workers[id].phase.ToFail?
      then Some(DoFail(w.workers[id].phase.failed, message, clock, baseMs, maxMs, now)) else None
    case Elsewhere(a) => Some(a)
    case _ => None
  }

  function StoreAfter(w: World, m: Move, group: Text, dates: Dates): Sys
    requires m.Receive? ==> WellFormed(m.input.task.payload)
    requires m.Elsewhere? && m.action.DoClaim? ==> WellFormed(m.action.input.task.payload)
  {
    match StoreAction(w, m, group, dates) case None => w.store case Some(a) => Next(w.store, a)
  }

  /** What a move does to the partitions and the consumers. */
  function Moved(w: World, m: Move, group: Text, dates: Dates): World
    requires m.Receive? ==> WellFormed(m.input.task.payload)
    requires !m.Produce? && !m.Assign? && !m.Crash? && !m.Elsewhere? ==> HasRecord(w, m.worker)
  {
    match m
    case Produce(p, value) =>
      w.(values := w.values[p := (if p in w.values then w.values[p] else []) + [value]],
         committed := if p in w.committed then w.committed else w.committed[p := 0])
    case Assign(id, p) =>
      if p in w.committed then w.(workers := w.workers[id := Worker(p, w.committed[p], Fetched)]) else w
    case Crash(id) => w.(workers := w.workers - {id})
    case Receive(id, clock, attempts, input) =>
      if ParseMessage(Current(w, id), group, clock, attempts, dates).None?
          then Enter(w, id, ToQuarantine(InvalidMessage))
      else Enter(w, id, AfterClaim(ClaimResult(w.store.db, input)))
    case DoQuarantineRecord(id) => Enter(w, id, Safe)
    case RunHandler(id, result, now) =>
      if !w.workers[id].phase.Holding? then w else
      var lease := w.workers[id].phase.lease;
      Enter(w, id, match ExecuteResult(w.store.db, lease, result, now)
                   case Done => Safe
                   case Stale => Fetched
                   case _ => ToFail(lease))
    case RecordFailure(id, message, clock, baseMs, maxMs, now) =>
      if !w.workers[id].phase.ToFail? then w else
      var lease := w.workers[id].phase.failed;
      if !OwnsLease(w.store.db, lease, now) then w.(workers := w.workers - {id})
      else Enter(w, id, if lease.task.attemptCount >= lease.task.maxAttempts then Safe else Fetched)
    case CommitOffset(id, acknowledged) =>
      var worker := w.workers[id];
      w.(committed := w.committed[worker.partition := worker.offset + 1],
         workers := if acknowledged then w.workers[id := worker.(offset := worker.offset + 1, phase := Fetched)]
                    else w.workers - {id})
    case Elsewhere(_) => w
  }

  ghost predicate WorldStep(w: World, m: Move, w': World, group: Text, dates: Dates) {
    && Possible(w, m, group, dates)
    && (m.Receive? ==> WellFormed(m.input.task.payload))
    && (m.Elsewhere? && m.action.DoClaim? ==> WellFormed(m.action.input.task.payload))
    && w' == Moved(w, m, group, dates).(store := StoreAfter(w, m, group, dates))
  }

  const BEGINNING := World(START, map[], map[], map[])

  ghost predicate IsHistory(worlds: seq<World>, moves: seq<Move>, group: Text, dates: Dates) {
    && |worlds| == |moves| + 1
    && worlds[0] == BEGINNING
    && forall i | 0 <= i < |moves| :: WorldStep(worlds[i], moves[i], worlds[i + 1], group, dates)
  }

  // ---------------------------------------------------------------- the invariant

  /** Every record of p below this offset is disposed of. */
  ghost predicate DisposedBelow(w: World, p: Partition, offset: nat, group: Text, dates: Dates) {
    && p in w.values
    && offset <= |w.values[p]|
    && forall i | 0 <= i < offset :: Disposed(w.store.db, Record(w, p, i), group, dates)
  }

  /** A consumer that works on a record has disposed of all earlier ones, and holds what its phase says. */
  ghost predicate WorkerOk(w: World, k: Worker, group: Text, dates: Dates) {
    && DisposedBelow(w, k.partition, k.offset, group, dates)
    && (k.phase.Fetched? || k.offset < |w.values[k.partition]|)
    && (k.phase.Safe? ==> Disposed(w.store.db, Record(w, k.partition, k.offset), group, dates))
    && (k.phase.Holding? || k.phase.ToFail? ==>
          && (if k.phase.Holding? then k.phase.lease else k.phase.failed) in w.store.leases
          && HasRow(w.store.db, Record(w, k.partition, k.offset), group, dates))
  }

  ghost predicate WorldOk(w: World, group: Text, dates: Dates) {
    && Inv(w.store)
    && (forall p | p in w.committed :: DisposedBelow(w, p, w.committed[p], group, dates))
    && (forall p | p in w.values :: p in w.committed && forall i | 0 <= i < |w.values[p]| :: Record(w, p, i).Valid())
    && (forall id | id in w.workers :: WorkerOk(w, w.workers[id], group, dates))
  }

  /** The store takes at most one step of its own, so its invariant and what it never undoes hold here too. */
  lemma StoreMoves(w: World, m: Move, w': World, group: Text, dates: Dates)
    requires WorldOk(w, group, dates) && WorldStep(w, m, w', group, dates)
    ensures Inv(w'.store) && Later(w.store, w'.store)
  {
    hide Inv, Later, Disposed, HasRow, DisposedBelow, ParseMessage, ValidInput, Next;
    match StoreAction(w, m, group, dates)
    case None => LaterIsReflexive(w.store);
    case Some(a) =>
      assert Enabled(w.store, a) by {
        if m.RunHandler? || m.RecordFailure? {
          assert WorkerOk(w, w.workers[m.worker], group, dates);
        }
      }
      StepKeeps(w.store, a, w'.store);
      StepIsLater(w.store, a, w'.store);
  }

  lemma DispositionLasts(s: Sys, t: Sys, m: ConsumerMessage, group: Text, dates: Dates)
    requires Later(s, t)
    ensures Disposed(s.db, m, group, dates) ==> Disposed(t.db, m, group, dates)
    ensures HasRow(s.db, m, group, dates) ==> HasRow(t.db, m, group, dates)
  {
    hide Identified, WellFormed, PayloadHash;
  }

  /** Partitions only grow at their end. */
  ghost predicate Grows(w: World, w': World) {
    forall p | p in w.values :: p in w'.values && w.values[p] <= w'.values[p]
  }

  lemma DisposedBelowLasts(w: World, w': World, p: Partition, offset: nat, group: Text, dates: Dates)
    requires Later(w.store, w'.store) && Grows(w, w') && DisposedBelow(w, p, offset, group, dates)
    ensures DisposedBelow(w', p, offset, group, dates)
  {
    hide Disposed, HasRow, Later;
    forall i | 0 <= i < offset
      ensures Disposed(w'.store.db, Record(w', p, i), group, dates)
    {
      assert Record(w', p, i) == Record(w, p, i);
      DispositionLasts(w.store, w'.store, Record(w, p, i), group, dates);
    }
  }

  lemma WorkerLasts(w: World, w': World, k: Worker, group: Text, dates: Dates)
    requires Later(w.store, w'.store) && Grows(w, w') && WorkerOk(w, k, group, dates)
    ensures WorkerOk(w', k, group, dates)
  {
    hide Disposed, HasRow, DisposedBelow;
    DisposedBelowLasts(w, w', k.partition, k.offset, group, dates);
    InValues(w, k, group, dates);
    InValues(w', k, group, dates);
    if !k.phase.Fetched? {
      assert Record(w', k.partition, k.offset) == Record(w, k.partition, k.offset);
      DispositionLasts(w.store, w'.store, Record(w, k.partition, k.offset), group, dates);
    }
  }

  lemma InValues(w: World, k: Worker, group: Text, dates: Dates)
    requires DisposedBelow(w, k.partition, k.offset, group, dates)
    ensures k.partition in w.values && k.offset <= |w.values[k.partition]|
  {
  }

  lemma Growth(w: World, m: Move, w': World, group: Text, dates: Dates)
    requires WorldStep(w, m, w', group, dates)
    ensures Grows(w, w')
  {
    hide ParseMessage, ValidInput, Next;
  }

  /** The consumer still stands at the same record, and what was disposed of stays so. */
  lemma StaysInPlace(w: World, m: Move, w': World, id: Text, group: Text, dates: Dates)
    requires WorldOk(w, group, dates) && WorldStep(w, m, w', group, dates) && HasRecord(w, id)
    ensures var k := w.workers[id];
            && DisposedBelow(w', k.partition, k.offset, group, dates)
            && k.partition in w'.values && k.offset < |w'.values[k.partition]|
            && Record(w', k.partition, k.offset) == Current(w, id)
            && (HasRow(w.store.db, Current(w, id), group, dates) ==> HasRow(w'.store.db, Current(w, id), group, dates))
            && w.store.leases <= w'.store.leases
            && WorkerOk(w, k, group, dates)
  {
    hide Disposed, HasRow, DisposedBelow, Inv, ParseMessage, ValidInput, WorldStep, WorkerOk;
    var k := w.workers[id];
    StoreMoves(w, m, w', group, dates);
    Growth(w, m, w', group, dates);
    assert WorkerOk(w, k, group, dates);
    OkWorkerDisposed(w, k, group, dates);
    DisposedBelowLasts(w, w', k.partition, k.offset, group, dates);
    DispositionLasts(w.store, w'.store, Current(w, id), group, dates);
  }

  lemma OkWorkerDisposed(w: World, k: Worker, group: Text, dates: Dates)
    requires WorkerOk(w, k, group, dates)
    ensures DisposedBelow(w, k.partition, k.offset, group, dates)
  {
  }

  /** After a claim the record's row exists and is bound to its payload, unless the claim threw. */
  lemma ReceivedRow(w: World, m: Move, w': World, group: Text, dates: Dates)
    requires WorldOk(w, group, dates) && WorldStep(w, m, w', group, dates) && m.Receive?
    requires ParseMessage(Current(w, m.worker), group, m.clock, m.attempts, dates).Some?
    requires !Throws(ClaimResult(w.store.db, m.input))
    ensures HasRow(w'.store.db, Current(w, m.worker), group, dates)
    ensures ClaimResult(w.store.db, m.input).Claimed? ==> ClaimResult(w.store.db, m.input).lease in w'.store.leases
  {
    hide ParseMessage, Identified, Inv, DisposedBelow, WorkerOk, Disposed, Claim, ClaimResult, Parsed, ReadsBack,
        WellFormed;
    var record := Current(w, m.worker);
    ParseIdentity(record, group, m.clock, m.attempts, dates);
    InvRows(w.store);
    ClaimBindsPayload(w.store.db, m.input);
  }

  lemma InvRows(s: Sys)
    requires Inv(s)
    ensures RowsOk(s.db)
  {
  }

  lemma ReceivedOk(w: World, m: Move, w': World, group: Text, dates: Dates)
    requires WorldOk(w, group, dates) && WorldStep(w, m, w', group, dates) && m.Receive?
    ensures WorkerOk(w', w'.workers[m.worker], group, dates)
  {
    hide Disposed, HasRow, DisposedBelow, Inv, ParseMessage, ValidInput, Claim, ClaimResult;
    StaysInPlace(w, m, w', m.worker, group, dates);
    if ParseMessage(Current(w, m.worker), group, m.clock, m.attempts, dates).Some? &&
        !Throws(ClaimResult(w.store.db, m.input)) {
      ReceivedRow(w, m, w', group, dates);
      RowDisposes(w'.store.db, Current(w, m.worker), group, dates);
    }
  }

  lemma RowDisposes(db: Db, m: ConsumerMessage, group: Text, dates: Dates)
    requires HasRow(db, m, group, dates)
    ensures Disposed(db, m, group, dates)
  {
  }

  lemma QuarantinedOk(w: World, m: Move, w': World, group: Text, dates: Dates)
    requires WorldOk(w, group, dates) && WorldStep(w, m, w', group, dates) && m.DoQuarantineRecord?
    ensures WorkerOk(w', w'.workers[m.worker], group, dates)
  {
    hide HasRow, DisposedBelow, Inv;
    StaysInPlace(w, m, w', m.worker, group, dates);
  }

  /** A handler that is done, or a task that is dead, leaves the claimed row behind. */
  lemma HandledOk(w: World, m: Move, w': World, group: Text, dates: Dates)
    requires WorldOk(w, group, dates) && WorldStep(w, m, w', group, dates) && (m.RunHandler? || m.RecordFailure?)
    ensures m.worker in w'.workers ==> WorkerOk(w', w'.workers[m.worker], group, dates)
  {
    hide Disposed, HasRow, DisposedBelow, Inv, OwnsLease, ExecuteResult;
    StaysInPlace(w, m, w', m.worker, group, dates);
    RowDisposes(w'.store.db, Current(w, m.worker), group, dates);
  }

  /** A commit moves the offset behind a record that is disposed of. */
  lemma CommittedOk(w: World, m: Move, w': World, group: Text, dates: Dates)
    requires WorldOk(w, group, dates) && WorldStep(w, m, w', group, dates) && m.CommitOffset?
    ensures var k := w.workers[m.worker];
            DisposedBelow(w', k.partition, k.offset + 1, group, dates)
  {
    hide Disposed, HasRow, Inv;
    var k := w.workers[m.worker];
    assert WorkerOk(w, k, group, dates);
    assert w'.store == w.store && w'.values == w.values;
    assert forall i | 0 <= i <= k.offset :: Record(w', k.partition, i) == Record(w, k.partition, i);
  }

  lemma WorldStepKeeps(w: World, m: Move, w': World, group: Text, dates: Dates)
    requires WorldOk(w, group, dates) && WorldStep(w, m, w', group, dates)
    ensures WorldOk(w', group, dates)
  {
    StoreMoves(w, m, w', group, dates);
    Growth(w, m, w', group, dates);
    WorkersKept(w, m, w', group, dates);
    CommitsKept(w, m, w', group, dates);
    RecordsKept(w, m, w', group, dates);
  }

  lemma WorkersKept(w: World, m: Move, w': World, group: Text, dates: Dates)
    requires WorldOk(w, group, dates) && WorldStep(w, m, w', group, dates)
    requires Later(w.store, w'.store) && Grows(w, w')
    ensures forall id | id in w'.workers :: WorkerOk(w', w'.workers[id], group, dates)
  {
    forall id | id in w'.workers
      ensures WorkerOk(w', w'.workers[id], group, dates)
    {
      WorkerKept(w, m, w', id, group, dates);
    }
  }

  lemma WorkerKept(w: World, m: Move, w': World, id: Text, group: Text, dates: Dates)
    requires WorldOk(w, group, dates) && WorldStep(w, m, w', group, dates)
    requires Later(w.store, w'.store) && Grows(w, w') && id in w'.workers
    ensures WorkerOk(w', w'.workers[id], group, dates)
  {
    hide Disposed, HasRow, DisposedBelow, Inv, OwnsLease, ExecuteResult, ClaimResult, Claim, ParseMessage, Later, Grows;
    if m.Produce? || m.Elsewhere? || m.worker != id {
      assert id in w.workers && w'.workers[id] == w.workers[id];
      WorkerLasts(w, w', w.workers[id], group, dates);
    } else if m.Receive? {
      ReceivedOk(w, m, w', group, dates);
    } else if m.DoQuarantineRecord? {
      QuarantinedOk(w, m, w', group, dates);
    } else if m.RunHandler? || m.RecordFailure? {
      HandledOk(w, m, w', group, dates);
    } else if m.CommitOffset? {
      CommittedOk(w, m, w', group, dates);
    } else {
      DisposedBelowLasts(w, w', m.partition, w.committed[m.partition], group, dates);
    }
  }

  lemma CommitsKept(w: World, m: Move, w': World, group: Text, dates: Dates)
    requires WorldOk(w, group, dates) && WorldStep(w, m, w', group, dates)
    requires Later(w.store, w'.store) && Grows(w, w')
    ensures forall p | p in w'.committed :: DisposedBelow(w', p, w'.committed[p], group, dates)
  {
    hide Disposed, HasRow, Inv, OwnsLease, ExecuteResult, ClaimResult, Claim, ParseMessage, Later, WorkerOk;
    forall p | p in w'.committed
      ensures DisposedBelow(w', p, w'.committed[p], group, dates)
    {
      if p in w.committed && w'.committed[p] == w.committed[p] {
        DisposedBelowLasts(w, w', p, w.committed[p], group, dates);
      } else if m.CommitOffset? {
        CommittedOk(w, m, w', group, dates);
      }
    }
  }

  lemma RecordsKept(w: World, m: Move, w': World, group: Text, dates: Dates)
    requires WorldOk(w, group, dates) && WorldStep(w, m, w', group, dates)
    ensures forall p | p in w'.values :: p in w'.committed && forall i | 0 <= i < |w'.values[p]| ::
              Record(w', p, i).Valid()
  {
    hide Disposed, HasRow, DisposedBelow, Inv, OwnsLease, ExecuteResult, ClaimResult, Claim, ParseMessage, WorkerOk;
    forall p | p in w'.values
      ensures p in w'.committed && forall i | 0 <= i < |w'.values[p]| :: Record(w', p, i).Valid()
    {
      forall i | 0 <= i < |w'.values[p]|
        ensures Record(w', p, i).Valid()
      {
        if p in w.values && i < |w.values[p]| {
          assert Record(w, p, i).Valid();
        }
      }
    }
  }

  lemma {:induction false} HistoryKeeps(worlds: seq<World>, moves: seq<Move>, group: Text, dates: Dates, i: nat)
    requires IsHistory(worlds, moves, group, dates) && i < |worlds|
    ensures WorldOk(worlds[i], group, dates)
  {
    hide WorldStep;
    if i > 0 {
      hide WorldOk;
      HistoryKeeps(worlds, moves, group, dates, i - 1);
      WorldStepKeeps(worlds[i - 1], moves[i - 1], worlds[i], group, dates);
    }
  }

  /**
   No record is lost: in every reachable state each record below a committed offset is in quarantine,
   or the row of its key exists and is bound to that record's payload.
   */
  lemma NoRecordIsLost(worlds: seq<World>, moves: seq<Move>, group: Text, dates: Dates, i: nat, p: Partition,
      offset: nat)
    requires IsHistory(worlds, moves, group, dates) && i < |worlds|
    requires p in worlds[i].committed && offset < worlds[i].committed[p]
    ensures p in worlds[i].values && offset < |worlds[i].values[p]|
    ensures Disposed(worlds[i].store.db, Record(worlds[i], p, offset), group, dates)
  {
    hide Disposed;
    HistoryKeeps(worlds, moves, group, dates, i);
  }

  /** Its disposition outlives every later step: nothing removes a quarantine record or a row. */
  lemma {:induction false} DispositionIsPermanent(
    worlds: seq<World>, moves: seq<Move>, group: Text, dates: Dates, i: nat, j: nat, m: ConsumerMessage)
    requires IsHistory(worlds, moves, group, dates) && i <= j < |worlds|
    requires Disposed(worlds[i].store.db, m, group, dates)
    ensures Disposed(worlds[j].store.db, m, group, dates)
    decreases j
  {
    hide Disposed, WorldStep, WorldOk;
    if i < j {
      DispositionIsPermanent(worlds, moves, group, dates, i, j - 1, m);
      HistoryKeeps(worlds, moves, group, dates, j - 1);
      StoreMoves(worlds[j - 1], moves[j - 1], worlds[j], group, dates);
      DispositionLasts(worlds[j - 1].store, worlds[j].store, m, group, dates);
    }
  }

  // ---------------------------------------------------------------- one call of the method

  /** The moves lead from w to v. */
  ghost predicate Through(w: World, moves: seq<Move>, v: World, group: Text, dates: Dates)
    decreases |moves|
  {
    if moves == [] then w == v
    else exists u :: WorldStep(w, moves[0], u, group, dates) && Through(u, moves[1..], v, group, dates)
  }

  function After(w: World, m: Move, group: Text, dates: Dates): World
    requires m.Receive? ==> WellFormed(m.input.task.payload)
    requires m.Elsewhere? && m.action.DoClaim? ==> WellFormed(m.action.input.task.payload)
    requires !m.Produce? && !m.Assign? && !m.Crash? && !m.Elsewhere? ==> HasRecord(w, m.worker)
  {
    Moved(w, m, group, dates).(store := StoreAfter(w, m, group, dates))
  }

  /** What has become of the consumer that made the call. */
  predicate Ended(v: World, id: Text, r: Option<ConsumerResult>) {
    if r.None? then id !in v.workers
    else id in v.workers && v.workers[id].phase == if r.value.safeToCommit then Safe else Fetched
  }

  lemma NoMoves(w: World, group: Text, dates: Dates)
    ensures Through(w, [], w, group, dates)
  {
  }

  lemma OneMove(w: World, m: Move, v: World, moves: seq<Move>, u: World, group: Text, dates: Dates)
    requires WorldStep(w, m, v, group, dates) && Through(v, moves, u, group, dates)
    ensures Through(w, [m] + moves, u, group, dates)
  {
    hide WorldStep;
    assert ([m] + moves)[1..] == moves;
  }

  /** The failure of a claimed record. */
  lemma RecordingMoves(w: World, id: Text, o: Options, e: Surroundings, lease: LeasedTask, after: Db,
      r: Option<ConsumerResult>)
    returns (moves: seq<Move>, v: World)
    requires HasRecord(w, id) && w.workers[id].phase == ToFail(lease)
    requires var failed := FailedLease(lease, e.message, e.clock, o.baseMs, o.maxMs);
             var dead := lease.task.attemptCount >= lease.task.maxAttempts;
             && after == Fail(w.store.db, failed, e.failNow)
             && r == if !OwnsLease(w.store.db, failed, e.failNow) then None
                     else Some(ConsumerResult(if dead then TaskDead else TaskFailed, dead, failed.task.nextRetryAt))
    ensures Through(w, moves, v, o.group, o.dates) && v.store.db == after && Ended(v, id, r)
  {
    hide FailTask, Fail, OwnsLease, ParseMessage;
    var m := RecordFailure(id, e.message, e.clock, o.baseMs, o.maxMs, e.failNow);
    FailureKeepsOwner(w.store.db, lease, e.message, e.clock, o.baseMs, o.maxMs, e.failNow);
    v := After(w, m, o.group, o.dates);
    assert WorldStep(w, m, v, o.group, o.dates);
    NoMoves(v, o.group, o.dates);
    OneMove(w, m, v, [], v, o.group, o.dates);
    moves := [m] + [];
  }

  lemma FailureKeepsOwner(db: Db, lease: LeasedTask, message: Text, clock: int, baseMs: nat, maxMs: nat, now: int)
    ensures OwnsLease(db, FailedLease(lease, message, clock, baseMs, maxMs), now) <==> OwnsLease(db, lease, now)
  {
  }

  /** The second half of a call, once the record is claimed. */
  lemma ClaimedMoves(w: World, id: Text, o: Options, e: Surroundings, lease: LeasedTask, after: Db,
      r: Option<ConsumerResult>)
    returns (moves: seq<Move>, v: World)
    requires HasRecord(w, id) && w.workers[id].phase == Holding(lease)
    requires ClaimedOutcome(w.store.db, lease, o, e, after, r)
    ensures Through(w, moves, v, o.group, o.dates) && v.store.db == after && Ended(v, id, r)
  {
    hide FailTask, Fail, OwnsLease, ParseMessage, Execute, ExecuteResult;
    var m := RunHandler(id, e.handler, e.executeNow);
    var u := After(w, m, o.group, o.dates);
    assert WorldStep(w, m, u, o.group, o.dates);
    var rest: seq<Move> := [];
    v := u;
    if !ExecuteResult(w.store.db, lease, e.handler, e.executeNow).Done? {
      NotDoneChangesNothing(w.store.db, lease, e.handler, e.executeNow);
      if !ExecuteResult(w.store.db, lease, e.handler, e.executeNow).Stale? {
        rest, v := RecordingMoves(u, id, o, e, lease, after, r);
      }
    }
    if rest == [] && v == u {
      NoMoves(v, o.group, o.dates);
    }
    OneMove(w, m, u, rest, v, o.group, o.dates);
    moves := [m] + rest;
  }

  lemma NotDoneChangesNothing(db: Db, lease: LeasedTask, result: Option<Json>, now: int)
    requires !ExecuteResult(db, lease, result, now).Done?
    ensures Execute(db, lease, result, now) == db
  {
  }

  lemma ParsedIsWellFormed(task: Envelope)
    requires Parsed(task)
    ensures WellFormed(task.payload)
  {
  }

  lemma ThrownClaimChangesNothing(db: Db, c: ClaimInput)
    requires WellFormed(c.task.payload) && Throws(ClaimResult(db, c))
    ensures Claim(db, c) == db
  {
  }

  lemma QuarantineMoves(w: World, id: Text, group: Text, dates: Dates) returns (moves: seq<Move>, v: World)
    requires HasRecord(w, id) && w.workers[id].phase.ToQuarantine?
    ensures Through(w, moves, v, group, dates)
    ensures v.store.db == Quarantine(w.store.db, Current(w, id), group, w.workers[id].phase.code)
    ensures id in v.workers && v.workers[id].phase == Safe
  {
    hide ParseMessage, Quarantine;
    var m := DoQuarantineRecord(id);
    v := After(w, m, group, dates);
    assert WorldStep(w, m, v, group, dates);
    NoMoves(v, group, dates);
    OneMove(w, m, v, [], v, group, dates);
    moves := [m] + [];
  }

  /** A record that cannot be parsed is received without a claim. */
  const NO_INPUT := ClaimInput(
    Envelope([], [], [], Pending, Null, [], 1, 1, None, [], Source([], [], [], 0, 0, []), 0, 0, None, None, None),
    Null, [], [], 0, 0, 0, 0)

  lemma UnparsedMoves(w: World, id: Text, o: Options, e: Surroundings) returns (moves: seq<Move>, v: World)
    requires HasRecord(w, id) && w.workers[id].phase.Fetched?
    requires ParseMessage(Current(w, id), o.group, e.clock, o.attempts, o.dates).None?
    ensures Through(w, moves, v, o.group, o.dates)
    ensures v.store.db == Quarantine(w.store.db, Current(w, id), o.group, InvalidMessage)
    ensures id in v.workers && v.workers[id].phase == Safe
  {
    hide ParseMessage, Quarantine, Claim, ClaimResult, Parsed, ReadsBack;
    var m := Receive(id, e.clock, o.attempts, NO_INPUT);
    var u := After(w, m, o.group, o.dates);
    assert WorldStep(w, m, u, o.group, o.dates);
    var rest: seq<Move>;
    rest, v := QuarantineMoves(u, id, o.group, o.dates);
    OneMove(w, m, u, rest, v, o.group, o.dates);
    moves := [m] + rest;
  }

  /** Receiving a record that parses is the claim of its task. */
  lemma ReceiveMove(w: World, id: Text, o: Options, e: Surroundings, task: Envelope) returns (u: World)
    requires HasRecord(w, id) && w.workers[id].phase.Fetched?
    requires ParseMessage(Current(w, id), o.group, e.clock, o.attempts, o.dates) == Some(task)
    requires ValidInput(InputFor(task, o, e))
    ensures WorldStep(w, Receive(id, e.clock, o.attempts, InputFor(task, o, e)), u, o.group, o.dates)
    ensures HasRecord(u, id) && Current(u, id) == Current(w, id)
    ensures WellFormed(task.payload) && u.store.db == Claim(w.store.db, InputFor(task, o, e))
    ensures u.workers[id].phase == AfterClaim(ClaimResult(w.store.db, InputFor(task, o, e)))
  {
    hide ParseMessage, Claim, ClaimResult, Parsed, ReadsBack;
    u := After(w, Receive(id, e.clock, o.attempts, InputFor(task, o, e)), o.group, o.dates);
  }

  /** Whatever the claim decided, moves lead to what the call leaves. */
  lemma DecidedMoves(u: World, id: Text, o: Options, e: Surroundings, before: Db, input: ClaimInput, after: Db,
      r: Option<ConsumerResult>)
    returns (moves: seq<Move>, v: World)
    requires HasRecord(u, id) && WellFormed(input.task.payload)
    requires u.store.db == Claim(before, input) && u.workers[id].phase == AfterClaim(ClaimResult(before, input))
    requires Decided(before, Current(u, id), o, e, input, after, r)
    ensures Through(u, moves, v, o.group, o.dates) && v.store.db == after && Ended(v, id, r)
  {
    hide Claim, ClaimResult, ClaimedOutcome, Quarantine, Through, WellFormed;
    moves, v := [], u;
    NoMoves(u, o.group, o.dates);
    if Throws(ClaimResult(before, input)) {
      ThrownClaimChangesNothing(before, input);
      moves, v := QuarantineMoves(u, id, o.group, o.dates);
    } else if ClaimResult(before, input).Claimed? {
      moves, v := ClaimedMoves(u, id, o, e, ClaimResult(before, input).lease, after, r);
    }
  }

  /**
   A call of processAsyncConsumerMessage is a sequence of moves of this model: from a consumer that has
   fetched the record they lead to the tables the call leaves, with the record safe to commit exactly
   when the call says so, fetched again when it is to be retried, and the consumer gone when it throws.
   */
  lemma CallIsMoves(w: World, id: Text, o: Options, e: Surroundings, after: Db, r: Option<ConsumerResult>)
    returns (moves: seq<Move>, v: World)
    requires HasRecord(w, id) && w.workers[id].phase.Fetched?
    requires Current(w, id).Valid() && Outcome(w.store.db, Current(w, id), o, e, after, r)
    requires forall t :: ParseMessage(Current(w, id), o.group, e.clock, o.attempts, o.dates) == Some(t) ==>
               ReadsBack(t.payload, e.readBack)
    ensures Through(w, moves, v, o.group, o.dates) && v.store.db == after && Ended(v, id, r)
  {
    hide ParseMessage, Claim, ClaimResult, Decided, Quarantine, ReadsBack, Parsed, WorldStep, Through, WellFormed;
    var parsed := ParseMessage(Current(w, id), o.group, e.clock, o.attempts, o.dates);
    if parsed.None? {
      moves, v := UnparsedMoves(w, id, o, e);
    } else {
      ParseGuarantees(Current(w, id), o.group, e.clock, o.attempts, o.dates);
      ParsedIsWellFormed(parsed.value);
      var input := InputFor(parsed.value, o, e);
      var u := ReceiveMove(w, id, o, e, parsed.value);
      var rest: seq<Move>;
      rest, v := DecidedMoves(u, id, o, e, w.store.db, input, after, r);
      OneMove(w, Receive(id, e.clock, o.attempts, input), u, rest, v, o.group, o.dates);
      moves := [Receive(id, e.clock, o.attempts, input)] + rest;
    }
  }
}
