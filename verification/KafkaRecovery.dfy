/**
 Resuming consumption of a restored database (packages/kafka/src/recovery.ts,
 services/worker/src/kafka-recovery.ts and the batch loop of services/worker/src/async-consumer.ts).
 Offsets are integers; a broker reports -1 where a group has none.
 */
module KafkaRecovery {
  import opened Common

  datatype Key = Key(topic: string, partition: nat)
  datatype Saved = Saved(key: Key, next: nat, low: nat, high: nat)
  datatype Checkpoint = Checkpoint(cluster: string, topics: seq<string>, partitions: seq<Saved>)
  datatype Offset = Offset(key: Key, next: int)
  datatype Log = Log(key: Key, low: nat, high: nat)

  /** What inspectLogs reports; None is one of its errors. */
  datatype Logs = Logs(cluster: string, logs: seq<Log>)

  /** What one check reads: the group's offsets, its description, the logs, and the logs once more. */
  datatype Probe = Probe(offsets: seq<Offset>, oneConsumer: bool, logs: Option<Logs>, again: Option<Logs>)

  // ---------------------------------------------------------------- pure checks

  predicate Distinct<T(==)>(s: seq<T>) {
    forall i, j | 0 <= i < j < |s| :: s[i] != s[j]
  }

  function SavedKeys(s: seq<Saved>): (r: seq<Key>)
    ensures |r| == |s| && forall i | 0 <= i < |s| :: r[i] == s[i].key
  {
    seq(|s|, i requires 0 <= i < |s| => s[i].key)
  }

  function OffsetKeys(s: seq<Offset>): (r: seq<Key>)
    ensures |r| == |s| && forall i | 0 <= i < |s| :: r[i] == s[i].key
  {
    seq(|s|, i requires 0 <= i < |s| => s[i].key)
  }

  function LogKeys(s: seq<Log>): (r: seq<Key>)
    ensures |r| == |s| && forall i | 0 <= i < |s| :: r[i] == s[i].key
  {
    seq(|s|, i requires 0 <= i < |s| => s[i].key)
  }

  /** Array.prototype.find by key: the first position, or the length. */
  function Find(keys: seq<Key>, k: Key): (i: nat)
    ensures i <= |keys|
    ensures i < |keys| ==> keys[i] == k
    ensures k !in keys[..i]
  {
    if keys == [] || keys[0] == k then 0
    else
      var i := Find(keys[1..], k) + 1;
      assert keys[..i] == [keys[0]] + keys[1..][..i - 1];
      i
  }

  /** kafkaCheckpointSchema. */
  predicate ValidCheckpoint(c: Checkpoint) {
    && c.topics != [] && c.partitions != []
    && Distinct(c.topics)
    && Distinct(SavedKeys(c.partitions))
    && (forall p | p in c.partitions :: p.key.topic in c.topics && p.low <= p.next <= p.high)
    && (forall t | t in c.topics :: exists p | p in c.partitions :: p.key.topic == t)
  }

  /** The history of one partition still covers an offset. */
  predicate Covers(c: Checkpoint, logs: seq<Log>, row: Offset) {
    var l := Find(LogKeys(logs), row.key);
    var p := Find(SavedKeys(c.partitions), row.key);
    l < |logs| && p < |c.partitions| && logs[l].low <= row.next <= logs[l].high && c.partitions[p].high <= logs[l].high
  }

  /** validateKafkaHistory. */
  predicate ValidHistory(c: Checkpoint, logs: Option<Logs>, required: seq<Offset>) {
    && logs.Some?
    && logs.value.cluster == c.cluster
    && |logs.value.logs| == |c.partitions|
    && (forall l | l in logs.value.logs :: l.key in SavedKeys(c.partitions))
    && (forall row | row in required :: Covers(c, logs.value.logs, row))
  }

  predicate Reached(current: seq<Offset>, p: Saved) {
    var i := Find(OffsetKeys(current), p.key);
    i < |current| && p.next <= current[i].next
  }

  /** verifyRecoveryTransport. */
  predicate ValidTransport(c: Checkpoint, x: Probe) {
    && |x.offsets| == |c.partitions|
    && (forall p | p in c.partitions :: Reached(x.offsets, p))
    && x.oneConsumer
    && ValidHistory(c, x.logs, x.offsets)
  }

  /** One run of the guard's check. */
  predicate Passes(c: Checkpoint, floors: seq<Offset>, x: Probe) {
    ValidTransport(c, x) && ValidHistory(c, x.again, floors)
  }

  // ---------------------------------------------------------------- what a passed check means

  function Elements<T>(s: seq<T>): set<T> {
    set x | x in s
  }

  lemma {:induction false} ElementsAtMost<T>(s: seq<T>)
    ensures |Elements(s)| <= |s|
    ensures |Elements(s)| == |s| <==> Distinct(s)
  {
    if s != [] {
      var n := |s| - 1;
      var rest := s[..n];
      ElementsAtMost(rest);
      assert Elements(s) == Elements(rest) + {s[n]};
      assert s[n] in rest <==> s[n] in Elements(rest);
      if s[n] !in rest && Distinct(rest) {
        assert Distinct(s);
      }
      if Distinct(s) {
        assert Distinct(rest);
      }
    }
  }

  /** As many distinct elements as there are places leave no room for anything else. */
  lemma Pigeonhole<T>(a: seq<T>, b: seq<T>)
    requires Distinct(a) && |a| == |b| && forall x | x in a :: x in b
    ensures Distinct(b) && Elements(a) == Elements(b)
  {
    ElementsAtMost(a);
    ElementsAtMost(b);
    SubsetIsSmaller(Elements(a), Elements(b));
  }

  /** The rows are about the checkpointed partitions, each exactly once. */
  ghost predicate Exactly(c: Checkpoint, keys: seq<Key>) {
    Distinct(keys) && Elements(keys) == Elements(SavedKeys(c.partitions))
  }

  lemma {:induction false} FindsOnly(keys: seq<Key>, i: nat)
    requires i < |keys| && Distinct(keys)
    ensures Find(keys, keys[i]) == i
  {
    var f := Find(keys, keys[i]);
    assert forall j | 0 <= j < f :: keys[..f][j] == keys[j];
  }

  /** The group's offsets are then on exactly the checkpointed partitions, none before its checkpoint. */
  lemma TransportIsExact(c: Checkpoint, x: Probe)
    requires ValidCheckpoint(c) && ValidTransport(c, x)
    ensures Exactly(c, OffsetKeys(x.offsets))
    ensures forall i, j | 0 <= i < |x.offsets| && 0 <= j < |c.partitions| && x.offsets[i].key == c.partitions[j].key ::
              c.partitions[j].next <= x.offsets[i].next
  {
    var saved, current := SavedKeys(c.partitions), OffsetKeys(x.offsets);
    forall k | k in saved
      ensures k in current
    {
      var j :| 0 <= j < |saved| && saved[j] == k;
      assert Reached(x.offsets, c.partitions[j]);
      assert current[Find(current, k)] == k;
    }
    Pigeonhole(saved, current);
    forall i, j | 0 <= i < |x.offsets| && 0 <= j < |c.partitions| && x.offsets[i].key == c.partitions[j].key
      ensures c.partitions[j].next <= x.offsets[i].next
    {
      assert Reached(x.offsets, c.partitions[j]);
      FindsOnly(current, i);
    }
  }

  /** A broker lists a partition once. */
  predicate ListsOnce(logs: Option<Logs>) {
    logs.Some? ==> Distinct(LogKeys(logs.value.logs))
  }

  /**
   A passed check finds logs for exactly the checkpointed partitions, and every floor within the log of
   its own partition: nothing that still has to be consumed has been deleted, and nothing is missing.
   */
  lemma PassedCheckCoversFloors(c: Checkpoint, floors: seq<Offset>, x: Probe, i: nat, l: nat)
    requires ValidCheckpoint(c) && Passes(c, floors, x) && ListsOnce(x.again)
    requires i < |floors| && l < |x.again.value.logs| && x.again.value.logs[l].key == floors[i].key
    ensures Exactly(c, LogKeys(x.again.value.logs))
    ensures x.again.value.logs[l].low <= floors[i].next <= x.again.value.logs[l].high
    ensures floors[i].key in SavedKeys(c.partitions)
  {
    var logs := x.again.value.logs;
    var keys := LogKeys(logs);
    assert Covers(c, logs, floors[i]);
    FindsOnly(keys, l);
    forall k | k in keys
      ensures k in SavedKeys(c.partitions)
    {
      var j :| 0 <= j < |keys| && keys[j] == k;
      assert logs[j] in logs;
    }
    Pigeonhole(keys, SavedKeys(c.partitions));
  }

  /** The logs are those of the checkpointed partitions, and every floor lies within its own. */
  ghost predicate Vouched(c: Checkpoint, floors: seq<Offset>, logs: seq<Log>) {
    && Exactly(c, LogKeys(logs))
    && (forall i | 0 <= i < |floors| :: floors[i].key in LogKeys(logs))
    && forall i, l | 0 <= i < |floors| && 0 <= l < |logs| && logs[l].key == floors[i].key ::
         logs[l].low <= floors[i].next <= logs[l].high
  }

  lemma PassedCheckVouches(c: Checkpoint, floors: seq<Offset>, x: Probe)
    requires ValidCheckpoint(c) && Passes(c, floors, x) && ListsOnce(x.again) && FloorsOk(c, floors)
    ensures Vouched(c, floors, x.again.value.logs)
  {
    var logs := x.again.value.logs;
    var keys := LogKeys(logs);
    assert |floors| > 0 by { SomeFloor(c, floors); }
    forall i | 0 <= i < |floors|
      ensures floors[i].key in keys
    {
      assert Covers(c, logs, floors[i]);
      assert keys[Find(keys, floors[i].key)] == floors[i].key;
    }
    forall i, l | 0 <= i < |floors| && 0 <= l < |logs| && logs[l].key == floors[i].key
      ensures Exactly(c, keys) && logs[l].low <= floors[i].next <= logs[l].high
    {
      PassedCheckCoversFloors(c, floors, x, i, l);
    }
    var l := Find(keys, floors[0].key);
    PassedCheckCoversFloors(c, floors, x, 0, l);
  }

  lemma SomeFloor(c: Checkpoint, floors: seq<Offset>)
    requires ValidCheckpoint(c) && FloorsOk(c, floors)
    ensures floors != []
  {
    assert SavedKeys(c.partitions)[0] in Elements(SavedKeys(c.partitions));
  }

  /** These logs belong to the checkpointed cluster, are complete, and hold what the rows point at. */
  ghost predicate Stands(c: Checkpoint, logs: Option<Logs>, rows: seq<Offset>) {
    && logs.Some?
    && logs.value.cluster == c.cluster
    && Exactly(c, LogKeys(logs.value.logs))
    && forall l, p, row | l in logs.value.logs && p in c.partitions && row in rows && l.key == p.key == row.key ::
         l.low <= row.next <= l.high && p.high <= l.high
  }

  lemma HistoryStandsExactlyWhen(c: Checkpoint, logs: Option<Logs>, rows: seq<Offset>)
    requires ValidCheckpoint(c) && ListsOnce(logs) && Exactly(c, OffsetKeys(rows))
    ensures ValidHistory(c, logs, rows) <==> Stands(c, logs, rows)
  {
    var saved := SavedKeys(c.partitions);
    if logs.Some? {
      var keys := LogKeys(logs.value.logs);
      if Stands(c, logs, rows) {
        SameLength(keys, saved);
        forall l | l in logs.value.logs
          ensures l.key in saved
        {
          ElementOfBoth(keys, saved, l.key);
        }
      }
      if ValidHistory(c, logs, rows) {
        forall k | k in keys
          ensures k in saved
        {
          var j :| 0 <= j < |keys| && keys[j] == k;
          assert logs.value.logs[j] in logs.value.logs;
        }
        Pigeonhole(keys, saved);
      }
      if Exactly(c, keys) {
        forall row | row in rows
          ensures Covers(c, logs.value.logs, row) <==>
                  forall l, p | l in logs.value.logs && p in c.partitions && l.key == p.key == row.key ::
                    l.low <= row.next <= l.high && p.high <= l.high
        {
          ElementOfBoth(OffsetKeys(rows), saved, row.key);
          ElementOfBoth(saved, keys, row.key);
          CoversInFields(c, logs.value.logs, row);
        }
      }
    }
  }

  lemma SameLength<T>(a: seq<T>, b: seq<T>)
    requires Distinct(a) && Distinct(b) && Elements(a) == Elements(b)
    ensures |a| == |b|
  {
    ElementsAtMost(a);
    ElementsAtMost(b);
  }

  lemma ElementOfBoth<T>(a: seq<T>, b: seq<T>, x: T)
    requires Elements(a) == Elements(b) && x in a
    ensures x in b
  {
    assert x in Elements(a);
  }

  lemma CoversInFields(c: Checkpoint, logs: seq<Log>, row: Offset)
    requires Distinct(LogKeys(logs)) && Distinct(SavedKeys(c.partitions))
    requires row.key in LogKeys(logs) && row.key in SavedKeys(c.partitions)
    ensures Covers(c, logs, row) <==>
            forall l, p | l in logs && p in c.partitions && l.key == p.key == row.key ::
              l.low <= row.next <= l.high && p.high <= l.high
  {
    var i, j := Find(LogKeys(logs), row.key), Find(SavedKeys(c.partitions), row.key);
    assert logs[i] in logs && c.partitions[j] in c.partitions;
    forall l, p | l in logs && p in c.partitions && l.key == p.key == row.key
      ensures l == logs[i] && p == c.partitions[j]
    {
      var m :| 0 <= m < |logs| && logs[m] == l;
      var n :| 0 <= n < |c.partitions| && c.partitions[n] == p;
      FindsOnly(LogKeys(logs), m);
      FindsOnly(SavedKeys(c.partitions), n);
    }
  }

  /**
   A check passes exactly when the group's offsets are on the checkpointed partitions, none before its
   checkpoint, the group has one consumer, and both readings of the logs stand: for the offsets, and for the
   floors.
   */
  lemma PassesExactlyWhen(c: Checkpoint, floors: seq<Offset>, x: Probe)
    requires ValidCheckpoint(c) && FloorsOk(c, floors) && ListsOnce(x.logs) && ListsOnce(x.again)
    ensures Passes(c, floors, x) <==>
            && x.oneConsumer
            && Exactly(c, OffsetKeys(x.offsets))
            && (forall o, p | o in x.offsets && p in c.partitions && o.key == p.key :: p.next <= o.next)
            && Stands(c, x.logs, x.offsets)
            && Stands(c, x.again, floors)
  {
    HistoryStandsExactlyWhen(c, x.again, floors);
    var saved, current := SavedKeys(c.partitions), OffsetKeys(x.offsets);
    if ValidTransport(c, x) {
      TransportIsExact(c, x);
    }
    if Exactly(c, current) {
      HistoryStandsExactlyWhen(c, x.logs, x.offsets);
      SameLength(current, saved);
      hide Stands, ValidHistory;
      forall j | 0 <= j < |c.partitions|
        ensures Reached(x.offsets, c.partitions[j]) <==>
                forall o | o in x.offsets && o.key == c.partitions[j].key :: c.partitions[j].next <= o.next
      {
        ElementOfBoth(saved, current, saved[j]);
        ReachedInFields(x.offsets, c.partitions[j]);
      }
    }
  }

  lemma ReachedInFields(offsets: seq<Offset>, p: Saved)
    requires Distinct(OffsetKeys(offsets)) && p.key in OffsetKeys(offsets)
    ensures Reached(offsets, p) <==> forall o | o in offsets && o.key == p.key :: p.next <= o.next
  {
    var i := Find(OffsetKeys(offsets), p.key);
    assert offsets[i] in offsets;
    forall o | o in offsets && o.key == p.key
      ensures o == offsets[i]
    {
      var m :| 0 <= m < |offsets| && offsets[m] == o;
      FindsOnly(OffsetKeys(offsets), m);
    }
  }

  /** With distinct topics, loadKafkaRecovery's comparison of subscriptions is equality of sets. */
  predicate Subscribed(topics: seq<string>, c: Checkpoint) {
    |topics| == |c.topics| && forall t | t in topics :: t in c.topics
  }

  lemma SubscribedIsSame(topics: seq<string>, c: Checkpoint)
    requires Distinct(topics) && Distinct(c.topics)
    ensures Subscribed(topics, c) <==> Elements(topics) == Elements(c.topics)
  {
    if Subscribed(topics, c) {
      Pigeonhole(topics, c.topics);
    }
    if Elements(topics) == Elements(c.topics) {
      ElementsAtMost(topics);
      ElementsAtMost(c.topics);
      assert forall t | t in topics :: t in Elements(topics);
    }
  }

  // ---------------------------------------------------------------- preparing the transport group

  /** The offsets a fresh transport group gets: the loop over the checkpoint's topics. */
  method SetOffsets(c: Checkpoint, before: map<Key, int>) returns (offsets: map<Key, int>)
    requires ValidCheckpoint(c)
    ensures forall p | p in c.partitions :: p.key in offsets && offsets[p.key] == p.next
    ensures forall k | k !in SavedKeys(c.partitions) :: k in offsets <==> k in before
    ensures forall k | k in offsets && k !in SavedKeys(c.partitions) :: offsets[k] == before[k]
  {
    offsets := before;
    var i := 0;
    while i < |c.topics|
      invariant i <= |c.topics|
      invariant forall p | p in c.partitions && p.key.topic in c.topics[..i] ::
                p.key in offsets && offsets[p.key] == p.next
      invariant forall k | k !in SavedKeys(c.partitions) :: k in offsets <==> k in before
      invariant forall k | k in offsets && k !in SavedKeys(c.partitions) :: offsets[k] == before[k]
    {
      offsets := SetTopic(c, c.topics[i], offsets);
      assert c.topics[..i + 1] == c.topics[..i] + [c.topics[i]];
      i := i + 1;
    }
    assert c.topics[..i] == c.topics;
  }

  /** setOffsets for the partitions of one topic. */
  method SetTopic(c: Checkpoint, topic: string, before: map<Key, int>) returns (offsets: map<Key, int>)
    requires ValidCheckpoint(c)
    ensures forall p | p in c.partitions && p.key.topic == topic :: p.key in offsets && offsets[p.key] == p.next
    ensures forall k: Key | k.topic != topic || k !in SavedKeys(c.partitions) :: k in offsets <==> k in before
    ensures forall k: Key | (k.topic != topic || k !in SavedKeys(c.partitions)) && k in offsets ::
              offsets[k] == before[k]
  {
    offsets := before;
    var j := 0;
    while j < |c.partitions|
      invariant j <= |c.partitions|
      invariant forall n | 0 <= n < j && c.partitions[n].key.topic == topic ::
                  c.partitions[n].key in offsets && offsets[c.partitions[n].key] == c.partitions[n].next
      invariant forall k: Key | k.topic != topic || k !in SavedKeys(c.partitions) :: k in offsets <==> k in before
      invariant forall k: Key | (k.topic != topic || k !in SavedKeys(c.partitions)) && k in offsets ::
                offsets[k] == before[k]
    {
      if c.partitions[j].key.topic == topic {
        assert SavedKeys(c.partitions)[j] == c.partitions[j].key;
        assert forall n | 0 <= n < j :: SavedKeys(c.partitions)[n] != SavedKeys(c.partitions)[j];
        offsets := offsets[c.partitions[j].key := c.partitions[j].next];
      }
      j := j + 1;
    }
  }

  // ---------------------------------------------------------------- the guard

  /** Floors lie on exactly the checkpointed partitions, none before its checkpoint. */
  ghost predicate FloorsOk(c: Checkpoint, floors: seq<Offset>) {
    && Exactly(c, OffsetKeys(floors))
    && forall i, j | 0 <= i < |floors| && 0 <= j < |c.partitions| && floors[i].key == c.partitions[j].key ::
         c.partitions[j].next <= floors[i].next
  }

  /** committed: the floor of a partition moves behind the record. */
  function Advance(floors: seq<Offset>, k: Key, offset: nat): seq<Offset> {
    var i := Find(OffsetKeys(floors), k);
    if i < |floors| then floors[i := Offset(k, offset + 1)] else floors
  }

  function FloorOf(floors: seq<Offset>, k: Key): Option<int> {
    var i := Find(OffsetKeys(floors), k);
    if i < |floors| then Some(floors[i].next) else None
  }

  /** beforeMessage lets a record through. */
  predicate Expected(floors: seq<Offset>, k: Key, offset: nat) {
    FloorOf(floors, k).Some? && FloorOf(floors, k).value <= offset
  }

  lemma AdvanceKeepsKeys(floors: seq<Offset>, k: Key, offset: nat)
    ensures OffsetKeys(Advance(floors, k, offset)) == OffsetKeys(floors)
    ensures FloorOf(floors, k).Some? ==> FloorOf(Advance(floors, k, offset), k) == Some(offset + 1)
    ensures forall other | other != k :: FloorOf(Advance(floors, k, offset), other) == FloorOf(floors, other)
  {
  }

  lemma AdvanceKeepsFloors(c: Checkpoint, floors: seq<Offset>, k: Key, offset: nat)
    requires FloorsOk(c, floors) && Expected(floors, k, offset)
    ensures FloorsOk(c, Advance(floors, k, offset))
  {
    AdvanceKeepsKeys(floors, k, offset);
  }

  class RecoveryGuard {
    const checkpoint: Checkpoint
    var floors: seq<Offset>
    /** The chain of checks has been rejected; nothing is ever chained to it again. */
    var failed: bool

    ghost predicate Valid()
      reads this
    {
      ValidCheckpoint(checkpoint) && FloorsOk(checkpoint, floors)
    }

    /** loadKafkaRecovery, once the transport has been verified. */
    constructor (c: Checkpoint, x: Probe)
      requires ValidCheckpoint(c) && ValidTransport(c, x)
      ensures Valid() && checkpoint == c && floors == x.offsets && !failed
    {
      checkpoint, floors, failed := c, x.offsets, false;
      TransportIsExact(c, x);
    }

    /**
     check. One that passes vouches for every floor: the logs of exactly the checkpointed partitions are
     there, and each still holds the record its floor points at. One that fails is the last that could pass.
     */
    method Check(x: Probe) returns (ok: bool)
      modifies this`failed
      ensures ok == (!old(failed) && Passes(checkpoint, floors, x))
      ensures failed == !ok
      ensures ok && Valid() && ListsOnce(x.again) ==> Vouched(checkpoint, floors, x.again.value.logs)
    {
      if Valid() && Passes(checkpoint, floors, x) && ListsOnce(x.again) {
        PassedCheckVouches(checkpoint, floors, x);
      }
      failed := failed || !ValidTransport(checkpoint, x) || !ValidHistory(checkpoint, x.again, floors);
      ok := !failed;
    }

    method BeforeMessage(k: Key, offset: nat, x: Probe) returns (ok: bool)
      modifies this`failed
      ensures failed == (old(failed) || !Passes(checkpoint, floors, x))
      ensures ok == (!failed && Expected(floors, k, offset))
    {
      ok := Check(x);
      if ok {
        var i := Find(OffsetKeys(floors), k);
        ok := i < |floors| && offset >= floors[i].next;
      }
    }

    /** committed; false is its error for an unknown partition. */
    method Committed(k: Key, offset: nat) returns (known: bool)
      modifies this`floors
      ensures known <==> FloorOf(old(floors), k).Some?
      ensures floors == Advance(old(floors), k, offset)
      ensures !known ==> floors == old(floors)
      ensures FloorOf(floors, k) == if known then Some(offset + 1) else None
      ensures forall other | other != k :: FloorOf(floors, other) == FloorOf(old(floors), other)
      ensures old(Valid()) && Expected(old(floors), k, offset) ==> Valid()
    {
      if Valid() && Expected(floors, k, offset) {
        AdvanceKeepsFloors(checkpoint, floors, k, offset);
      }
      AdvanceKeepsKeys(floors, k, offset);
      var i := Find(OffsetKeys(floors), k);
      known := i < |floors|;
      if known {
        floors := floors[i := floors[i].(next := offset + 1)];
      }
    }
  }

  // ---------------------------------------------------------------- the batch loop

  datatype Handled = Safe | Unsafe | Throws

  /**
   One pass of the retry loop: whether the consumer is still wanted, what the handler answers, whether
   the batch has become stale by then, what the check before the commit reads, whether the broker takes it.
   */
  datatype Turn = Turn(wanted: bool, handled: Handled, stale: bool, probe: Probe, accepted: bool)

  /** The start of one record: whether the consumer is still wanted, and what beforeMessage reads. */
  datatype Opening = Opening(wanted: bool, probe: Probe)

  datatype End = Finished | Stopped | Threw

  /** Wanted, not stale, but not disposed of yet: the record is handled again. */
  predicate Retries(t: Turn) {
    t.wanted && t.handled == Unsafe && !t.stale
  }

  predicate Disposes(t: Turn) {
    t.wanted && t.handled == Safe && !t.stale
  }

  /** From turn first on the record is handled again until turn last. */
  predicate RetriedUntil(turns: seq<Turn>, first: nat, last: nat) {
    first <= last < |turns| && forall n | first <= n < last :: Retries(turns[n])
  }

  /** The record is begun: a passed check, and an offset at or above the floor. */
  predicate Begins(c: Checkpoint, floors: seq<Offset>, failed: bool, k: Key, offset: nat, opening: Opening) {
    opening.wanted && !failed && Passes(c, floors, opening.probe) && Expected(floors, k, offset)
  }

  /** The record ends in a commit at this turn. */
  predicate CommitsAt(c: Checkpoint, floors: seq<Offset>, turns: seq<Turn>, first: nat, last: nat) {
    && RetriedUntil(turns, first, last) && Disposes(turns[last])
    && Passes(c, floors, turns[last].probe) && turns[last].accepted
  }

  /** The record ends in an error at this turn: of the handler, of the check or of the broker. */
  predicate FailsAt(c: Checkpoint, floors: seq<Offset>, turns: seq<Turn>, first: nat, last: nat) {
    && RetriedUntil(turns, first, last) && turns[last].wanted
    && (turns[last].handled == Throws || (Disposes(turns[last]) && !CommitsAt(c, floors, turns, first, last)))
  }

  /**
   One record: beforeMessage, the loop that retries the record until its disposition is durable, and the
   guarded commit. It is committed only at or above the floor, after a safe result and a passed check.
   */
  method EachRecord(guard: RecoveryGuard, k: Key, offset: nat, opening: Opening, turns: seq<Turn>, first: nat)
    returns (end: End, next: nat)
    requires guard.Valid() && first <= |turns|
    modifies guard
    ensures guard.Valid() && first <= next <= |turns|
    ensures end.Finished? ==>
              && !old(guard.failed) && !guard.failed
              && Expected(old(guard.floors), k, offset)
              && Passes(guard.checkpoint, old(guard.floors), opening.probe)
              && guard.floors == Advance(old(guard.floors), k, offset)
              && first < next
              && turns[next - 1].handled.Safe? && turns[next - 1].accepted
              && Passes(guard.checkpoint, old(guard.floors), turns[next - 1].probe)
    ensures !end.Finished? ==> guard.floors == old(guard.floors)
    ensures old(guard.failed) ==> guard.failed
    ensures var begins := Begins(guard.checkpoint, old(guard.floors), old(guard.failed), k, offset, opening);
            var c, floors := guard.checkpoint, old(guard.floors);
            && (end == Finished <==> begins && next > first && CommitsAt(c, floors, turns, first, next - 1))
            && (forall n: nat | begins && CommitsAt(c, floors, turns, first, n) :: end == Finished && next == n + 1)
            && (end == Threw <==>
                opening.wanted && (!begins || (next > first && FailsAt(c, floors, turns, first, next - 1))))
            && (forall n: nat | begins && FailsAt(c, floors, turns, first, n) :: end == Threw && next == n + 1)
  {
    hide Passes, FloorsOk, ValidCheckpoint, Advance;
    next := first;
    if !opening.wanted {
      return Stopped, next;
    }
    var expected := guard.BeforeMessage(k, offset, opening.probe);
    if !expected {
      return Threw, next;
    }
    while next < |turns|
      invariant first <= next <= |turns|
      invariant guard.Valid() && guard.floors == old(guard.floors) && !guard.failed
      invariant forall n | first <= n < next :: Retries(turns[n])
    {
      var turn := turns[next];
      next := next + 1;
      if !turn.wanted {
        return Stopped, next;
      }
      if turn.handled.Throws? {
        return Threw, next;
      }
      if turn.stale {
        return Stopped, next;
      }
      if turn.handled.Safe? {
        var ok := guard.Check(turn.probe);
        if !ok || !turn.accepted {
          return Threw, next;
        }
        var known := guard.Committed(k, offset);
        if !known {
          return Threw, next;
        }
        return Finished, next;
      }
    }
    end := Stopped;
  }

  function Behind(offsets: seq<nat>): (r: seq<nat>)
    ensures |r| == |offsets| && forall i | 0 <= i < |r| :: r[i] == offsets[i] + 1
  {
    seq(|offsets|, i requires 0 <= i < |offsets| => offsets[i] + 1)
  }

  ghost predicate Increasing(s: seq<nat>) {
    forall i, j | 0 <= i < j < |s| :: s[i] < s[j]
  }

  /**
   The commits lie behind a prefix of the records, above the floor the partition had before, strictly
   increasing, and the floor the partition has after is the last of them.
   */
  ghost predicate CommitsPrefix(before: Option<int>, after: Option<int>, records: seq<nat>, commits: seq<nat>) {
    && |commits| <= |records|
    && commits == Behind(records[..|commits|])
    && Increasing(commits)
    && (forall c | c in commits :: before.Some? && before.value < c)
    && after == if commits == [] then before else Some(commits[|commits| - 1])
  }

  lemma NoCommits(before: Option<int>, records: seq<nat>)
    ensures CommitsPrefix(before, before, records, [])
  {
  }

  lemma CommitsOneMore(before: Option<int>, floor: Option<int>, records: seq<nat>, commits: seq<nat>)
    requires CommitsPrefix(before, floor, records, commits) && |commits| < |records|
    requires floor.Some? && floor.value <= records[|commits|]
    ensures CommitsPrefix(before, Some(records[|commits|] + 1), records, commits + [records[|commits|] + 1])
  {
    assert commits != [] ==> commits[|commits| - 1] in commits;
    assert records[..|commits| + 1] == records[..|commits|] + [records[|commits|]];
  }

  /** Every start but the first lies behind the turn that disposed of the record before. */
  predicate Spans(turns: seq<Turn>, starts: seq<nat>) {
    && starts != [] && starts[0] == 0
    && forall i | 0 < i < |starts| ::
         && starts[i - 1] < starts[i] <= |turns|
         && RetriedUntil(turns, starts[i - 1], starts[i] - 1)
         && Disposes(turns[starts[i] - 1])
  }

  /**
   eachBatch: whatever the records and the world around it, it commits behind a prefix of the batch, and
   behind all of it exactly when it finishes; it stops only at a record that is not begun or not disposed of
   by the turns left; no other partition's floor moves; and after a failed check it commits nothing.
   */
  method EachBatch(guard: RecoveryGuard, k: Key, records: seq<nat>, openings: seq<Opening>, turns: seq<Turn>)
    returns (end: End, commits: seq<nat>, ghost starts: seq<nat>)
    requires guard.Valid() && |openings| == |records|
    modifies guard
    ensures guard.Valid()
    ensures CommitsPrefix(FloorOf(old(guard.floors), k), FloorOf(guard.floors, k), records, commits)
    ensures end.Finished? <==> |commits| == |records|
    ensures Spans(turns, starts) && |starts| == |commits| + 1
    ensures !end.Finished? ==>
              var n := |commits|;
              Begins(guard.checkpoint, guard.floors, old(guard.failed), k, records[n], openings[n]) ==>
                forall last: nat :: !CommitsAt(guard.checkpoint, guard.floors, turns, starts[n], last)
    ensures forall other | other != k :: FloorOf(guard.floors, other) == FloorOf(old(guard.floors), other)
    ensures old(guard.failed) ==> guard.failed && commits == []
  {
    hide Advance, FloorOf, FloorsOk, Passes, ValidCheckpoint, CommitsPrefix, Increasing;
    hide RetriedUntil, Disposes, FailsAt, Begins;
    commits, starts := [], [0];
    var turn := 0;
    NoCommits(FloorOf(guard.floors, k), records);
    while |commits| < |records|
      invariant |commits| <= |records| && turn <= |turns|
      invariant guard.Valid()
      invariant CommitsPrefix(FloorOf(old(guard.floors), k), FloorOf(guard.floors, k), records, commits)
      invariant forall other | other != k :: FloorOf(guard.floors, other) == FloorOf(old(guard.floors), other)
      invariant old(guard.failed) ==> guard.failed && commits == []
      invariant !old(guard.failed) ==> !guard.failed
      invariant Spans(turns, starts) && |starts| == |commits| + 1 && starts[|commits|] == turn
      decreases |records| - |commits|
    {
      var record := records[|commits|];
      ghost var floors := guard.floors;
      end, turn := EachRecord(guard, k, record, openings[|commits|], turns, turn);
      if !end.Finished? {
        return end, commits, starts;
      }
      AdvanceKeepsKeys(floors, k, record);
      CommitsOneMore(FloorOf(old(guard.floors), k), FloorOf(floors, k), records, commits);
      commits, starts := commits + [record + 1], starts + [turn];
    }
    end := Finished;
  }

  // ---------------------------------------------------------------- all partitions at once

  /** How far the one batch of a partition is with its current record. */
  datatype Phase = Started(offset: nat) | Cleared(offset: nat)

  datatype Sys = Sys(floors: seq<Offset>, failed: bool, phases: map<Key, Phase>)

  /** Batches of different partitions and the periodic check interleave; checks run one after another. */
  datatype Action =
    | TimerCheck(x: Probe)
    | Begin(k: Key, offset: nat, x: Probe)
    | Clear(k: Key, x: Probe)
    | Commit(k: Key)
    | Drop(k: Key)

  predicate Enabled(s: Sys, a: Action) {
    match a
    case TimerCheck(_) => true
    case Begin(k, _, _) => k !in s.phases
    case Clear(k, _) => k in s.phases && s.phases[k].Started?
    case Commit(k) => k in s.phases && s.phases[k].Cleared?
    case Drop(k) => k in s.phases
  }

  function Next(c: Checkpoint, s: Sys, a: Action): Sys
    requires Enabled(s, a)
  {
    match a
    case TimerCheck(x) => s.(failed := s.failed || !Passes(c, s.floors, x))
    case Begin(k, offset, x) =>
      var s' := s.(failed := s.failed || !Passes(c, s.floors, x));
      if s'.failed || !Expected(s.floors, k, offset) then s' else s'.(phases := s.phases[k := Started(offset)])
    case Clear(k, x) =>
      var s' := s.(failed := s.failed || !Passes(c, s.floors, x));
      s'.(phases := if s'.failed then s.phases - {k} else s.phases[k := Cleared(s.phases[k].offset)])
    case Commit(k) => s.(floors := Advance(s.floors, k, s.phases[k].offset), phases := s.phases - {k})
    case Drop(k) => s.(phases := s.phases - {k})
  }

  ghost predicate Step(c: Checkpoint, s: Sys, a: Action, s': Sys) {
    Enabled(s, a) && s' == Next(c, s, a)
  }

  /** The actions lead from s through the states. */
  ghost predicate IsPath(c: Checkpoint, s: Sys, states: seq<Sys>, actions: seq<Action>) {
    && |states| == |actions| + 1
    && states[0] == s
    && forall i | 0 <= i < |actions| :: Step(c, states[i], actions[i], states[i + 1])
  }

  /** A consumer's life from the verified transport on. */
  ghost predicate IsRun(c: Checkpoint, x: Probe, states: seq<Sys>, actions: seq<Action>) {
    ValidCheckpoint(c) && ValidTransport(c, x) && IsPath(c, Sys(x.offsets, false, map[]), states, actions)
  }

  ghost predicate Inv(c: Checkpoint, s: Sys) {
    FloorsOk(c, s.floors) && forall k | k in s.phases :: Expected(s.floors, k, s.phases[k].offset)
  }

  lemma StepKeeps(c: Checkpoint, s: Sys, a: Action, s': Sys)
    requires Inv(c, s) && Step(c, s, a, s')
    ensures Inv(c, s')
  {
    hide Passes, FloorsOk, Advance, FloorOf;
    if a.Commit? {
      AdvanceKeepsFloors(c, s.floors, a.k, s.phases[a.k].offset);
      AdvanceKeepsKeys(s.floors, a.k, s.phases[a.k].offset);
    }
  }

  lemma {:induction false} RunKeeps(c: Checkpoint, x: Probe, states: seq<Sys>, actions: seq<Action>, i: nat)
    requires IsRun(c, x, states, actions) && i < |states|
    ensures Inv(c, states[i])
  {
    hide Step, FloorsOk;
    if i > 0 {
      RunKeeps(c, x, states, actions, i - 1);
      StepKeeps(c, states[i - 1], actions[i - 1], states[i]);
    } else {
      StartsOk(c, x);
    }
  }

  lemma StartsOk(c: Checkpoint, x: Probe)
    requires ValidCheckpoint(c) && ValidTransport(c, x)
    ensures FloorsOk(c, x.offsets)
  {
    TransportIsExact(c, x);
  }

  /**
   In every reachable state there is one floor for each checkpointed partition, never before its
   checkpoint, and every commit moves its partition's floor strictly forward and no other.
   */
  lemma FloorsOnlyRise(c: Checkpoint, x: Probe, states: seq<Sys>, actions: seq<Action>, i: nat, k: Key)
    requires IsRun(c, x, states, actions) && i < |states|
    ensures FloorsOk(c, states[i].floors)
    ensures i < |actions| && actions[i] == Commit(k) ==>
              && FloorOf(states[i].floors, k).Some? && FloorOf(states[i + 1].floors, k).Some?
              && FloorOf(states[i].floors, k).value < FloorOf(states[i + 1].floors, k).value
    ensures i < |actions| && actions[i] != Commit(k) ==>
              FloorOf(states[i + 1].floors, k) == FloorOf(states[i].floors, k)
  {
    RunKeeps(c, x, states, actions, i);
    hide Advance, FloorOf, FloorsOk, Passes;
    if i < |actions| {
      assert Step(c, states[i], actions[i], states[i + 1]);
      if actions[i].Commit? {
        AdvanceKeepsKeys(states[i].floors, actions[i].k, states[i].phases[actions[i].k].offset);
      }
    }
  }

  /** A commit of this partition was already past its check. */
  predicate InFlight(s: Sys, k: Key) {
    k in s.phases && s.phases[k].Cleared?
  }

  /** What may have become of a partition since s, when a check had already failed in s. */
  predicate Frozen(s: Sys, t: Sys, k: Key) {
    if InFlight(s, k) then
      || (InFlight(t, k) && t.phases[k] == s.phases[k] && FloorOf(t.floors, k) == FloorOf(s.floors, k))
      || (!InFlight(t, k) && FloorOf(t.floors, k) in [FloorOf(s.floors, k), Some(s.phases[k].offset + 1)])
    else
      !InFlight(t, k) && FloorOf(t.floors, k) == FloorOf(s.floors, k)
  }

  lemma StepStaysFrozen(c: Checkpoint, s: Sys, t: Sys, a: Action, t': Sys, k: Key)
    requires Inv(c, t) && t.failed && Frozen(s, t, k) && Step(c, t, a, t')
    ensures t'.failed && Frozen(s, t', k)
  {
    hide Passes, FloorsOk, Advance, FloorOf;
    if a.Commit? {
      AdvanceKeepsKeys(t.floors, a.k, t.phases[a.k].offset);
    }
  }

  /** Along every path from a failed state no record is let through, and what is not in flight stays. */
  lemma {:induction false} PathStaysFrozen(c: Checkpoint, s: Sys, states: seq<Sys>, actions: seq<Action>, j: nat,
      k: Key)
    requires Inv(c, s) && s.failed && IsPath(c, s, states, actions) && j < |states|
    ensures Inv(c, states[j]) && states[j].failed && Frozen(s, states[j], k)
  {
    hide Frozen, Step, Inv;
    if j == 0 {
      FrozenAtFirst(s, k);
    } else {
      PathStaysFrozen(c, s, states, actions, j - 1, k);
      StepKeeps(c, states[j - 1], actions[j - 1], states[j]);
      StepStaysFrozen(c, s, states[j - 1], actions[j - 1], states[j], k);
    }
  }

  lemma FrozenAtFirst(s: Sys, k: Key)
    ensures Frozen(s, s, k)
  {
  }

  /** A commit that is in flight can still arrive, and moves the floor when it does. */
  lemma LateCommitArrives(c: Checkpoint, s: Sys, k: Key)
    requires Inv(c, s) && InFlight(s, k)
    ensures Enabled(s, Commit(k))
    ensures FloorOf(Next(c, s, Commit(k)).floors, k) == Some(s.phases[k].offset + 1)
    ensures FloorOf(Next(c, s, Commit(k)).floors, k) != FloorOf(s.floors, k)
  {
    hide FloorsOk, Advance, FloorOf;
    AdvanceKeepsKeys(s.floors, k, s.phases[k].offset);
  }

  /** Some continuation from s moves the floor of partition k. */
  ghost predicate CanStillMove(c: Checkpoint, s: Sys, k: Key) {
    exists states: seq<Sys>, actions: seq<Action> ::
      IsPath(c, s, states, actions) && FloorOf(states[|states| - 1].floors, k) != FloorOf(s.floors, k)
  }

  /**
   After a failed check a partition can still commit if and only if a commit of it had passed its own
   check before and is on its way. When it arrives it is the last one.
   */
  lemma FailureIsFinal(c: Checkpoint, x: Probe, states: seq<Sys>, actions: seq<Action>, i: nat, k: Key)
    requires IsRun(c, x, states, actions) && i < |states| && states[i].failed
    ensures CanStillMove(c, states[i], k) <==> InFlight(states[i], k)
    ensures InFlight(states[i], k) ==> !CanStillMove(c, Next(c, states[i], Commit(k)), k)
  {
    RunKeeps(c, x, states, actions, i);
    FailedMovesExactlyInFlight(c, states[i], k);
    if InFlight(states[i], k) {
      var t := Next(c, states[i], Commit(k));
      StepKeeps(c, states[i], Commit(k), t);
      FailedMovesExactlyInFlight(c, t, k);
    }
  }

  lemma FailedMovesExactlyInFlight(c: Checkpoint, s: Sys, k: Key)
    requires Inv(c, s) && s.failed
    ensures CanStillMove(c, s, k) <==> InFlight(s, k)
  {
    hide Inv;
    if CanStillMove(c, s, k) {
      var states: seq<Sys>, actions: seq<Action> :|
        IsPath(c, s, states, actions) && FloorOf(states[|states| - 1].floors, k) != FloorOf(s.floors, k);
      PathStaysFrozen(c, s, states, actions, |states| - 1, k);
    }
    if InFlight(s, k) {
      LateCommitArrives(c, s, k);
      var t := Next(c, s, Commit(k));
      var states, actions := [s, t], [Commit(k)];
      assert IsPath(c, s, states, actions);
      assert states[|states| - 1] == t;
    }
  }

  /** Nothing is ever committed after a failed check, for all partitions, exactly when none is in flight. */
  lemma NothingMovesExactlyWhenNothingInFlight(c: Checkpoint, x: Probe, states: seq<Sys>, actions: seq<Action>, i: nat)
    requires IsRun(c, x, states, actions) && i < |states| && states[i].failed
    ensures (forall k :: !CanStillMove(c, states[i], k)) <==> (forall k :: !InFlight(states[i], k))
  {
    hide CanStillMove;
    forall k
      ensures CanStillMove(c, states[i], k) <==> InFlight(states[i], k)
    {
      FailureIsFinal(c, x, states, actions, i, k);
    }
  }

  const FIRST_KEY := Key("tasks", 0)
  const EXAMPLE := Checkpoint("cluster", ["tasks"], [Saved(FIRST_KEY, 0, 0, 1)])
  const EXAMPLE_LOGS := Some(Logs("cluster", [Log(FIRST_KEY, 0, 1)]))
  const GOOD_PROBE := Probe([Offset(FIRST_KEY, 0)], true, EXAMPLE_LOGS, EXAMPLE_LOGS)
  const BAD_PROBE := Probe([], false, None, None)

  lemma ExampleIsValid()
    ensures ValidCheckpoint(EXAMPLE) && Passes(EXAMPLE, GOOD_PROBE.offsets, GOOD_PROBE)
    ensures Expected(GOOD_PROBE.offsets, FIRST_KEY, 0) && !Passes(EXAMPLE, GOOD_PROBE.offsets, BAD_PROBE)
  {
    assert SavedKeys(EXAMPLE.partitions) == [FIRST_KEY];
    assert OffsetKeys(GOOD_PROBE.offsets) == [FIRST_KEY];
    assert LogKeys(EXAMPLE_LOGS.value.logs) == [FIRST_KEY];
    assert EXAMPLE.partitions[0] in EXAMPLE.partitions;
  }

  /**
   The late commit happens: one record is let through and cleared, the periodic check fails, and the
   commit then moves the floor.
   */
  lemma LateCommitHappens()
    ensures exists states: seq<Sys>, actions: seq<Action> ::
              && IsRun(EXAMPLE, GOOD_PROBE, states, actions)
              && var s := states[|states| - 1];
                 s.failed && InFlight(s, FIRST_KEY) && CanStillMove(EXAMPLE, s, FIRST_KEY)
  {
    ExampleIsValid();
    hide Passes, ValidCheckpoint, Expected, CanStillMove;
    var a0, a1, a2 := Begin(FIRST_KEY, 0, GOOD_PROBE), Clear(FIRST_KEY, GOOD_PROBE), TimerCheck(BAD_PROBE);
    var s0 := Sys(GOOD_PROBE.offsets, false, map[]);
    var s1 := Next(EXAMPLE, s0, a0);
    var s2 := Next(EXAMPLE, s1, a1);
    var s3 := Next(EXAMPLE, s2, a2);
    var states, actions := [s0, s1, s2, s3], [a0, a1, a2];
    PassesIsTransport(EXAMPLE, GOOD_PROBE.offsets, GOOD_PROBE);
    assert IsRun(EXAMPLE, GOOD_PROBE, states, actions);
    assert states[|states| - 1] == s3;
    FailureIsFinal(EXAMPLE, GOOD_PROBE, states, actions, 3, FIRST_KEY);
  }

  lemma PassesIsTransport(c: Checkpoint, floors: seq<Offset>, x: Probe)
    requires Passes(c, floors, x)
    ensures ValidTransport(c, x)
  {
  }
}
