/** The in-memory fixed-window limiter (packages/server/src/rate-limit.ts); times are milliseconds. */
module RateLimit {
  import opened Common

  datatype Bucket = Bucket(count: nat, resetAt: int)
  datatype Rate = Rate(limit: nat, window: nat)
  datatype Outcome = Accepted | OverLimit | NoRoom

  type Buckets = map<string, Bucket>

  function Pruned(m: Buckets, now: int): Buckets {
    map k | k in m && m[k].resetAt > now :: m[k]
  }

  /** The bucket a call on this key counts in. */
  function Opened(m: Buckets, key: string, rate: Rate, now: int): Bucket {
    var b := if key in m && m[key].resetAt > now then m[key] else Bucket(0, now + rate.window);
    b.(count := b.count + 1)
  }

  function CallOutcome(m: Buckets, capacity: nat, key: string, rate: Rate, now: int): Outcome {
    var live := Pruned(m, now);
    if key !in live && |live| >= capacity then NoRoom
    else if Opened(live, key, rate, now).count > rate.limit then OverLimit
    else Accepted
  }

  function AfterCall(m: Buckets, capacity: nat, key: string, rate: Rate, now: int): Buckets {
    var live := Pruned(m, now);
    if CallOutcome(m, capacity, key, rate, now).NoRoom? then live else live[key := Opened(live, key, rate, now)]
  }

  /** Keys whose window has not ended. */
  function LiveKeys(m: Buckets, now: int): set<string> {
    set k | k in m && now < m[k].resetAt
  }

  /**
   A call is accepted exactly when its key's window has room for one more, or when the key gets a window and
   the limit is not zero; a key gets one when there is room in the map among the windows that have not ended.
   */
  lemma AcceptedExactlyWhen(m: Buckets, capacity: nat, key: string, rate: Rate, now: int)
    ensures var live := LiveKeys(m, now);
            var outcome := CallOutcome(m, capacity, key, rate, now);
            && (outcome == NoRoom <==> key !in live && capacity <= |live|)
            && (outcome == Accepted <==>
                if key in live then m[key].count < rate.limit else |live| < capacity && 0 < rate.limit)
  {
    assert Pruned(m, now).Keys == LiveKeys(m, now);
  }

  /** No call makes the map outgrow its capacity, and none drops or resets a bucket that has not expired. */
  lemma CallKeepsBuckets(m: Buckets, capacity: nat, key: string, rate: Rate, now: int)
    requires |m| <= capacity
    ensures var m' := AfterCall(m, capacity, key, rate, now);
            && |m'| <= capacity
            && (forall k | k in m && m[k].resetAt > now ::
                  k in m' && m'[k].resetAt == m[k].resetAt &&
                      m[k].count <= m'[k].count <= m[k].count + if k == key then 1 else 0)
            && (forall k | k in m' && k != key :: k in m && m[k] == m'[k] && m[k].resetAt > now)
  {
    CallFits(m, capacity, key, rate, now);
  }

  lemma CallFits(m: Buckets, capacity: nat, key: string, rate: Rate, now: int)
    requires |m| <= capacity
    ensures |AfterCall(m, capacity, key, rate, now)| <= capacity
  {
    var live := Pruned(m, now);
    assert live.Keys <= m.Keys;
    SubsetIsSmaller(live.Keys, m.Keys);
    var added := live[key := Opened(live, key, rate, now)];
    assert added.Keys == if key in live then live.Keys else live.Keys + {key};
    hide Pruned, Opened;
  }

  // ---------------------------------------------------------------- the limiter

  function CeilSeconds(ms: int): int {
    (ms + 999) / 1000
  }

  lemma OpenedBucket(m: Buckets, key: string, rate: Rate, now: int)
    ensures Opened(m, key, rate, now) ==
            if key in m && m[key].resetAt > now then Bucket(m[key].count + 1, m[key].resetAt)
            else Bucket(1, now + rate.window)
  {
  }

  lemma ReplacedEntry(m: Buckets, key: string, b: Bucket)
    ensures (m - {key})[key := b] == m[key := b]
  {
  }

  lemma CeilSecondsIsLeast(ms: int)
    ensures 1000 * (CeilSeconds(ms) - 1) < ms <= 1000 * CeilSeconds(ms)
  {
  }

  class Limiter {
    var buckets: Buckets
    const capacity: nat

    constructor (capacity: nat)
      ensures buckets == map[] && this.capacity == capacity
    {
      buckets := map[];
      this.capacity := capacity;
    }

    method PruneExpiredBuckets(now: int)
      modifies this
      ensures buckets == Pruned(old(buckets), now)
      ensures forall k | k in buckets :: now < buckets[k].resetAt
    {
      var unseen := buckets.Keys;
      while unseen != {}
        invariant unseen <= buckets.Keys <= old(buckets).Keys
        invariant forall k | k in buckets :: buckets[k] == old(buckets)[k]
        invariant forall k | k in old(buckets) && k !in unseen :: k in buckets <==> old(buckets)[k].resetAt > now
        decreases |unseen|
      {
        var key :| key in unseen;
        unseen := unseen - {key};
        if buckets[key].resetAt <= now {
          buckets := buckets - {key};
        }
      }
      assert buckets.Keys == Pruned(old(buckets), now).Keys;
    }

    /** The earliest time at which a bucket expires; none when there is no bucket. */
    method EarliestReset() returns (resetAt: Option<int>)
      ensures resetAt.None? <==> buckets == map[]
      ensures resetAt.Some? ==> exists k | k in buckets :: buckets[k].resetAt == resetAt.value
      ensures resetAt.Some? ==> forall k | k in buckets :: resetAt.value <= buckets[k].resetAt
    {
      resetAt := None;
      var unseen := buckets.Keys;
      while unseen != {}
        invariant unseen <= buckets.Keys
        invariant resetAt.None? <==> unseen == buckets.Keys
        invariant resetAt.Some? ==> exists k | k in buckets :: buckets[k].resetAt == resetAt.value
        invariant resetAt.Some? ==> forall k | k in buckets && k !in unseen :: resetAt.value <= buckets[k].resetAt
        decreases |unseen|
      {
        var key :| key in unseen;
        unseen := unseen - {key};
        resetAt := Some(if resetAt.Some? then Min(resetAt.value, buckets[key].resetAt) else buckets[key].resetAt);
      }
    }

    /**
     assertRateLimit. A refusal over the limit asks for the least number of whole seconds after which
     the key's bucket has expired; one for lack of room, for the least number after which some bucket has.
     */
    method AssertRateLimit(key: string, rate: Rate, now: int) returns (outcome: Outcome, retryAfter: Option<int>)
      modifies this
      ensures outcome == CallOutcome(old(buckets), capacity, key, rate, now)
      ensures buckets == AfterCall(old(buckets), capacity, key, rate, now)
      ensures outcome.Accepted? ==> retryAfter.None?
      ensures outcome.OverLimit? ==>
                key in buckets && retryAfter.Some? &&
                    1000 * (retryAfter.value - 1) < buckets[key].resetAt - now <= 1000 * retryAfter.value
      ensures outcome.NoRoom? ==> (retryAfter.None? <==> buckets == map[])
      ensures outcome.NoRoom? && retryAfter.Some? ==>
                retryAfter.value >= 1 && exists k | k in buckets :: buckets[k].resetAt <= now + 1000 * retryAfter.value
      ensures outcome.NoRoom? && retryAfter.Some? ==>
                forall k | k in buckets :: 1000 * (retryAfter.value - 1) < buckets[k].resetAt - now
    {
      hide CeilSeconds, Pruned, Opened;
      PruneExpiredBuckets(now);
      ghost var live := buckets;
      retryAfter := None;
      if key !in buckets && |buckets| >= capacity {
        var resetAt := EarliestReset();
        if resetAt.Some? {
          CeilSecondsIsLeast(resetAt.value - now);
          retryAfter := Some(Max(1, CeilSeconds(resetAt.value - now)));
        }
        return NoRoom, retryAfter;
      }
      var bucket := if key in buckets && buckets[key].resetAt > now then buckets[key] else Bucket(0, now + rate.window);
      bucket := bucket.(count := bucket.count + 1);
      OpenedBucket(live, key, rate, now);
      buckets := buckets - {key};
      buckets := buckets[key := bucket];
      ReplacedEntry(live, key, bucket);
      CeilSecondsIsLeast(bucket.resetAt - now);
      if bucket.count > rate.limit {
        return OverLimit, Some(CeilSeconds(bucket.resetAt - now));
      }
      outcome := Accepted;
    }
  }

  // ---------------------------------------------------------------- any number of calls

  datatype Call = Call(key: string, rate: Rate, at: int)

  function Run(calls: seq<Call>, capacity: nat): Buckets {
    if calls == [] then map[]
    else
      var last := calls[|calls| - 1];
      AfterCall(Run(calls[..|calls| - 1], capacity), capacity, last.key, last.rate, last.at)
  }

  predicate NextIsAccepted(before: seq<Call>, last: Call, capacity: nat) {
    CallOutcome(Run(before, capacity), capacity, last.key, last.rate, last.at).Accepted?
  }

  /** How many of the calls on this key were accepted at a time from lo up to, not including, hi. */
  function Count(calls: seq<Call>, capacity: nat, key: string, lo: int, hi: int): nat {
    if calls == [] then 0
    else
      var n := |calls| - 1;
      var rest := Count(calls[..n], capacity, key, lo, hi);
      if calls[n].key == key && lo <= calls[n].at < hi && NextIsAccepted(calls[..n], calls[n], capacity)
      then rest + 1 else rest
  }

  ghost predicate IsClocked(calls: seq<Call>) {
    forall i, j | 0 <= i <= j < |calls| :: calls[i].at <= calls[j].at
  }

  /** Every call on the key comes with the same limit and window. */
  ghost predicate UsesRate(calls: seq<Call>, key: string, rate: Rate) {
    forall i | 0 <= i < |calls| :: calls[i].key == key ==> calls[i].rate == rate
  }

  /** The map stays within its capacity over any number of calls. */
  lemma {:induction false} RunFits(calls: seq<Call>, capacity: nat)
    ensures |Run(calls, capacity)| <= capacity
  {
    if calls != [] {
      var last := calls[|calls| - 1];
      RunFits(calls[..|calls| - 1], capacity);
      CallFits(Run(calls[..|calls| - 1], capacity), capacity, last.key, last.rate, last.at);
    }
  }

  lemma {:induction false} CountWithin(calls: seq<Call>, capacity: nat, key: string, lo: int, hi: int, lo': int,
      hi': int)
    requires lo <= lo' && hi' <= hi
    ensures Count(calls, capacity, key, lo', hi') <= Count(calls, capacity, key, lo, hi)
  {
    if calls != [] {
      CountWithin(calls[..|calls| - 1], capacity, key, lo, hi, lo', hi');
    }
  }

  lemma {:induction false} CountSplits(calls: seq<Call>, capacity: nat, key: string, lo: int, mid: int, hi: int)
    requires lo <= mid <= hi
    ensures Count(calls, capacity, key, lo, hi) ==
            Count(calls, capacity, key, lo, mid) + Count(calls, capacity, key, mid, hi)
  {
    if calls != [] {
      CountSplits(calls[..|calls| - 1], capacity, key, lo, mid, hi);
    }
  }

  /** What one more call does to the map and to a count. */
  lemma RunLast(before: seq<Call>, last: Call, capacity: nat)
    ensures Run(before + [last], capacity) ==
            AfterCall(Run(before, capacity), capacity, last.key, last.rate, last.at)
  {
    assert (before + [last])[..|before|] == before;
  }

  lemma CountLast(before: seq<Call>, last: Call, capacity: nat, key: string, lo: int, hi: int)
    ensures Count(before + [last], capacity, key, lo, hi) ==
            Count(before, capacity, key, lo, hi) +
            if last.key == key && lo <= last.at < hi && NextIsAccepted(before, last, capacity) then 1 else 0
  {
    assert (before + [last])[..|before|] == before;
  }

  /** No call on this key has opened a bucket. */
  ghost predicate Untouched(calls: seq<Call>, capacity: nat, key: string) {
    key !in Run(calls, capacity) && forall lo, hi :: Count(calls, capacity, key, lo, hi) == 0
  }

  /** The key's last bucket lasts from start to end; now is the time of the last call. */
  ghost predicate Spans(calls: seq<Call>, capacity: nat, key: string, rate: Rate, start: int, end: int, now: int) {
    var m := Run(calls, capacity);
    && end == start + rate.window
    && start <= now
    && if key in m then m[key].resetAt == end else end <= now
  }

  /** What has been accepted in the key's last bucket, in the window before it, and not after it. */
  ghost predicate Bounded(calls: seq<Call>, capacity: nat, key: string, rate: Rate, start: int, end: int) {
    var m := Run(calls, capacity);
    var inLast := Count(calls, capacity, key, start, end);
    && inLast <= rate.limit
    && (key in m ==> inLast == Min(m[key].count, rate.limit))
    && Count(calls, capacity, key, start - rate.window, start) <= rate.limit
    && forall hi :: Count(calls, capacity, key, end, hi) == 0
  }

  ghost predicate KeyOk(calls: seq<Call>, capacity: nat, key: string, rate: Rate, now: int) {
    || Untouched(calls, capacity, key)
    || exists start, end :: Spans(calls, capacity, key, rate, start, end, now) &&
         Bounded(calls, capacity, key, rate, start, end)
  }

  /** Once the last bucket has ended, at most one limit of accepted calls is less than a window old. */
  lemma EndedWindow(calls: seq<Call>, capacity: nat, key: string, rate: Rate, prev: int, now: int)
    requires KeyOk(calls, capacity, key, rate, prev) && prev <= now
    requires key in Run(calls, capacity) ==> Run(calls, capacity)[key].resetAt <= now
    ensures forall hi :: Count(calls, capacity, key, now, hi) == 0
    ensures Count(calls, capacity, key, now - rate.window, now) <= rate.limit
  {
    hide Run, Count;
    if !Untouched(calls, capacity, key) {
      var start: int, end: int :| Spans(calls, capacity, key, rate, start, end, prev) &&
          Bounded(calls, capacity, key, rate, start, end);
      CountSplits(calls, capacity, key, start, end, now);
      CountWithin(calls, capacity, key, start, now, now - rate.window, now);
      forall hi
        ensures Count(calls, capacity, key, now, hi) == 0
      {
        CountWithin(calls, capacity, key, end, hi, now, hi);
      }
    }
  }

  /** The call opens a bucket. */
  predicate Opens(m: Buckets, capacity: nat, last: Call) {
    last.key !in Pruned(m, last.at) && !CallOutcome(m, capacity, last.key, last.rate, last.at).NoRoom?
  }

  lemma Opening(m: Buckets, capacity: nat, last: Call)
    requires Opens(m, capacity, last)
    ensures var m' := AfterCall(m, capacity, last.key, last.rate, last.at);
            last.key in m' && m'[last.key] == Bucket(1, last.at + last.rate.window)
    ensures CallOutcome(m, capacity, last.key, last.rate, last.at).Accepted? <==> last.rate.limit >= 1
    ensures last.key in m ==> m[last.key].resetAt <= last.at
  {
  }

  lemma NewBounds(before: seq<Call>, last: Call, capacity: nat)
    requires last.key in Run(before + [last], capacity) && Run(before + [last], capacity)[last.key].count == 1
    requires NextIsAccepted(before, last, capacity) <==> last.rate.limit >= 1
    requires forall hi :: Count(before, capacity, last.key, last.at, hi) == 0
    requires Count(before, capacity, last.key, last.at - last.rate.window, last.at) <= last.rate.limit
    requires last.rate.window > 0
    ensures Bounded(before + [last], capacity, last.key, last.rate, last.at, last.at + last.rate.window)
  {
    hide Run, NextIsAccepted, Count;
    var next := last.at + last.rate.window;
    CountLast(before, last, capacity, last.key, last.at, next);
    CountLast(before, last, capacity, last.key, last.at - last.rate.window, last.at);
    forall hi
      ensures Count(before + [last], capacity, last.key, next, hi) == 0
    {
      CountLast(before, last, capacity, last.key, next, hi);
      CountWithin(before, capacity, last.key, last.at, hi, next, hi);
    }
  }

  /** A call that opens a bucket for the key. */
  lemma NewWindow(before: seq<Call>, last: Call, capacity: nat, prev: int)
    requires KeyOk(before, capacity, last.key, last.rate, prev) && prev <= last.at && last.rate.window > 0
    requires Opens(Run(before, capacity), capacity, last)
    ensures KeyOk(before + [last], capacity, last.key, last.rate, last.at)
  {
    RunLast(before, last, capacity);
    Opening(Run(before, capacity), capacity, last);
    hide AfterCall, CallOutcome, Opens, Run, Count;
    EndedWindow(before, capacity, last.key, last.rate, prev, last.at);
    NewBounds(before, last, capacity);
    hide Bounded;
    assert Spans(before + [last], capacity, last.key, last.rate, last.at, last.at + last.rate.window, last.at);
  }

  /** Any other call keeps the bounds of the key's last bucket. */
  lemma SameWindow(before: seq<Call>, last: Call, capacity: nat, key: string, rate: Rate, start: int, end: int,
      prev: int)
    requires Spans(before, capacity, key, rate, start, end, prev) && Bounded(before, capacity, key, rate, start, end)
    requires prev <= last.at
    requires last.key == key ==> last.rate == rate && !Opens(Run(before, capacity), capacity, last)
    ensures Spans(before + [last], capacity, key, rate, start, end, last.at)
    ensures Bounded(before + [last], capacity, key, rate, start, end)
  {
    hide Run, Count;
    RunLast(before, last, capacity);
    CountLast(before, last, capacity, key, start, end);
    CountLast(before, last, capacity, key, start - rate.window, start);
    forall hi
      ensures Count(before + [last], capacity, key, end, hi) == 0
    {
      CountLast(before, last, capacity, key, end, hi);
    }
  }

  lemma CallKeepsKey(before: seq<Call>, last: Call, capacity: nat, key: string, rate: Rate, prev: int)
    requires KeyOk(before, capacity, key, rate, prev) && prev <= last.at && rate.window > 0
    requires last.key == key ==> last.rate == rate
    ensures KeyOk(before + [last], capacity, key, rate, last.at)
  {
    hide Run, Count, Spans, Bounded;
    if last.key == key && Opens(Run(before, capacity), capacity, last) {
      hide Opens;
      NewWindow(before, last, capacity, prev);
    } else if Untouched(before, capacity, key) {
      RunLast(before, last, capacity);
      forall lo, hi
        ensures Count(before + [last], capacity, key, lo, hi) == 0
      {
        CountLast(before, last, capacity, key, lo, hi);
      }
    } else {
      hide Opens;
      var start: int, end: int :| Spans(before, capacity, key, rate, start, end, prev) &&
          Bounded(before, capacity, key, rate, start, end);
      SameWindow(before, last, capacity, key, rate, start, end, prev);
    }
  }

  function LastTime(calls: seq<Call>): int {
    if calls == [] then 0 else calls[|calls| - 1].at
  }

  lemma {:induction false} RunKeepsKey(calls: seq<Call>, capacity: nat, key: string, rate: Rate)
    requires IsClocked(calls) && UsesRate(calls, key, rate) && rate.window > 0
    ensures calls == [] ==> Untouched(calls, capacity, key)
    ensures KeyOk(calls, capacity, key, rate, LastTime(calls))
  {
    if calls != [] {
      var before, last := calls[..|calls| - 1], calls[|calls| - 1];
      hide KeyOk;
      RunKeepsKey(before, capacity, key, rate);
      assert calls == before + [last];
      if before == [] {
        FirstCall(last, capacity, key, rate);
      } else {
        CallKeepsKey(before, last, capacity, key, rate, LastTime(before));
      }
    }
  }

  /** Before the first call there is no clock to go by. */
  lemma FirstCall(first: Call, capacity: nat, key: string, rate: Rate)
    requires rate.window > 0 && (first.key == key ==> first.rate == rate)
    ensures KeyOk([] + [first], capacity, key, rate, first.at)
  {
    assert Untouched([], capacity, key);
    CallKeepsKey([], first, capacity, key, rate, first.at);
  }

  /** All that was accepted since one window before the last bucket is within twice the limit. */
  lemma RecentCalls(calls: seq<Call>, capacity: nat, key: string, rate: Rate, start: int, end: int, lo: int, hi: int)
    requires Bounded(calls, capacity, key, rate, start, end)
    requires start - rate.window <= lo && start <= end
    ensures Count(calls, capacity, key, lo, hi) <= 2 * rate.limit
  {
    hide Count, Run;
    var w: int := rate.window;
    var top := Max(end, hi);
    CountWithin(calls, capacity, key, start - w, top, lo, hi);
    CountSplits(calls, capacity, key, start - w, start, top);
    CountSplits(calls, capacity, key, start, end, top);
  }

  /**
   Whatever the calls on all keys are, any window's length of time holds at most twice the limit of accepted
   calls on a key.
   */
  lemma {:induction false} AtMostTwiceTheLimit(calls: seq<Call>, capacity: nat, key: string, rate: Rate, t: int)
    requires IsClocked(calls) && UsesRate(calls, key, rate) && rate.window > 0
    ensures Count(calls, capacity, key, t, t + rate.window + 1) <= 2 * rate.limit
  {
    if calls != [] {
      var before, last := calls[..|calls| - 1], calls[|calls| - 1];
      var hi := t + rate.window + 1;
      AtMostTwiceTheLimit(before, capacity, key, rate, t);
      RunKeepsKey(calls, capacity, key, rate);
      assert calls == before + [last];
      CountLast(before, last, capacity, key, t, hi);
      hide Count, Run, NextIsAccepted, Bounded;
      if t <= last.at < hi && !Untouched(calls, capacity, key) {
        var start: int, end: int :| Spans(calls, capacity, key, rate, start, end, last.at) &&
            Bounded(calls, capacity, key, rate, start, end);
        RecentCalls(calls, capacity, key, rate, start, end, t, hi);
      }
    }
  }

  /** A window of the key that is running now and in which exactly the limit has been accepted. */
  ghost predicate IsFull(calls: seq<Call>, capacity: nat, key: string, rate: Rate, start: int, now: int) {
    && start <= now < start + rate.window
    && Count(calls, capacity, key, start, start + rate.window) == rate.limit
  }

  /**
   A call is refused over the limit only when exactly the limit of calls on the key has been accepted in the
   window that is still running.
   */
  lemma RefusedOnlyAfterTheLimit(before: seq<Call>, last: Call, capacity: nat)
    requires IsClocked(before + [last]) && UsesRate(before + [last], last.key, last.rate) && last.rate.window > 0
    requires CallOutcome(Run(before, capacity), capacity, last.key, last.rate, last.at).OverLimit?
    ensures exists start: int :: IsFull(before, capacity, last.key, last.rate, start, last.at)
  {
    hide Count, Run;
    var calls := before + [last];
    assert forall i | 0 <= i < |before| :: calls[i] == before[i];
    assert calls[|before|] == last;
    RunKeepsKey(before, capacity, last.key, last.rate);
    AcceptedExactlyWhen(Run(before, capacity), capacity, last.key, last.rate, last.at);
    var m := Run(before, capacity);
    if last.key in LiveKeys(m, last.at) {
      assert before != [];
      var start: int, end: int :| Spans(before, capacity, last.key, last.rate, start, end, LastTime(before)) &&
          Bounded(before, capacity, last.key, last.rate, start, end);
      assert IsFull(before, capacity, last.key, last.rate, start, last.at);
    } else {
      assert IsFull(before, capacity, last.key, last.rate, last.at, last.at) by {
        NothingAccepted(before, capacity, last.key, last.rate, last.at);
      }
    }
  }

  lemma {:induction false} NothingAccepted(calls: seq<Call>, capacity: nat, key: string, rate: Rate, lo: int)
    requires UsesRate(calls, key, rate) && rate.limit == 0
    ensures Count(calls, capacity, key, lo, lo + rate.window) == 0
  {
    if calls != [] {
      var n := |calls| - 1;
      NothingAccepted(calls[..n], capacity, key, rate, lo);
      AcceptedExactlyWhen(Run(calls[..n], capacity), capacity, calls[n].key, calls[n].rate, calls[n].at);
    }
  }
}
