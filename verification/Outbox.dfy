/** The transactional outbox: claims, acknowledgements and failures of one event row (services/worker/src/outbox.ts). */
module Outbox {
  import opened Common
  import opened CanonicalJson
  import opened AsyncTask

  datatype EventStatus = Waiting | InFlight | Published | Retry | Dead

  /** A row of app_outbox_events. */
  datatype EventRow = EventRow(
    topic: Text,
    eventType: Text,
    traceId: Text,
    payload: Json,
    status: EventStatus,
    attempts: nat,
    maxAttempts: nat,
    generation: nat,
    lockedBy: Option<Text>,
    lockedAt: Option<int>,
    leaseUntil: Option<int>,
    nextAttemptAt: int,
    createdAt: int)

  /** The snapshot a worker takes of a row when it claims it. */
  datatype OutboxEvent = OutboxEvent(
    id: Text,
    topic: Text,
    eventType: Text,
    traceId: Text,
    payload: Json,
    attempts: nat,
    maxAttempts: nat,
    generation: nat)

  type Events = map<Text, EventRow>

  predicate Expired(row: EventRow, now: int) {
    match row.leaseUntil
    case Some(t) => t <= now
    case None => (match row.lockedAt case Some(t) => t <= now case None => true)
  }

  predicate Claimable(row: EventRow, now: int) {
    || ((row.status.Waiting? || row.status.Retry?) && row.nextAttemptAt <= now)
    || (row.status.InFlight? && Expired(row, now))
  }

  function ClaimedRow(row: EventRow, worker: Text, now: int, leaseMs: int): EventRow {
    row.(status := InFlight, lockedBy := Some(worker), lockedAt := Some(now), leaseUntil := Some(now + leaseMs),
         generation := row.generation + 1)
  }

  function Snapshot(id: Text, row: EventRow): OutboxEvent {
    OutboxEvent(id, row.topic, row.eventType, row.traceId, row.payload, row.attempts, row.maxAttempts, row.generation)
  }

  /** claimEvents on one row that its query has picked. */
  function ClaimEvent(events: Events, id: Text, worker: Text, now: int, leaseMs: int): Events
    requires id in events
  {
    events[id := ClaimedRow(events[id], worker, now, leaseMs)]
  }

  /** The guard of both acknowledgements. */
  predicate Owns(events: Events, e: OutboxEvent, worker: Text, now: int) {
    && e.id in events
    && var row := events[e.id];
    && row.status.InFlight?
    && row.lockedBy == Some(worker)
    && row.generation == e.generation
    && row.leaseUntil.Some? && row.leaseUntil.value > now
  }

  function Unlocked(row: EventRow): EventRow {
    row.(lockedBy := None, lockedAt := None, leaseUntil := None)
  }

  function MarkPublished(events: Events, e: OutboxEvent, worker: Text, now: int): Events {
    if Owns(events, e, worker, now)
    then events[e.id := Unlocked(events[e.id]).(status := Published, attempts := events[e.id].attempts + 1)]
    else events
  }

  predicate FailsForGood(e: OutboxEvent) {
    e.attempts + 1 >= e.maxAttempts
  }

  /** The attempt count written is the one of the worker's snapshot, plus one. */
  function MarkFailed(events: Events, e: OutboxEvent, worker: Text, now: int, baseMs: nat, maxMs: nat): Events {
    if Owns(events, e, worker, now)
    then events[e.id := Unlocked(events[e.id]).(
                          status := if FailsForGood(e) then Dead else Retry,
                          attempts := e.attempts + 1,
                          nextAttemptAt := now + RetryDelay(e.attempts + 1, baseMs, maxMs))]
    else events
  }

  // ---------------------------------------------------------------- runs

  /** How far a worker has come with a claimed event. */
  datatype Delivery = NotSent | Acknowledged | SendFailed

  datatype Hold = Hold(event: OutboxEvent, worker: Text, delivery: Delivery)

  /** A copy of an event that Kafka has accepted. */
  datatype Copy = Copy(event: OutboxEvent, occurredAt: Text)

  /**
   The table, the ids ever used, every claim so far by row and generation, the copies in Kafka and the
   number of sends whose outcome has been recorded for each row.
   */
  datatype Sys = Sys(
    events: Events,
    used: set<Text>,
    holds: map<(Text, nat), Hold>,
    copies: seq<Copy>,
    settled: map<Text, nat>)

  datatype Action =
    | Create(id: Text, row: EventRow)
    | Claim(id: Text, worker: Text, now: int, leaseMs: int)
    | Send(hold: (Text, nat), occurredAt: Text, accepted: bool, acknowledged: bool)
    | Acknowledge(hold: (Text, nat), now: int)
    | Reject(hold: (Text, nat), now: int, baseMs: nat, maxMs: nat)
    | Purge(ids: set<Text>)

  const START := Sys(map[], {}, map[], [], map[])

  /** createOutboxEvent writes a pending row without attempts under a fresh id. */
  predicate Fresh(row: EventRow) {
    row.status.Waiting? && row.attempts == 0 && row.maxAttempts > 0 && row.generation == 0
  }

  predicate Enabled(s: Sys, a: Action) {
    match a
    case Create(id, row) => id !in s.used && Fresh(row)
    case Claim(id, _, now, _) => id in s.events && Claimable(s.events[id], now)
    case Send(h, _, accepted, acknowledged) =>
        h in s.holds && s.holds[h].delivery.NotSent? && (acknowledged ==> accepted)
    case Acknowledge(h, _) => h in s.holds && s.holds[h].delivery.Acknowledged?
    case Reject(h, _, _, _) => h in s.holds && s.holds[h].delivery.SendFailed?
    case Purge(ids) => forall id | id in ids :: id in s.events && s.events[id].status.Published?
  }

  function Settle(s: Sys, h: Hold, now: int): map<Text, nat> {
    if Owns(s.events, h.event, h.worker, now) && h.event.id in s.settled
    then s.settled[h.event.id := s.settled[h.event.id] + 1] else s.settled
  }

  function Next(s: Sys, a: Action): Sys
    requires Enabled(s, a)
  {
    match a
    case Create(id, row) => s.(events := s.events[id := row], used := s.used + {id}, settled := s.settled[id := 0])
    case Claim(id, worker, now, leaseMs) =>
      var events' := ClaimEvent(s.events, id, worker, now, leaseMs);
      var e := Snapshot(id, events'[id]);
      s.(events := events', holds := s.holds[(id, e.generation) := Hold(e, worker, NotSent)])
    case Send(h, occurredAt, accepted, acknowledged) =>
      s.(copies := if accepted then s.copies + [Copy(s.holds[h].event, occurredAt)] else s.copies,
         holds := s.holds[h := s.holds[h].(delivery := if acknowledged then Acknowledged else SendFailed)])
    case Acknowledge(h, now) =>
      s.(events := MarkPublished(s.events, s.holds[h].event, s.holds[h].worker, now),
          settled := Settle(s, s.holds[h], now))
    case Reject(h, now, baseMs, maxMs) =>
      s.(events := MarkFailed(s.events, s.holds[h].event, s.holds[h].worker, now, baseMs, maxMs),
         settled := Settle(s, s.holds[h], now))
    case Purge(ids) => s.(events := map id | id in s.events && id !in ids :: s.events[id])
  }

  ghost predicate Step(s: Sys, a: Action, s': Sys) {
    Enabled(s, a) && s' == Next(s, a)
  }

  ghost predicate IsRun(states: seq<Sys>, actions: seq<Action>) {
    && |states| == |actions| + 1
    && states[0] == START
    && forall i | 0 <= i < |actions| :: Step(states[i], actions[i], states[i + 1])
  }

  /** The two events carry the same message. */
  predicate SameContent(a: OutboxEvent, b: OutboxEvent) {
    a.id == b.id && a.eventType == b.eventType && a.traceId == b.traceId && a.payload == b.payload
  }

  predicate LifecycleOk(row: EventRow) {
    && row.maxAttempts > 0
    && (match row.status
        case Waiting => row.attempts < row.maxAttempts
        case InFlight => row.attempts < row.maxAttempts && row.lockedBy.Some? && row.leaseUntil.Some?
        case Retry => row.attempts < row.maxAttempts
        case Dead => row.attempts == row.maxAttempts
        case Published => row.attempts <= row.maxAttempts)
  }

  /** A hold is a claim of its row: the current one has the row's attempt count, older ones are behind. */
  predicate HoldOk(s: Sys, h: (Text, nat)) {
    h in s.holds &&
    var hold := s.holds[h];
    && hold.event.id == h.0
    && hold.event.generation == h.1
    && h.0 in s.used
    && (hold.delivery.Acknowledged? ==> exists i :: 0 <= i < |s.copies| && s.copies[i].event == hold.event)
    && (h.0 in s.events ==>
          && h.1 <= s.events[h.0].generation
          && SameContent(hold.event, Snapshot(h.0, s.events[h.0]))
          && (h.1 == s.events[h.0].generation && s.events[h.0].status.InFlight? ==>
                hold.event == Snapshot(h.0, s.events[h.0])))
  }

  ghost predicate HoldsAgree(s: Sys) {
    forall h, g | h in s.holds && g in s.holds && h.0 == g.0 :: SameContent(s.holds[h].event, s.holds[g].event)
  }

  ghost predicate CopiesOk(s: Sys) {
    forall i | 0 <= i < |s.copies| ::
      && (s.copies[i].event.id, s.copies[i].event.generation) in s.holds
      && s.holds[(s.copies[i].event.id, s.copies[i].event.generation)].event == s.copies[i].event
  }

  /** A published row has been sent, and the broker has said so. */
  predicate WasAcknowledged(s: Sys, id: Text) {
    exists h :: h in s.holds && h.0 == id && s.holds[h].delivery.Acknowledged?
  }

  ghost predicate Inv(s: Sys) {
    && (forall id | id in s.events :: id in s.used && LifecycleOk(s.events[id]))
    && (forall id | id in s.events :: id in s.settled && s.settled[id] == s.events[id].attempts)
    && (forall id | id in s.events && s.events[id].status.Published? :: WasAcknowledged(s, id))
    && (forall h | h in s.holds :: HoldOk(s, h))
    && HoldsAgree(s)
    && CopiesOk(s)
  }

  lemma AcknowledgementLasts(s: Sys, s': Sys, id: Text)
    requires WasAcknowledged(s, id)
    requires forall h | h in s.holds && s.holds[h].delivery.Acknowledged? ::
              h in s'.holds && s'.holds[h].delivery.Acknowledged?
    ensures WasAcknowledged(s', id)
  {
    var h :| h in s.holds && h.0 == id && s.holds[h].delivery.Acknowledged?;
    assert h in s'.holds && s'.holds[h].delivery.Acknowledged?;
  }

  /** A claim is a new hold; the older holds of its row fall behind. */
  lemma ClaimKeepsHold(s: Sys, id: Text, worker: Text, now: int, leaseMs: int, h: (Text, nat))
    requires Inv(s) && Enabled(s, Claim(id, worker, now, leaseMs))
    requires h in Next(s, Claim(id, worker, now, leaseMs)).holds
    ensures var s' := Next(s, Claim(id, worker, now, leaseMs));
            var key := (id, s.events[id].generation + 1);
            && HoldOk(s', h) && key in s'.holds
            && (h.0 == id ==> SameContent(s'.holds[h].event, s'.holds[key].event))
  {
    var key := (id, s.events[id].generation + 1);
    if h != key {
      assert HoldOk(s, h);
    }
    hide WasAcknowledged, HoldsAgree, CopiesOk, Claimable;
  }

  lemma SameContentIsSymmetric()
    ensures forall a, b :: SameContent(a, b) ==> SameContent(b, a)
    ensures forall a, b, c :: SameContent(a, b) && SameContent(b, c) ==> SameContent(a, c)
    ensures forall a :: SameContent(a, a)
  {
  }

  lemma ClaimKeeps(s: Sys, id: Text, worker: Text, now: int, leaseMs: int)
    requires Inv(s) && Enabled(s, Claim(id, worker, now, leaseMs))
    ensures Inv(Next(s, Claim(id, worker, now, leaseMs)))
  {
    var s' := Next(s, Claim(id, worker, now, leaseMs));
    var key := (id, s.events[id].generation + 1);
    ClaimIsNew(s, Claim(id, worker, now, leaseMs));
    assert LifecycleOk(s'.events[id]) && s'.events[id].attempts == s.events[id].attempts;
    SameContentIsSymmetric();
    hide HoldOk, WasAcknowledged, LifecycleOk, SameContent, Claimable;
    forall i | i in s'.events && s'.events[i].status.Published?
      ensures WasAcknowledged(s', i)
    {
      AcknowledgementLasts(s, s', i);
    }
    forall h | h in s'.holds
      ensures HoldOk(s', h) && key in s'.holds && (h.0 == id ==> SameContent(s'.holds[h].event, s'.holds[key].event))
    {
      ClaimKeepsHold(s, id, worker, now, leaseMs, h);
    }
  }

  lemma SendKeeps(s: Sys, h: (Text, nat), occurredAt: Text, accepted: bool, acknowledged: bool)
    requires Inv(s) && Enabled(s, Send(h, occurredAt, accepted, acknowledged))
    ensures Inv(Next(s, Send(h, occurredAt, accepted, acknowledged)))
  {
    var s' := Next(s, Send(h, occurredAt, accepted, acknowledged));
    assert HoldOk(s, h);
    assert accepted ==> s'.copies[|s.copies|].event == s.holds[h].event;
    forall i | i in s'.events && s'.events[i].status.Published?
      ensures WasAcknowledged(s', i)
    {
      AcknowledgementLasts(s, s', i);
    }
    forall g | g in s'.holds
      ensures HoldOk(s', g)
    {
      assert HoldOk(s, g);
      if s.holds[g].delivery.Acknowledged? {
        var i :| 0 <= i < |s.copies| && s.copies[i].event == s.holds[g].event;
        assert s'.copies[i].event == s'.holds[g].event;
      }
    }
  }

  /** The row a recorded outcome leaves: the snapshot it was decided on is the row itself. */
  lemma OwnedRow(s: Sys, h: (Text, nat), now: int)
    requires Inv(s) && h in s.holds && Owns(s.events, s.holds[h].event, s.holds[h].worker, now)
    ensures h.0 in s.events && s.holds[h].event == Snapshot(h.0, s.events[h.0])
    ensures LifecycleOk(s.events[h.0]) && s.events[h.0].status.InFlight? && h.0 in s.settled
    ensures s.settled[h.0] == s.events[h.0].attempts == s.holds[h].event.attempts
  {
    assert HoldOk(s, h);
  }

  /** Recording an outcome takes the row out of its claim, so every hold of it is behind or idle. */
  lemma RecordKeepsHold(s: Sys, s': Sys, id: Text, g: (Text, nat))
    requires HoldOk(s, g) && s'.holds == s.holds && s'.copies == s.copies && s'.used == s.used
    requires s'.events == s.events || (id in s.events && id in s'.events && s'.events == s.events[id := s'.events[id]]
               && s'.events[id].generation == s.events[id].generation && !s'.events[id].status.InFlight?
               && SameContent(Snapshot(id, s'.events[id]), Snapshot(id, s.events[id])))
    ensures HoldOk(s', g)
  {
  }

  /** The row an outcome has been recorded in. */
  predicate RecordedRow(before: EventRow, after: EventRow) {
    && LifecycleOk(after) && !after.status.InFlight?
    && after == before.(status := after.status, attempts := before.attempts + 1, lockedBy := after.lockedBy,
                        lockedAt := after.lockedAt, leaseUntil := after.leaseUntil,
                        nextAttemptAt := after.nextAttemptAt)
  }

  lemma RecordKeeps(s: Sys, s': Sys, id: Text)
    requires Inv(s) && id in s.events && id in s'.events && RecordedRow(s.events[id], s'.events[id])
    requires s' == s.(events := s.events[id := s'.events[id]], settled := s.settled[id := s'.events[id].attempts])
    requires s'.events[id].status.Published? ==> WasAcknowledged(s', id)
    ensures Inv(s')
  {
    hide HoldOk, WasAcknowledged, LifecycleOk;
    forall i | i in s'.events && i != id && s'.events[i].status.Published?
      ensures WasAcknowledged(s', i)
    {
      AcknowledgementLasts(s, s', i);
    }
    forall g | g in s'.holds
      ensures HoldOk(s', g)
    {
      RecordKeepsHold(s, s', id, g);
    }
  }

  lemma AcknowledgeKeeps(s: Sys, h: (Text, nat), now: int)
    requires Inv(s) && Enabled(s, Acknowledge(h, now))
    ensures Inv(Next(s, Acknowledge(h, now)))
  {
    var s' := Next(s, Acknowledge(h, now));
    if Owns(s.events, s.holds[h].event, s.holds[h].worker, now) {
      OwnedRow(s, h, now);
      hide Inv;
      assert WasAcknowledged(s', h.0);
      RecordKeeps(s, s', h.0);
    }
  }

  lemma RejectKeeps(s: Sys, h: (Text, nat), now: int, baseMs: nat, maxMs: nat)
    requires Inv(s) && Enabled(s, Reject(h, now, baseMs, maxMs))
    ensures Inv(Next(s, Reject(h, now, baseMs, maxMs)))
  {
    hide RetryDelay;
    var s' := Next(s, Reject(h, now, baseMs, maxMs));
    if Owns(s.events, s.holds[h].event, s.holds[h].worker, now) {
      OwnedRow(s, h, now);
      hide Inv;
      RecordKeeps(s, s', h.0);
    }
  }

  lemma CreateAndPurgeKeep(s: Sys, a: Action)
    requires Inv(s) && Enabled(s, a) && (a.Create? || a.Purge?)
    ensures Inv(Next(s, a))
  {
    var s' := Next(s, a);
    forall i | i in s'.events && s'.events[i].status.Published?
      ensures WasAcknowledged(s', i)
    {
      AcknowledgementLasts(s, s', i);
    }
    forall g | g in s'.holds
      ensures HoldOk(s', g)
    {
      assert HoldOk(s, g);
    }
  }

  lemma StepKeeps(s: Sys, a: Action, s': Sys)
    requires Inv(s) && Step(s, a, s')
    ensures Inv(s')
  {
    hide Inv;
    match a
    case Create(_, _) => CreateAndPurgeKeep(s, a);
    case Claim(id, worker, now, leaseMs) => ClaimKeeps(s, id, worker, now, leaseMs);
    case Send(h, occurredAt, accepted, acknowledged) => SendKeeps(s, h, occurredAt, accepted, acknowledged);
    case Acknowledge(h, now) => AcknowledgeKeeps(s, h, now);
    case Reject(h, now, baseMs, maxMs) => RejectKeeps(s, h, now, baseMs, maxMs);
    case Purge(_) => CreateAndPurgeKeep(s, a);
  }

  lemma {:induction false} RunKeeps(states: seq<Sys>, actions: seq<Action>, i: nat)
    requires IsRun(states, actions) && i < |states|
    ensures Inv(states[i])
  {
    hide Step;
    if i > 0 {
      hide Inv;
      RunKeeps(states, actions, i - 1);
      StepKeeps(states[i - 1], actions[i - 1], states[i]);
    }
  }

  // ---------------------------------------------------------------- which rows are claimed

  /** In terms of the row: what it waits for has come. */
  predicate IsDue(row: EventRow, now: int) {
    match row.status
    case Waiting => row.nextAttemptAt <= now
    case Retry => row.nextAttemptAt <= now
    case InFlight =>
      if row.leaseUntil != None then row.leaseUntil.value <= now
      else row.lockedAt == None || row.lockedAt.value <= now
    case Published => false
    case Dead => false
  }

  /** The time an unfinished row waits for. */
  function ReadyAt(row: EventRow): int {
    if row.status == InFlight && row.leaseUntil != None then row.leaseUntil.value else row.nextAttemptAt
  }

  /** No event is forgotten: in every reachable state an unfinished row can be claimed from some time on. */
  lemma UnfinishedIsClaimable(states: seq<Sys>, actions: seq<Action>, i: nat, id: Text, now: int)
    requires IsRun(states, actions) && i < |states| && id in states[i].events
    ensures var row := states[i].events[id];
            && (Finished(row) ==> !Claimable(row, now))
            && (!Finished(row) ==> (Claimable(row, now) <==> ReadyAt(row) <= now))
  {
    RunKeeps(states, actions, i);
    hide IsRun;
  }

  /** A row is claimed only when nobody owns it, so no send under an unexpired lease loses its row. */
  lemma ClaimedOnlyWhenUnowned(s: Sys, id: Text, worker: Text, now: int, leaseMs: int, h: (Text, nat))
    requires Inv(s) && Enabled(s, Claim(id, worker, now, leaseMs)) && h in s.holds && h.0 == id
    ensures !Owns(s.events, s.holds[h].event, s.holds[h].worker, now)
  {
    assert HoldOk(s, h);
  }

  /** What is created, claimed when it is due, sent and acknowledged within the lease is published. */
  lemma FreshEventIsPublished(s: Sys, id: Text, row: EventRow, worker: Text, now: int, leaseMs: int, occurredAt: Text,
      later: int)
    requires Inv(s) && id !in s.used && Fresh(row) && row.nextAttemptAt <= now && later < now + leaseMs
    ensures var actions := [Create(id, row), Claim(id, worker, now, leaseMs), Send((id, 1), occurredAt, true, true),
                            Acknowledge((id, 1), later)];
            exists t: Sys :: Leads(s, actions, t) && id in t.events && t.events[id].status == Published
              && t.events[id].attempts == 1 &&
                   t.copies == s.copies + [Copy(Snapshot(id, row).(generation := 1), occurredAt)]
  {
    hide Inv, LifecycleOk;
    var a1, a2, a3, a4 := Create(id, row), Claim(id, worker, now, leaseMs), Send((id, 1), occurredAt, true, true),
        Acknowledge((id, 1), later);
    var s1 := Next(s, a1);
    var s2 := Next(s1, a2);
    var s3 := Next(s2, a3);
    var s4 := Next(s3, a4);
    hide Next, Enabled;
    LeadsNowhere(s4);
    LeadsFirst(s3, a4, [], s4);
    LeadsFirst(s2, a3, [a4], s4);
    LeadsFirst(s1, a2, [a3, a4], s4);
    LeadsFirst(s, a1, [a2, a3, a4], s4);
  }

  // ---------------------------------------------------------------- what every run guarantees

  /**
   In every reachable state the attempts of a row count its settled sends exactly, a row waiting for a
   retry has attempts left, a dead row has used them all, and for a published row the broker has
   acknowledged a send whose copy is in Kafka.
   */
  lemma Lifecycle(states: seq<Sys>, actions: seq<Action>, i: nat, id: Text)
    requires IsRun(states, actions) && i < |states| && id in states[i].events
    ensures var s, row := states[i], states[i].events[id];
            && id in s.settled && row.attempts == s.settled[id]
            && (row.status.Retry? || row.status.InFlight? || row.status.Waiting? ==> row.attempts < row.maxAttempts)
            && (row.status.Dead? ==> row.attempts == row.maxAttempts)
            && (row.status.Published? ==> exists h, n :: WasDelivered(s, id, h, n))
  {
    RunKeeps(states, actions, i);
    var s := states[i];
    if s.events[id].status.Published? {
      assert WasAcknowledged(s, id);
      var h :| h in s.holds && h.0 == id && s.holds[h].delivery.Acknowledged?;
      assert HoldOk(s, h);
      var n :| 0 <= n < |s.copies| && s.copies[n].event == s.holds[h].event;
      assert WasDelivered(s, id, h, n);
    }
  }

  /** Claim h of the row was sent and acknowledged, and its copy is the n-th in Kafka. */
  predicate WasDelivered(s: Sys, id: Text, h: (Text, nat), n: int) {
    && h in s.holds && h.0 == id && s.holds[h].delivery.Acknowledged?
    && 0 <= n < |s.copies| && s.copies[n].event == s.holds[h].event
  }

  predicate Finished(row: EventRow) {
    row.status.Published? || row.status.Dead?
  }

  predicate RowLater(before: EventRow, after: EventRow) {
    && before.generation <= after.generation
    && (Finished(before) ==> after == before)
  }

  /** A row never comes back: ids are used once, generations never fall, finished rows stay as they are. */
  ghost predicate Later(s: Sys, t: Sys) {
    && s.events.Keys <= s.used <= t.used
    && (forall id | id in s.used :: id in t.events ==> id in s.events)
    && (forall id | id in s.events && id in t.events :: RowLater(s.events[id], t.events[id]))
    && (forall id | id in s.events && s.events[id].status.Dead? :: id in t.events)
    && (forall h | h in s.holds :: h in t.holds && t.holds[h].event == s.holds[h].event &&
         t.holds[h].worker == s.holds[h].worker)
  }

  /** An acknowledgement or a failure writes at most one row that is not finished, and no hold's event. */
  lemma RecordIsLater(s: Sys, a: Action, t: Sys)
    requires s.events.Keys <= s.used && Step(s, a, t) && (a.Acknowledge? || a.Reject?)
    ensures Later(s, t)
  {
    hide RetryDelay, Settle, Inv;
    assert t.events.Keys == s.events.Keys;
    assert t.holds == s.holds && t.used == s.used;
  }

  lemma ClaimIsLater(s: Sys, a: Action, t: Sys)
    requires Inv(s) && Step(s, a, t) && a.Claim?
    ensures Later(s, t)
  {
    UsedIds(s);
    ClaimIsNew(s, a);
    hide Inv;
  }

  lemma OthersAreLater(s: Sys, a: Action, t: Sys)
    requires s.events.Keys <= s.used && Step(s, a, t) && (a.Create? || a.Send? || a.Purge?)
    ensures Later(s, t)
  {
  }

  lemma StepIsLater(s: Sys, a: Action, t: Sys)
    requires Inv(s) && Step(s, a, t)
    ensures Later(s, t)
  {
    UsedIds(s);
    hide Inv, Step, Later;
    match a
    case Claim(_, _, _, _) => ClaimIsLater(s, a, t);
    case Acknowledge(_, _) => RecordIsLater(s, a, t);
    case Reject(_, _, _, _) => RecordIsLater(s, a, t);
    case _ => OthersAreLater(s, a, t);
  }

  lemma UsedIds(s: Sys)
    requires Inv(s)
    ensures s.events.Keys <= s.used
  {
  }

  lemma ClaimIsNew(s: Sys, a: Action)
    requires Inv(s) && a.Claim? && Enabled(s, a)
    ensures (a.id, s.events[a.id].generation + 1) !in s.holds
  {
    assert forall h | h in s.holds :: HoldOk(s, h);
  }

  lemma LaterIsReflexive(s: Sys)
    requires Inv(s)
    ensures Later(s, s)
  {
  }

  lemma LaterIsTransitive(s: Sys, t: Sys, u: Sys)
    requires Later(s, t) && Later(t, u)
    ensures Later(s, u)
  {
    assert forall id | id in s.events && id in u.events :: id in s.used && id in t.used && id in t.events;
  }

  lemma {:induction false} RunIsLater(states: seq<Sys>, actions: seq<Action>, i: nat, j: nat)
    requires IsRun(states, actions) && i <= j < |states|
    ensures Later(states[i], states[j])
    decreases j
  {
    hide Step, Inv, RowLater;
    if i == j {
      RunKeeps(states, actions, i);
      LaterIsReflexive(states[i]);
    } else {
      RunIsLater(states, actions, i, j - 1);
      RunKeeps(states, actions, j - 1);
      StepIsLater(states[j - 1], actions[j - 1], states[j]);
      LaterIsTransitive(states[i], states[j - 1], states[j]);
    }
  }

  /** Published and dead are absorbing; a published row can only be purged, a dead one not even that. */
  lemma FinishedForever(states: seq<Sys>, actions: seq<Action>, i: nat, j: nat, id: Text)
    requires IsRun(states, actions) && i <= j < |states|
    requires id in states[i].events && Finished(states[i].events[id])
    ensures id in states[j].events ==> states[j].events[id] == states[i].events[id]
    ensures states[i].events[id].status.Dead? ==> id in states[j].events
  {
    RunIsLater(states, actions, i, j);
  }

  /** The snapshot's count plus one is the row's own count plus one, so no settled send is lost or counted twice. */
  lemma FailureCountsExactly(states: seq<Sys>, actions: seq<Action>, i: nat, h: (Text, nat), now: int, baseMs: nat,
      maxMs: nat)
    requires IsRun(states, actions) && i < |states| && h in states[i].holds
    requires Owns(states[i].events, states[i].holds[h].event, states[i].holds[h].worker, now)
    ensures var s, hold := states[i], states[i].holds[h];
            var failed := MarkFailed(s.events, hold.event, hold.worker, now, baseMs, maxMs);
            && h.0 in failed
            && failed[h.0].attempts == s.events[h.0].attempts + 1
            && (failed[h.0].status.Dead? <==> s.events[h.0].attempts + 1 == s.events[h.0].maxAttempts)
  {
    RunKeeps(states, actions, i);
    OwnedRow(states[i], h, now);
  }

  /** Of all claims ever made of a row, at most one passes the guard. */
  lemma OneOwner(states: seq<Sys>, actions: seq<Action>, i: nat, h: (Text, nat), g: (Text, nat), now: int, later: int)
    requires IsRun(states, actions) && i < |states| && h in states[i].holds && g in states[i].holds && h.0 == g.0
    requires Owns(states[i].events, states[i].holds[h].event, states[i].holds[h].worker, now)
    requires Owns(states[i].events, states[i].holds[g].event, states[i].holds[g].worker, later)
    ensures h == g
  {
    RunKeeps(states, actions, i);
    assert HoldOk(states[i], h) && HoldOk(states[i], g);
  }

  /**
   Fencing: once a row has been claimed again, an acknowledgement or a failure that still holds the
   older claim changes nothing, then and in every later state.
   */
  lemma OlderClaimChangesNothing(
    states: seq<Sys>, actions: seq<Action>, i: nat, j: nat, older: (Text, nat), newer: (Text, nat), now: int,
        baseMs: nat, maxMs: nat)
    requires IsRun(states, actions) && i <= j < |states|
    requires older in states[i].holds && newer in states[i].holds && older.0 == newer.0 && older.1 < newer.1
    ensures older in states[j].holds
    ensures var e, worker := states[j].holds[older].event, states[j].holds[older].worker;
            && MarkPublished(states[j].events, e, worker, now) == states[j].events
            && MarkFailed(states[j].events, e, worker, now, baseMs, maxMs) == states[j].events
  {
    RunIsLater(states, actions, i, j);
    RunKeeps(states, actions, j);
    assert HoldOk(states[j], older) && HoldOk(states[j], newer);
  }

  /** Every copy of a row that ever reaches Kafka carries the same event, type, trace and payload. */
  lemma CopiesAgree(states: seq<Sys>, actions: seq<Action>, i: nat, m: nat, n: nat)
    requires IsRun(states, actions) && i < |states| && m < |states[i].copies| && n < |states[i].copies|
    requires states[i].copies[m].event.id == states[i].copies[n].event.id
    ensures SameContent(states[i].copies[m].event, states[i].copies[n].event)
  {
    RunKeeps(states, actions, i);
  }

  // ---------------------------------------------------------------- the worker

  function WithStatus(events: Events, status: EventStatus): set<Text> {
    set id | id in events && events[id].status == status
  }

  /** The actions lead from s to t. */
  ghost predicate Leads(s: Sys, actions: seq<Action>, t: Sys)
    decreases |actions|
  {
    if actions == [] then s == t
    else Enabled(s, actions[0]) && Leads(Next(s, actions[0]), actions[1..], t)
  }

  lemma LeadsNowhere(s: Sys)
    ensures Leads(s, [], s)
  {
  }

  lemma LeadsFirst(s: Sys, a: Action, rest: seq<Action>, t: Sys)
    requires Enabled(s, a) && Leads(Next(s, a), rest, t)
    ensures Leads(s, [a] + rest, t)
  {
    hide Next, Enabled;
    assert ([a] + rest)[1..] == rest;
  }

  lemma {:induction false} LeadsOn(s: Sys, actions: seq<Action>, t: Sys, a: Action)
    requires Leads(s, actions, t) && Enabled(t, a)
    ensures Leads(s, actions + [a], Next(t, a))
    decreases |actions|
  {
    hide Next, Enabled;
    if actions == [] {
      assert (actions + [a])[1..] == [];
      LeadsNowhere(Next(s, a));
    } else {
      assert (actions + [a])[1..] == actions[1..] + [a];
      LeadsOn(Next(s, actions[0]), actions[1..], t, a);
    }
  }

  /** Whatever leads through steps keeps the invariant, so the guarantees of every run hold afterwards. */
  lemma {:induction false} LeadsKeeps(s: Sys, actions: seq<Action>, t: Sys)
    requires Inv(s) && Leads(s, actions, t)
    ensures Inv(t)
    decreases |actions|
  {
    hide Inv;
    if actions != [] {
      StepKeeps(s, actions[0], Next(s, actions[0]));
      LeadsKeeps(Next(s, actions[0]), actions[1..], t);
    }
  }

  /**
   One turn of the publish loop: the row the claim query picks, whether Kafka takes the message and
   whether it says so, the clocks.
   */
  datatype Turn = Turn(aborted: bool, pick: Option<Text>, now: int, accepted: bool, acknowledged: bool,
      occurredAt: Text, later: int)

  function Acknowledgements(turns: seq<Turn>): nat {
    if turns == [] then 0
    else Acknowledgements(turns[..|turns| - 1]) + if turns[|turns| - 1].acknowledged then 1 else 0
  }

  datatype Tally = Tally(claimed: nat, published: nat, failed: nat, deadLetter: nat, staleOwner: nat)

  class Table {
    var events: Events
    ghost var used: set<Text>
    ghost var holds: map<(Text, nat), Hold>
    ghost var copies: seq<Copy>
    ghost var settled: map<Text, nat>

    ghost function View(): Sys
      reads this
    {
      Sys(events, used, holds, copies, settled)
    }

    constructor ()
      ensures View() == START
    {
      events, used, holds, copies, settled := map[], {}, map[], [], map[];
    }

    /**
     The claim statement with LIMIT 1 on the row the query picks. A pending or failed row is taken exactly
     from its next attempt on, one in flight exactly from the end of its lease on, a finished one never.
     The taker then owns the row for exactly leaseMs.
     */
    method ClaimOne(pick: Option<Text>, worker: Text, now: int, leaseMs: int) returns (e: Option<OutboxEvent>)
      modifies this
      ensures e.Some? <==> pick.Some? && pick.value in old(events) && IsDue(old(events)[pick.value], now)
      ensures e.Some? ==> forall t :: Owns(events, e.value, worker, t) <==> t < now + leaseMs
      ensures e.None? ==> View() == old(View())
      ensures e.Some? ==> View() == Next(old(View()), Claim(pick.value, worker, now, leaseMs))
      ensures e.Some? ==> e.value == Snapshot(pick.value, events[pick.value])
    {
      if pick.None? || pick.value !in events || !Claimable(events[pick.value], now) {
        return None;
      }
      var row := events[pick.value];
      events := events[pick.value := row.(status := InFlight, lockedBy := Some(worker), lockedAt := Some(now),
                                          leaseUntil := Some(now + leaseMs), generation := row.generation + 1)];
      e := Some(Snapshot(pick.value, events[pick.value]));
      holds := holds[(pick.value, row.generation + 1) := Hold(e.value, worker, NotSent)];
    }

    /** producer.send; it may report an error although Kafka has taken the message. */
    method SendEvent(e: OutboxEvent, occurredAt: Text, accepted: bool, acknowledged: bool)
      requires Enabled(View(), Send((e.id, e.generation), occurredAt, accepted, acknowledged))
      modifies this
      ensures View() == Next(old(View()), Send((e.id, e.generation), occurredAt, accepted, acknowledged))
    {
      ghost var h := (e.id, e.generation);
      copies := if accepted then copies + [Copy(holds[h].event, occurredAt)] else copies;
      holds := holds[h := holds[h].(delivery := if acknowledged then Acknowledged else SendFailed)];
    }

    /**
     markPublished. When it succeeds the row has one more attempt, nobody owns it any more and no claim
     can take it again; when it does not, the table is as it was.
     */
    method Publish(e: OutboxEvent, worker: Text, now: int) returns (done: bool)
      requires (e.id, e.generation) in holds && holds[(e.id, e.generation)] == Hold(e, worker, Acknowledged)
      modifies this
      ensures View() == Next(old(View()), Acknowledge((e.id, e.generation), now))
      ensures done <==> Owns(old(events), e, worker, now)
      ensures done <==> events != old(events)
      ensures done ==> e.id in events && events[e.id].attempts == old(events)[e.id].attempts + 1
      ensures done ==> forall t :: !Claimable(events[e.id], t)
      ensures done ==> forall f: OutboxEvent, w: Text, t: int | f.id == e.id :: !Owns(events, f, w, t)
      ensures forall id | id != e.id :: id in events <==> id in old(events)
      ensures forall id | id != e.id && id in events :: events[id] == old(events)[id]
    {
      done := Owns(events, e, worker, now);
      settled := Settle(View(), holds[(e.id, e.generation)], now);
      if done {
        var row := events[e.id];
        events := events[e.id := row.(status := Published, attempts := row.attempts + 1, lockedBy := None,
                                      lockedAt := None, leaseUntil := None)];
        assert events[e.id].attempts != old(events)[e.id].attempts;
      }
    }

    /**
     markFailed. When it succeeds nobody owns the row any more; a dead row can never be claimed again,
     any other exactly from the end of its backoff on.
     */
    method Reject(e: OutboxEvent, worker: Text, now: int, baseMs: nat, maxMs: nat) returns (done: bool, dead: bool)
      requires (e.id, e.generation) in holds && holds[(e.id, e.generation)] == Hold(e, worker, SendFailed)
      modifies this
      ensures View() == Next(old(View()), Rejected(e, now, baseMs, maxMs))
      ensures done <==> Owns(old(events), e, worker, now)
      ensures dead <==> FailsForGood(e)
      ensures !done ==> events == old(events)
      ensures done ==> e.id in events && events[e.id].attempts == e.attempts + 1
      ensures done ==> forall f: OutboxEvent, w: Text, t: int | f.id == e.id :: !Owns(events, f, w, t)
      ensures done ==> forall t :: Claimable(events[e.id], t) <==>
                !dead && now + RetryDelay(e.attempts + 1, baseMs, maxMs) <= t
      ensures forall id | id != e.id :: id in events <==> id in old(events)
      ensures forall id | id != e.id && id in events :: events[id] == old(events)[id]
    {
      hide RetryDelay;
      var attempts := e.attempts + 1;
      dead := attempts >= e.maxAttempts;
      done := Owns(events, e, worker, now);
      settled := Settle(View(), holds[(e.id, e.generation)], now);
      if done {
        var row := events[e.id];
        events := events[e.id := row.(status := if dead then Dead else Retry, attempts := attempts,
                                      nextAttemptAt := now + RetryDelay(attempts, baseMs, maxMs),
                                      lockedBy := None, lockedAt := None, leaseUntil := None)];
      }
    }

    /** One turn after its claim: the send, and the acknowledgement or failure that is recorded. */
    method Deliver(e: OutboxEvent, turn: Turn, worker: Text, baseMs: nat, maxMs: nat)
      returns (outcome: Recorded, ghost trace: seq<Action>)
      requires (e.id, e.generation) in holds && holds[(e.id, e.generation)] == Hold(e, worker, NotSent)
      requires turn.acknowledged ==> turn.accepted
      modifies this
      ensures Leads(old(View()), trace, View())
      ensures outcome.Stale? <==> !Owns(old(events), e, worker, turn.later)
      ensures !outcome.Stale? ==> (outcome.AsPublished? <==> turn.acknowledged)
      ensures Accounts(old(events), events, if outcome.AsPublished? then 1 else 0, if outcome.AsDead? then 1 else 0)
    {
      hide RetryDelay, Leads, Accounts;
      ghost var s0 := View();
      ghost var h := (e.id, e.generation);
      LeadsNowhere(s0);
      SendEvent(e, turn.occurredAt, turn.accepted, turn.acknowledged);
      ghost var send := Send(h, turn.occurredAt, turn.accepted, turn.acknowledged);
      LeadsOn(s0, [], s0, send);
      trace := [] + [send];
      ghost var s1 := View();
      if turn.acknowledged {
        var done := Publish(e, worker, turn.later);
        outcome := if done then AsPublished else Stale;
        LeadsOn(s0, trace, s1, Acknowledge(h, turn.later));
        trace := trace + [Acknowledge(h, turn.later)];
      } else {
        var done, dead := Reject(e, worker, turn.later, baseMs, maxMs);
        outcome := if !done then Stale else if dead then AsDead else AsFailed;
        LeadsOn(s0, trace, s1, Rejected(e, turn.later, baseMs, maxMs));
        trace := trace + [Rejected(e, turn.later, baseMs, maxMs)];
      }
      if outcome.Stale? {
        NothingMoves(events);
      } else {
        RecordedMoves(s0.events, events, e, worker, turn.later, baseMs, maxMs, outcome);
      }
    }

    /**
     The publish loop of processOutboxOnce, one event at a time. It goes on until it is aborted or the row
     that is picked is not due. Every claimed event is accounted for once, as published exactly if its send
     was acknowledged, unless its lease was lost; the published and dead rows grow by exactly the counts that
     are returned, and the whole call is a sequence of steps of the protocol.
     */
    method ProcessOnce(batchSize: nat, turns: seq<Turn>, worker: Text, leaseMs: int, baseMs: nat, maxMs: nat)
      returns (t: Tally, ghost trace: seq<Action>)
      requires |turns| >= batchSize && forall i | 0 <= i < batchSize :: turns[i].acknowledged ==> turns[i].accepted
      modifies this
      ensures t.claimed == t.published + t.failed + t.deadLetter + t.staleOwner <= batchSize
      ensures Accounts(old(events), events, t.published, t.deadLetter)
      ensures Leads(old(View()), trace, View())
      ensures t.claimed <= |turns| && t.published <= Acknowledgements(turns[..t.claimed]) <= t.published + t.staleOwner
      ensures t.claimed < batchSize ==>
              var turn := turns[t.claimed];
              turn.aborted || !(turn.pick.Some? && turn.pick.value in events &&
                  IsDue(events[turn.pick.value], turn.now))
    {
      hide Accounts, Leads, Next;
      t := Tally(0, 0, 0, 0, 0);
      trace := [];
      var i := 0;
      NothingMoves(events);
      LeadsNowhere(View());
      while i < batchSize && !turns[i].aborted
        invariant 0 <= i <= batchSize
        invariant t.claimed == t.published + t.failed + t.deadLetter + t.staleOwner == i
        invariant Accounts(old(events), events, t.published, t.deadLetter)
        invariant Leads(old(View()), trace, View())
        invariant t.published <= Acknowledgements(turns[..i]) <= t.published + t.staleOwner
      {
        var turn := turns[i];
        assert turns[..i + 1][..i] == turns[..i];
        ghost var before := View();
        var event := ClaimOne(turn.pick, worker, turn.now, leaseMs);
        if event.None? {
          break;
        }
        ghost var claimed := View();
        ClaimMoves(before, turn.pick.value, worker, turn.now, leaseMs);
        AccountsAddUp(old(events), before.events, events, t.published, t.deadLetter, 0, 0);
        LeadsOn(old(View()), trace, before, Claim(turn.pick.value, worker, turn.now, leaseMs));
        trace := trace + [Claim(turn.pick.value, worker, turn.now, leaseMs)];
        var outcome, steps := Deliver(event.value, turn, worker, baseMs, maxMs);
        LeadsThrough(old(View()), trace, claimed, steps, View());
        trace := trace + steps;
        AccountsAddUp(old(events), claimed.events, events, t.published, t.deadLetter,
                      if outcome.AsPublished? then 1 else 0, if outcome.AsDead? then 1 else 0);
        t := Counted(t, outcome);
        i := i + 1;
      }
    }
  }

  /** A failure recorded by the holder of a snapshot. */
  function Rejected(e: OutboxEvent, now: int, baseMs: nat, maxMs: nat): Action {
    Action.Reject((e.id, e.generation), now, baseMs, maxMs)
  }

  function Counted(t: Tally, outcome: Recorded): Tally {
    match outcome
    case AsPublished => t.(claimed := t.claimed + 1, published := t.published + 1)
    case AsFailed => t.(claimed := t.claimed + 1, failed := t.failed + 1)
    case AsDead => t.(claimed := t.claimed + 1, deadLetter := t.deadLetter + 1)
    case Stale => t.(claimed := t.claimed + 1, staleOwner := t.staleOwner + 1)
  }

  lemma {:induction false} LeadsThrough(s: Sys, first: seq<Action>, t: Sys, second: seq<Action>, u: Sys)
    requires Leads(s, first, t) && Leads(t, second, u)
    ensures Leads(s, first + second, u)
    decreases |first|
  {
    hide Next, Enabled;
    if first == [] {
      assert first + second == second;
    } else {
      assert (first + second)[1..] == first[1..] + second;
      LeadsThrough(Next(s, first[0]), first[1..], t, second, u);
    }
  }

  lemma ClaimMoves(s: Sys, id: Text, worker: Text, now: int, leaseMs: int)
    requires Enabled(s, Claim(id, worker, now, leaseMs))
    ensures var t := Next(s, Claim(id, worker, now, leaseMs));
            && Accounts(s.events, t.events, 0, 0)
            && (id, s.events[id].generation + 1) in t.holds
            && id in t.events
            && t.holds[(id, s.events[id].generation + 1)] == Hold(Snapshot(id, t.events[id]), worker, NotSent)
            && t.events[id].generation == s.events[id].generation + 1
  {
    hide Accounts;
    StatusMoves(s.events, Next(s, Claim(id, worker, now, leaseMs)).events, id);
  }

  lemma RecordedMoves(before: Events, after: Events, e: OutboxEvent, worker: Text, now: int, baseMs: nat, maxMs: nat,
      outcome: Recorded)
    requires Owns(before, e, worker, now)
    requires match outcome
             case AsPublished => after == MarkPublished(before, e, worker, now)
             case AsFailed => after == MarkFailed(before, e, worker, now, baseMs, maxMs) && !FailsForGood(e)
             case AsDead => after == MarkFailed(before, e, worker, now, baseMs, maxMs) && FailsForGood(e)
             case Stale => false
    ensures Accounts(before, after, if outcome.AsPublished? then 1 else 0, if outcome.AsDead? then 1 else 0)
  {
    hide RetryDelay, Accounts;
    StatusMoves(before, after, e.id);
  }

  datatype Recorded = AsPublished | AsFailed | AsDead | Stale

  /** Exactly so many rows have become published and dead, none has stopped being either, and no row is gone. */
  ghost predicate Accounts(before: Events, after: Events, published: nat, dead: nat) {
    && after.Keys == before.Keys
    && WithStatus(before, Published) <= WithStatus(after, Published)
    && WithStatus(before, Dead) <= WithStatus(after, Dead)
    && |WithStatus(after, Published)| == |WithStatus(before, Published)| + published
    && |WithStatus(after, Dead)| == |WithStatus(before, Dead)| + dead
  }

  lemma NothingMoves(events: Events)
    ensures Accounts(events, events, 0, 0)
  {
  }

  lemma AccountsAddUp(a: Events, b: Events, c: Events, published: nat, dead: nat, more: nat, moreDead: nat)
    requires Accounts(a, b, published, dead) && Accounts(b, c, more, moreDead)
    ensures Accounts(a, c, published + more, dead + moreDead)
  {
    hide WithStatus;
  }

  /** Changing one row that is neither published nor dead moves it into at most one of the two sets. */
  lemma StatusMoves(before: Events, after: Events, id: Text)
    requires id in before && !Finished(before[id]) && id in after && after == before[id := after[id]]
    ensures Accounts(before, after,
                     if after[id].status.Published? then 1 else 0, if after[id].status.Dead? then 1 else 0)
  {
    hide WithStatus;
    OneStatusMoves(before, after, id, Published);
    OneStatusMoves(before, after, id, Dead);
    assert after.Keys == before.Keys;
  }

  lemma OneStatusMoves(before: Events, after: Events, id: Text, status: EventStatus)
    requires id in before && before[id].status != status && id in after && after == before[id := after[id]]
    ensures WithStatus(before, status) <= WithStatus(after, status)
    ensures |WithStatus(after, status)| == |WithStatus(before, status)| + (if after[id].status == status then 1 else 0)
  {
    var a, b := WithStatus(before, status), WithStatus(after, status);
    assert id !in a;
    if after[id].status == status {
      forall x
        ensures x in b <==> x in a + {id}
      {
        SameElsewhere(before, after, id, status, x);
      }
      assert b == a + {id};
    } else {
      forall x
        ensures x in b <==> x in a
      {
        SameElsewhere(before, after, id, status, x);
      }
      assert b == a;
    }
  }

  lemma SameElsewhere(before: Events, after: Events, id: Text, status: EventStatus, x: Text)
    requires id in before && id in after && after == before[id := after[id]]
    ensures x != id ==> (x in WithStatus(after, status) <==> x in WithStatus(before, status))
    ensures id in WithStatus(after, status) <==> after[id].status == status
  {
  }
}
