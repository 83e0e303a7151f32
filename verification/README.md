# Verified models of the asynchronous pipeline

Dafny models of the stateful protocols of this repository, with proofs of what they promise over every
run. `dafny verify dfyconfig.toml` checks them all.

## What is modelled

- **Payload identity** (`CanonicalJson`, `JsonText`, `AsyncTask`): JSON values over UTF-16 strings, the
  canonical text payload hashes are taken of and how it reads back, message parsing, idempotency keys, retry
  delays and the failure transition.
- **Task store** (`TaskStore`, `TaskRuns`, `TaskAnswers`, `Recovery`, `RecoveryScan`, `RecoveryOffers`,
  `PostgresTaskStore`): the
  transactions `claim`, `execute`, `fail`, `quarantine`, `replay`, recovery isolation and the two updating
  retention specs as functions on the tables; runs of any number of workers over them; the resumable scan
  of `dueMessages`; and, in terms of the rows, when claim hands out a lease and which rows the scan offers
  (`TaskAnswers`, `RecoveryOffers`). The class `Store` changes the tables statement by statement and is proved to be those
  functions. Every transaction holds its row lock until it commits, so it is one step; `now()` is an
  arbitrary time in every step, and no theorem about the store needs a clock that moves forward. A crash
  is a lease that is never used again.
- **Consumer** (`Consumer`, `ConsumerRuns`): `processAsyncConsumerMessage` against `Store`, the sequential
  batch, and any number of consumers of one group with crashes, reassignments and commits that succeed
  without being acknowledged.
- **Outbox** (`Outbox`, `EndToEnd`): leases and generations of the publisher, at-least-once sends, and the
  join with the consumers: any number of Kafka copies of one row have one effect per consumer group, and
  different rows are different tasks.
- **Uploads** (`Uploads`, `UploadFates`): intents, files and an object store that may finish a write late, with
  uploaders, reconcilers, a sweep and an operator interleaved; the class `Service` runs the statements.
- **Identity** (`Identity`, `Authority`): two-phase logins, password changes and resets, status and role updates,
  logout, bootstrap and purging of ended sessions; who opened a session, what ends it and who may change
  accounts and roles; the class `Service` runs the transactions.
- **Kafka recovery** (`KafkaRecovery`): the checkpoint, the checks on transport and logs, the guard with its
  floors and its sticky failure, the batch loop behind it, and all partitions interleaved.
- **Limiter and type aliases** (`RateLimit`, `TypeAlias`): the fixed-window limiter, and the
  closure-based evaluator of type aliases.

Two statements are worth reading with the code at hand. The sweep's failure branch
(`packages/server/src/modules/uploads/service.ts:212-226`) replaces the reason of a blocked intent even when
that reason is an unknown upload outcome; a later reconciliation then deletes an object whose write may still
be under way (`Uploads.CarelessSweepIsReachable`, `Uploads.CarelessSweepErasesOpenWrite`).
`Uploads.SweepFailureIsSafeExactlyWhen` gives the exact condition in terms of deletions, and the run theorem
`Uploads.DeletesOnlySettledWrites` holds for all runs without such a rewrite. And "nothing is committed after
a failed recovery check" is false of the code as it stands (`KafkaRecovery.LateCommitHappens`); it holds
exactly when no commit was already past its own check when the other one failed
(`KafkaRecovery.FailureIsFinal`, `KafkaRecovery.NothingMovesExactlyWhenNothingInFlight`).

## Model

| member | source | states |
|---|---|---|
| CanonicalJson.QuoteCancels | services/worker/src/async-task.ts:176 | JSON.stringify of a string can be cut off the front of any longer text in one way only, so two quoted strings followed by anything agree only when strings and rests agree |
| CanonicalJson.NumberTextInjective | services/worker/src/async-task.ts:179 | two finite numbers are written alike only when they are the same number, over all layouts of Number::toString (plain, padded, fractional, exponential) |
| CanonicalJson.SortSorts | services/worker/src/async-task.ts:174 | the code-unit sort of an object's entries is ordered and neither loses nor invents an entry |
| CanonicalJson.SortedUnique | services/worker/src/async-task.ts:174 | a set of entries has only one sorted order, so member order cannot reach the hash |
| CanonicalJson.CanonicalIsSelfDelimiting | services/worker/src/async-task.ts:167-180 | a canonical text is never confused with another inside a longer text: nested arrays, objects, numbers and strings are read back unambiguously |
| CanonicalJson.CanonicalInjective | services/worker/src/async-task.ts:167-180 | equal canonical texts come from values equal up to member order |
| CanonicalJson.CanonicalIgnoresOrder | services/worker/src/async-task.ts:167-180 | values equal up to member order have one canonical text |
| CanonicalJson.CanonicalIffEqual | services/worker/src/async-task.ts:167-180 | canonicalPayload is a normal form: texts agree exactly when the values are equal up to member order at every depth |
| JsonText.QuoteReadsBack | services/worker/src/async-task.ts:176 | reading a quoted string by the rules of section 7 of RFC 8259, escapes and surrogates included, gives the string back and takes nothing of what follows |
| JsonText.MagnitudeDenotes | services/worker/src/async-task.ts:179 | in all four layouts the text of a number is a numeral of section 6 of RFC 8259 that denotes exactly its digits and power of ten |
| JsonText.CanonicalWrites | services/worker/src/async-task.ts:167-180 | the canonical text is a JSON text of the value it is taken of, at every depth, without white space and with each object's members once, in the order of their keys |
| AsyncTask.ParsesExactlySurrounded | packages/contracts/src/async-contracts.ts:18-26 | a text is accepted as the identifier s exactly when s is trimmed, not empty and within 2000 UTF-8 bytes and the text is s with white space around it |
| AsyncTask.RowKeyInjective | services/worker/src/async-task-store.ts:126-127 | distinct pairs of consumer group and idempotency key have distinct row keys |
| AsyncTask.KeyFitsWhenRowKeyFits | services/worker/src/async-task.ts:117-118 | the length check on the serialized pair bounds the idempotency key itself, escapes and surrogates included |
| AsyncTask.StorableExactlyUpToOrder | services/worker/src/async-task.ts:77-96 | of two payloads equal up to member order PostgreSQL can store both or neither |
| AsyncTask.PayloadHashIdentifies | services/worker/src/async-task.ts:188-192 | two payload hashes agree exactly when type and payload agree up to member order |
| AsyncTask.ParseGuarantees | services/worker/src/async-task.ts:70-140 | every parsed message satisfies what storedTask later demands of a stored envelope, and keeps its source position; what its fields are says AsyncTask.ParsedFields |
| AsyncTask.ParsedFields | services/worker/src/async-task.ts:97-139 | id, type, trace, payload, counters, next retry and key of a parsed task are those of its message, with the defaults for what the message leaves out |
| AsyncTask.GivenKeyIsUsed | services/worker/src/async-task.ts:64-68 | an idempotency key that is given and not empty is used as it is |
| AsyncTask.DerivedKeysTellApart | services/worker/src/async-task.ts:64-68 | without a given key events of one type have one key exactly when they have one id, events of one id exactly when they have one type, and for types without a colon exactly when they agree in both |
| AsyncTask.RetryDelayGrows | services/worker/src/async-task.ts:53-56 | retry delays never decrease from attempt to attempt and never exceed the maximum |
| AsyncTask.RetryDelayDoubles | services/worker/src/async-task.ts:53-56 | the delay starts at the lesser of base and maximum and doubles from attempt to attempt until it reaches the maximum |
| AsyncTask.FailTaskCounts | services/worker/src/async-task.ts:142-164 | a failure adds one attempt and waits one delay, or ends the task exactly when its attempts are used up |
| TaskRuns.EnvelopeIsStoredTask | services/worker/src/async-task-store.ts:77-92 | every envelope in a reachable row passes storedTask, in its strict and in its lenient form |
| TaskRuns.StepKeeps | services/worker/src/async-task-store.ts:248-446 | every transaction, with any clock, keeps the whole invariant: envelopes match their row's hash, key and status, leases are current or older, receipts match succeeded rows, budgets match counters |
| TaskRuns.RunKeeps | services/worker/src/async-task-store.ts:248-446 | the invariant holds in every reachable state of any number of workers |
| TaskRuns.EffectsHappenOnce | services/worker/src/async-task-store.ts:322-345 | in every reachable state each key has taken effect at most once, and effects, receipts and succeeded rows are the same keys |
| TaskRuns.ReceiptInsertNeverCollides | services/worker/src/async-task-store.ts:326-336 | the receipt INSERT of any lease ever handed out never meets an existing key |
| TaskRuns.SucceededForever | services/worker/src/async-task-store.ts:248-446 | a succeeded row stays succeeded and keeps its receipt in every later state |
| TaskRuns.RunIsLater | services/worker/src/async-task-store.ts:248-446 | rows, leases, effects, receipts and both quarantines are never taken back, generations never fall, payload hashes never change |
| TaskRuns.GenerationsRise | services/worker/src/async-task-store.ts:305-319 | each won claim and each replay raises the row's generation by exactly one |
| TaskRuns.OneOwner | services/worker/src/async-task-store.ts:173-180 | of all leases ever handed out for a key at most one passes the ownership guard, whatever the clocks |
| TaskRuns.OwnerHoldsNewestLease | services/worker/src/async-task-store.ts:173-180 | a lease passes requireLease exactly when its generation is the current one of a processing row with an unexpired lease; it is then the newest of its key and the row holds exactly its envelope and hash |
| TaskRuns.LeaseIsUsedOnce | services/worker/src/async-task-store.ts:181-187 | once an outcome has been recorded for a key, no lease handed out for it so far passes the guard again, in any later state and at any time |
| TaskRuns.QuarantineCodeStays | services/worker/src/async-task-store.ts:352-366 | the code a source position was first quarantined with is never changed |
| TaskRuns.OlderLeaseChangesNothing | services/worker/src/async-task-store.ts:173-180 | once a newer lease exists, execute and fail with the older one change nothing in that and every later state |
| TaskRuns.DeadAfterExactlyTheLimit | services/worker/src/async-task.ts:142-164 | a row is dead exactly when max(1, m - a + 1) failures have been recorded since creation or replay, never more |
| TaskRuns.BudgetMovesOnlyByFailures | services/worker/src/async-task-store.ts:287-446 | redeliveries with other counts do not touch a budget; a recorded failure adds one, a replay allows exactly m again |
| TaskAnswers.ClaimedExactlyWhenOpen | services/worker/src/async-task-store.ts:265-321 | on an existing row claim hands out a lease exactly when the row is bound to the same payload, not isolated, not finished, not under an unexpired lease, and its next attempt is not in the future; every refusal has its own condition and a deferral names exactly the end of the lease or the next attempt |
| TaskAnswers.NewKeyIsClaimed | services/worker/src/async-task-store.ts:248-321 | a message of a new key is claimed at once, with its own envelope, exactly when its next attempt is not in the future |
| TaskAnswers.LeaseLastsExactly | services/worker/src/async-task-store.ts:305-319 | a won lease passes the guard exactly until now + leaseMs |
| TaskAnswers.NoLeaseIsStolen | services/worker/src/async-task-store.ts:293-319 | between two won claims of a key lies a recorded outcome, a replay, or a claim made at or after the end of the first lease |
| TaskAnswers.LeasedTaskTakesEffect | services/worker/src/async-task-store.ts:322-345 | a won claim whose handler succeeds within the lease takes effect, with receipt and succeeded row |
| TaskAnswers.TwoKeysTakeEffect | services/worker/src/async-task-store.ts:248-345 | two tasks of different keys both take effect in some run |
| TaskAnswers.ReplayedTaskIsClaimed | services/worker/src/async-task-store.ts:422-446 | a failed or dead task that is not isolated is claimed at once after its replay |
| TaskAnswers.ReplayedExactlyWhenFailed | services/worker/src/async-task-store.ts:422-446 | in every reachable state a task can be replayed exactly when its row is failed or dead and not isolated |
| TaskAnswers.EmptiedExactlyWhenOutdated | packages/database/src/retention.ts:59-76 | in every reachable state retention may empty a row exactly when it is succeeded or canceled, still has its envelope, was created before the cut-off and has expired |
| Recovery.CompactedVerdict | services/worker/src/async-task-store.ts:270-292 | on a reachable succeeded row claim answers from the hash alone as it answers from the full envelope |
| Recovery.CompactionInvisibleToClaim | packages/database/src/retention.ts:59-67 | claim gives the same verdict and corresponding tables before and after compaction of any selected rows |
| Recovery.CompactionInvisible | packages/database/src/retention.ts:59-76 | every transaction commutes with compaction and hands out the same leases |
| Recovery.CompactionInvisibleInRuns | packages/database/src/retention.ts:59-76 | a compaction can be inserted at any point of any run: the rest goes on with the same leases, effects, receipts and budgets, and every later claim gets the same verdict |
| Recovery.RecoveredMessageParses | services/worker/src/async-task-store.ts:196-217 | the message rebuilt from an envelope parses to that envelope with fresh counters |
| Recovery.RecoveryRoundTrip | services/worker/src/async-task-store.ts:196-217 | every envelope this code wrote is reconstructed, parses to the same key, type and hash, its claim never throws, and a won claim continues the stored counters |
| RecoveryScan.CursorNeverPassesDueRow | services/worker/src/async-task-store.ts:395-421 | the kept cursor is never behind which a row that was due when examined would be missed |
| RecoveryScan.EmptyCallFinishesOrPassesBudget | services/worker/src/async-task-store.ts:416-420 | a call that returns nothing either ends the scan or has passed exactly budget rows, none of them due |
| RecoveryScan.EveryDueRowIsReturned | services/worker/src/async-task-store.ts:367-421 | a row that stays eligible and due is returned within twice as many calls as there are rows, although returned rows may stay on the pages, no longer due |
| RecoveryOffers.OfferedExactlyWhenOpen | services/worker/src/async-task-store.ts:113-125 | in every reachable state the recovery scan offers exactly the rows that are not finished, not leased, not postponed, not isolated and not withheld by the quarantine of their message |
| RecoveryOffers.OfferedExactlyWhenClaimable | services/worker/src/async-task-store.ts:367-421 | a row that is neither isolated nor withheld is offered at a time if and only if claiming the message recovered from it at that time is won |
| RecoveryOffers.PageHoldsExactlyTheOpenRows | services/worker/src/async-task-store.ts:380-394 | within the scan's window a row is on the page and due exactly when it is open, unless a full page ends before it |
| RecoveryOffers.AbandonedTaskIsOffered | services/worker/src/async-task-store.ts:113-125 | a task whose worker never returns is offered from the end of its lease on |
| RecoveryOffers.FailedTaskIsOffered | services/worker/src/async-task-store.ts:346-421 | a failed task is offered exactly from one retry delay after its failure on, a dead one never |
| PostgresTaskStore.Store.Claim | services/worker/src/async-task-store.ts:248-321 | the statements of claim with their rollbacks are the claim transaction on the whole tables, whose answers TaskAnswers gives in terms of the rows |
| PostgresTaskStore.Store.Execute | services/worker/src/async-task-store.ts:322-345 | lease check, handler, receipt and finish commit together or leave the tables alone |
| PostgresTaskStore.Store.Fail | services/worker/src/async-task-store.ts:346-351 | a failure is recorded only by the owner of the lease |
| PostgresTaskStore.Store.Replay | services/worker/src/async-task-store.ts:422-446 | only failed and dead rows that are not isolated are replayed, with one more generation and a fresh count |
| PostgresTaskStore.Store.IsolateInvalidRecovery | services/worker/src/async-task-store.ts:218-242 | an eligible row is set apart exactly when it cannot be reconstructed under its lock |
| PostgresTaskStore.Store.DueMessages | services/worker/src/async-task-store.ts:367-421 | the call returns the first due rows of its page and keeps exactly the cursor of the scan model, per group; which rows those are RecoveryOffers says in terms of the rows |
| PostgresTaskStore.Store.ScanPage | services/worker/src/async-task-store.ts:395-415 | the loop takes the first limit due rows in order and remembers where it stood before the first |
| PostgresTaskStore.Store.Retain | packages/database/src/retention.ts:59-102 | no row or receipt is added or removed; only finished, hashed and outdated rows lose their envelope and nothing else, only receipts of finished rows change, and only in their result |
| PostgresTaskStore.QueryGivesPage | services/worker/src/async-task-store.ts:380-394 | the answer of the page query is a page in the sense of the scan theorems |
| PostgresTaskStore.QueryOffersDueRows | services/worker/src/async-task-store.ts:380-394 | an eligible due row is on the page or behind a full one |
| PostgresTaskStore.TakenKeysAreTaken | services/worker/src/async-task-store.ts:395-415 | the rows a call takes are the positions its scan takes |
| Consumer.ParseIdentity | services/worker/src/async-task.ts:64-140 | the key, type and payload a message stands for do not depend on when or with which default it is parsed |
| Consumer.ClaimBindsPayload | services/worker/src/async-task-store.ts:248-292 | after a claim that did not throw the key's row exists and is bound to this message's payload hash |
| Consumer.ExecuteClaimed | services/worker/src/async-consumer.ts:130-158 | success, stale lease, recorded failure and dead letter give the right tables and result, and no row loses its hash |
| Consumer.ProcessMessage | services/worker/src/async-consumer.ts:64-158 | a result is safe to commit only once the record is in quarantine or its row is bound to its payload; an unsafe result names its next try |
| Consumer.ProcessSequentially | services/worker/src/async-consumer.ts:160-183 | exactly the safe prefix is committed, in order; the first unsafe record stops the batch and is announced as deferred when its next try lies ahead, else as a retryable failure |
| ConsumerRuns.CallIsMoves | services/worker/src/async-consumer.ts:64-158 | a call of processAsyncConsumerMessage is a sequence of moves of the interleaved model, which leaves the record safe to commit exactly when the call says so |
| ConsumerRuns.WorldStepKeeps | services/worker/src/async-consumer.ts:287-352 | every move of every consumer, crash, reassignment and late commit included, keeps all records below committed offsets disposed of |
| ConsumerRuns.NoRecordIsLost | services/worker/src/async-consumer.ts:287-352 | in every reachable state each record below a committed offset is in quarantine or has the row of its key, bound to its payload |
| ConsumerRuns.DispositionIsPermanent | services/worker/src/async-consumer.ts:64-158 | a disposition outlives every later step |
| Outbox.Lifecycle | services/worker/src/outbox.ts:137-209 | attempts count settled sends exactly, waiting and failed rows have attempts left, dead rows have none, and for a published row a send was acknowledged whose copy is in Kafka |
| Outbox.FinishedForever | services/worker/src/outbox.ts:137-209 | published and dead rows never change again |
| Outbox.FailureCountsExactly | services/worker/src/outbox.ts:189-209 | writing the snapshot's count plus one is an exact increment, and dead means the last allowed attempt |
| Outbox.OneOwner | services/worker/src/outbox.ts:161-209 | of all claims of a row at most one passes the guard |
| Outbox.OlderClaimChangesNothing | services/worker/src/outbox.ts:161-209 | after a newer claim, markPublished and markFailed with the older one change nothing, then and later |
| Outbox.CopiesAgree | services/worker/src/outbox.ts:137-159 | all copies of a row that reach Kafka, over any number of claims and purges, carry the same event, type, trace and payload |
| Outbox.Table.ClaimOne | services/worker/src/outbox.ts:137-159 | the row that is picked is taken exactly when it is due: pending or failed from its next attempt on, in flight from the end of its lease, else its lock, on, finished never; its taker owns it for exactly leaseMs |
| Outbox.UnfinishedIsClaimable | services/worker/src/outbox.ts:137-159 | in every reachable state a row that is neither published nor dead can be claimed exactly from its next attempt or the end of its lease on, a finished one never |
| Outbox.ClaimedOnlyWhenUnowned | services/worker/src/outbox.ts:137-209 | a claim succeeds only at a time at which no earlier claim of the row passes the guard |
| Outbox.FreshEventIsPublished | services/worker/src/outbox.ts:137-176 | an event that is created, claimed when due, sent and acknowledged within its lease ends published after one attempt, and its copy is in Kafka |
| Outbox.Table.Publish | services/worker/src/outbox.ts:161-176 | it changes the table exactly when the worker owns the row; the row then has one more attempt, is owned by nobody and can never be claimed again, and no other row changes |
| Outbox.Table.Reject | services/worker/src/outbox.ts:178-209 | only the owner records a failure; nobody owns the row afterwards, a dead row is never claimable again, any other exactly from the end of its backoff on |
| Outbox.Table.ProcessOnce | services/worker/src/outbox.ts:252-286 | it goes on until it is aborted or the row picked is not due; claimed = published + failed + deadLetter + staleOwner <= batchSize, an acknowledged send is counted as published unless its lease was lost, the published and dead rows grow by exactly the counts returned, and the call is a sequence of steps of the protocol |
| Outbox.LeadsKeeps | services/worker/src/outbox.ts:211-290 | every sequence of steps keeps the invariant of the protocol, so a call of processOutboxOnce does |
| EndToEnd.CopiesHaveSameFields | services/worker/src/outbox.ts:85-116 | sends of one row with any attempts and times differ only in attempts and occurredAt |
| EndToEnd.CopiesParseAlike | services/worker/src/outbox.ts:96-116 | all copies of a row parse to one key, type and payload, or none of them parses |
| EndToEnd.OneRowOneEffect | services/worker/src/outbox.ts:252-286 | whatever publishers and consumers do, any two copies of a row stand for one key, which takes effect at most once per consumer group |
| EndToEnd.CopiesNeverConflict | services/worker/src/async-task-store.ts:248-292 | no copy of a row is ever taken for a conflict with another, and it is refused only when its key has been isolated |
| EndToEnd.PlainRowsTask | services/worker/src/outbox.ts:108-116 | the task a copy of a plain row stands for carries the row's id, type, trace and payload under the key type:id |
| EndToEnd.PlainRowsParseExactlyWhen | services/worker/src/outbox.ts:108-116 | consumers accept a copy of a plain row exactly when its identifiers and payload can be stored and the serialized key fits |
| EndToEnd.DifferentRowsHaveDifferentKeys | services/worker/src/async-task.ts:64-68 | copies of two plain rows of one type have one key exactly when they carry one id |
| EndToEnd.DifferentRowsBothTakeEffect | services/worker/src/async-task-store.ts:248-345 | two different plain rows of one type both take effect in some run |
| EndToEnd.NestingIsInvisible | services/worker/src/outbox.ts:85-107 | a row whose payload already is the message of its event is read as that message |
| Uploads.CommittedFilesAreSafe | packages/server/src/modules/uploads/service.ts:17-181 | in every interleaving a file row exists exactly for committed intents, whose object is in storage and was never deleted |
| Uploads.CommittedForever | packages/server/src/modules/uploads/service.ts:57-101 | committed is never left |
| Uploads.DeletesOnlySettledWrites | packages/server/src/modules/uploads/service.ts:104-181 | as long as no failed sweep rewrites the unknown outcome of a write that is still open, an object is deleted only after its write has settled, and a deleted intent's object stays absent |
| Uploads.SweepFailureIsSafeExactlyWhen | packages/server/src/modules/uploads/service.ts:212-226 | after a failed sweep some continuation without a further such rewrite deletes an object under an open write if and only if the sweep has just rewritten the unknown outcome of an open write |
| Uploads.CarelessSweepErasesOpenWrite | packages/server/src/modules/uploads/service.ts:212-226 | after such a rewrite one reconciliation deletes while the write is open, and the write lands on a deleted intent |
| Uploads.CarelessSweepIsReachable | packages/server/src/modules/uploads/service.ts:212-226 | a run that begins with an S3 upload and a sweep reaches that situation |
| Uploads.Service.Put | packages/server/src/modules/uploads/service.ts:46-56 | afterwards the write can still take effect only if it went to S3 and did not report success; on success its object is stored and the commit may follow, else only the catch block |
| Uploads.Service.Commit | packages/server/src/modules/uploads/service.ts:57-101 | file row and committed intent together under an unexpired writing lease, or nothing |
| Uploads.Service.ReconcileIntent | packages/server/src/modules/uploads/service.ts:127-158 | the decision and its effects, also when the object is deleted and the transaction is rolled back |
| Uploads.Service.ResolveBlockedUpload | packages/server/src/modules/uploads/service.ts:160-181 | it is refused exactly without evidence or for an unprotected intent that is not blocked here, and then nothing changes; otherwise the resolution and the reconciliation behind it, which keep the protection of uncertain writes and delete only a settled write |
| Uploads.Service.AbandonIntent | packages/server/src/modules/uploads/service.ts:105-120 | a write that completed or was local goes to cleanup, an uncertain one is blocked |
| Uploads.Service.StoreUploadedFile | packages/server/src/modules/uploads/service.ts:17-125 | whatever storage, clock and database answer, it takes only protocol steps; it succeeds exactly when all of them agree, with a committed file whose object is stored, and a failed upload that is caught and reconciled leaves neither file nor object, or is blocked because its write may still take effect |
| UploadFates.ReconciledRow | packages/server/src/modules/uploads/service.ts:127-158 | a complete reconciliation deletes exactly the disposable intents whose storage is here, with their object, blocks abandoned and moved ones with their reason, and leaves committed, busy and uncertain ones and all others alone |
| UploadFates.VerdictInRowFields | packages/server/src/modules/uploads/service.ts:127-158 | each of its seven answers has an exact condition on the row |
| UploadFates.FailedSweepIsRetried | packages/server/src/modules/uploads/service.ts:212-226 | what a failed sweep leaves is disposable again, unless it was finished or still being written |
| UploadFates.CaughtUploadIsSettledOrBlocked | packages/server/src/modules/uploads/service.ts:104-120 | a failed upload is left disposable with no write open when its write completed or was local, and blocked as uncertain otherwise |
| UploadFates.BlockedUploadIsResolved | packages/server/src/modules/uploads/service.ts:160-181 | on truthful evidence a blocked intent whose storage is here is deleted with its object, and nothing can write it again |
| Identity.StepKeeps | packages/server/src/modules/identity/service.ts:118-491 | every transaction and every read before one keeps accounts unique, logins on their account and live sessions current |
| Identity.LiveSessionsAreCurrent | packages/server/src/modules/identity/service.ts:118-153 | in every reachable state a live session's user is enabled and still has the password hash the session was opened with |
| Identity.AcceptedExactlyWhenLive | packages/server/src/modules/identity/service.ts:80-93 | in every reachable state a token is accepted exactly when its session is live and its secret matches; that its user is enabled and has the session's password follows |
| Identity.DeadForever | packages/database/src/modules/identity/repository.ts:260-288 | a session that ended is never live again and its id is never reused |
| Identity.NothingRevives | packages/server/src/modules/identity/service.ts:235-274 | no session outlives a moment at which its user was disabled or had another password: enabling again revives nothing |
| Identity.AdministratorRemains | packages/server/src/modules/identity/service.ts:392-405 | from the first administrator on there always is an enabled user with both administration permissions |
| Identity.Service.UserByAccount | packages/database/src/modules/identity/repository.ts:72-89 | the user of an account, or none |
| Identity.Service.RequireWrite | packages/server/src/modules/identity/service.ts:103-116 | the acting user who holds the permission, or FORBIDDEN exactly when one acts without it and UNAUTHENTICATED exactly when nobody acts with the token |
| Identity.Service.BeginLogin | packages/server/src/modules/identity/service.ts:118-126 | an attempt exactly when the password matched and an enabled user has the account; it names that user and the hash that was read |
| Identity.Service.FinishLogin | packages/server/src/modules/identity/service.ts:137-153 | a session is saved exactly when an enabled user still has the account and the hash that was verified, and only that session is added |
| Identity.Service.RevokeSession | packages/database/src/modules/identity/repository.ts:260-271 | the session is not live at any later time, and one that had ended keeps its record |
| Identity.Service.RevokeUserSessions | packages/database/src/modules/identity/repository.ts:277-288 | no session of the user is live at any later time; sessions of others and ended ones are unchanged, none is removed |
| Identity.Service.SignOut | packages/server/src/modules/identity/service.ts:370-390 | the token is accepted at no later time, and no session but that of a valid token changes |
| Identity.Service.SetPasswordAndRevoke | packages/server/src/modules/identity/service.ts:480-491 | the user has the new hash and no session that is live at any later time; other users and their sessions are unchanged |
| Identity.Service.FinishChange | packages/server/src/modules/identity/service.ts:434-452 | it succeeds exactly for the acting user whose hash still is the one verified; then the hash is new, every session of the user is over and nothing else changes |
| Identity.Service.FinishReset | packages/server/src/modules/identity/service.ts:467-478 | it succeeds exactly for an acting holder of the permission, another user and an unchanged hash, with the same effect |
| Identity.Service.UpdateManagedUser | packages/server/src/modules/identity/service.ts:235-274 | the new status and roles with the revocations of a disabled user, by an acting holder of the permission, or an error and no change, also when it would remove the last administrator |
| Identity.Service.UpdateManagedRole | packages/server/src/modules/identity/service.ts:308-347 | the update by an acting holder of the permission, or an error and no change, also when it would remove the last administrator |
| Authority.WriterInRowFields | packages/server/src/modules/identity/service.ts:80-116 | allowed, unauthenticated and forbidden each have an exact condition on sessions, users and roles |
| Authority.AdministratorInRowFields | packages/server/src/modules/identity/service.ts:392-405 | an administrator is an enabled user whose active roles grant both permissions |
| Authority.UserUpdateSucceedsExactlyWhen | packages/server/src/modules/identity/service.ts:235-274 | an update goes through exactly for a holder of the permission, an existing user, known roles, and an administrator who remains |
| Authority.RoleUpdateSucceedsExactlyWhen | packages/server/src/modules/identity/service.ts:308-347 | the same for roles |
| Authority.UserCreationSucceedsExactlyWhen | packages/server/src/modules/identity/service.ts:198-233 | a user is created exactly for a holder of the permission, an account nobody has, and known roles |
| Authority.FirstAdministrator | packages/server/src/bootstrap-admin.ts:64-118 | bootstrap of an empty database leaves exactly one user, who administers and has the given account and password |
| Authority.SessionWasOpenedByPassword | packages/server/src/modules/identity/service.ts:118-153 | every session that ever existed was saved by a login whose password had matched, for the same call and account, the hash an enabled user had when it was read and still had when the session was saved |
| Authority.RightPasswordOpens | packages/server/src/modules/identity/service.ts:118-153 | a matching password of an enabled user, saved at once, gives a token that is accepted until it expires |
| Authority.SessionEndsExactlyBy | packages/server/src/modules/identity/service.ts:235-491 | a live session is ended by exactly these: its expiry, its logout, a change or reset of its user's password that succeeds, and a disabling of its user that succeeds |
| Authority.TokenIsAcceptedUntilEnded | packages/server/src/modules/identity/service.ts:80-93 | over whole runs a token once accepted is accepted for the same user exactly until such an action |
| Authority.AccountsChangeByAuthority | packages/server/src/modules/identity/service.ts:198-491 | no account is ever removed, and each change of one is by its own token and verified hash, by an acting administrator, or by the bootstrap, with nothing else changed |
| Authority.RolesChangeByAuthority | packages/server/src/modules/identity/service.ts:276-347 | the same for roles |
| Authority.ChangeWasVerified | packages/server/src/modules/identity/service.ts:421-434 | a password change that reaches its transaction was begun with an accepted token of the user, and the present password then matched the hash it carries |
| KafkaRecovery.Pigeonhole | packages/kafka/src/recovery.ts:157-161 | equal length and one inclusion make two lists with distinct entries on one side the same set, without repetition |
| KafkaRecovery.TransportIsExact | packages/kafka/src/recovery.ts:180-215 | a verified transport has offsets on exactly the checkpointed partitions, each once, none before its checkpoint |
| KafkaRecovery.PassedCheckCoversFloors | packages/kafka/src/recovery.ts:146-178 | a passed check means logs of exactly the checkpointed partitions and low <= floor <= high for each |
| KafkaRecovery.PassesExactlyWhen | packages/kafka/src/recovery.ts:146-215 | a check passes exactly when the group has one consumer, its offsets are on the checkpointed partitions at or above their checkpoints, and both readings of the logs are of the same cluster, complete, and hold every offset, every floor and the checkpoint's end |
| KafkaRecovery.SubscribedIsSame | services/worker/src/kafka-recovery.ts:61-65 | with distinct topics the comparison of subscriptions is equality of sets |
| KafkaRecovery.SetOffsets | packages/kafka/src/recovery.ts:237-245 | the loop gives every checkpointed partition its checkpointed offset and touches no other |
| KafkaRecovery.SetTopic | packages/kafka/src/recovery.ts:238-244 | one round sets the partitions of one topic only |
| KafkaRecovery.RecoveryGuard.constructor | services/worker/src/kafka-recovery.ts:67-84 | the floors of a verified transport are in order |
| KafkaRecovery.RecoveryGuard.Check | services/worker/src/kafka-recovery.ts:84-92 | a check that passes vouches for every floor: logs of exactly the checkpointed partitions, each holding its floor; after one that fails none passes |
| KafkaRecovery.RecoveryGuard.BeforeMessage | services/worker/src/kafka-recovery.ts:96-103 | a record passes only after a passed check and at or above its partition's floor |
| KafkaRecovery.RecoveryGuard.Committed | services/worker/src/kafka-recovery.ts:104-110 | for a known partition the floor moves behind the record and no other floor moves, for an unknown one it is an error; from an expected record the floors stay in order |
| KafkaRecovery.EachRecord | services/worker/src/async-consumer.ts:290-345 | one record is committed exactly when it is begun (a passed check, at or above the floor) and some turn after only unsafe ones disposes of it, its check passes and the broker takes it; each error and each stop has its condition too, and without a commit no floor moves |
| KafkaRecovery.EachBatch | services/worker/src/async-consumer.ts:287-352 | the committed offsets are those behind a prefix of the batch, above the floor and strictly increasing, all of it exactly when the batch finishes; it stops only at a record that is not begun or not committed by the turns left; after a failed check nothing is committed |
| KafkaRecovery.FloorsOnlyRise | services/worker/src/kafka-recovery.ts:84-115 | with all partitions interleaved, floors stay on exactly the checkpointed partitions at or above their checkpoints, and every commit moves only its own, strictly forward |
| KafkaRecovery.FailureIsFinal | services/worker/src/kafka-recovery.ts:84-92 | after a failed check a partition's floor can still move if and only if a commit of it had passed its own check before and is on its way, and then only once |
| KafkaRecovery.NothingMovesExactlyWhenNothingInFlight | services/worker/src/kafka-recovery.ts:84-92 | after a failed check nothing is ever committed again exactly when no commit is on its way |
| KafkaRecovery.LateCommitHappens | services/worker/src/async-consumer.ts:317-326 | a concrete run in which a commit follows a failed check: begun and cleared, then the periodic check fails |
| RateLimit.CallKeepsBuckets | packages/server/src/rate-limit.ts:12-40 | no call outgrows the capacity, evicts, resets or discounts an unexpired bucket, or touches another key's |
| RateLimit.AcceptedExactlyWhen | packages/server/src/rate-limit.ts:18-40 | a call is accepted exactly when its key's running window has room, or the key gets one and the limit is not zero; it gets none exactly when the map is full of running windows |
| RateLimit.RefusedOnlyAfterTheLimit | packages/server/src/rate-limit.ts:18-40 | over any calls on any keys, a call is refused over the limit only when exactly the limit of calls on the key has been accepted in a window that is still running |
| RateLimit.RunFits | packages/server/src/rate-limit.ts:18-40 | the map stays within its capacity over any number of calls |
| RateLimit.AtMostTwiceTheLimit | packages/server/src/rate-limit.ts:18-40 | over any calls on any keys, any closed interval of one window length holds at most 2 * limit accepted calls on a key |
| RateLimit.Limiter.PruneExpiredBuckets | packages/server/src/rate-limit.ts:12-16 | the loop removes exactly the expired buckets |
| RateLimit.Limiter.EarliestReset | packages/server/src/rate-limit.ts:25-26 | the least reset time of all buckets, none for an empty map |
| RateLimit.Limiter.AssertRateLimit | packages/server/src/rate-limit.ts:18-40 | outcome and buckets of a call, and a retryAfter that is the least whole number of seconds after which the key's bucket, or for lack of room some bucket, has expired |
| TypeAlias.AncestorDistance | tools/anti-slop/src/shared/type-alias-resolution.ts:128-137 | the loop finds the first position of the scope on the ancestor chain |
| TypeAlias.NearestAreTheClosest | tools/anti-slop/src/shared/type-alias-resolution.ts:139-158 | a binding is among the nearest exactly when it encloses the use and no candidate does so more closely |
| TypeAlias.NearestTypeBindings | tools/anti-slop/src/shared/type-alias-resolution.ts:139-158 | the one-pass loop returns all nearest candidates in order |
| TypeAlias.AliasSubstitutions | tools/anti-slop/src/shared/type-alias-resolution.ts:187-206 | the loop builds the closures parameter by parameter, or gives up |
| TypeAlias.SubstituteFails | tools/anti-slop/src/shared/type-alias-resolution.ts:195-199 | it gives up exactly when some parameter has neither an argument nor a default |
| TypeAlias.SubstituteKeeps | tools/anti-slop/src/shared/type-alias-resolution.ts:194-205 | names that are not parameters keep their meaning |
| TypeAlias.ArgumentsAreClosed | tools/anti-slop/src/shared/type-alias-resolution.ts:196-203 | an explicit argument is bound to the substitutions of the place where it stands and sees none of the alias's own parameters |
| TypeAlias.DefaultsSeeEarlierParameters | tools/anti-slop/src/shared/type-alias-resolution.ts:196-203 | a default is bound to the substitutions of exactly the parameters before its own |
| TypeAlias.BoundNameEvaluatesAsItsType | tools/anti-slop/src/shared/type-alias-resolution.ts:218-224 | a substituted plain name evaluates as the type it is bound to, under the substitutions of that type's place |
| TypeAlias.AliasEvaluatesAsItsAnnotation | tools/anti-slop/src/shared/type-alias-resolution.ts:225-234 | a reference to the one nearest visible alias that is not being resolved and has all its arguments evaluates as the alias's annotation, substituted |
| TypeAlias.OpaqueDoesNotResolve | tools/anti-slop/src/shared/type-alias-resolution.ts:217-236 | what is left to the matcher is exactly what is neither a bound plain name nor such a reference |
| TypeAlias.MatcherDecides | tools/anti-slop/src/shared/type-alias-resolution.ts:237 | then the answer is the matcher's own, where a part matches for it exactly if the part evaluates to true under the same substitutions |
| TypeAlias.ParameterAliasEvaluatesAsItsArgument | tools/anti-slop/src/shared/type-alias-resolution.ts:214-238 | an alias for one of its parameters evaluates as that argument, read where the reference stands |
| TypeAlias.ResolveDecreases | tools/anti-slop/src/shared/type-alias-resolution.ts:219-236 | each resolution leaves fewer aliases to resolve, or the same ones and a shallower closure; with it evaluate terminates on every program |
| TypeAlias.ChainIsShort | tools/anti-slop/src/shared/type-alias-resolution.ts:214-238 | no chain of nested evaluate calls is longer than the rank of its first frame |
| TypeAlias.RecursionIsBounded | tools/anti-slop/src/shared/type-alias-resolution.ts:209-241 | with A aliases of at most W parameters and types of at most S nodes, evaluate nests at most A(AW + 1)S + S deep, for any matcher that asks only about subterms |

## Left out

- SHA-256 is taken to be injective, so a digest is represented by the text it was taken of; scrypt is a verdict given from outside, and random ids are fresh.
- A row of the idempotency table is addressed by the pair of group and key; `AsyncTask.RowKeyInjective` shows that its serialized key stands for that pair.
- The legacy payload hash (ordering by `localeCompare`) is an opaque text supplied with each claim, and legacy rows occur only in the verdict of claim, not in runs.
- JSON.parse is outside: a message carries its parsed value, or none. Dates are read by an arbitrary function. PostgreSQL may return any value equal to the payload it stored up to member order.
- An envelope does not carry `source.occurredAt`, nor the lease fields that `claim` adds to the stored JSON; neither is read again.
- The projections `app_tasks` and `app_task_events`, which the store only writes, are not modelled; nor are the task event, outbox, telemetry and audit specs of retention, which only delete rows. The batch limit and skipped locks of retention are an arbitrary choice among the selected rows.
- PostgresTaskStore.Store.DueMessages: its page query and its isolations run without another transaction between them; isolation as a step of its own is part of the runs.
- RecoveryScan compares row keys by code unit, as the `C` collation does.
- Consumer.ExecuteClaimed: its contract holds when nothing else writes the tables between its two transactions; `ConsumerRuns` interleaves every transaction with all others, and `ConsumerRuns.CallIsMoves` shows that a call is a sequence of its moves.
- Consumer.ProcessMessage: the same for its up to three transactions. The handler is its result, or that it threw; its own effects are the committed effect of the runs.
- Outbox.Table.ProcessOnce: its counts of rows hold when nothing else writes the table during the call; the call is a sequence of protocol steps, and the runs interleave those with all others.
- Uploads.Service.StoreUploadedFile: no other process acts on the tables during the call; the call is a sequence of protocol steps, and the runs interleave those with all others.
- Timers, heartbeats, abort signals and shutdown of `runKafkaConsumer`: what they do to the batch loop is whether it goes on.
- `processOutboxOnce` in its dry-run form and the selection order of `claimEvents`; the row picked is arbitrary among the claimable ones.
- Uploads: the sweep's paging (its cursor is a millisecond date over microsecond timestamps), the permission check before an upload, and the audit and outbox rows of the commit. The operator's evidence is truthful, and a local write has settled when its process has ended.
- Identity: one clock serves the application and the database. `createManagedUser`, `createManagedRole` and bootstrap are transactions of the runs but not methods of the class. Permission checks made before a transaction only narrow the runs and are dropped.
- KafkaRecovery: a broker lists a partition once (`ListsOnce`), configured topics are distinct, and one batch of a partition is under way at a time. The checks of the binding between groups in `loadKafkaRecovery` are plain comparisons and are not modelled.
- RateLimit.AtMostTwiceTheLimit is about a key whose calls all come with one limit and one positive window; the Redis variant is not modelled.
- TypeAlias: collecting bindings from a syntax tree, and the claim that evaluation equals full expansion, which does not hold: an alias reused inside its own argument is cut off, and outer substitutions stay visible in alias bodies.
- Paging of file assets, the pages of users, HTTP, tRPC, the web client, deployment and environment checks.
