/**
 What becomes of an upload, told by its row (packages/server/src/modules/uploads/service.ts): which intents a
 reconciliation deletes, blocks or leaves alone, and that a failed upload does not stay behind.
 */
module UploadFates {
  import opened Common
  import opened Uploads

  /** Nothing can still be written under this key and the intent is waiting to be deleted. */
  predicate IsDisposable(i: Intent) {
    || i.state == Cleanup
    || (i.state == Pending && i.provider == Local)
    || (i.state == Blocked && i.reason != Some(OutcomeUnknown))
  }

  /** Nobody is going to report how the write ended. */
  predicate IsAbandoned(i: Intent, now: int) {
    || (i.state == Pending && i.provider == S3)
    || (i.state == Writing && (i.leaseUntil == None || i.leaseUntil.value <= now))
  }

  /** The row a complete reconciliation leaves, told by the row it meets. */
  predicate RowAfter(i: Intent, i': Intent, here: Location, now: int) {
    && i'.provider == i.provider && i'.location == i.location && i'.leaseUntil == i.leaseUntil
    && (i'.state == Deleted <==> i.state == Deleted || (IsDisposable(i) && i.location == here))
    && (IsAbandoned(i, now) ==> i'.state == Blocked && i'.reason == Some(OutcomeUnknown))
    && (IsDisposable(i) && i.location != here ==> i'.state == Blocked && i'.reason == Some(StorageChanged))
    && (!IsAbandoned(i, now) && !IsDisposable(i) ==> i' == i)
  }

  /**
   A reconciliation whose deletion and transaction succeed ends a disposable intent that lives here, blocks
   the others that need attention, and touches neither committed nor busy ones.
   */
  lemma ReconciledRow(s: Sys, id: Id, here: Location, now: int)
    requires FilesOk(s) && id in s.intents
    ensures var s' := Reconcile(s, id, here, now, false, true, true);
            && s'.intents.Keys == s.intents.Keys
            && RowAfter(s.intents[id], s'.intents[id], here, now)
            && (forall other | other in s.intents && other != id :: s'.intents[other] == s.intents[other])
            && s'.objects == (if IsDisposable(s.intents[id]) && s.intents[id].location == here
                              then s.objects - {(here, id)} else s.objects)
  {
    assert IntentOk(s, id);
    hide Referenced;
  }

  /** The verdict in the words of the caller, told by the row. */
  lemma VerdictInRowFields(s: Sys, id: Id, here: Location, now: int)
    requires FilesOk(s)
    ensures var v := Decide(s, id, here, now);
            && (v == IsProtected <==> id !in s.intents || s.intents[id].state == Committed)
            && (id in s.intents ==>
                  var i := s.intents[id];
                  && (v == IsDeleted <==> i.state == Deleted)
                  && (v == Busy <==> i.state == Writing && i.leaseUntil != None && now < i.leaseUntil.value)
                  && (v == Uncertain <==> IsAbandoned(i, now))
                  && (v == IsUncertain <==> i.state == Blocked && i.reason == Some(OutcomeUnknown))
                  && (v == Moved <==> IsDisposable(i) && i.location != here)
                  && (v == Delete <==> IsDisposable(i) && i.location == here))
  {
    if id in s.intents {
      assert IntentOk(s, id);
      hide Referenced;
    }
  }

  /** A dry run, or a reconciliation that is rolled back before it reached the storage, changes nothing. */
  lemma DryRunChangesNothing(s: Sys, id: Id, here: Location, now: int, dryRun: bool, erased: bool, committed: bool)
    requires dryRun || (!erased && !committed)
    ensures Reconcile(s, id, here, now, dryRun, erased, committed) == s
  {
  }

  /** What a failed sweep leaves is disposable, unless it was finished or still being written. */
  lemma FailedSweepIsRetried(s: Sys, id: Id)
    requires FilesOk(s) && Enabled(s, SweepFails(id)) && id in s.intents
    ensures var i, i' := s.intents[id], Next(s, SweepFails(id)).intents[id];
            if i.state == Committed || i.state == Deleted || i.state == Writing then i' == i
            else IsDisposable(i') && i' == Intent(i.provider, i.location, Blocked, Some(CleanupFailed), i.leaseUntil)
  {
    assert IntentOk(s, id);
    hide Referenced;
  }

  /** What the uploader's catch block leaves: disposable when the write has settled, blocked when it may not have. */
  lemma CaughtUploadIsSettledOrBlocked(s: Sys, id: Id)
    requires FilesOk(s) && Enabled(s, Catch(id, true)) && id in s.intents
    ensures var i, i' := s.intents[id], Next(s, Catch(id, true)).intents[id];
            if i.state == Committed then i' == i
            else if s.uploaders[id].completed || i.provider == Local then IsDisposable(i') && id !in s.open
            else i'.state == Blocked && i'.reason == Some(OutcomeUnknown)
  {
    assert IntentOk(s, id);
    hide Referenced;
  }

  /**
   On truthful evidence a blocked intent whose storage is here is deleted with its object, whatever it was
   blocked for, and nothing can write it again.
   */
  lemma BlockedUploadIsResolved(s: Sys, id: Id, here: Location, now: int)
    requires FilesOk(s) && Enabled(s, DoResolve(id, here, true)) && id in s.intents
    requires s.intents[id].state == Blocked && s.intents[id].location == here
    ensures var s' := Reconcile(Resolve(s, id, here), id, here, now, false, true, true);
            && s'.intents[id].state == Deleted && (here, id) !in s'.objects && !Enabled(s', Land(id))
  {
    assert IntentOk(s, id);
    hide Referenced;
  }
}
