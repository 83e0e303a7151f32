/**
 Upload intents (packages/server/src/modules/uploads/service.ts): a database row per upload coordinates
 the uploader, a reconciler and an operator with an object store that may finish a write late.
 */
module Uploads {
  import opened Common

  type Id = nat
  type Location = nat

  datatype Provider = Local | S3

  datatype State = Pending | Writing | Committed | Cleanup | Deleted | Blocked

  datatype Reason = OutcomeUnknown | StorageChanged | CleanupFailed

  /** A row of app_upload_intents; its storage key is its id. */
  datatype Intent = Intent(provider: Provider, location: Location, state: State, reason: Option<Reason>,
      leaseUntil: Option<int>)

  /** How far the uploader of an intent has come. */
  datatype Phase = Putting | Stored | MustCatch(completed: bool) | Gone

  /**
   The intents, the file rows by file id, the objects by location and key, the writes that may still
   take effect, the uploaders, the intents a sweep has picked and the keys that were ever deleted.
   */
  datatype Sys = Sys(
    intents: map<Id, Intent>,
    files: map<Id, Id>,
    objects: set<(Location, Id)>,
    open: set<Id>,
    uploaders: map<Id, Phase>,
    picked: set<Id>,
    erased: set<Id>)

  const START := Sys(map[], map[], {}, {}, map[], {}, {})

  predicate Referenced(files: map<Id, Id>, id: Id) {
    exists f :: f in files && files[f] == id
  }

  function SetState(i: Intent, state: State, reason: Option<Reason>): Intent {
    i.(state := state, reason := reason)
  }

  // ---------------------------------------------------------------- the transactions

  /** The commit transaction of storeUploadedFile goes through. */
  predicate CanCommit(s: Sys, id: Id, allowed: bool, now: int) {
    && allowed
    && id in s.intents
    && s.intents[id].state.Writing?
    && s.intents[id].leaseUntil.Some?
    && s.intents[id].leaseUntil.value > now
  }

  function CommitFile(s: Sys, id: Id, file: Id): Sys
    requires id in s.intents
  {
    s.(files := s.files[file := id], intents := s.intents[id := SetState(s.intents[id], Committed, None)])
  }

  predicate Protected(s: Sys, id: Id) {
    id !in s.intents || s.intents[id].state.Committed? || Referenced(s.files, id)
  }

  /** The transaction of storeUploadedFile's catch block. */
  function Abandon(s: Sys, id: Id, completed: bool): Sys {
    if Protected(s, id) then s
    else if completed || s.intents[id].provider.Local? then
      s.(intents := s.intents[id := SetState(s.intents[id], Cleanup, None)])
    else
      s.(intents := s.intents[id := SetState(s.intents[id], Blocked, Some(OutcomeUnknown))])
  }

  datatype Verdict = IsProtected | IsDeleted | Uncertain | IsUncertain | Busy | Moved | Delete

  /** The decision of reconcileUploadIntent in a process whose storage location is here. */
  function Decide(s: Sys, id: Id, here: Location, now: int): Verdict {
    if Protected(s, id) then IsProtected
    else
      var i := s.intents[id];
      if i.state.Deleted? then IsDeleted
      else if i.state.Pending? && i.provider.S3? then Uncertain
      else if i.state.Writing? then
        if i.leaseUntil.Some? && i.leaseUntil.value > now then Busy else Uncertain
      else if i.state.Blocked? && i.reason == Some(OutcomeUnknown) then IsUncertain
      else if i.location != here then Moved
      else Delete
  }

  /** Its transaction: erased says that the object was deleted, committed that the transaction was. */
  function Reconcile(s: Sys, id: Id, here: Location, now: int, dryRun: bool, erased: bool, committed: bool): Sys {
    match Decide(s, id, here, now)
    case Uncertain =>
      if dryRun || !committed then s
      else s.(intents := s.intents[id := SetState(s.intents[id], Blocked, Some(OutcomeUnknown))])
    case Moved =>
      if dryRun || !committed then s
      else s.(intents := s.intents[id := SetState(s.intents[id], Blocked, Some(StorageChanged))])
    case Delete =>
      if dryRun then s else
      var s' := if erased then s.(objects := s.objects - {(s.intents[id].location, id)}, erased := s.erased + {id})
          else s;
      if erased && committed then s'.(intents := s.intents[id := SetState(s.intents[id], Deleted, None)]) else s'
    case _ => s
  }

  /** The transaction of resolveBlockedUpload; it throws unless the intent is blocked and its storage is here. */
  function Resolve(s: Sys, id: Id, here: Location): Sys {
    if Protected(s, id) || !s.intents[id].state.Blocked? || s.intents[id].location != here then s
    else s.(intents := s.intents[id := SetState(s.intents[id], Cleanup, None)])
  }

  /** The transaction in the failure branch of the sweep. */
  function SweepFailure(s: Sys, id: Id): Sys {
    if Protected(s, id) || s.intents[id].state.Deleted? || s.intents[id].state.Writing? then s
    else s.(intents := s.intents[id := SetState(s.intents[id], Blocked, Some(CleanupFailed))])
  }

  // ---------------------------------------------------------------- runs

  datatype Action =
    | Begin(id: Id, provider: Provider, location: Location, leaseUntil: int)
    | Inherit(id: Id, provider: Provider, location: Location, open: bool, present: bool)
    | Land(id: Id)
    | PutReturns(id: Id, stored: bool)
    | RemoteSettles(id: Id)
    | TryCommit(id: Id, file: Id, allowed: bool, now: int, acknowledged: bool)
    | Catch(id: Id, committed: bool)
    | Crash(id: Id)
    | DoReconcile(id: Id, here: Location, now: int, dryRun: bool, erased: bool, committed: bool)
    | DoResolve(id: Id, here: Location, committed: bool)
    | Pick(id: Id)
    | SweepFails(id: Id)

  /**
   The object store finishes a write only while it is open; the operator's evidence is truthful; a
   failed sweep has picked its intent while it was waiting to be cleaned up. An inherited intent is one
   an earlier release left pending, with an upload to S3 perhaps still under way.
   */
  predicate Enabled(s: Sys, a: Action) {
    match a
    case Begin(id, _, _, _) => id !in s.intents
    case Inherit(id, provider, _, open, _) => id !in s.intents && (open ==> provider.S3?)
    case Land(id) => id in s.open && id in s.intents
    case PutReturns(id, _) => id in s.intents && id in s.uploaders && s.uploaders[id].Putting?
    case RemoteSettles(id) => id in s.uploaders && !s.uploaders[id].Putting?
    case TryCommit(id, file, _, _, _) => id in s.uploaders && s.uploaders[id].Stored? && file !in s.files
    case Catch(id, _) => id in s.uploaders && s.uploaders[id].MustCatch?
    case Crash(id) => id in s.intents && id in s.uploaders
    case DoReconcile(_, _, _, _, _, _) => true
    case DoResolve(id, _, _) => id in s.uploaders && s.uploaders[id].Gone? && id !in s.open
    case Pick(id) => id in s.intents &&
        (s.intents[id].state.Pending? || s.intents[id].state.Writing? || s.intents[id].state.Cleanup?)
    case SweepFails(id) => id in s.picked
  }

  function Next(s: Sys, a: Action): Sys
    requires Enabled(s, a)
  {
    match a
    case Begin(id, provider, location, leaseUntil) =>
      s.(intents := s.intents[id := Intent(provider, location, Writing, None, Some(leaseUntil))],
         open := s.open + {id}, uploaders := s.uploaders[id := Putting])
    case Inherit(id, provider, location, open, present) =>
      s.(intents := s.intents[id := Intent(provider, location, Pending, None, None)],
         objects := if present then s.objects + {(location, id)} else s.objects,
         open := if open then s.open + {id} else s.open, uploaders := s.uploaders[id := Gone])
    case Land(id) => s.(objects := s.objects + {(s.intents[id].location, id)})
    case PutReturns(id, stored) =>
      if stored then
        s.(objects := s.objects + {(s.intents[id].location, id)}, open := s.open - {id},
            uploaders := s.uploaders[id := Stored])
      else
        s.(open := if s.intents[id].provider.Local? then s.open - {id} else s.open,
           uploaders := s.uploaders[id := MustCatch(false)])
    case RemoteSettles(id) => s.(open := s.open - {id})
    case TryCommit(id, file, allowed, now, acknowledged) =>
      if CanCommit(s, id, allowed, now)
      then CommitFile(s, id, file).(uploaders := s.uploaders[id := if acknowledged then Gone else MustCatch(true)])
      else s.(uploaders := s.uploaders[id := MustCatch(true)])
    case Catch(id, committed) =>
      (if committed then Abandon(s, id, s.uploaders[id].completed) else s).(uploaders := s.uploaders[id := Gone])
    case Crash(id) =>
      s.(open := if s.intents[id].provider.Local? then s.open - {id} else s.open, uploaders := s.uploaders[id := Gone])
    case DoReconcile(id, here, now, dryRun, erased, committed) => Reconcile(s, id, here, now, dryRun, erased, committed)
    case DoResolve(id, here, committed) => if committed then Resolve(s, id, here) else s
    case Pick(id) => s.(picked := s.picked + {id})
    case SweepFails(id) => SweepFailure(s, id)
  }

  ghost predicate Step(s: Sys, a: Action, s': Sys) {
    Enabled(s, a) && s' == Next(s, a)
  }

  ghost predicate IsRun(states: seq<Sys>, actions: seq<Action>) {
    && |states| == |actions| + 1
    && states[0] == START
    && forall i | 0 <= i < |actions| :: Step(states[i], actions[i], states[i + 1])
  }

  // ---------------------------------------------------------------- files and committed intents

  /** What holds of one intent in every run. */
  ghost predicate IntentOk(s: Sys, id: Id) {
    id in s.intents &&
    var i := s.intents[id];
    && id in s.uploaders
    && (Referenced(s.files, id) <==> i.state.Committed?)
    && (i.state.Committed? ==> (i.location, id) in s.objects && id !in s.open)
    && (id in s.erased ==> !i.state.Writing? && !i.state.Committed?)
    && (s.uploaders[id].Stored? || (s.uploaders[id].MustCatch? && s.uploaders[id].completed) ==> id !in s.open)
    && (s.uploaders[id].Stored? && i.state.Writing? ==> (i.location, id) in s.objects)
    && (s.uploaders[id].MustCatch? && i.provider.Local? ==> id !in s.open)
    && (s.uploaders[id].Putting? ==> !i.state.Committed?)
  }

  ghost predicate FilesOk(s: Sys) {
    && (forall id | id in s.intents :: IntentOk(s, id))
    && (forall f | f in s.files :: s.files[f] in s.intents)
    && (forall id | id in s.uploaders || id in s.open || id in s.erased :: id in s.intents)
  }

  lemma NewFile(files: map<Id, Id>, file: Id, id: Id, other: Id)
    requires file !in files
    ensures Referenced(files[file := id], other) <==> other == id || Referenced(files, other)
  {
    var files' := files[file := id];
    if Referenced(files, other) {
      var f :| f in files && files[f] == other;
      assert f in files' && files'[f] == other;
    }
    if other == id {
      assert file in files' && files'[file] == id;
    }
  }

  /** Nothing that concerns the intent differs. */
  ghost predicate SameFor(s: Sys, s': Sys, id: Id) {
    && id in s.intents && id in s'.intents && s'.intents[id] == s.intents[id]
    && (id in s.uploaders <==> id in s'.uploaders) && (id in s.uploaders ==> s'.uploaders[id] == s.uploaders[id])
    && (Referenced(s'.files, id) <==> Referenced(s.files, id))
    && ((s.intents[id].location, id) in s'.objects <==> (s.intents[id].location, id) in s.objects)
    && (id in s'.open <==> id in s.open)
    && (id in s'.erased <==> id in s.erased)
  }

  lemma SameIntent(s: Sys, s': Sys, id: Id)
    requires IntentOk(s, id) && SameFor(s, s', id)
    ensures IntentOk(s', id)
  {
  }

  lemma OtherIntentStays(s: Sys, a: Action, s': Sys, id: Id)
    requires IntentOk(s, id) && Step(s, a, s') && a.id != id
    ensures IntentOk(s', id)
  {
    hide IntentOk, Referenced;
    if a.TryCommit? {
      NewFile(s.files, a.file, a.id, id);
    }
    assert id in s.intents by { InIntents(s, id); }
    SameIntent(s, s', id);
  }

  lemma InIntents(s: Sys, id: Id)
    requires IntentOk(s, id)
    ensures id in s.intents
  {
  }

  lemma NewIntentOk(s: Sys, a: Action, s': Sys)
    requires FilesOk(s) && Step(s, a, s') && (a.Begin? || a.Inherit?)
    ensures IntentOk(s', a.id)
  {
    assert Referenced(s.files, a.id) ==> a.id in s.intents;
    hide Referenced;
  }

  lemma UploaderKeepsIntent(s: Sys, a: Action, s': Sys)
    requires IntentOk(s, a.id) && Step(s, a, s')
    requires a.PutReturns? || a.TryCommit? || a.Catch? || a.Crash?
    ensures IntentOk(s', a.id)
  {
    hide Referenced;
    if a.TryCommit? {
      NewFile(s.files, a.file, a.id, a.id);
    }
  }

  lemma OthersKeepIntent(s: Sys, a: Action, s': Sys)
    requires IntentOk(s, a.id) && Step(s, a, s')
    requires a.Land? || a.RemoteSettles? || a.DoReconcile? || a.DoResolve? || a.Pick? || a.SweepFails?
    ensures IntentOk(s', a.id)
  {
    hide Referenced;
  }

  /** Only the steps that begin or inherit an intent add one. */
  lemma AddsOnlyOwn(s: Sys, a: Action, s': Sys, id: Id)
    requires FilesOk(s) && Step(s, a, s') && id in s'.intents && (id != a.id || !(a.Begin? || a.Inherit?))
    ensures IntentOk(s, id)
  {
    hide IntentOk;
  }

  lemma StepKeepsIntent(s: Sys, a: Action, s': Sys, id: Id)
    requires FilesOk(s) && Step(s, a, s') && id in s'.intents
    ensures IntentOk(s', id)
  {
    hide FilesOk, Step, IntentOk;
    if a.id == id && (a.Begin? || a.Inherit?) {
      NewIntentOk(s, a, s');
    } else {
      AddsOnlyOwn(s, a, s', id);
      if a.id != id {
        OtherIntentStays(s, a, s', id);
      } else if a.PutReturns? || a.TryCommit? || a.Catch? || a.Crash? {
        UploaderKeepsIntent(s, a, s');
      } else {
        OthersKeepIntent(s, a, s');
      }
    }
  }

  lemma StepKeepsFiles(s: Sys, a: Action, s': Sys)
    requires FilesOk(s) && Step(s, a, s')
    ensures FilesOk(s')
  {
    hide IntentOk, Referenced;
    forall id | id in s'.intents
      ensures IntentOk(s', id)
    {
      hide Step, FilesOk;
      StepKeepsIntent(s, a, s', id);
    }
    StepKeepsKeys(s, a, s');
  }

  /** Files, uploaders, writes and deletions always belong to intents. */
  lemma StepKeepsKeys(s: Sys, a: Action, s': Sys)
    requires FilesOk(s) && Step(s, a, s')
    ensures forall f | f in s'.files :: s'.files[f] in s'.intents
    ensures forall id | id in s'.uploaders || id in s'.open || id in s'.erased :: id in s'.intents
  {
    hide IntentOk, Referenced;
    if a.TryCommit? && CanCommit(s, a.id, a.allowed, a.now) {
      assert s'.files == s.files[a.file := a.id];
    }
  }

  lemma {:induction false} RunKeepsFiles(states: seq<Sys>, actions: seq<Action>, i: nat)
    requires IsRun(states, actions) && i < |states|
    ensures FilesOk(states[i])
  {
    hide Step;
    if i > 0 {
      hide FilesOk;
      RunKeepsFiles(states, actions, i - 1);
      StepKeepsFiles(states[i - 1], actions[i - 1], states[i]);
    }
  }

  /**
   In every reachable state a file row for an intent's key exists exactly when the intent is committed,
   a committed intent's object is in storage, and no deletion has ever reached it, not even one whose
   transaction was rolled back.
   */
  lemma CommittedFilesAreSafe(states: seq<Sys>, actions: seq<Action>, i: nat, id: Id)
    requires IsRun(states, actions) && i < |states| && id in states[i].intents
    ensures Referenced(states[i].files, id) <==> states[i].intents[id].state.Committed?
    ensures states[i].intents[id].state.Committed? ==>
              (states[i].intents[id].location, id) in states[i].objects && id !in states[i].erased
  {
    RunKeepsFiles(states, actions, i);
    assert IntentOk(states[i], id);
  }

  /** Committed is never left. */
  lemma {:induction false} CommittedForever(states: seq<Sys>, actions: seq<Action>, i: nat, j: nat, id: Id)
    requires IsRun(states, actions) && i <= j < |states|
    requires id in states[i].intents && states[i].intents[id].state.Committed?
    ensures id in states[j].intents && states[j].intents[id].state.Committed?
    decreases j
  {
    hide FilesOk;
    if i < j {
      CommittedForever(states, actions, i, j - 1, id);
      assert Step(states[j - 1], actions[j - 1], states[j]);
    }
  }

  // ---------------------------------------------------------------- uncertain writes

  /** The upload's outcome is recorded as unknown, or about to be. */
  predicate OutcomeIsUnknown(i: Intent) {
    (i.state.Blocked? && i.reason == Some(OutcomeUnknown)) || (i.state.Pending? && i.provider.S3?)
  }

  /** A write that may still take effect belongs to an intent no cleanup touches; a deleted intent has no object. */
  ghost predicate CertainOk(s: Sys, id: Id) {
    id in s.intents && id in s.uploaders &&
    var i := s.intents[id];
    && (id in s.open ==> i.state.Writing? || OutcomeIsUnknown(i))
    && (s.uploaders[id].Putting? ==> id in s.open)
    && (i.state.Deleted? ==> (i.location, id) !in s.objects)
  }

  ghost predicate AllCertain(s: Sys) {
    FilesOk(s) && forall id | id in s.intents :: CertainOk(s, id)
  }

  /** The failure branch rewrites the unknown outcome of a write that may still take effect. */
  predicate Careless(s: Sys, a: Action) {
    a.SweepFails? && a.id in s.intents && OutcomeIsUnknown(s.intents[a.id]) && a.id in s.open
  }

  lemma StepKeepsCertain(s: Sys, a: Action, s': Sys)
    requires AllCertain(s) && Step(s, a, s') && !Careless(s, a)
    ensures AllCertain(s')
  {
    StepKeepsFiles(s, a, s');
    forall id | id in s'.intents
      ensures CertainOk(s', id)
    {
      StepKeepsOneCertain(s, a, s', id);
    }
  }

  lemma StepKeepsOneCertain(s: Sys, a: Action, s': Sys, id: Id)
    requires AllCertain(s) && Step(s, a, s') && !Careless(s, a) && id in s'.intents
    ensures CertainOk(s', id)
  {
    hide Referenced, Step, IntentOk, CertainOk, Careless;
    if id == a.id && (a.Begin? || a.Inherit?) {
      NewIntentCertain(s, a, s');
    } else {
      AddsOnlyOwn(s, a, s', id);
      InIntents(s, id);
      assert CertainOk(s, id);
      if id == a.id {
        OwnIntentCertain(s, a, s');
      } else {
        OtherIntentCertain(s, a, s', id);
      }
    }
  }

  lemma NewIntentCertain(s: Sys, a: Action, s': Sys)
    requires FilesOk(s) && Step(s, a, s') && (a.Begin? || a.Inherit?)
    ensures CertainOk(s', a.id)
  {
    hide Referenced, IntentOk;
  }

  lemma OtherIntentCertain(s: Sys, a: Action, s': Sys, id: Id)
    requires CertainOk(s, id) && Step(s, a, s') && id != a.id
    ensures CertainOk(s', id)
  {
    hide Referenced;
  }

  lemma OwnIntentCertain(s: Sys, a: Action, s': Sys)
    requires IntentOk(s, a.id) && CertainOk(s, a.id) && Step(s, a, s') && !Careless(s, a) && !a.Begin? && !a.Inherit?
    ensures CertainOk(s', a.id)
  {
    hide Referenced;
  }

  /** The actions lead from s through the states, and none of them is careless. */
  ghost predicate IsCarefulPath(s: Sys, states: seq<Sys>, actions: seq<Action>) {
    && |states| == |actions| + 1
    && states[0] == s
    && forall i | 0 <= i < |actions| :: Step(states[i], actions[i], states[i + 1]) && !Careless(states[i], actions[i])
  }

  lemma {:induction false} PathKeepsCertain(s: Sys, states: seq<Sys>, actions: seq<Action>, i: nat)
    requires AllCertain(s) && IsCarefulPath(s, states, actions) && i < |states|
    ensures AllCertain(states[i])
  {
    hide Step, Careless, AllCertain;
    if i > 0 {
      PathKeepsCertain(s, states, actions, i - 1);
      StepKeepsCertain(states[i - 1], actions[i - 1], states[i]);
    }
  }

  lemma StartIsCertain()
    ensures AllCertain(START)
  {
  }

  /** The step deletes the object of this key. */
  predicate Erases(s: Sys, a: Action, id: Id) {
    a.DoReconcile? && a.id == id && !a.dryRun && a.erased && Decide(s, id, a.here, a.now).Delete?
  }

  /**
   As long as no failed sweep rewrites the unknown outcome of an open write, an object is deleted only
   once its write has settled, and the object of a deleted intent stays absent.
   */
  lemma DeletesOnlySettledWrites(states: seq<Sys>, actions: seq<Action>, i: nat, id: Id)
    requires IsCarefulPath(START, states, actions) && i < |states| && id in states[i].intents
    ensures i < |actions| && Erases(states[i], actions[i], id) ==> id !in states[i].open
    ensures states[i].intents[id].state.Deleted? ==> (states[i].intents[id].location, id) !in states[i].objects
    ensures states[i].intents[id].state.Deleted? ==> id !in states[i].open
  {
    StartIsCertain();
    PathKeepsCertain(START, states, actions, i);
    assert CertainOk(states[i], id);
  }

  /** Some continuation from s, without a careless step, deletes an object whose write is still open. */
  ghost predicate CanEraseOpenWrite(s: Sys) {
    exists states: seq<Sys>, actions: seq<Action>, i: nat, id: Id ::
      IsCarefulPath(s, states, actions) && i < |actions| && Erases(states[i], actions[i], id) && id in states[i].open
  }

  lemma CertainErasesNoOpenWrite(s: Sys)
    requires AllCertain(s)
    ensures !CanEraseOpenWrite(s)
  {
    hide AllCertain;
    if CanEraseOpenWrite(s) {
      var states: seq<Sys>, actions: seq<Action>, i: nat, id: Id :|
        IsCarefulPath(s, states, actions) && i < |actions| && Erases(states[i], actions[i], id) && id in states[i].open;
      PathKeepsCertain(s, states, actions, i);
      CertainNeverErases(states[i], actions[i], id);
    }
  }

  lemma CertainNeverErases(s: Sys, a: Action, id: Id)
    requires AllCertain(s) && Erases(s, a, id)
    ensures id !in s.open
  {
    assert CertainOk(s, id);
  }

  /**
   The condition is exact: after a failed sweep in a run that was careful so far, some careful
   continuation deletes an object under an open write if and only if the sweep has just rewritten the
   unknown outcome of such a write.
   */
  lemma SweepFailureIsSafeExactlyWhen(states: seq<Sys>, actions: seq<Action>, i: nat, id: Id)
    requires IsCarefulPath(START, states, actions) && i < |states| && Enabled(states[i], SweepFails(id))
    ensures CanEraseOpenWrite(Next(states[i], SweepFails(id))) <==> Careless(states[i], SweepFails(id))
  {
    StartIsCertain();
    PathKeepsCertain(START, states, actions, i);
    hide AllCertain, CanEraseOpenWrite, Careless, IsCarefulPath;
    var s := states[i];
    var failed := Next(s, SweepFails(id));
    if Careless(s, SweepFails(id)) {
      CarelessIsUnprotected(s, id);
      CarelessCanErase(s, id);
    } else {
      StepKeepsCertain(s, SweepFails(id), failed);
      CertainErasesNoOpenWrite(failed);
    }
  }

  lemma CarelessIsUnprotected(s: Sys, id: Id)
    requires AllCertain(s) && Careless(s, SweepFails(id))
    ensures !Protected(s, id)
  {
    assert IntentOk(s, id);
    hide Referenced;
  }

  lemma CarelessCanErase(s: Sys, id: Id)
    requires Enabled(s, SweepFails(id)) && Careless(s, SweepFails(id)) && !Protected(s, id)
    ensures CanEraseOpenWrite(Next(s, SweepFails(id)))
  {
    var failed := Next(s, SweepFails(id));
    var reconcile := DoReconcile(id, s.intents[id].location, 0, false, true, true);
    CarelessSweepErasesOpenWrite(s, id, 0);
    var states, actions := [failed, Next(failed, reconcile)], [reconcile];
    hide Erases, Protected, Next;
    assert IsCarefulPath(failed, states, actions);
    assert Erases(states[0], actions[0], id) && id in states[0].open;
  }

  /**
   From every state in which a careless failure branch hits an open write, one
   reconciliation where the object lives deletes it while the write is open, and the write then lands
   on a deleted intent.
   */
  lemma CarelessSweepErasesOpenWrite(s: Sys, id: Id, now: int)
    requires Enabled(s, SweepFails(id)) && Careless(s, SweepFails(id)) && !Protected(s, id)
    ensures var failed := Next(s, SweepFails(id));
            var reconcile := DoReconcile(id, s.intents[id].location, now, false, true, true);
            var deleted := Next(failed, reconcile);
            && Erases(failed, reconcile, id) && id in failed.open
            && Enabled(deleted, Land(id))
            && Next(deleted, Land(id)).intents[id].state.Deleted?
            && (s.intents[id].location, id) in Next(deleted, Land(id)).objects
  {
  }

  /** Such a state is reachable: an S3 upload whose lease runs out while a sweep is looking at it. */
  lemma CarelessSweepIsReachable(id: Id, location: Location, lease: int)
    ensures exists states, actions ::
              && IsCarefulPath(START, states, actions)
              && var s := states[|states| - 1];
                 && Enabled(s, SweepFails(id)) && Careless(s, SweepFails(id)) && !Protected(s, id)
                 && s.intents[id].location == location
  {
    var a0 := Begin(id, S3, location, lease);
    var a1 := Pick(id);
    var a2 := DoReconcile(id, location, lease, false, false, true);
    var s1 := Next(START, a0);
    var s2 := Next(s1, a1);
    var s3 := Next(s2, a2);
    var states, actions := [START, s1, s2, s3], [a0, a1, a2];
    assert !Referenced(s2.files, id);
    assert IsCarefulPath(START, states, actions);
    assert states[|states| - 1] == s3;
  }

  // ---------------------------------------------------------------- the service

  /** The actions lead from s to t. */
  ghost predicate Leads(s: Sys, actions: seq<Action>, t: Sys)
    decreases |actions|
  {
    if actions == [] then s == t
    else Enabled(s, actions[0]) && Leads(Next(s, actions[0]), actions[1..], t)
  }

  lemma {:induction false} LeadsOn(s: Sys, actions: seq<Action>, t: Sys, a: Action)
    requires Leads(s, actions, t) && Enabled(t, a)
    ensures Leads(s, actions + [a], Next(t, a))
    decreases |actions|
  {
    if actions == [] {
      assert (actions + [a])[1..] == [];
    } else {
      assert (actions + [a])[1..] == actions[1..] + [a];
      LeadsOn(Next(s, actions[0]), actions[1..], t, a);
    }
  }

  /** How the outside world answers one upload. */
  datatype Answers = Answers(stored: bool, allowed: bool, now: int, acknowledged: bool, caught: bool, later: int,
      erased: bool, committed: bool)

  class Service {
    var intents: map<Id, Intent>
    var files: map<Id, Id>
    ghost var objects: set<(Location, Id)>
    ghost var open: set<Id>
    ghost var uploaders: map<Id, Phase>
    ghost var picked: set<Id>
    ghost var erased: set<Id>

    ghost function View(): Sys
      reads this
    {
      Sys(intents, files, objects, open, uploaders, picked, erased)
    }

    /**
     putObject as its caller sees it. Afterwards the write can still take effect only if it went to S3
     and did not report success; a write that reported success has left its object and settled.
     */
    method Put(id: Id, stored: bool)
      requires Enabled(View(), PutReturns(id, stored))
      modifies this
      ensures View() == Next(old(View()), PutReturns(id, stored))
      ensures Enabled(View(), Land(id)) <==> id in old(open) && !stored && intents[id].provider.S3?
      ensures stored ==> (intents[id].location, id) in objects
      ensures stored ==> forall file, allowed, now, acknowledged | file !in files ::
                Enabled(View(), TryCommit(id, file, allowed, now, acknowledged))
      ensures !stored <==> forall committed :: Enabled(View(), Catch(id, committed))
      ensures forall other, l | other != id :: (l, other) in objects <==> (l, other) in old(objects)
    {
      uploaders := uploaders[id := if stored then Stored else MustCatch(false)];
      objects := if stored then objects + {(intents[id].location, id)} else objects;
      open := if stored || intents[id].provider.Local? then open - {id} else open;
    }

    method SetIntentState(id: Id, state: State, reason: Option<Reason>)
      requires id in intents
      modifies this`intents
      ensures intents == old(intents)[id := SetState(old(intents)[id], state, reason)]
    {
      intents := intents[id := intents[id].(state := state, reason := reason)];
    }

    /** The commit transaction: the file row and the committed intent, or nothing. */
    method Commit(id: Id, file: Id, allowed: bool, now: int, acknowledged: bool) returns (done: bool)
      requires Enabled(View(), TryCommit(id, file, allowed, now, acknowledged))
      modifies this
      ensures View() == Next(old(View()), TryCommit(id, file, allowed, now, acknowledged))
      ensures done == CanCommit(old(View()), id, allowed, now)
    {
      done := false;
      if allowed && id in intents {
        var intent := intents[id];
        if intent.state.Writing? && intent.leaseUntil.Some? && intent.leaseUntil.value > now {
          files := files[file := id];
          SetIntentState(id, Committed, None);
          done := true;
        }
      }
      uploaders := uploaders[id := if done && acknowledged then Gone else MustCatch(true)];
    }

    /** reconcileUploadIntent. */
    method ReconcileIntent(id: Id, here: Location, now: int, dryRun: bool, erasing: bool, committing: bool)
        returns (v: Verdict)
      modifies this
      ensures v == Decide(old(View()), id, here, now)
      ensures View() == Reconcile(old(View()), id, here, now, dryRun, erasing, committing)
    {
      if id !in intents || intents[id].state.Committed? || id in files.Values {
        FileValues(files, id);
        return IsProtected;
      }
      FileValues(files, id);
      var intent := intents[id];
      if intent.state.Deleted? {
        return IsDeleted;
      }
      if intent.state.Pending? && intent.provider.S3? {
        if !dryRun && committing {
          SetIntentState(id, Blocked, Some(OutcomeUnknown));
        }
        return Uncertain;
      }
      if intent.state.Writing? {
        if intent.leaseUntil.Some? && intent.leaseUntil.value > now {
          return Busy;
        }
        if !dryRun && committing {
          SetIntentState(id, Blocked, Some(OutcomeUnknown));
        }
        return Uncertain;
      }
      if intent.state.Blocked? && intent.reason == Some(OutcomeUnknown) {
        return IsUncertain;
      }
      if intent.location != here {
        if !dryRun && committing {
          SetIntentState(id, Blocked, Some(StorageChanged));
        }
        return Moved;
      }
      if !dryRun && erasing {
        objects := objects - {(intent.location, id)};
        erased := erased + {id};
        if committing {
          SetIntentState(id, Deleted, None);
        }
      }
      return Delete;
    }

    /** resolveBlockedUpload's transaction; false is its error. */
    method ResolveBlocked(id: Id, here: Location) returns (ok: bool)
      modifies this
      ensures View() == Resolve(old(View()), id, here)
      ensures ok == (Protected(old(View()), id) ||
                (intents[id].state.Cleanup? && old(intents)[id].state.Blocked? && old(intents)[id].location == here))
    {
      if id !in intents || intents[id].state.Committed? || id in files.Values {
        FileValues(files, id);
        return true;
      }
      FileValues(files, id);
      if !intents[id].state.Blocked? || intents[id].location != here {
        return false;
      }
      SetIntentState(id, Cleanup, None);
      return true;
    }

    /**
     resolveBlockedUpload: the transaction, then a reconciliation; None is an error. On truthful evidence
     it moves through steps of the protocol, so it keeps the protection of uncertain writes.
     */
    method ResolveBlockedUpload(id: Id, here: Location, evidence: bool, now: int, erasing: bool, committing: bool)
      returns (v: Option<Verdict>)
      requires evidence ==> Enabled(View(), DoResolve(id, here, true)) && AllCertain(View())
      modifies this
      ensures v.None? ==> View() == old(View())
      ensures !evidence ==> v.None?
      ensures v.Some? ==> v.value == Decide(Resolve(old(View()), id, here), id, here, now)
      ensures v.Some? ==> View() == Reconcile(Resolve(old(View()), id, here), id, here, now, false, erasing, committing)
      ensures old(AllCertain(View())) ==> AllCertain(View())
      ensures v == Some(Delete) && erasing ==> (old(intents)[id].location, id) !in objects && id !in open
      ensures v.None? <==>
              !evidence ||
              !(Protected(old(View()), id) || (old(intents)[id].state == Blocked && old(intents)[id].location == here))
    {
      hide AllCertain, Referenced;
      if !evidence {
        return None;
      }
      ghost var before := View();
      var ok := ResolveBlocked(id, here);
      if !ok {
        return None;
      }
      ghost var resolved := View();
      StepKeepsCertain(before, DoResolve(id, here, true), resolved);
      var verdict := ReconcileIntent(id, here, now, false, erasing, committing);
      StepKeepsCertain(resolved, DoReconcile(id, here, now, false, erasing, committing), View());
      return Some(verdict);
    }

    /** The try block of storeUploadedFile: the intent, the write, the commit transaction. */
    method TryUpload(id: Id, file: Id, provider: Provider, here: Location, leaseUntil: int, answers: Answers)
      returns (ok: bool, ghost trace: seq<Action>)
      requires id !in intents && file !in files && FilesOk(View())
      modifies this
      ensures Leads(old(View()), trace, View()) && FilesOk(View())
      ensures ok <==> answers.stored && answers.allowed && leaseUntil > answers.now && answers.acknowledged
      ensures id in intents && id in uploaders
      ensures ok ==> intents[id].state.Committed? && (here, id) in objects
      ensures !ok ==> uploaders[id] == MustCatch(answers.stored)
      ensures file !in files ==> intents[id] == Intent(provider, here, Writing, None, Some(leaseUntil))
      ensures files == if answers.stored && answers.allowed && leaseUntil > answers.now then old(files)[file := id]
                else old(files)
    {
      hide Leads, FilesOk, Referenced;
      ghost var s0 := View();
      intents := intents[id := Intent(provider, here, Writing, None, Some(leaseUntil))];
      open, uploaders := open + {id}, uploaders[id := Putting];
      LeadsNowhere(s0);
      trace := Extend(s0, [], s0, Begin(id, provider, here, leaseUntil));
      ghost var s1 := View();
      Put(id, answers.stored);
      trace := Extend(s0, trace, s1, PutReturns(id, answers.stored));
      ok := false;
      if answers.stored {
        ghost var s2 := View();
        var done := Commit(id, file, answers.allowed, answers.now, answers.acknowledged);
        trace := Extend(s0, trace, s2, TryCommit(id, file, answers.allowed, answers.now, answers.acknowledged));
        ok := done && answers.acknowledged;
      }
    }

    /**
     storeUploadedFile, once its permission check has passed. Whatever the answers, it moves through
     steps of the protocol, and it succeeds only with a committed file whose object is in storage. A
     failed upload leaves no file row, unless only the acknowledgement of its commit was lost; once caught
     and reconciled it leaves no object either, or is blocked because its write may still take effect.
     */
    method StoreUploadedFile(id: Id, file: Id, provider: Provider, here: Location, leaseUntil: int, answers: Answers)
      returns (ok: bool, ghost trace: seq<Action>)
      requires id !in intents && file !in files && FilesOk(View())
      modifies this
      ensures Leads(old(View()), trace, View()) && FilesOk(View())
      ensures ok <==> answers.stored && answers.allowed && leaseUntil > answers.now && answers.acknowledged
      ensures ok ==> id in intents && intents[id].state.Committed? && (here, id) in objects
      ensures files == if answers.stored && answers.allowed && leaseUntil > answers.now then old(files)[file := id]
                else old(files)
      ensures file !in files && answers.caught && answers.erased && answers.committed && id in intents ==>
                if answers.stored || provider == Local then intents[id].state == Deleted && (here, id) !in objects
                else intents[id].state == Blocked && intents[id].reason == Some(OutcomeUnknown)
    {
      hide Leads, FilesOk, Referenced;
      ghost var s0 := View();
      ok, trace := TryUpload(id, file, provider, here, leaseUntil, answers);
      if !ok {
        trace := CatchFailure(id, here, answers, s0, trace);
      }
    }

    /** The catch block of storeUploadedFile, after the steps that led there. */
    method CatchFailure(id: Id, here: Location, answers: Answers, ghost s0: Sys, ghost before: seq<Action>)
      returns (ghost trace: seq<Action>)
      requires id in intents && id in uploaders && uploaders[id] == MustCatch(answers.stored)
      requires Leads(s0, before, View()) && FilesOk(View())
      modifies this
      ensures Leads(s0, trace, View()) && FilesOk(View()) && files == old(files)
      ensures id in intents && (old(intents)[id].state == Committed ==> intents[id] == old(intents)[id])
      ensures answers.caught && answers.erased && answers.committed && old(intents)[id].location == here &&
              old(intents)[id].state == Writing ==>
                if answers.stored || old(intents)[id].provider == Local
                then intents[id].state == Deleted && (here, id) !in objects
                else intents[id].state == Blocked && intents[id].reason == Some(OutcomeUnknown)
    {
      hide Leads, FilesOk, Referenced;
      ghost var s1 := View();
      UncommittedIsUnprotected(s1, id);
      AbandonIntent(id, answers.stored, answers.caught);
      trace := Extend(s0, before, s1, Catch(id, answers.caught));
      if answers.caught {
        ghost var s2 := View();
        var _ := ReconcileIntent(id, here, answers.later, false, answers.erased, answers.committed);
        trace := Extend(s0, trace, s2, DoReconcile(id, here, answers.later, false, answers.erased, answers.committed));
      }
    }

    /** The catch block's transaction, and the end of the uploader. */
    method AbandonIntent(id: Id, completed: bool, committed: bool)
      requires Enabled(View(), Catch(id, committed)) && uploaders[id] == MustCatch(completed)
      modifies this
      ensures View() == Next(old(View()), Catch(id, committed))
    {
      FileValues(files, id);
      if committed && id in intents && !intents[id].state.Committed? && id !in files.Values {
        if completed || intents[id].provider.Local? {
          SetIntentState(id, Cleanup, None);
        } else {
          SetIntentState(id, Blocked, Some(OutcomeUnknown));
        }
      }
      uploaders := uploaders[id := Gone];
    }
  }

  lemma UncommittedIsUnprotected(s: Sys, id: Id)
    requires FilesOk(s) && id in s.intents
    ensures Protected(s, id) <==> s.intents[id].state.Committed?
  {
    assert IntentOk(s, id);
  }

  lemma LeadsNowhere(s: Sys)
    ensures Leads(s, [], s)
  {
  }

  lemma FileValues(files: map<Id, Id>, id: Id)
    ensures id in files.Values <==> Referenced(files, id)
  {
  }

  /** One more step of a trace. */
  ghost function Extend(s0: Sys, trace: seq<Action>, s: Sys, a: Action): (r: seq<Action>)
    requires Leads(s0, trace, s) && Enabled(s, a) && FilesOk(s)
    ensures Leads(s0, r, Next(s, a)) && FilesOk(Next(s, a))
  {
    LeadsOn(s0, trace, s, a);
    StepKeepsFiles(s, a, Next(s, a));
    trace + [a]
  }
}
