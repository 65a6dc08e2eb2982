/** In every run ids are used once, and all that names a submission agrees on its key and its kind. */
module SubmissionLinks {
  import opened Submissions
  import opened SubmissionRuns

  predicate LinkAt(s: State, id: Id) {
    && (id in s.rows || id in s.calls || id in s.claims || id in s.owed ==> id in s.used)
    && (InCall(s, id, Unwritten) ==> id !in s.rows && id !in s.owed)
    && (id in s.rows && id in s.calls ==>
          s.rows[id].key == s.calls[id].key && s.rows[id].submit == s.calls[id].submit)
  }

  predicate LinkJob(s: State, run: nat) {
    run in s.jobs ==>
      var j := s.jobs[run];
      && j.id in s.used && !InCall(s, j.id, Unwritten)
      && (j.id in s.rows ==> s.rows[j.id].key == j.key && s.rows[j.id].submit == j.submit)
  }

  ghost predicate Linked(s: State) {
    (forall id :: LinkAt(s, id)) && (forall run :: LinkJob(s, run))
  }

  /** The submission a step is about, if it is about one. */
  function Subject(s: State, e: Event): Id
    requires Enabled(s, e)
  {
    if IsCall(e) || e.ELoad? || e.ELoadMissing? then e.id
    else if IsJob(e) then s.jobs[e.run].id
    else if e.ESweep? || e.EExpire? then 0
    else e.id
  }

  function JobOf(e: Event): nat {
    if IsJob(e) && !e.ELoadMissing? then e.run else 0
  }

  // ----- links -----

  predicate Links(s: State, i: Id, run: nat) {
    LinkAt(s, i) && LinkJob(s, run)
  }

  lemma BeginLinks(s: State, id: Id, key: Key, i: Id, run: nat)
    requires Links(s, i, run) && LinkAt(s, id) && id !in s.used
    ensures Links(Acquire(s, id, key), i, run) && Links(AcquireLost(s, id, key), i, run)
    ensures Links(BeginRun(s, id, key), i, run)
  {
  }

  lemma NewRowLinks(s: State, id: Id, phase: CallPhase, i: Id, run: nat)
    requires Links(s, i, run) && LinkAt(s, id) && InCall(s, id, Unwritten) && phase != Unwritten
    ensures Links(CallTo(NewRow(s, id), id, phase), i, run) && Links(EndCall(NewRow(s, id), id), i, run)
  {
  }

  lemma CallToLinks(s: State, id: Id, phase: CallPhase, i: Id, run: nat)
    requires Links(s, i, run) && id in s.calls && phase != Unwritten
    ensures Links(CallTo(s, id, phase), i, run)
  {
  }

  lemma EndCallLinks(s: State, id: Id, i: Id, run: nat)
    requires Links(s, i, run)
    ensures Links(EndCall(s, id), i, run)
  {
  }

  lemma CallUndoLinks(s: State, id: Id, i: Id, run: nat)
    requires Links(s, i, run) && id in s.calls
    ensures Links(CallUndo(s, id), i, run)
  {
    CallToLinks(s, id, CallReleasing, i, run);
    EndCallLinks(s, id, i, run);
  }

  predicate SameLinking(s: State, t: State) {
    && t.rows == s.rows && t.calls == s.calls && t.jobs == s.jobs && t.owed == s.owed
    && t.used == s.used && t.claims == s.claims
  }

  lemma SameLinks(s: State, t: State, i: Id, run: nat)
    requires Links(s, i, run) && SameLinking(s, t)
    ensures Links(t, i, run)
  {
  }

  lemma SetStatusLinks(s: State, id: Id, status: Status, i: Id, run: nat)
    requires Links(s, i, run)
    ensures Links(SetStatus(s, id, status), i, run)
  {
  }

  lemma JobToLinks(s: State, run: nat, phase: JobPhase, i: Id, r: nat)
    requires Links(s, i, r) && run in s.jobs
    ensures Links(JobTo(s, run, phase), i, r)
  {
  }

  lemma CountedLinks(s: State, id: Id, sandboxes: multiset<Id>, i: Id, run: nat)
    requires Links(s, i, run) && id in s.used
    ensures Links(s.(claims := s.claims + multiset{id}, sandboxes := sandboxes), i, run)
  {
  }

  lemma ClaimedLinks(s: State, id: Id, sandboxes: multiset<Id>, i: Id, run: nat)
    requires Links(s, i, run) && id in s.used
    ensures Links(Claimed(s, id).(sandboxes := sandboxes), i, run)
  {
    hide Links;
    var t := SetStatus(s, id, Running);
    SetStatusLinks(s, id, Running, i, run);
    CountedLinks(t, id, sandboxes, i, run);
    assert t.(claims := t.claims + multiset{id}, sandboxes := sandboxes) == Claimed(s, id).(sandboxes := sandboxes);
  }

  lemma QueuedLinks(s: State, id: Id, i: Id, run: nat)
    requires Links(s, i, run)
    ensures Links(Queued(s, id), i, run)
  {
    hide Links;
    SameLinks(s, Queued(s, id), i, run);
  }

  lemma ReleaseLinks(s: State, key: Key, owner: Id, i: Id, run: nat)
    requires Links(s, i, run)
    ensures Links(Release(s, key, owner), i, run)
  {
    hide Links;
    SameLinks(s, Release(s, key, owner), i, run);
  }

  lemma EnqueueLinks(s: State, id: Id, stored: bool, i: Id, run: nat)
    requires Links(s, i, run) && id in s.calls
    ensures Links(Enqueue(s, id), i, run) && Links(EnqueueFails(s, id, stored), i, run)
  {
    hide Links;
    QueuedLinks(s, id, i, run);
    EndCallLinks(Queued(s, id), id, i, run);
    CallToLinks(if stored then Queued(s, id) else s, id, EnqueueRaised, i, run);
  }

  lemma FailPendingLinks(s: State, id: Id, stored: bool, i: Id, run: nat)
    requires Links(s, i, run) && id in s.calls
    ensures Links(FailPending(s, id), i, run) && Links(FailPendingFails(s, id, stored), i, run)
  {
    var t := SetStatus(s, id, JudgeError);
    assert id in t.calls;
    hide Links, SetStatus, CallUndo;
    SetStatusLinks(s, id, JudgeError, i, run);
    CallUndoLinks(t, id, i, run);
    CallUndoLinks(s, id, i, run);
    EndCallLinks(s, id, i, run);
  }

  lemma CallReleaseLinks(s: State, id: Id, i: Id, run: nat)
    requires Links(s, i, run) && id in s.calls
    ensures Links(CallRelease(s, id), i, run)
  {
    hide Links;
    ReleaseLinks(s, s.calls[id].key, id, i, run);
    EndCallLinks(Release(s, s.calls[id].key, id), id, i, run);
  }

  lemma DeleteLinks(s: State, id: Id, i: Id, run: nat)
    requires Links(s, i, run)
    ensures Links(Delete(s, id), i, run)
  {
  }

  lemma CallKeepsLinks(s: State, e: Event, i: Id, run: nat)
    requires Enabled(s, e) && IsCall(e) && Links(s, i, run) && LinkAt(s, e.id)
    ensures Links(Next(s, e), i, run)
  {
    hide Links, LinkAt, Acquire, AcquireLost, BeginRun, CallTo, NewRow, EndCall, Enqueue, EnqueueFails;
    hide FailPending, FailPendingFails, CallRelease, Delete;
    match e
    case EAcquire(id, key) => BeginLinks(s, id, key, i, run);
    case EAcquireLost(id, key) => BeginLinks(s, id, key, i, run);
    case EBeginRun(id, key) => BeginLinks(s, id, key, i, run);
    case EInsert(id) => NewRowLinks(s, id, Written, i, run);
    case EInsertFails(id, stored) =>
      RowLeavesCalls(s, id);
      NewRowLinks(s, id, CallReleasing, i, run);
      CallUndoLinks(s, id, i, run);
    case EEnqueue(id) => EnqueueLinks(s, id, true, i, run);
    case EEnqueueFails(id, stored) => EnqueueLinks(s, id, stored, i, run);
    case EFailPending(id) => FailPendingLinks(s, id, true, i, run);
    case EFailPendingFails(id, stored) => FailPendingLinks(s, id, stored, i, run);
    case ECallRelease(id) => CallReleaseLinks(s, id, i, run);
    case ECallEnds(id) => EndCallLinks(s, id, i, run);
    case EDelete(id) => DeleteLinks(s, id, i, run);
  }

  lemma LoadLinks(s: State, run: nat, id: Id, again: bool, i: Id, r: nat)
    requires Links(s, i, r) && LinkAt(s, id) && id in s.rows
    ensures Links(Load(s, run, id, again), i, r)
  {
  }

  lemma ClaimLinks(s: State, run: nat, stored: bool, i: Id, r: nat)
    requires Links(s, i, r) && run in s.jobs && s.jobs[run].id in s.used
    ensures Links(Claim(s, run), i, r) && Links(ClaimFails(s, run, stored), i, r)
  {
    var id := s.jobs[run].id;
    var more := s.sandboxes + multiset{id};
    ClaimLeavesJobs(s, id);
    assert Claimed(s, id).sandboxes == s.sandboxes;
    hide Links, JobTo, Claimed;
    ClaimedLinks(s, id, more, i, r);
    ClaimedLinks(s, id, s.sandboxes, i, r);
    if Is(s, id, Pending) {
      JobToLinks(Claimed(s, id).(sandboxes := more), run, Judging, i, r);
      JobToLinks(Claimed(s, id), run, Failing, i, r);
    }
    JobToLinks(s, run, JobReleasing, i, r);
    JobToLinks(s, run, Failing, i, r);
  }

  lemma FinishLinks(s: State, run: nat, status: Status, i: Id, r: nat)
    requires Links(s, i, r) && run in s.jobs
    ensures Links(Verdict(s, run, status), i, r) && Links(FailAlways(s, run), i, r)
    ensures Links(FailUnfinished(s, run), i, r) && Links(JobRelease(s, run), i, r)
  {
    var j := s.jobs[run];
    assert SetStatus(s, j.id, status).jobs == s.jobs && SetStatus(s, j.id, JudgeError).jobs == s.jobs;
    assert Release(s, j.key, j.id).jobs == s.jobs;
    hide Links, JobTo, SetStatus, Release, Active;
    SetStatusLinks(s, j.id, status, i, r);
    SetStatusLinks(s, j.id, JudgeError, i, r);
    ReleaseLinks(s, j.key, j.id, i, r);
    JobToLinks(SetStatus(s, j.id, status), run, JobReleasing, i, r);
    JobToLinks(SetStatus(s, j.id, JudgeError), run, JobReleasing, i, r);
    JobToLinks(Release(s, j.key, j.id), run, Finished, i, r);
    JobToLinks(s, run, Finished, i, r);
    JobToLinks(s, run, Failing, i, r);
    JobToLinks(s, run, JobReleasing, i, r);
  }

  lemma JobKeepsLinks(s: State, e: Event, i: Id, run: nat)
    requires Enabled(s, e) && IsJob(e) && Links(s, i, run) && LinkAt(s, Subject(s, e)) && LinkJob(s, JobOf(e))
    ensures Links(Next(s, e), i, run)
  {
    hide Links, LinkAt, JobTo, Load, LoadMissing, Claim, ClaimFails, Verdict, FailAlways, FailUnfinished, JobRelease;
    match e
    case ELoad(r, id, again) => LoadLinks(s, r, id, again, i, run);
    case ELoadMissing(id, again) => LoadMissingLinks(s, id, again, i, run);
    case EProblemMissing(r) => JobToLinks(s, r, Failing, i, run);
    case EClaim(r) => ClaimLinks(s, r, true, i, run);
    case EClaimFails(r, stored) => ClaimLinks(s, r, stored, i, run);
    case EVerdict(r, status) => FinishLinks(s, r, status, i, run);
    case EJudgingRaises(r) => JobToLinks(s, r, Failing, i, run);
    case EFailAlways(r) => FinishLinks(s, r, JudgeError, i, run);
    case EHandlerFails(r) => JobToLinks(s, r, JobReleasing, i, run);
    case ECancel(r) => JobToLinks(s, r, Cancelled, i, run);
    case EFailUnfinished(r) => FinishLinks(s, r, JudgeError, i, run);
    case EJobRelease(r) => FinishLinks(s, r, JudgeError, i, run);
    case EJobDies(r) => JobToLinks(s, r, Finished, i, run);
  }

  lemma LoadMissingLinks(s: State, id: Id, again: bool, i: Id, run: nat)
    requires Links(s, i, run)
    ensures Links(LoadMissing(s, id, again), i, run)
  {
    hide Links;
    SameLinks(s, LoadMissing(s, id, again), i, run);
  }

  lemma SweepLinks(s: State, stale: set<Id>, i: Id, run: nat)
    requires Links(s, i, run)
    ensures Links(Sweep(s, stale), i, run)
  {
  }

  lemma DropLinks(s: State, id: Id, i: Id, run: nat)
    requires Links(s, i, run)
    ensures Links(SweepDrops(s, id), i, run)
  {
  }

  lemma NotesLinks(s: State, id: Id, key: Key, i: Id, run: nat)
    requires Links(s, i, run)
    ensures Links(SeePending(s, id), i, run) && Links(Requeue(s, id), i, run)
    ensures Links(ForgetJob(s, id), i, run) && Links(Expire(s, key), i, run)
  {
    hide Links;
    SameLinks(s, SeePending(s, id), i, run);
    SameLinks(s, Requeue(s, id), i, run);
    SameLinks(s, ForgetJob(s, id), i, run);
    SameLinks(s, Expire(s, key), i, run);
  }

  lemma SweepKeepsLinks(s: State, e: Event, i: Id, run: nat)
    requires Enabled(s, e) && !IsCall(e) && !IsJob(e) && Links(s, i, run)
    ensures Links(Next(s, e), i, run)
  {
    hide Links, Sweep, SweepDrops, SeePending, Requeue, ForgetJob, Expire, Release;
    match e
    case ESweep(stale) => SweepLinks(s, stale, i, run);
    case ESweepRelease(id) =>
      ReleaseLinks(s, s.owed[id], id, i, run);
      DropLinks(Release(s, s.owed[id], id), id, i, run);
      DropsOwed(s, id);
    case ESweepDrops(id) => DropLinks(s, id, i, run);
    case ESeePending(id) => NotesLinks(s, id, Key(0, 0), i, run);
    case ERequeue(id) => NotesLinks(s, id, Key(0, 0), i, run);
    case EForgetJob(id) => NotesLinks(s, id, Key(0, 0), i, run);
    case EExpire(key) => NotesLinks(s, 0, key, i, run);
  }

  lemma DropsOwed(s: State, id: Id)
    requires id in s.owed
    ensures SweepRelease(s, id) == SweepDrops(Release(s, s.owed[id], id), id)
  {
  }

  lemma StepKeepsLinksAt(s: State, e: Event, i: Id, run: nat)
    requires Linked(s) && Enabled(s, e)
    ensures Links(Next(s, e), i, run)
  {
    assert LinkAt(s, Subject(s, e)) && LinkJob(s, JobOf(e)) && Links(s, i, run);
    hide Linked, Enabled, Next, Links, LinkAt, LinkJob;
    if IsCall(e) {
      CallKeepsLinks(s, e, i, run);
    } else if IsJob(e) {
      JobKeepsLinks(s, e, i, run);
    } else {
      SweepKeepsLinks(s, e, i, run);
    }
  }

  lemma StepKeepsLinks(s: State, e: Event)
    requires Linked(s) && Enabled(s, e)
    ensures Linked(Next(s, e))
  {
    hide Enabled, Next, LinkAt, LinkJob;
    forall i ensures LinkAt(Next(s, e), i) { StepKeepsLinksAt(s, e, i, 0); }
    forall run ensures LinkJob(Next(s, e), run) { StepKeepsLinksAt(s, e, 0, run); }
  }
}
