/**
  * Locks and the rows they guard. A submit that is live, or about to be written, must own its lock, and
  * nobody may be about to give the lock of a live submit back. Which steps keep that, exactly.
  */
module SubmissionLocks {
  import opened Submissions
  import opened SubmissionLinks
  import opened SubmissionRuns

  predicate Live(s: State, id: Id) {
    Active(s, id) && s.rows[id].submit
  }

  /** A submit that took its lock and has not written its row. */
  predicate Opening(s: State, id: Id) {
    InCall(s, id, Unwritten) && s.calls[id].submit
  }

  /** The submission owns the lock it needs, and no request or sweep is about to release a live one's. */
  predicate LockOk(s: State, id: Id) {
    && (Live(s, id) ==> Holds(s, s.rows[id].key, id))
    && (Opening(s, id) ==> Holds(s, s.calls[id].key, id))
    && (InCall(s, id, CallReleasing) ==> !Live(s, id))
    && (id in s.owed ==> !Live(s, id))
  }

  /** Nor is a job. */
  predicate JobOk(s: State, run: nat) {
    InJob(s, run, JobReleasing) ==> !Live(s, s.jobs[run].id)
  }

  ghost predicate LocksOk(s: State) {
    (forall id :: LockOk(s, id)) && (forall run :: JobOk(s, run))
  }

  predicate LocksAt(s: State, i: Id, run: nat) {
    LockOk(s, i) && JobOk(s, run)
  }

  /**
    * The steps that leave it so. An expiry may not hit the lock of a live or opening submit; a commit that
    * raises may not have stored a submit's row; a request that cannot tell what its row is, a job whose
    * claim is lost and a failure handler cut short may not go on to release the lock of a live one.
    */
  predicate Guard(s: State, e: Event)
    requires Enabled(s, e)
  {
    match e
    case EExpire(key) =>
      var owner := s.locks[key];
      !(Live(s, owner) && s.rows[owner].key == key) && !(Opening(s, owner) && s.calls[owner].key == key)
    case EInsertFails(id, stored) => !stored || !s.calls[id].submit
    case EFailPendingFails(id, stored) => !Live(s, id) || (stored && Is(s, id, Pending))
    case EClaim(run) => !Live(s, s.jobs[run].id) || Is(s, s.jobs[run].id, Pending)
    case EHandlerFails(run) => !Live(s, s.jobs[run].id)
    case _ => true
  }

  // ----- requests -----

  lemma BeginLocks(s: State, id: Id, key: Key, i: Id, run: nat)
    requires LocksAt(s, i, run) && LinkAt(s, id) && id !in s.used
    ensures key !in s.locks ==> LocksAt(Acquire(s, id, key), i, run) && LocksAt(AcquireLost(s, id, key), i, run)
    ensures LocksAt(BeginRun(s, id, key), i, run)
  {
  }

  lemma InsertLocks(s: State, id: Id, i: Id, run: nat)
    requires LocksAt(s, i, run) && LinkAt(s, id) && LinkJob(s, run) && InCall(s, id, Unwritten)
    ensures LocksAt(Insert(s, id), i, run)
  {
  }

  lemma InsertFailsLocks(s: State, id: Id, stored: bool, i: Id, run: nat)
    requires LocksAt(s, i, run) && LinkAt(s, id) && LinkJob(s, run) && InCall(s, id, Unwritten)
    requires !stored || !s.calls[id].submit
    ensures LocksAt(InsertFails(s, id, stored), i, run)
  {
  }

  lemma SettleLocks(s: State, id: Id, status: Status, i: Id, run: nat)
    requires LocksAt(s, i, run) && status != Pending && status != Running
    ensures LocksAt(SetStatus(s, id, status), i, run) && !Live(SetStatus(s, id, status), id)
  {
  }

  lemma CallToLocks(s: State, id: Id, phase: CallPhase, i: Id, run: nat)
    requires LocksAt(s, i, run) && id in s.calls && phase != Unwritten && (phase == CallReleasing ==> !Live(s, id))
    ensures LocksAt(CallTo(s, id, phase), i, run)
  {
  }

  lemma EndCallLocks(s: State, id: Id, i: Id, run: nat)
    requires LocksAt(s, i, run)
    ensures LocksAt(EndCall(s, id), i, run)
  {
  }

  lemma CallUndoLocks(s: State, id: Id, i: Id, run: nat)
    requires LocksAt(s, i, run) && id in s.calls && !Live(s, id)
    ensures LocksAt(CallUndo(s, id), i, run)
  {
    hide LocksAt;
    CallToLocks(s, id, CallReleasing, i, run);
    EndCallLocks(s, id, i, run);
  }

  predicate SameLocking(s: State, t: State) {
    t.rows == s.rows && t.locks == s.locks && t.calls == s.calls && t.jobs == s.jobs && t.owed == s.owed
  }

  lemma SameLocks(s: State, t: State, i: Id, run: nat)
    requires LocksAt(s, i, run) && SameLocking(s, t)
    ensures LocksAt(t, i, run)
  {
  }

  lemma EnqueueLocks(s: State, id: Id, stored: bool, i: Id, run: nat)
    requires LocksAt(s, i, run) && id in s.calls
    ensures LocksAt(Enqueue(s, id), i, run) && LocksAt(EnqueueFails(s, id, stored), i, run)
  {
    var t := Queued(s, id);
    assert SameLocking(s, t);
    hide LocksAt, Queued, CallTo, EndCall;
    SameLocks(s, t, i, run);
    EndCallLocks(t, id, i, run);
    CallToLocks(t, id, EnqueueRaised, i, run);
    CallToLocks(s, id, EnqueueRaised, i, run);
  }

  lemma FailPendingLocks(s: State, id: Id, stored: bool, i: Id, run: nat)
    requires LocksAt(s, i, run) && id in s.calls
    ensures LocksAt(FailPending(s, id), i, run)
    ensures !Live(s, id) || (stored && Is(s, id, Pending)) ==> LocksAt(FailPendingFails(s, id, stored), i, run)
  {
    var t := SetStatus(s, id, JudgeError);
    assert t.calls == s.calls;
    hide LocksAt, SetStatus, CallUndo, EndCall, Live;
    SettleLocks(s, id, JudgeError, i, run);
    CallUndoLocks(t, id, i, run);
    EndCallLocks(s, id, i, run);
    if !Live(s, id) {
      CallUndoLocks(s, id, i, run);
    }
  }

  lemma ReleaseLocks(s: State, key: Key, owner: Id, i: Id, run: nat)
    requires LocksAt(s, i, run) && !Live(s, owner) && !Opening(s, owner)
    ensures LocksAt(Release(s, key, owner), i, run)
  {
  }

  lemma CallReleaseLocks(s: State, id: Id, i: Id, run: nat)
    requires LocksAt(s, i, run) && LockOk(s, id) && InCall(s, id, CallReleasing)
    ensures LocksAt(CallRelease(s, id), i, run)
  {
    hide LocksAt, Release, EndCall;
    ReleaseLocks(s, s.calls[id].key, id, i, run);
    EndCallLocks(Release(s, s.calls[id].key, id), id, i, run);
  }

  lemma DeleteLocks(s: State, id: Id, i: Id, run: nat)
    requires LocksAt(s, i, run)
    ensures LocksAt(Delete(s, id), i, run)
  {
  }

  lemma CallKeepsLocks(s: State, e: Event, i: Id, run: nat)
    requires Enabled(s, e) && IsCall(e) && Guard(s, e) && LocksAt(s, i, run)
    requires LockOk(s, e.id) && LinkAt(s, e.id) && LinkJob(s, run)
    ensures LocksAt(Next(s, e), i, run)
  {
    hide LocksAt, LockOk, LinkAt, LinkJob, Acquire, AcquireLost, BeginRun, Insert, InsertFails, Enqueue, EnqueueFails;
    hide FailPending, FailPendingFails, CallRelease, EndCall, Delete, Live;
    match e
    case EAcquire(id, key) => BeginLocks(s, id, key, i, run);
    case EAcquireLost(id, key) => BeginLocks(s, id, key, i, run);
    case EBeginRun(id, key) => BeginLocks(s, id, key, i, run);
    case EInsert(id) => InsertLocks(s, id, i, run);
    case EInsertFails(id, stored) => InsertFailsLocks(s, id, stored, i, run);
    case EEnqueue(id) => EnqueueLocks(s, id, true, i, run);
    case EEnqueueFails(id, stored) => EnqueueLocks(s, id, stored, i, run);
    case EFailPending(id) => FailPendingLocks(s, id, true, i, run);
    case EFailPendingFails(id, stored) => FailPendingLocks(s, id, stored, i, run);
    case ECallRelease(id) => CallReleaseLocks(s, id, i, run);
    case ECallEnds(id) => EndCallLocks(s, id, i, run);
    case EDelete(id) => DeleteLocks(s, id, i, run);
  }

  // ----- jobs -----

  lemma LoadLocks(s: State, run: nat, id: Id, again: bool, i: Id, r: nat)
    requires LocksAt(s, i, r) && id in s.rows
    ensures LocksAt(Load(s, run, id, again), i, r)
  {
  }

  lemma JobToLocks(s: State, run: nat, phase: JobPhase, i: Id, r: nat)
    requires LocksAt(s, i, r) && run in s.jobs && (phase == JobReleasing ==> !Live(s, s.jobs[run].id))
    ensures LocksAt(JobTo(s, run, phase), i, r)
  {
  }

  lemma ClaimedLocks(s: State, id: Id, sandboxes: multiset<Id>, i: Id, run: nat)
    requires LocksAt(s, i, run) && Is(s, id, Pending)
    ensures LocksAt(Claimed(s, id).(sandboxes := sandboxes), i, run)
  {
  }

  lemma ClaimLocks(s: State, run: nat, stored: bool, i: Id, r: nat)
    requires LocksAt(s, i, r) && run in s.jobs
    ensures !Live(s, s.jobs[run].id) || Is(s, s.jobs[run].id, Pending) ==> LocksAt(Claim(s, run), i, r)
    ensures LocksAt(ClaimFails(s, run, stored), i, r)
  {
    var id := s.jobs[run].id;
    var more := s.sandboxes + multiset{id};
    ClaimLeavesJobs(s, id);
    assert Claimed(s, id).sandboxes == s.sandboxes;
    hide LocksAt, JobTo, Claimed, Live;
    if Is(s, id, Pending) {
      ClaimedLocks(s, id, more, i, r);
      ClaimedLocks(s, id, s.sandboxes, i, r);
      JobToLocks(Claimed(s, id).(sandboxes := more), run, Judging, i, r);
      JobToLocks(Claimed(s, id), run, Failing, i, r);
    } else if !Live(s, id) {
      JobToLocks(s, run, JobReleasing, i, r);
    }
    JobToLocks(s, run, Failing, i, r);
  }

  lemma SettledJobLocks(s: State, run: nat, status: Status, i: Id, r: nat)
    requires LocksAt(s, i, r) && run in s.jobs && status != Pending && status != Running
    ensures var t := SetStatus(s, s.jobs[run].id, status);
            run in t.jobs && LocksAt(JobTo(t, run, JobReleasing), i, r)
  {
    var t := SetStatus(s, s.jobs[run].id, status);
    assert t.jobs == s.jobs;
    hide LocksAt, SetStatus, JobTo, Live;
    SettleLocks(s, s.jobs[run].id, status, i, r);
    JobToLocks(t, run, JobReleasing, i, r);
  }

  lemma FinishLocks(s: State, run: nat, status: Status, i: Id, r: nat)
    requires LocksAt(s, i, r) && run in s.jobs && status != Pending && status != Running
    ensures LocksAt(Verdict(s, run, status), i, r) && LocksAt(FailAlways(s, run), i, r)
    ensures LocksAt(FailUnfinished(s, run), i, r)
  {
    assert !Active(s, s.jobs[run].id) ==> !Live(s, s.jobs[run].id);
    hide LocksAt, SetStatus, JobTo, Active, Live;
    SettledJobLocks(s, run, status, i, r);
    SettledJobLocks(s, run, JudgeError, i, r);
    JobToLocks(s, run, Failing, i, r);
    if !Active(s, s.jobs[run].id) {
      JobToLocks(s, run, JobReleasing, i, r);
    }
  }

  lemma JobReleaseLocks(s: State, run: nat, i: Id, r: nat)
    requires LocksAt(s, i, r) && InJob(s, run, JobReleasing) && JobOk(s, run) && LinkJob(s, run)
    ensures LocksAt(JobRelease(s, run), i, r)
  {
    var j := s.jobs[run];
    var t := Release(s, j.key, j.id);
    assert t.jobs == s.jobs && !Live(s, j.id) && !Opening(s, j.id);
    hide LocksAt, Release, JobTo, Live, Opening;
    ReleaseLocks(s, j.key, j.id, i, r);
    JobToLocks(t, run, Finished, i, r);
    JobToLocks(s, run, Finished, i, r);
  }

  lemma JobKeepsLocks(s: State, e: Event, i: Id, run: nat)
    requires Enabled(s, e) && IsJob(e) && Guard(s, e) && LocksAt(s, i, run)
    requires JobOk(s, JobOf(e)) && LinkJob(s, JobOf(e))
    ensures LocksAt(Next(s, e), i, run)
  {
    hide LocksAt, JobOk, LinkJob, JobTo, Load, LoadMissing, Claim, ClaimFails, Verdict, FailAlways, FailUnfinished;
    hide JobRelease, Live;
    match e
    case ELoad(r, id, again) => LoadLocks(s, r, id, again, i, run);
    case ELoadMissing(id, again) => LoadMissingLocks(s, id, again, i, run);
    case EProblemMissing(r) => JobToLocks(s, r, Failing, i, run);
    case EClaim(r) => ClaimLocks(s, r, true, i, run);
    case EClaimFails(r, stored) => ClaimLocks(s, r, stored, i, run);
    case EVerdict(r, status) => FinishLocks(s, r, status, i, run);
    case EJudgingRaises(r) => JobToLocks(s, r, Failing, i, run);
    case EFailAlways(r) => FinishLocks(s, r, JudgeError, i, run);
    case EHandlerFails(r) => JobToLocks(s, r, JobReleasing, i, run);
    case ECancel(r) => JobToLocks(s, r, Cancelled, i, run);
    case EFailUnfinished(r) => FinishLocks(s, r, JudgeError, i, run);
    case EJobRelease(r) => JobReleaseLocks(s, r, i, run);
    case EJobDies(r) => JobToLocks(s, r, Finished, i, run);
  }

  lemma LoadMissingLocks(s: State, id: Id, again: bool, i: Id, run: nat)
    requires LocksAt(s, i, run)
    ensures LocksAt(LoadMissing(s, id, again), i, run)
  {
    hide LocksAt;
    SameLocks(s, LoadMissing(s, id, again), i, run);
  }

  // ----- sweeps and expiries -----

  lemma SweepLocks(s: State, stale: set<Id>, i: Id, run: nat)
    requires LocksAt(s, i, run)
    ensures LocksAt(Sweep(s, stale), i, run)
  {
  }

  lemma DropLocks(s: State, id: Id, i: Id, run: nat)
    requires LocksAt(s, i, run)
    ensures LocksAt(SweepDrops(s, id), i, run)
  {
  }

  lemma SweepReleaseLocks(s: State, id: Id, i: Id, run: nat)
    requires LocksAt(s, i, run) && LockOk(s, id) && LinkAt(s, id) && id in s.owed
    ensures LocksAt(SweepRelease(s, id), i, run)
  {
    assert !Live(s, id) && !Opening(s, id);
    DropsOwed(s, id);
    hide LocksAt, LockOk, LinkAt, Live, Opening, Release, SweepDrops, SweepRelease;
    ReleaseLocks(s, s.owed[id], id, i, run);
    DropLocks(Release(s, s.owed[id], id), id, i, run);
  }

  lemma NotesLocks(s: State, id: Id, i: Id, run: nat)
    requires LocksAt(s, i, run)
    ensures LocksAt(SeePending(s, id), i, run) && LocksAt(Requeue(s, id), i, run) && LocksAt(ForgetJob(s, id), i, run)
  {
    hide LocksAt;
    SameLocks(s, SeePending(s, id), i, run);
    SameLocks(s, Requeue(s, id), i, run);
    SameLocks(s, ForgetJob(s, id), i, run);
  }

  lemma ExpireLocks(s: State, key: Key, i: Id, run: nat)
    requires LocksAt(s, i, run) && key in s.locks && Guard(s, EExpire(key))
    ensures LocksAt(Expire(s, key), i, run)
  {
  }

  lemma SweepKeepsLocks(s: State, e: Event, i: Id, run: nat)
    requires Enabled(s, e) && !IsCall(e) && !IsJob(e) && Guard(s, e) && LocksAt(s, i, run)
    requires e.ESweepRelease? ==> LockOk(s, e.id) && LinkAt(s, e.id)
    ensures LocksAt(Next(s, e), i, run)
  {
    hide LocksAt, LockOk, LinkAt, Sweep, SweepRelease, SweepDrops, SeePending, Requeue, ForgetJob, Expire, Live;
    match e
    case ESweep(stale) => SweepLocks(s, stale, i, run);
    case ESweepRelease(id) => SweepReleaseLocks(s, id, i, run);
    case ESweepDrops(id) => DropLocks(s, id, i, run);
    case ESeePending(id) => NotesLocks(s, id, i, run);
    case ERequeue(id) => NotesLocks(s, id, i, run);
    case EForgetJob(id) => NotesLocks(s, id, i, run);
    case EExpire(key) => ExpireLocks(s, key, i, run);
  }

  lemma StepKeepsLocksAt(s: State, e: Event, i: Id, run: nat)
    requires Linked(s) && LocksOk(s) && Enabled(s, e) && Guard(s, e)
    ensures LocksAt(Next(s, e), i, run)
  {
    assert LinkAt(s, Subject(s, e)) && LinkJob(s, JobOf(e)) && LinkJob(s, run);
    assert LockOk(s, Subject(s, e)) && JobOk(s, JobOf(e)) && LocksAt(s, i, run);
    hide Linked, LocksOk, Enabled, Next, Guard, LocksAt, LinkAt, LinkJob, LockOk, JobOk;
    if IsCall(e) {
      CallKeepsLocks(s, e, i, run);
    } else if IsJob(e) {
      JobKeepsLocks(s, e, i, run);
    } else {
      SweepKeepsLocks(s, e, i, run);
    }
  }

  lemma GuardKeepsLocks(s: State, e: Event)
    requires Linked(s) && LocksOk(s) && Enabled(s, e) && Guard(s, e)
    ensures LocksOk(Next(s, e))
  {
    hide Enabled, Next, Guard, LockOk, JobOk;
    forall i ensures LockOk(Next(s, e), i) { StepKeepsLocksAt(s, e, i, 0); }
    forall run ensures JobOk(Next(s, e), run) { StepKeepsLocksAt(s, e, 0, run); }
  }
}
