/** Every interleaving of requests, jobs, duplicate deliveries, sweeps, deletions, expiries and failures. */
module SubmissionRuns {
  import opened Submissions

  datatype Event =
    | EAcquire(id: Id, key: Key)
    | EAcquireLost(id: Id, key: Key)
    | EBeginRun(id: Id, key: Key)
    | EInsert(id: Id)
    | EInsertFails(id: Id, stored: bool)
    | EEnqueue(id: Id)
    | EEnqueueFails(id: Id, stored: bool)
    | EFailPending(id: Id)
    | EFailPendingFails(id: Id, stored: bool)
    | ECallRelease(id: Id)
    | ECallEnds(id: Id)                      // the process dies, or its release is lost
    | EDelete(id: Id)
    | ELoad(run: nat, id: Id, again: bool)
    | ELoadMissing(id: Id, again: bool)
    | EProblemMissing(run: nat)
    | EClaim(run: nat)
    | EClaimFails(run: nat, stored: bool)
    | EVerdict(run: nat, status: Status)
    | EJudgingRaises(run: nat)
    | EFailAlways(run: nat)
    | EHandlerFails(run: nat)                // the failure handler itself raises or is cancelled
    | ECancel(run: nat)
    | EFailUnfinished(run: nat)
    | EJobRelease(run: nat)
    | EJobDies(run: nat)
    | ESweep(stale: set<Id>)
    | ESweepRelease(id: Id)
    | ESweepDrops(id: Id)
    | ESeePending(id: Id)
    | ERequeue(id: Id)
    | EForgetJob(id: Id)
    | EExpire(key: Key)

  predicate Enabled(s: State, e: Event) {
    match e
    case EAcquire(id, key) => MayAcquire(s, id, key)
    case EAcquireLost(id, key) => MayAcquire(s, id, key)
    case EBeginRun(id, _) => id !in s.used
    case EInsert(id) => InCall(s, id, Unwritten)
    case EInsertFails(id, _) => InCall(s, id, Unwritten)
    case EEnqueue(id) => InCall(s, id, Written)
    case EEnqueueFails(id, _) => InCall(s, id, Written)
    case EFailPending(id) => InCall(s, id, EnqueueRaised)
    case EFailPendingFails(id, _) => InCall(s, id, EnqueueRaised)
    case ECallRelease(id) => InCall(s, id, CallReleasing)
    case ECallEnds(id) => id in s.calls
    case EDelete(id) => id in s.rows
    case ELoad(run, id, _) => run !in s.jobs && id in s.queue && id in s.rows
    case ELoadMissing(id, _) => id in s.queue && id !in s.rows
    case EProblemMissing(run) => InJob(s, run, Loaded)
    case EClaim(run) => InJob(s, run, Loaded)
    case EClaimFails(run, _) => InJob(s, run, Loaded)
    case EVerdict(run, status) => InJob(s, run, Judging) && status != Pending && status != Running
    case EJudgingRaises(run) => InJob(s, run, Judging)
    case EFailAlways(run) => InJob(s, run, Failing)
    case EHandlerFails(run) => InJob(s, run, Failing) || InJob(s, run, Cancelled)
    case ECancel(run) => InJob(s, run, Loaded) || InJob(s, run, Judging)
    case EFailUnfinished(run) => InJob(s, run, Cancelled)
    case EJobRelease(run) => InJob(s, run, JobReleasing)
    case EJobDies(run) => run in s.jobs
    case ESweep(stale) => forall id :: id in stale ==> Active(s, id)
    case ESweepRelease(id) => id in s.owed
    case ESweepDrops(id) => id in s.owed
    case ESeePending(id) => Is(s, id, Pending)
    case ERequeue(id) => id in s.seen
    case EForgetJob(id) => id in s.known && id !in s.queue
    case EExpire(key) => key in s.locks
  }

  function Next(s: State, e: Event): State
    requires Enabled(s, e)
  {
    match e
    case EAcquire(id, key) => Acquire(s, id, key)
    case EAcquireLost(id, key) => AcquireLost(s, id, key)
    case EBeginRun(id, key) => BeginRun(s, id, key)
    case EInsert(id) => Insert(s, id)
    case EInsertFails(id, stored) => InsertFails(s, id, stored)
    case EEnqueue(id) => Enqueue(s, id)
    case EEnqueueFails(id, stored) => EnqueueFails(s, id, stored)
    case EFailPending(id) => FailPending(s, id)
    case EFailPendingFails(id, stored) => FailPendingFails(s, id, stored)
    case ECallRelease(id) => CallRelease(s, id)
    case ECallEnds(id) => EndCall(s, id)
    case EDelete(id) => Delete(s, id)
    case ELoad(run, id, again) => Load(s, run, id, again)
    case ELoadMissing(id, again) => LoadMissing(s, id, again)
    case EProblemMissing(run) => JobTo(s, run, Failing)
    case EClaim(run) => Claim(s, run)
    case EClaimFails(run, stored) => ClaimFails(s, run, stored)
    case EVerdict(run, status) => Verdict(s, run, status)
    case EJudgingRaises(run) => JobTo(s, run, Failing)
    case EFailAlways(run) => FailAlways(s, run)
    case EHandlerFails(run) => JobTo(s, run, JobReleasing)
    case ECancel(run) => JobTo(s, run, Cancelled)
    case EFailUnfinished(run) => FailUnfinished(s, run)
    case EJobRelease(run) => JobRelease(s, run)
    case EJobDies(run) => JobTo(s, run, Finished)
    case ESweep(stale) => Sweep(s, stale)
    case ESweepRelease(id) => SweepRelease(s, id)
    case ESweepDrops(id) => SweepDrops(s, id)
    case ESeePending(id) => SeePending(s, id)
    case ERequeue(id) => Requeue(s, id)
    case EForgetJob(id) => ForgetJob(s, id)
    case EExpire(key) => Expire(s, key)
  }

  predicate Happens(s: State, es: seq<Event>)
    decreases es
  {
    es != [] ==> Enabled(s, es[0]) && Happens(Next(s, es[0]), es[1..])
  }

  function After(s: State, es: seq<Event>): State
    requires Happens(s, es)
    decreases es
  {
    if es == [] then s else After(Next(s, es[0]), es[1..])
  }

  predicate IsCall(e: Event) {
    e.EAcquire? || e.EAcquireLost? || e.EBeginRun? || e.EInsert? || e.EInsertFails? || e.EEnqueue?
    || e.EEnqueueFails? || e.EFailPending? || e.EFailPendingFails? || e.ECallRelease? || e.ECallEnds? || e.EDelete?
  }

  lemma CallKeepsInv(s: State, e: Event)
    requires Inv(s) && Enabled(s, e) && IsCall(e)
    ensures Inv(Next(s, e))
  {
    hide Inv, Calms, Acquire, AcquireLost, BeginRun, InsertFails, Enqueue, EnqueueFails, CallTo, NewRow, EndCall;
    hide FailPending, FailPendingFails, CallRelease, Delete;
    var t := Next(s, e);
    match e
    case EAcquire(id, key) => BeginKeepsInv(s, id, key);
    case EAcquireLost(id, key) => BeginKeepsInv(s, id, key);
    case EBeginRun(id, key) => BeginKeepsInv(s, id, key);
    case EInsert(id) => NewRowKeepsInv(s, id, Written);
    case EInsertFails(id, stored) => InsertFailsKeepsInv(s, id, stored);
    case EEnqueue(id) => CallRestCalms(s, id, true); CalmKeepsInv(s, t);
    case EEnqueueFails(id, stored) => CallRestCalms(s, id, stored); CalmKeepsInv(s, t);
    case EFailPending(id) => FailPendingCalms(s, id, true); CalmKeepsInv(s, t);
    case EFailPendingFails(id, stored) => FailPendingCalms(s, id, stored); CalmKeepsInv(s, t);
    case ECallRelease(id) => CallRestCalms(s, id, true); CalmKeepsInv(s, t);
    case ECallEnds(id) => EndCallCalms(s, id); CalmKeepsInv(s, t);
    case EDelete(id) => DeleteCalms(s, id); CalmKeepsInv(s, t);
  }

  predicate IsJob(e: Event) {
    e.ELoad? || e.ELoadMissing? || e.EProblemMissing? || e.EClaim? || e.EClaimFails? || e.EVerdict?
    || e.EJudgingRaises? || e.EFailAlways? || e.EHandlerFails? || e.ECancel? || e.EFailUnfinished?
    || e.EJobRelease? || e.EJobDies?
  }

  lemma JobKeepsInv(s: State, e: Event)
    requires Inv(s) && Enabled(s, e) && IsJob(e)
    ensures Inv(Next(s, e))
  {
    hide Inv, Calms, Load, LoadMissing, Claim, ClaimFails, Verdict, FailAlways, FailUnfinished, JobRelease, JobTo;
    match e
    case ELoad(run, id, again) => LoadKeepsInv(s, run, id, again);
    case ELoadMissing(id, again) => QueuesCalm(s, id, again); CalmKeepsInv(s, Next(s, e));
    case EProblemMissing(run) => JobToKeepsInv(s, run, Failing);
    case EClaim(run) => ClaimKeepsInv(s, run, true);
    case EClaimFails(run, stored) => ClaimKeepsInv(s, run, stored);
    case EVerdict(run, status) => JobRestKeepsInv(s, run, status);
    case EJudgingRaises(run) => JobToKeepsInv(s, run, Failing);
    case EFailAlways(run) => JobRestKeepsInv(s, run, JudgeError);
    case EHandlerFails(run) => JobToKeepsInv(s, run, JobReleasing);
    case ECancel(run) => JobToKeepsInv(s, run, Cancelled);
    case EFailUnfinished(run) => JobRestKeepsInv(s, run, JudgeError);
    case EJobRelease(run) => JobRestKeepsInv(s, run, JudgeError);
    case EJobDies(run) => JobToKeepsInv(s, run, Finished);
  }

  lemma SweepKeepsInv(s: State, e: Event)
    requires Inv(s) && Enabled(s, e) && !IsCall(e) && !IsJob(e)
    ensures Inv(Next(s, e))
  {
    hide Inv, Calms, Sweep, SweepRelease, SweepDrops, SeePending, Requeue, ForgetJob, Expire;
    var t := Next(s, e);
    if e.ESweep? {
      SweepCalms(s, e.stale);
    } else if e.ERequeue? {
      QueuesCalm(s, e.id, true);
    } else if e.EExpire? {
      NotesCalm(s, 0, e.key);
    } else {
      NotesCalm(s, e.id, Key(0, 0));
    }
    CalmKeepsInv(s, t);
  }

  lemma StepKeepsInv(s: State, e: Event)
    requires Inv(s) && Enabled(s, e)
    ensures Inv(Next(s, e))
  {
    hide Inv, Enabled, Next;
    if IsCall(e) {
      CallKeepsInv(s, e);
    } else if IsJob(e) {
      JobKeepsInv(s, e);
    } else {
      SweepKeepsInv(s, e);
    }
  }

  lemma {:induction false} RunKeepsInv(s: State, es: seq<Event>)
    requires Inv(s) && Happens(s, es)
    ensures Inv(After(s, es))
    decreases es
  {
    hide Inv, Enabled, Next;
    if es != [] {
      StepKeepsInv(s, es[0]);
      RunKeepsInv(Next(s, es[0]), es[1..]);
    }
  }

  /** However requests, jobs and sweeps interleave, a submission is claimed and sandboxed at most once. */
  lemma ClaimedAtMostOnce(es: seq<Event>, id: Id)
    requires Happens(START, es)
    ensures var s := After(START, es); s.claims[id] <= 1 && s.sandboxes[id] <= s.claims[id]
  {
    hide Happens, After;
    RunKeepsInv(START, es);
  }
}
