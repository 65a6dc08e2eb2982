/** What survives every interleaving, failures included: settled rows and lock ownership. */
module SubmissionSafety {
  import opened Submissions
  import opened SubmissionRuns

  // ----- a row settled without a claim -----

  /** Failed before any job claimed it, or failed so and then deleted. */
  predicate FailedUnclaimed(s: State, id: Id) {
    && id in s.used && id !in s.claims && !InCall(s, id, Unwritten)
    && (id in s.rows ==> s.rows[id].status == JudgeError)
  }

  /** The steps of a request that may write its row. */
  predicate CallWrites(e: Event) {
    e.EInsert? || e.EInsertFails? || e.EEnqueueFails? || e.EFailPending? || e.EFailPendingFails?
  }

  lemma InsertLeavesFailed(s: State, c: Id, stored: bool, id: Id)
    requires InCall(s, c, Unwritten) && FailedUnclaimed(s, id)
    ensures FailedUnclaimed(Insert(s, c), id) && FailedUnclaimed(InsertFails(s, c, stored), id)
  {
  }

  lemma EnqueueLeavesFailed(s: State, c: Id, stored: bool, id: Id)
    requires c in s.calls && FailedUnclaimed(s, id)
    ensures FailedUnclaimed(EnqueueFails(s, c, stored), id)
  {
  }

  lemma UndoLeavesFailed(s: State, c: Id, stored: bool, id: Id)
    requires c in s.calls && FailedUnclaimed(s, id)
    ensures FailedUnclaimed(FailPendingFails(s, c, stored), id)
  {
  }

  lemma FailPendingLeavesFailed(s: State, c: Id, id: Id)
    requires c in s.calls && FailedUnclaimed(s, id)
    ensures FailedUnclaimed(FailPending(s, c), id)
  {
  }

  lemma CallWriteLeavesFailed(s: State, e: Event, id: Id)
    requires Enabled(s, e) && CallWrites(e) && FailedUnclaimed(s, id)
    ensures FailedUnclaimed(Next(s, e), id)
  {
    hide FailedUnclaimed, Insert, InsertFails, EnqueueFails, FailPending, FailPendingFails;
    match e
    case EInsert(c) => InsertLeavesFailed(s, c, true, id);
    case EInsertFails(c, stored) => InsertLeavesFailed(s, c, stored, id);
    case EEnqueueFails(c, stored) => EnqueueLeavesFailed(s, c, stored, id);
    case EFailPending(c) => FailPendingLeavesFailed(s, c, id);
    case EFailPendingFails(c, stored) => UndoLeavesFailed(s, c, stored, id);
  }

  lemma CallRestLeavesFailed(s: State, e: Event, id: Id)
    requires Enabled(s, e) && IsCall(e) && !CallWrites(e) && FailedUnclaimed(s, id)
    ensures FailedUnclaimed(Next(s, e), id)
  {
  }

  /** The steps of a job that may write its row. */
  predicate JobWrites(e: Event) {
    e.EClaim? || e.EClaimFails? || e.EVerdict? || e.EFailAlways? || e.EFailUnfinished?
  }

  lemma ClaimLeavesFailed(s: State, run: nat, stored: bool, id: Id)
    requires run in s.jobs && FailedUnclaimed(s, id)
    ensures FailedUnclaimed(Claim(s, run), id) && FailedUnclaimed(ClaimFails(s, run, stored), id)
  {
  }

  lemma SettleLeavesFailed(s: State, run: nat, status: Status, id: Id)
    requires run in s.jobs && FailedUnclaimed(s, id)
    ensures s.jobs[run].id != id ==> FailedUnclaimed(Verdict(s, run, status), id)
  {
  }

  lemma FailLeavesFailed(s: State, run: nat, id: Id)
    requires run in s.jobs && FailedUnclaimed(s, id)
    ensures FailedUnclaimed(FailAlways(s, run), id) && FailedUnclaimed(FailUnfinished(s, run), id)
  {
  }

  lemma JobWriteLeavesFailed(s: State, e: Event, id: Id)
    requires Inv(s) && Enabled(s, e) && JobWrites(e) && FailedUnclaimed(s, id)
    ensures FailedUnclaimed(Next(s, e), id)
  {
    assert e.EVerdict? ==> s.jobs[e.run].id != id;
    hide Inv, FailedUnclaimed, Claim, ClaimFails, Verdict, FailAlways, FailUnfinished;
    match e
    case EClaim(run) => ClaimLeavesFailed(s, run, true, id);
    case EClaimFails(run, stored) => ClaimLeavesFailed(s, run, stored, id);
    case EVerdict(run, status) => SettleLeavesFailed(s, run, status, id);
    case EFailAlways(run) => FailLeavesFailed(s, run, id);
    case EFailUnfinished(run) => FailLeavesFailed(s, run, id);
  }

  lemma JobRestLeavesFailed(s: State, e: Event, id: Id)
    requires Enabled(s, e) && IsJob(e) && !JobWrites(e) && FailedUnclaimed(s, id)
    ensures FailedUnclaimed(Next(s, e), id)
  {
    if e.ELoad? {
      SameRowsLeaveFailed(s, Load(s, e.run, e.id, e.again), id);
    } else if e.ELoadMissing? {
      SameRowsLeaveFailed(s, LoadMissing(s, e.id, e.again), id);
    } else {
      JobToSameRows(s, e.run);
      hide FailedUnclaimed, JobTo, JobRelease;
      SameRowsLeaveFailed(s, JobTo(s, e.run, Failing), id);
      SameRowsLeaveFailed(s, JobTo(s, e.run, JobReleasing), id);
      SameRowsLeaveFailed(s, JobTo(s, e.run, Cancelled), id);
      SameRowsLeaveFailed(s, JobTo(s, e.run, Finished), id);
      SameRowsLeaveFailed(s, JobRelease(s, e.run), id);
    }
  }

  predicate SameRows(s: State, t: State) {
    t.rows == s.rows && t.used == s.used && t.claims == s.claims && t.calls == s.calls
  }

  lemma SameRowsLeaveFailed(s: State, t: State, id: Id)
    requires FailedUnclaimed(s, id) && SameRows(s, t)
    ensures FailedUnclaimed(t, id)
  {
  }

  lemma JobToSameRows(s: State, run: nat)
    requires run in s.jobs
    ensures forall phase :: SameRows(s, JobTo(s, run, phase))
    ensures SameRows(s, JobRelease(s, run))
  {
  }

  lemma SweepLeavesFailed(s: State, e: Event, id: Id)
    requires Enabled(s, e) && !IsCall(e) && !IsJob(e) && FailedUnclaimed(s, id)
    ensures FailedUnclaimed(Next(s, e), id)
  {
  }

  lemma StepLeavesFailed(s: State, e: Event, id: Id)
    requires Inv(s) && Enabled(s, e) && FailedUnclaimed(s, id)
    ensures FailedUnclaimed(Next(s, e), id)
  {
    hide Inv, Enabled, Next, FailedUnclaimed;
    if CallWrites(e) {
      CallWriteLeavesFailed(s, e, id);
    } else if IsCall(e) {
      CallRestLeavesFailed(s, e, id);
    } else if JobWrites(e) {
      JobWriteLeavesFailed(s, e, id);
    } else if IsJob(e) {
      JobRestLeavesFailed(s, e, id);
    } else {
      SweepLeavesFailed(s, e, id);
    }
  }

  /** A row failed while still unclaimed stays `judge_error` until it is deleted, whatever runs later. */
  lemma {:induction false} FailedStaysFailed(s: State, es: seq<Event>, id: Id)
    requires Inv(s) && Happens(s, es) && Is(s, id, JudgeError) && id !in s.claims
    ensures Is(After(s, es), id, JudgeError) || id !in After(s, es).rows
    ensures id !in After(s, es).claims
  {
    FailedLater(s, es, id);
  }

  lemma {:induction false} FailedLater(s: State, es: seq<Event>, id: Id)
    requires Inv(s) && Happens(s, es) && FailedUnclaimed(s, id)
    ensures FailedUnclaimed(After(s, es), id)
    decreases es
  {
    hide Inv, Enabled, Next, FailedUnclaimed;
    if es != [] {
      StepLeavesFailed(s, es[0], id);
      StepKeepsInv(s, es[0]);
      FailedLater(Next(s, es[0]), es[1..], id);
    }
  }

  // ----- lock ownership -----

  /** A release made for this submission: by its request, its job, or a sweep that failed it. */
  predicate ReleasesFor(s: State, e: Event, id: Id) {
    || e == ECallRelease(id)
    || e == ESweepRelease(id)
    || (e.EJobRelease? && e.run in s.jobs && s.jobs[e.run].id == id)
  }

  /** A held lock goes only by expiry or by a release for its owner, and never changes hands directly. */
  lemma LockGoesByOwnerOrExpiry(s: State, e: Event, key: Key, id: Id)
    requires Enabled(s, e) && Holds(s, key, id)
    ensures Holds(Next(s, e), key, id) || (key !in Next(s, e).locks && (e == EExpire(key) || ReleasesFor(s, e, id)))
  {
    hide Enabled, Next, Holds;
    if CallWrites(e) {
      CallWriteLeavesLock(s, e, key, id);
    } else if IsCall(e) {
      CallRestLeavesLock(s, e, key, id);
    } else if JobWrites(e) {
      JobWriteLeavesLock(s, e, key, id);
    } else if IsJob(e) {
      JobRestLeavesLock(s, e, key, id);
    } else {
      SweepLeavesLock(s, e, key, id);
    }
  }

  lemma CallWriteLeavesLock(s: State, e: Event, key: Key, id: Id)
    requires Enabled(s, e) && CallWrites(e) && Holds(s, key, id)
    ensures Holds(Next(s, e), key, id)
  {
  }

  lemma CallRestLeavesLock(s: State, e: Event, key: Key, id: Id)
    requires Enabled(s, e) && IsCall(e) && !CallWrites(e) && Holds(s, key, id)
    ensures Holds(Next(s, e), key, id) || (key !in Next(s, e).locks && ReleasesFor(s, e, id))
  {
  }

  lemma JobWriteLeavesLock(s: State, e: Event, key: Key, id: Id)
    requires Enabled(s, e) && JobWrites(e) && Holds(s, key, id)
    ensures Holds(Next(s, e), key, id)
  {
  }

  lemma JobRestLeavesLock(s: State, e: Event, key: Key, id: Id)
    requires Enabled(s, e) && IsJob(e) && !JobWrites(e) && Holds(s, key, id)
    ensures Holds(Next(s, e), key, id) || (key !in Next(s, e).locks && ReleasesFor(s, e, id))
  {
  }

  lemma SweepLeavesLock(s: State, e: Event, key: Key, id: Id)
    requires Enabled(s, e) && !IsCall(e) && !IsJob(e) && Holds(s, key, id)
    ensures Holds(Next(s, e), key, id) || (key !in Next(s, e).locks && (e == EExpire(key) || ReleasesFor(s, e, id)))
  {
  }
}
