/** What a lost claim means when no submission is loaded by two job runs. */
module SubmissionLoads {
  import opened Submissions
  import opened SubmissionLocks
  import opened SubmissionRuns
  import opened SubmissionSafety

  predicate LoadsOnce(s: State, es: seq<Event>)
    requires Happens(s, es)
    decreases es
  {
    es != [] ==> (es[0].ELoad? ==> es[0].id !in s.loadedBy) && LoadsOnce(Next(s, es[0]), es[1..])
  }

  /** A claim is made by a job that loaded the submission. */
  predicate ClaimOk(s: State, id: Id) {
    id in s.claims ==> id in s.loadedBy
  }

  /** A job is the only run of its submission, which stays unclaimed until it claims. */
  predicate OnlyRun(s: State, run: nat) {
    run in s.jobs ==>
      var id := s.jobs[run].id;
      id in s.loadedBy && s.loadedBy[id] == run && (s.jobs[run].phase == Loaded ==> id !in s.claims)
  }

  ghost predicate OnlyRuns(s: State) {
    (forall id :: ClaimOk(s, id)) && (forall run :: OnlyRun(s, run))
  }

  lemma LoadKeepsOnly(s: State, e: Event, i: Id, run: nat)
    requires Enabled(s, e) && e.ELoad? && e.id !in s.loadedBy && ClaimOk(s, e.id) && ClaimOk(s, i) && OnlyRun(s, run)
    ensures ClaimOk(Next(s, e), i) && OnlyRun(Next(s, e), run)
  {
  }

  lemma ClaimedKeepsOnly(s: State, run: nat, sandboxes: multiset<Id>, phase: JobPhase, i: Id, r: nat)
    requires run in s.jobs && phase != Loaded && ClaimOk(s, i) && OnlyRun(s, run) && OnlyRun(s, r)
    ensures run in Claimed(s, s.jobs[run].id).jobs
    ensures var t := JobTo(Claimed(s, s.jobs[run].id).(sandboxes := sandboxes), run, phase);
            ClaimOk(t, i) && OnlyRun(t, r)
  {
  }

  lemma JobToKeepsOnly(s: State, run: nat, phase: JobPhase, i: Id, r: nat)
    requires run in s.jobs && phase != Loaded && ClaimOk(s, i) && OnlyRun(s, r)
    ensures ClaimOk(JobTo(s, run, phase), i) && OnlyRun(JobTo(s, run, phase), r)
  {
  }

  lemma ClaimKeepsOnly(s: State, e: Event, i: Id, run: nat)
    requires Enabled(s, e) && (e.EClaim? || e.EClaimFails?)
    requires ClaimOk(s, i) && OnlyRun(s, e.run) && OnlyRun(s, run)
    ensures ClaimOk(Next(s, e), i) && OnlyRun(Next(s, e), run)
  {
    var id := s.jobs[e.run].id;
    assert Claimed(s, id).sandboxes == s.sandboxes;
    hide ClaimOk, OnlyRun, JobTo, Claimed;
    ClaimedKeepsOnly(s, e.run, s.sandboxes + multiset{id}, Judging, i, run);
    ClaimedKeepsOnly(s, e.run, s.sandboxes, Failing, i, run);
    JobToKeepsOnly(s, e.run, JobReleasing, i, run);
    JobToKeepsOnly(s, e.run, Failing, i, run);
  }

  predicate SameRuns(s: State, t: State) {
    t.jobs == s.jobs && t.claims == s.claims && t.loadedBy == s.loadedBy
  }

  lemma SameKeepsOnly(s: State, t: State, i: Id, run: nat)
    requires SameRuns(s, t) && ClaimOk(s, i) && OnlyRun(s, run)
    ensures ClaimOk(t, i) && OnlyRun(t, run)
  {
  }

  lemma SettleKeepsOnly(s: State, run: nat, status: Status, i: Id, r: nat)
    requires run in s.jobs && ClaimOk(s, i) && OnlyRun(s, r)
    ensures var t := SetStatus(s, s.jobs[run].id, status);
            run in t.jobs && ClaimOk(JobTo(t, run, JobReleasing), i) && OnlyRun(JobTo(t, run, JobReleasing), r)
  {
    var t := SetStatus(s, s.jobs[run].id, status);
    assert SameRuns(s, t);
    hide ClaimOk, OnlyRun, JobTo, SetStatus;
    SameKeepsOnly(s, t, i, r);
    JobToKeepsOnly(t, run, JobReleasing, i, r);
  }

  lemma FinishKeepsOnly(s: State, run: nat, status: Status, i: Id, r: nat)
    requires run in s.jobs && ClaimOk(s, i) && OnlyRun(s, r)
    ensures ClaimOk(Verdict(s, run, status), i) && OnlyRun(Verdict(s, run, status), r)
    ensures ClaimOk(FailAlways(s, run), i) && OnlyRun(FailAlways(s, run), r)
    ensures ClaimOk(FailUnfinished(s, run), i) && OnlyRun(FailUnfinished(s, run), r)
  {
    hide ClaimOk, OnlyRun, JobTo, SetStatus, Active;
    SettleKeepsOnly(s, run, status, i, r);
    SettleKeepsOnly(s, run, JudgeError, i, r);
    JobToKeepsOnly(s, run, JobReleasing, i, r);
    JobToKeepsOnly(s, run, Failing, i, r);
  }

  lemma ReleaseKeepsOnly(s: State, run: nat, i: Id, r: nat)
    requires run in s.jobs && ClaimOk(s, i) && OnlyRun(s, r)
    ensures ClaimOk(JobRelease(s, run), i) && OnlyRun(JobRelease(s, run), r)
  {
    var j := s.jobs[run];
    var t := Release(s, j.key, j.id);
    assert SameRuns(s, t);
    hide ClaimOk, OnlyRun, JobTo, Release;
    SameKeepsOnly(s, t, i, r);
    JobToKeepsOnly(t, run, Finished, i, r);
    JobToKeepsOnly(s, run, Finished, i, r);
  }

  lemma JobKeepsOnly(s: State, e: Event, i: Id, run: nat)
    requires Enabled(s, e) && IsJob(e) && !e.ELoad? && !e.EClaim? && !e.EClaimFails?
    requires ClaimOk(s, i) && OnlyRun(s, run)
    ensures ClaimOk(Next(s, e), i) && OnlyRun(Next(s, e), run)
  {
    assert e.ELoadMissing? ==> SameRuns(s, LoadMissing(s, e.id, e.again));
    hide ClaimOk, OnlyRun, JobTo, LoadMissing, Verdict, FailAlways, FailUnfinished, JobRelease;
    match e
    case ELoadMissing(id, again) => SameKeepsOnly(s, LoadMissing(s, id, again), i, run);
    case EProblemMissing(r) => JobToKeepsOnly(s, r, Failing, i, run);
    case EVerdict(r, status) => FinishKeepsOnly(s, r, status, i, run);
    case EJudgingRaises(r) => JobToKeepsOnly(s, r, Failing, i, run);
    case EFailAlways(r) => FinishKeepsOnly(s, r, JudgeError, i, run);
    case EHandlerFails(r) => JobToKeepsOnly(s, r, JobReleasing, i, run);
    case ECancel(r) => JobToKeepsOnly(s, r, Cancelled, i, run);
    case EFailUnfinished(r) => FinishKeepsOnly(s, r, JudgeError, i, run);
    case EJobRelease(r) => ReleaseKeepsOnly(s, r, i, run);
    case EJobDies(r) => JobToKeepsOnly(s, r, Finished, i, run);
  }

  lemma CallToLeavesRuns(s: State, id: Id, phase: CallPhase)
    requires id in s.calls
    ensures SameRuns(s, CallTo(s, id, phase)) && SameRuns(s, CallUndo(s, id)) && SameRuns(s, EndCall(s, id))
  {
  }

  lemma RowLeavesRuns(s: State, id: Id)
    requires id in s.calls
    ensures id in NewRow(s, id).calls && SameRuns(s, NewRow(s, id))
    ensures id in SetStatus(s, id, JudgeError).calls && SameRuns(s, SetStatus(s, id, JudgeError))
    ensures id in Queued(s, id).calls && SameRuns(s, Queued(s, id))
  {
  }

  lemma WriteLeavesRuns(s: State, e: Event)
    requires Enabled(s, e) && CallWrites(e)
    ensures SameRuns(s, Next(s, e))
  {
    RowLeavesRuns(s, e.id);
    hide CallTo, CallUndo, EndCall, NewRow, SetStatus, Queued;
    var phase := if e.EInsert? then Written else EnqueueRaised;
    CallToLeavesRuns(s, e.id, phase);
    CallToLeavesRuns(NewRow(s, e.id), e.id, phase);
    CallToLeavesRuns(SetStatus(s, e.id, JudgeError), e.id, phase);
    CallToLeavesRuns(Queued(s, e.id), e.id, phase);
  }

  lemma CallLeavesRuns(s: State, e: Event)
    requires Enabled(s, e) && IsCall(e) && !CallWrites(e)
    ensures SameRuns(s, Next(s, e))
  {
  }

  lemma SweepLeavesRuns(s: State, e: Event)
    requires Enabled(s, e) && !IsCall(e) && !IsJob(e)
    ensures SameRuns(s, Next(s, e))
  {
  }

  lemma OtherKeepsOnly(s: State, e: Event, i: Id, run: nat)
    requires Enabled(s, e) && !IsJob(e) && ClaimOk(s, i) && OnlyRun(s, run)
    ensures ClaimOk(Next(s, e), i) && OnlyRun(Next(s, e), run)
  {
    hide Enabled, Next, ClaimOk, OnlyRun, SameRuns;
    if CallWrites(e) {
      WriteLeavesRuns(s, e);
    } else if IsCall(e) {
      CallLeavesRuns(s, e);
    } else {
      SweepLeavesRuns(s, e);
    }
    SameKeepsOnly(s, Next(s, e), i, run);
  }

  lemma StepKeepsOnlyAt(s: State, e: Event, i: Id, run: nat)
    requires OnlyRuns(s) && Enabled(s, e) && (e.ELoad? ==> e.id !in s.loadedBy)
    ensures ClaimOk(Next(s, e), i) && OnlyRun(Next(s, e), run)
  {
    assert ClaimOk(s, i) && OnlyRun(s, run);
    assert e.ELoad? ==> ClaimOk(s, e.id);
    assert e.EClaim? || e.EClaimFails? ==> OnlyRun(s, e.run);
    hide OnlyRuns, Enabled, Next, ClaimOk, OnlyRun;
    if e.ELoad? {
      LoadKeepsOnly(s, e, i, run);
    } else if e.EClaim? || e.EClaimFails? {
      ClaimKeepsOnly(s, e, i, run);
    } else if IsJob(e) {
      JobKeepsOnly(s, e, i, run);
    } else {
      OtherKeepsOnly(s, e, i, run);
    }
  }

  lemma {:induction false} RunKeepsOnly(s: State, es: seq<Event>)
    requires Inv(s) && OnlyRuns(s) && Happens(s, es) && LoadsOnce(s, es)
    ensures Inv(After(s, es)) && OnlyRuns(After(s, es))
    decreases es
  {
    hide Inv, Enabled, Next, ClaimOk, OnlyRun;
    if es != [] {
      var t := Next(s, es[0]);
      StepKeepsInv(s, es[0]);
      forall i ensures ClaimOk(t, i) { StepKeepsOnlyAt(s, es[0], i, 0); }
      forall run ensures OnlyRun(t, run) { StepKeepsOnlyAt(s, es[0], 0, run); }
      RunKeepsOnly(t, es[1..]);
    }
  }

  /** A claim that a submission's only job loses finds the row settled or gone, so its release is safe. */
  lemma LostClaimIsOver(es: seq<Event>, run: nat)
    requires Happens(START, es) && LoadsOnce(START, es) && InJob(After(START, es), run, Loaded)
    ensures var s := After(START, es);
            && (Is(s, s.jobs[run].id, Pending) || !Active(s, s.jobs[run].id))
            && Guard(s, EClaim(run))
  {
    hide Happens, After, LoadsOnce, Enabled, Next;
    RunKeepsOnly(START, es);
    var s := After(START, es);
    assert OnlyRun(s, run);
    hide OnlyRuns;
    LostIsOver(s, run);
  }

  lemma LostIsOver(s: State, run: nat)
    requires Inv(s) && OnlyRun(s, run) && InJob(s, run, Loaded)
    ensures Is(s, s.jobs[run].id, Pending) || !Active(s, s.jobs[run].id)
  {
  }
}
