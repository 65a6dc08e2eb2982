/** What a row says at the end of any run: the last status written on it, and by whom. */
module SubmissionVerdicts {
  import opened SubmissionRuns
  import opened SubmissionSafety
  import opened Submissions
  import opened Wrappers

  predicate JobOf(s: State, run: nat, id: Id) {
    run in s.jobs && s.jobs[run].id == id
  }

  /** The status a step writes on a row, when it writes one. */
  function Writes(s: State, e: Event, id: Id): Option<Status> {
    match e
    case EInsert(i) => if i == id then Some(Pending) else None
    case EInsertFails(i, stored) => if i == id && stored then Some(Pending) else None
    case EFailPending(i) => if i == id && Is(s, id, Pending) then Some(JudgeError) else None
    case EFailPendingFails(i, stored) => if i == id && stored && Is(s, id, Pending) then Some(JudgeError) else None
    case EClaim(run) => if JobOf(s, run, id) && Is(s, id, Pending) then Some(Running) else None
    case EClaimFails(run, stored) =>
      if JobOf(s, run, id) && stored && Is(s, id, Pending) then Some(Running) else None
    case EVerdict(run, status) => if JobOf(s, run, id) && id in s.rows then Some(status) else None
    case EFailAlways(run) => if JobOf(s, run, id) && id in s.rows then Some(JudgeError) else None
    case EFailUnfinished(run) => if JobOf(s, run, id) && Active(s, id) then Some(JudgeError) else None
    case ESweep(stale) => if id in stale && id in s.rows then Some(JudgeError) else None
    case _ => None
  }

  /** The step writes that status, and leaves the row alone if it writes none. */
  predicate Writing(s: State, t: State, w: Option<Status>, gone: bool, id: Id) {
    if w.Some? then Is(t, id, w.value)
    else
      && (id in t.rows <==> id in s.rows && !gone)
      && (id in t.rows ==> t.rows[id] == s.rows[id])
  }

  lemma CallWriteWrites(s: State, e: Event, id: Id)
    requires Enabled(s, e) && CallWrites(e)
    ensures Writing(s, Next(s, e), Writes(s, e, id), false, id)
  {
    hide IsCall, IsJob, CallUndo, EndCall, CallTo, Queued;
    CallMoves(s, s, e);
    WritingLeavesRest(s, e.id, JudgeError);
    CallMoves(s, NewRow(s, e.id), e);
    CallMoves(s, SetStatus(s, e.id, JudgeError), e);
    QueuedLeavesRest(s, e.id);
    CallMoves(s, Queued(s, e.id), e);
  }

  lemma CallRestWrites(s: State, e: Event, id: Id)
    requires Enabled(s, e) && IsCall(e) && !CallWrites(e)
    ensures Writing(s, Next(s, e), None, e == EDelete(id), id)
  {
  }

  predicate Claims(e: Event) {
    e.EClaim? || e.EClaimFails?
  }

  lemma ClaimWrites(s: State, e: Event, id: Id)
    requires Enabled(s, e) && Claims(e)
    ensures Writing(s, Next(s, e), Writes(s, e, id), false, id)
  {
  }

  lemma JobSettleWrites(s: State, e: Event, id: Id)
    requires Enabled(s, e) && JobWrites(e) && !Claims(e)
    ensures Writing(s, Next(s, e), Writes(s, e, id), false, id)
  {
  }

  lemma JobRestWrites(s: State, e: Event, id: Id)
    requires Enabled(s, e) && IsJob(e) && !JobWrites(e)
    ensures Writing(s, Next(s, e), None, false, id)
  {
    hide Writing;
    JobRestRows(s, e);
    SameRowsWriteNone(s, Next(s, e), id);
  }

  lemma JobRestRows(s: State, e: Event)
    requires Enabled(s, e) && IsJob(e) && !JobWrites(e)
    ensures Next(s, e).rows == s.rows
  {
    if !e.ELoad? && !e.ELoadMissing? {
      hide JobTo, JobRelease;
      JobToSameRows(s, e.run);
    }
  }

  lemma SameRowsWriteNone(s: State, t: State, id: Id)
    requires t.rows == s.rows
    ensures Writing(s, t, None, false, id)
  {
  }

  lemma SweepWrites(s: State, e: Event, id: Id)
    requires Enabled(s, e) && !IsCall(e) && !IsJob(e)
    ensures Writing(s, Next(s, e), Writes(s, e, id), false, id)
  {
  }

  lemma StepWrites(s: State, e: Event, id: Id)
    requires Enabled(s, e)
    ensures Writing(s, Next(s, e), Writes(s, e, id), e == EDelete(id), id)
  {
    hide Enabled, Next, Writing;
    if CallWrites(e) {
      CallWriteWrites(s, e, id);
    } else if IsCall(e) {
      CallRestWrites(s, e, id);
    } else if Claims(e) {
      ClaimWrites(s, e, id);
    } else if JobWrites(e) {
      JobSettleWrites(s, e, id);
    } else if IsJob(e) {
      JobRestWrites(s, e, id);
    } else {
      SweepWrites(s, e, id);
    }
  }

  // ----- whole runs, from the last step back -----

  /** The state before the last step, and that step. */
  lemma {:induction false} LastStep(s: State, es: seq<Event>)
    requires Happens(s, es) && es != []
    ensures var n := |es| - 1;
            && Happens(s, es[..n]) && Enabled(After(s, es[..n]), es[n])
            && After(s, es) == Next(After(s, es[..n]), es[n])
    decreases es
  {
    hide Enabled, Next;
    var n := |es| - 1;
    if n == 0 {
      assert es[..0] == [] && es[1..] == [];
    } else {
      LastStep(Next(s, es[0]), es[1..]);
      assert es[1..][..n - 1] == es[..n][1..];
    }
  }

  /** Which step wrote the row's status last, unless the row is not there. */
  function LastWriter(es: seq<Event>, id: Id): (n: Option<nat>)
    requires Happens(START, es)
    ensures n.Some? ==> n.value < |es|
    decreases |es|
  {
    if es == [] then None
    else
      LastStep(START, es);
      var n := |es| - 1;
      if Writes(After(START, es[..n]), es[n], id).Some? then Some(n)
      else if es[n] == EDelete(id) then None
      else LastWriter(es[..n], id)
  }

  lemma {:induction false} PrefixHappens(es: seq<Event>, n: nat)
    requires Happens(START, es) && n <= |es|
    ensures Happens(START, es[..n])
    decreases |es|
  {
    hide Happens;
    if n < |es| {
      LastStep(START, es);
      PrefixHappens(es[..|es| - 1], n);
      assert es[..|es| - 1][..n] == es[..n];
    } else {
      assert es[..n] == es;
    }
  }

  /** The state in which step `n` was taken. */
  ghost function Before(es: seq<Event>, n: nat): State
    requires Happens(START, es) && n <= |es|
  {
    PrefixHappens(es, n);
    After(START, es[..n])
  }

  lemma BeforeShorter(es: seq<Event>, n: nat)
    requires Happens(START, es) && n < |es|
    ensures Happens(START, es[..|es| - 1]) && Before(es[..|es| - 1], n) == Before(es, n)
  {
    hide Happens, After;
    PrefixHappens(es, |es| - 1);
    assert es[..|es| - 1][..n] == es[..n];
  }

  /** In every run a row is there exactly when it has a last writer, and has the status that one wrote. */
  lemma {:induction false} StatusIsLastWrite(es: seq<Event>, id: Id)
    requires Happens(START, es)
    ensures var s, w := After(START, es), LastWriter(es, id);
            && (id in s.rows <==> w.Some?)
            && (w.Some? ==> Some(s.rows[id].status) == Writes(Before(es, w.value), es[w.value], id))
    decreases |es|
  {
    hide Happens, Writes, Enabled, Next;
    if es == [] {
      EmptyRun();
    } else {
      var n := |es| - 1;
      LastStep(START, es);
      var before := After(START, es[..n]);
      StepWrites(before, es[n], id);
      StatusIsLastWrite(es[..n], id);
      var w := LastWriter(es[..n], id);
      if w.Some? {
        BeforeShorter(es, w.value);
      }
    }
  }

  lemma EmptyRun()
    ensures Happens(START, []) && After(START, []) == START
  {
  }

  // ----- verdicts -----

  /** Step `m` is the claim by which the run took the row. */
  ghost predicate ClaimedAt(es: seq<Event>, m: nat, run: nat, id: Id)
    requires Happens(START, es)
  {
    m < |es| && es[m] == EClaim(run) && JobOf(Before(es, m), run, id) && Is(Before(es, m), id, Pending)
  }

  /** A run only judges a row it has claimed. */
  lemma {:induction false} JudgingHasClaimed(es: seq<Event>, run: nat) returns (m: nat)
    requires Happens(START, es) && InJob(After(START, es), run, Judging)
    ensures ClaimedAt(es, m, run, After(START, es).jobs[run].id)
    decreases |es|
  {
    hide Happens, Enabled, Next;
    if es == [] {
      EmptyRun();
    } else {
      var n := |es| - 1;
      LastStep(START, es);
      var before := After(START, es[..n]);
      BecomesJudging(before, es[n], run);
      if InJob(before, run, Judging) {
        m := JudgingHasClaimed(es[..n], run);
        BeforeShorter(es, m);
      } else {
        m := n;
      }
    }
  }

  lemma BecomesJudging(s: State, e: Event, run: nat)
    requires Enabled(s, e) && InJob(Next(s, e), run, Judging)
    ensures run in s.jobs && s.jobs[run].id == Next(s, e).jobs[run].id
    ensures InJob(s, run, Judging) || (e == EClaim(run) && Is(s, s.jobs[run].id, Pending))
  {
    hide Enabled, Next;
    if CallWrites(e) {
      CallWriteLeavesRest(s, e);
    } else if IsCall(e) {
      CallRestLeavesJobs(s, e);
    } else if Claims(e) {
      ClaimBecomesJudging(s, e, run);
    } else if JobWrites(e) {
      SettleStopsJudging(s, e, run);
    } else if IsJob(e) {
      RestStopsJudging(s, e, run);
    } else {
      SweepLeavesJobs(s, e);
    }
  }

  /** Only rows, calls and the queue may differ. */
  predicate SameRest(s: State, t: State) {
    t.jobs == s.jobs && t.locks == s.locks && t.sandboxes == s.sandboxes
  }

  lemma CallWriteLeavesRest(s: State, e: Event)
    requires Enabled(s, e) && CallWrites(e)
    ensures SameRest(s, Next(s, e))
  {
    hide CallUndo, EndCall, CallTo, SetStatus, NewRow, Queued;
    CallMoves(s, s, e);
    match e
    case EInsert(id) => WritingLeavesRest(s, id, Pending); CallMoves(s, NewRow(s, id), e);
    case EInsertFails(id, _) => WritingLeavesRest(s, id, Pending); CallMoves(s, NewRow(s, id), e);
    case EEnqueueFails(id, _) => QueuedLeavesRest(s, id); CallMoves(s, Queued(s, id), e);
    case EFailPending(id) => WritingLeavesRest(s, id, JudgeError); CallMoves(s, SetStatus(s, id, JudgeError), e);
    case EFailPendingFails(id, _) =>
      WritingLeavesRest(s, id, JudgeError);
      CallMoves(s, SetStatus(s, id, JudgeError), e);
    case _ =>
  }

  lemma QueuedLeavesRest(s: State, id: Id)
    ensures var t := Queued(s, id); SameRest(s, t) && t.calls == s.calls && t.rows == s.rows
  {
  }

  lemma WritingLeavesRest(s: State, id: Id, status: Status)
    requires id in s.calls
    ensures SameRest(s, NewRow(s, id)) && NewRow(s, id).calls == s.calls
    ensures SameRest(s, SetStatus(s, id, status)) && SetStatus(s, id, status).calls == s.calls
  {
  }

  /** A request that moves on or ends changes no row and no job. */
  lemma CallMoves(s: State, t: State, e: Event)
    requires Enabled(s, e) && CallWrites(e) && t.calls == s.calls
    ensures e.id in t.calls
    ensures forall phase :: CallTo(t, e.id, phase).rows == t.rows && SameRest(t, CallTo(t, e.id, phase))
    ensures CallUndo(t, e.id).rows == t.rows && SameRest(t, CallUndo(t, e.id))
    ensures EndCall(t, e.id).rows == t.rows && SameRest(t, EndCall(t, e.id))
  {
  }

  lemma CallRestLeavesJobs(s: State, e: Event)
    requires Enabled(s, e) && IsCall(e) && !CallWrites(e)
    ensures Next(s, e).jobs == s.jobs
  {
  }

  lemma SweepLeavesJobs(s: State, e: Event)
    requires Enabled(s, e) && !IsCall(e) && !IsJob(e)
    ensures Next(s, e).jobs == s.jobs
  {
  }

  lemma ClaimBecomesJudging(s: State, e: Event, run: nat)
    requires Enabled(s, e) && Claims(e) && InJob(Next(s, e), run, Judging)
    ensures run in s.jobs && s.jobs[run].id == Next(s, e).jobs[run].id
    ensures InJob(s, run, Judging) || (e == EClaim(run) && Is(s, s.jobs[run].id, Pending))
  {
    ClaimMovesJob(s, e);
    hide Enabled, Next;
  }

  lemma ClaimMovesJob(s: State, e: Event)
    requires Enabled(s, e) && Claims(e)
    ensures e.run in s.jobs
    ensures var j := s.jobs[e.run];
            Next(s, e).jobs ==
            s.jobs[e.run := j.(phase := if e.EClaimFails? then Failing
                                        else if Is(s, j.id, Pending) then Judging else JobReleasing)]
  {
    hide Claimed;
    ClaimLeavesJobs(s, s.jobs[e.run].id);
  }

  lemma SettleStopsJudging(s: State, e: Event, run: nat)
    requires Enabled(s, e) && JobWrites(e) && !Claims(e) && InJob(Next(s, e), run, Judging)
    ensures InJob(s, run, Judging) && s.jobs[run].id == Next(s, e).jobs[run].id
  {
  }

  lemma RestStopsJudging(s: State, e: Event, run: nat)
    requires Enabled(s, e) && IsJob(e) && !JobWrites(e) && InJob(Next(s, e), run, Judging)
    ensures InJob(s, run, Judging) && s.jobs[run].id == Next(s, e).jobs[run].id
  {
  }

  /** The last write on the row was the verdict of a run that had claimed it. */
  ghost predicate VerdictStands(es: seq<Event>, id: Id, verdict: nat)
    requires Happens(START, es)
  {
    var w := LastWriter(es, id);
    && w.Some? && es[w.value].EVerdict? && es[w.value].status == Settled(verdict)
    && JobOf(Before(es, w.value), es[w.value].run, id)
    && exists m: nat :: m < w.value && ClaimedAt(es, m, es[w.value].run, id)
  }

  /**
    * However requests, jobs and sweeps interleave, a row has a verdict exactly when the last write on it was
    * that verdict, from the one run that claimed it.
    */
  lemma SettledIsAVerdict(es: seq<Event>, id: Id, verdict: nat)
    requires Happens(START, es)
    ensures Is(After(START, es), id, Settled(verdict)) <==> VerdictStands(es, id, verdict)
    ensures Is(After(START, es), id, Settled(verdict)) ==> After(START, es).claims[id] <= 1
  {
    StatusIsLastWrite(es, id);
    ClaimedAtMostOnce(es, id);
    hide Happens, After;
    if Is(After(START, es), id, Settled(verdict)) {
      var n := LastWriter(es, id).value;
      WriterTook(es, n);
      var m := JudgingHasClaimed(es[..n], es[n].run);
      ClaimedEarlier(es, n, m, es[n].run, id);
    }
  }

  lemma WriterTook(es: seq<Event>, n: nat)
    requires Happens(START, es) && n < |es|
    ensures Happens(START, es[..n]) && Enabled(Before(es, n), es[n])
    ensures Before(es, n) == After(START, es[..n])
  {
    hide Enabled, Next, Happens, After;
    PrefixHappens(es, n);
    PrefixHappens(es, n + 1);
    LastStep(START, es[..n + 1]);
    assert es[..n + 1][..n] == es[..n];
  }

  lemma ClaimedEarlier(es: seq<Event>, n: nat, m: nat, run: nat, id: Id)
    requires Happens(START, es) && n <= |es| && Happens(START, es[..n]) && ClaimedAt(es[..n], m, run, id)
    ensures m < n && ClaimedAt(es, m, run, id)
  {
    hide Happens, After;
    assert es[..n][..m] == es[..m];
  }
}
