/**
  * The code of a request, a judge job and a sweep, statement by statement, with everything else in the
  * system free to run between any two statements.
  */
module SubmissionCode {
  import opened Submissions
  import opened SubmissionRuns

  lemma {:induction false} HappensOn(s: State, es: seq<Event>, e: Event)
    requires Happens(s, es) && Enabled(After(s, es), e)
    ensures Happens(s, es + [e]) && After(s, es + [e]) == Next(After(s, es), e)
    decreases es
  {
    hide Enabled, Next;
    if es == [] {
      assert es + [e] == [e] && [e][1..] == [];
      assert After(Next(s, e), []) == Next(s, e);
    } else {
      assert (es + [e])[1..] == es[1..] + [e];
      HappensOn(Next(s, es[0]), es[1..], e);
    }
  }

  datatype Reply = Accepted | InFlight | Unavailable | Failed

  /** What goes wrong in a request; `…Stored` when the statement took effect although it raised. */
  datatype RequestFaults = RequestFaults(
    acquireFails: bool, acquireStored: bool, commitFails: bool, commitStored: bool,
    enqueueFails: bool, enqueueStored: bool, undoFails: bool, undoStored: bool, releaseLost: bool)

  /** The answer of a request, given whether the lock it asks for is held. */
  function Answer(submit: bool, held: bool, f: RequestFaults): Reply {
    if submit && f.acquireFails then Unavailable
    else if submit && held then InFlight
    else if f.commitFails then Failed
    else if f.enqueueFails then Unavailable
    else Accepted
  }

  /** What goes wrong in a job: a cancellation before or while judging, and failures at each step. */
  datatype JobFaults = JobFaults(
    cancelledEarly: bool, problemMissing: bool, claimFails: bool, claimStored: bool,
    cancelledJudging: bool, judgingRaises: bool, verdict: nat, handlerFails: bool)

  function ClaimEvent(run: nat, f: JobFaults): Event {
    if f.cancelledEarly then ECancel(run)
    else if f.problemMissing then EProblemMissing(run)
    else if f.claimFails then EClaimFails(run, f.claimStored)
    else EClaim(run)
  }

  function SandboxEvent(run: nat, f: JobFaults): Event {
    if f.cancelledJudging then ECancel(run)
    else if f.judgingRaises then EJudgingRaises(run)
    else EVerdict(run, Settled(f.verdict))
  }

  /** How a request that must give its lock back ends. */
  function ReleaseEvent(id: Id, lost: bool): Event {
    if lost then ECallEnds(id) else ECallRelease(id)
  }

  function SweepEnd(id: Id, lost: bool): Event {
    if lost then ESweepDrops(id) else ESweepRelease(id)
  }

  function UndoEvent(id: Id, f: RequestFaults): Event {
    if f.undoFails then EFailPendingFails(id, f.undoStored) else EFailPending(id)
  }

  /** The undo found the row pending, or could not tell: the lock must go back. */
  predicate MustRelease(before: State, id: Id, f: RequestFaults) {
    InCall(before, id, EnqueueRaised) && before.calls[id].submit && (f.undoFails || Is(before, id, Pending))
  }

  predicate TookIn(log: seq<Event>, n: nat, e: Event, before: State) {
    n < |log| && log[n] == e && Happens(START, log[..n]) && After(START, log[..n]) == before
  }

  lemma TookLater(log: seq<Event>, later: seq<Event>, n: nat, e: Event, before: State)
    requires log <= later && TookIn(log, n, e, before)
    ensures TookIn(later, n, e, before)
  {
    assert later[..n] == log[..n];
  }

  class Pipeline {
    var state: State
    ghost var log: seq<Event>

    /** The state is what the steps taken so far, by anyone, lead to. */
    ghost predicate Valid()
      reads this
    {
      Happens(START, log) && After(START, log) == state
    }

    /** Step number `n` was `e`, taken in state `before`. */
    ghost predicate Took(n: nat, e: Event, before: State)
      reads this
    {
      TookIn(log, n, e, before)
    }

    constructor ()
      ensures Valid() && state == START && log == []
    {
      state := START;
      log := [];
    }

    /** One statement. */
    method Do(e: Event)
      requires Valid() && Enabled(state, e)
      modifies this
      ensures Valid() && state == Next(old(state), e) && log == old(log) + [e]
      ensures Took(|old(log)|, e, old(state))
    {
      HappensOn(START, log, e);
      state := Next(state, e);
      log := log + [e];
      assert log[..|old(log)|] == old(log);
    }

    /** Whatever the rest of the system does meanwhile; only this request moves on its own call. */
    method Elsewhere(ghost call: Id)
      requires Valid()
      modifies this
      ensures Valid() && old(log) <= log
      ensures call in old(state).calls ==> call in state.calls && state.calls[call] == old(state).calls[call]
    {
    }

    /** The same around a job run. */
    method ElsewhereFrom(ghost run: nat)
      requires Valid()
      modifies this
      ensures Valid() && old(log) <= log
      ensures run in old(state).jobs ==> run in state.jobs && state.jobs[run] == old(state).jobs[run]
    {
    }

    /** The release is best effort: a Redis error only leaves the lock to its expiry. */
    method GiveLockBack(id: Id, lost: bool)
      requires Valid() && InCall(state, id, CallReleasing)
      modifies this
      ensures Valid() && old(log) <= log && id !in state.calls
      ensures ReleaseEvent(id, lost) in log[|old(log)|..]
    {
      hide Happens, After, Valid;
      Elsewhere(id);
      ghost var before := log;
      Do(ReleaseEvent(id, lost));
      assert log[|before|] == ReleaseEvent(id, lost);
    }

    lemma Fresh(id: Id)
      requires Valid() && id !in state.used
      ensures id !in state.calls
    {
      RunKeepsInv(START, log);
    }

    /** Takes the lock, unless it is held; a lost reply may leave it taken with nobody to give it back. */
    method TakeLock(id: Id, key: Key, f: RequestFaults) returns (r: Reply)
      requires Valid() && id !in state.used
      modifies this
      ensures Valid() && old(log) <= log
      ensures r == if f.acquireFails then Unavailable else if key in old(state).locks then InFlight else Accepted
      ensures r == Accepted ==> InCall(state, id, Unwritten) && state.calls[id].submit
      ensures r == InFlight ==> log == old(log)
      ensures r != Accepted ==> id !in state.calls
    {
      hide Happens, After, Valid;
      Fresh(id);
      if f.acquireFails {
        if f.acquireStored && key !in state.locks { Do(EAcquireLost(id, key)); }
        return Unavailable;
      }
      if key in state.locks { return InFlight; }
      Do(EAcquire(id, key));
      r := Accepted;
    }

    /** A Run takes no lock. */
    method Begin(id: Id, key: Key, submit: bool, f: RequestFaults) returns (r: Reply)
      requires Valid() && id !in state.used
      modifies this
      ensures Valid() && old(log) <= log
      ensures r == Answer(submit, key in old(state).locks, f.(commitFails := false, enqueueFails := false))
      ensures r == Accepted ==> InCall(state, id, Unwritten) && state.calls[id].submit == submit
      ensures r == InFlight ==> log == old(log)
      ensures r != Accepted ==> id !in state.calls
    {
      hide Happens, After, Valid;
      r := Accepted;
      if submit { r := TakeLock(id, key, f); } else { Do(EBeginRun(id, key)); }
    }

    /** Writes the row; when that fails, a submit gives its lock back and nothing else is left. */
    method WriteRow(id: Id, f: RequestFaults)
      requires Valid() && InCall(state, id, Unwritten)
      modifies this
      ensures Valid() && old(log) <= log
      ensures !f.commitFails ==> InCall(state, id, Written) && EInsert(id) in log
      ensures !f.commitFails ==> state.calls[id].submit == old(state).calls[id].submit
      ensures f.commitFails ==> id !in state.calls && EInsertFails(id, f.commitStored) in log
      ensures f.commitFails && old(state).calls[id].submit ==> ReleaseEvent(id, f.releaseLost) in log
    {
      hide Happens, After, Valid, Took;
      Elsewhere(id);
      if f.commitFails {
        Do(EInsertFails(id, f.commitStored));
        ghost var failed := log;
        assert EInsertFails(id, f.commitStored) in failed;
        if id in state.calls { GiveLockBack(id, f.releaseLost); }
        assert failed <= log;
      } else {
        Do(EInsert(id));
      }
    }

    method EnqueueJob(id: Id, f: RequestFaults)
      requires Valid() && InCall(state, id, Written)
      modifies this
      ensures Valid() && old(log) <= log
      ensures !f.enqueueFails ==> id !in state.calls && id in state.known && EEnqueue(id) in log
      ensures f.enqueueFails ==> InCall(state, id, EnqueueRaised) && EEnqueueFails(id, f.enqueueStored) in log
      ensures f.enqueueFails ==> state.calls[id].submit == old(state).calls[id].submit
    {
      hide Happens, After, Valid, Took;
      Elsewhere(id);
      if f.enqueueFails { Do(EEnqueueFails(id, f.enqueueStored)); } else { Do(EEnqueue(id)); }
    }

    /**
      * Only a row still pending is failed; the lock goes back when it was, or when that cannot be told.
      * The undo is step number `at`, taken in state `before`.
      */
    method UndoRow(id: Id, f: RequestFaults) returns (ghost at: nat, ghost before: State)
      requires Valid() && InCall(state, id, EnqueueRaised)
      modifies this
      ensures Valid() && old(log) <= log && id !in state.calls
      ensures Took(at, UndoEvent(id, f), before) && before.calls.Keys >= {id}
      ensures before.calls[id] == old(state).calls[id]
      ensures MustRelease(before, id, f) <==> ReleaseEvent(id, f.releaseLost) in log[at + 1..]
    {
      hide Happens, After, Valid, TookIn;
      Elsewhere(id);
      at, before := |log|, state;
      Do(UndoEvent(id, f));
      ghost var undone := log;
      if id in state.calls { GiveLockBack(id, f.releaseLost); }
      assert undone <= log;
      TookLater(undone, log, at, UndoEvent(id, f), before);
    }

    /** The row was failed if still pending, and the lock given back if that had to be done. */
    ghost predicate Undone(id: Id, f: RequestFaults)
      reads this
    {
      exists n, before ::
        Took(n, UndoEvent(id, f), before) && (MustRelease(before, id, f) ==> ReleaseEvent(id, f.releaseLost) in log)
    }

    /** Enqueues the job of a row just written, or undoes the row. */
    method EnqueueOrUndo(id: Id, f: RequestFaults)
      requires Valid() && InCall(state, id, Written)
      modifies this
      ensures Valid() && old(log) <= log && id !in state.calls
      ensures (if f.enqueueFails then EEnqueueFails(id, f.enqueueStored) else EEnqueue(id)) in log
      ensures f.enqueueFails ==> Undone(id, f)
    {
      hide Happens, After, Valid, Enabled, Next, Took;
      EnqueueJob(id, f);
      ghost var enqueued := log;
      if f.enqueueFails {
        ghost var n, before := UndoRow(id, f);
        assert MustRelease(before, id, f) ==> ReleaseEvent(id, f.releaseLost) in log;
      }
      assert enqueued <= log;
    }

    /** A submit or a Run: lock, row, then job, undone as far as it got when a step fails. */
    method CreateSubmission(id: Id, key: Key, submit: bool, f: RequestFaults) returns (r: Reply)
      requires Valid() && id !in state.used
      modifies this
      ensures Valid() && old(log) <= log && id !in state.calls
      ensures r == Answer(submit, key in old(state).locks, f)
      ensures r == Accepted ==> EInsert(id) in log && EEnqueue(id) in log
      ensures r == InFlight ==> log == old(log)
      ensures r == Failed ==> EInsertFails(id, f.commitStored) in log
      ensures r == Failed && submit ==> ReleaseEvent(id, f.releaseLost) in log
      ensures r == Unavailable && !(submit && f.acquireFails) ==>
                && EInsert(id) in log && EEnqueueFails(id, f.enqueueStored) in log
                && Undone(id, f)
    {
      hide Happens, After, Valid, Enabled, Next, Undone;
      r := Begin(id, key, submit, f);
      if r != Accepted { return; }
      WriteRow(id, f);
      if f.commitFails { return Failed; }
      ghost var written := log;
      EnqueueOrUndo(id, f);
      assert written <= log;
      if f.enqueueFails { r := Unavailable; }
    }

    /**
      * The problem is read and the row claimed; a claim that is lost leaves only the release. The claim is step
      * number `at`, taken in state `before`.
      */
    method ClaimRow(run: nat, f: JobFaults) returns (ghost at: nat, ghost before: State)
      requires Valid() && InJob(state, run, Loaded)
      modifies this
      ensures Valid() && old(log) <= log && run in state.jobs && ClaimEvent(run, f) in log
      ensures Took(at, ClaimEvent(run, f), before) && before.jobs.Keys >= {run}
      ensures before.jobs[run] == old(state).jobs[run]
      ensures InJob(state, run, Judging) || InJob(state, run, Failing) || InJob(state, run, Cancelled)
           || InJob(state, run, JobReleasing)
      ensures InJob(state, run, Judging) <==>
                ClaimEvent(run, f) == EClaim(run) && Is(before, before.jobs[run].id, Pending)
    {
      hide Happens, After, Valid;
      ElsewhereFrom(run);
      at, before := |log|, state;
      Do(ClaimEvent(run, f));
    }

    /**
      * The sandbox runs and its verdict is written, whatever the row's status is by then, on that row only. The
      * verdict is step number `at`, taken in state `before`.
      */
    method RunSandbox(run: nat, f: JobFaults) returns (ghost at: nat, ghost before: State)
      requires Valid() && InJob(state, run, Judging)
      modifies this
      ensures Valid() && old(log) <= log && run in state.jobs && SandboxEvent(run, f) in log
      ensures Took(at, SandboxEvent(run, f), before)
      ensures InJob(state, run, Failing) || InJob(state, run, Cancelled) || InJob(state, run, JobReleasing)
      ensures !f.cancelledJudging && !f.judgingRaises ==>
                var id := old(state).jobs[run].id;
                if id in before.rows then
                  && InJob(state, run, JobReleasing)
                  && state.rows == before.rows[id := before.rows[id].(status := Settled(f.verdict))]
                else InJob(state, run, Failing) && state.rows == before.rows
      ensures f.cancelledJudging || f.judgingRaises ==> state.rows == before.rows && !InJob(state, run, JobReleasing)
    {
      hide Happens, After, Valid;
      ElsewhereFrom(run);
      at, before := |log|, state;
      Do(SandboxEvent(run, f));
    }

    /** A failure settles the row whatever it is; a cancellation only one still unfinished. */
    method SettleRow(run: nat, f: JobFaults)
      requires Valid() && (InJob(state, run, Failing) || InJob(state, run, Cancelled))
      modifies this
      ensures Valid() && old(log) <= log && InJob(state, run, JobReleasing)
      ensures f.handlerFails ==> EHandlerFails(run) in log
      ensures !f.handlerFails ==>
                (if old(InJob(state, run, Failing)) then EFailAlways(run) else EFailUnfinished(run)) in log
    {
      hide Happens, After, Valid;
      ElsewhereFrom(run);
      if f.handlerFails {
        Do(EHandlerFails(run));
      } else if InJob(state, run, Failing) {
        Do(EFailAlways(run));
      } else {
        Do(EFailUnfinished(run));
      }
    }

    method LoadRow(id: Id, run: nat, again: bool) returns (found: bool)
      requires Valid() && run !in state.jobs && id in state.queue
      modifies this
      ensures Valid() && old(log) <= log && found == (id in old(state).rows)
      ensures found ==> InJob(state, run, Loaded) && state.jobs[run].id == id && ELoad(run, id, again) in log
      ensures !found ==> ELoadMissing(id, again) in log
    {
      hide Happens, After, Valid;
      found := id in state.rows;
      if found { Do(ELoad(run, id, again)); } else { Do(ELoadMissing(id, again)); }
    }

    method FinishJob(run: nat)
      requires Valid() && InJob(state, run, JobReleasing)
      modifies this
      ensures Valid() && old(log) <= log && InJob(state, run, Finished) && EJobRelease(run) in log
    {
      hide Happens, After, Valid;
      ElsewhereFrom(run);
      Do(EJobRelease(run));
    }

    /**
      * Claim the row, judge it, write the verdict; whatever fails, settle the row and release the lock. The claim
      * is step number `n`, taken in state `claimed`; when it is won, the sandbox's end is step `m`, in `judged`.
      */
    method JudgeSubmission(id: Id, run: nat, again: bool, f: JobFaults)
      returns (ghost n: nat, ghost claimed: State, ghost m: nat, ghost judged: State)
      requires Valid() && run !in state.jobs && id in state.queue
      modifies this
      ensures Valid() && old(log) <= log
      ensures id in old(state).rows ==>
                && InJob(state, run, Finished)
                && ELoad(run, id, again) in log && EJobRelease(run) in log
                && Took(n, ClaimEvent(run, f), claimed)
                && (ClaimEvent(run, f) == EClaim(run) && Is(claimed, id, Pending) ==>
                      Took(m, SandboxEvent(run, f), judged))
      ensures id !in old(state).rows ==> ELoadMissing(id, again) in log
    {
      hide Happens, After, Enabled, Next, Valid, TookIn, ClaimEvent, SandboxEvent;
      n, claimed, m, judged := 0, state, 0, state;
      var found := LoadRow(id, run, again);
      if !found { return; }
      ghost var loaded := log;
      n, claimed := ClaimRow(run, f);
      ghost var first := log;
      assert loaded <= first;
      if InJob(state, run, Judging) { m, judged := RunSandbox(run, f); }
      ghost var second := log;
      if !InJob(state, run, JobReleasing) { SettleRow(run, f); }
      FinishJob(run);
      assert first <= second <= log;
      TookLater(first, log, n, ClaimEvent(run, f), claimed);
      if ClaimEvent(run, f) == EClaim(run) && Is(claimed, id, Pending) {
        TookLater(second, log, m, SandboxEvent(run, f), judged);
      }
    }

    /** The same around a sweep: only it makes the releases it owes. */
    method ElsewhereOwing(ghost owing: set<Id>)
      requires Valid()
      modifies this
      ensures Valid() && old(log) <= log
      ensures forall id :: id in owing && id in old(state).owed ==> id in state.owed
    {
    }

    /** One conditional update fails the stale rows; then each one's lock is released, or left to expire. */
    method SweepStale(stale: set<Id>, lost: set<Id>)
      requires Valid() && forall id :: id in stale ==> Active(state, id)
      modifies this
      ensures Valid() && old(log) <= log && ESweep(stale) in log
      ensures forall id :: id in stale ==> SweepEnd(id, id in lost) in log
    {
      hide Happens, After, Valid, Took;
      Do(ESweep(stale));
      ghost var first := log;
      assert ESweep(stale) in first && forall id :: id in stale ==> id in state.owed;
      hide Next, Enabled;
      var left := stale;
      while left != {}
        invariant Valid() && old(log) <= first <= log && left <= stale
        invariant forall id :: id in left ==> id in state.owed
        invariant forall id :: id in stale && id !in left ==> SweepEnd(id, id in lost) in log
        decreases left
      {
        var id :| id in left;
        ghost var before := log;
        ElsewhereOwing(left);
        SweepEnds(id, id in lost);
        left := left - {id};
        assert before <= log;
      }
    }

    method SweepEnds(id: Id, lost: bool)
      requires Valid() && id in state.owed
      modifies this
      ensures Valid() && old(log) <= log && state.owed == old(state).owed - {id}
      ensures SweepEnd(id, lost) in log
    {
      hide Happens, After, Valid, Took;
      Do(SweepEnd(id, lost));
    }
  }
}
