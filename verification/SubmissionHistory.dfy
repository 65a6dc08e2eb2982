/** What else a state says about the run that led to it: who holds a lock, what was sandboxed, what waits. */
module SubmissionHistory {
  import opened SubmissionRuns
  import opened SubmissionSafety
  import opened SubmissionVerdicts
  import opened Submissions
  import opened Wrappers

  // ----- locks -----

  datatype LockChange = Untouched | Taken(id: Id) | Freed

  /** What a step does to the lock of `key`: releases compare the owner first. */
  function Locking(s: State, e: Event, key: Key): LockChange {
    match e
    case EAcquire(id, k) => if k == key then Taken(id) else Untouched
    case EAcquireLost(id, k) => if k == key then Taken(id) else Untouched
    case ECallRelease(id) =>
      if id in s.calls && s.calls[id].key == key && Holds(s, key, id) then Freed else Untouched
    case EJobRelease(run) =>
      if run in s.jobs && s.jobs[run].submit && s.jobs[run].key == key && Holds(s, key, s.jobs[run].id) then Freed
      else Untouched
    case ESweepRelease(id) =>
      if id in s.owed && s.owed[id] == key && Holds(s, key, id) then Freed else Untouched
    case EExpire(k) => if k == key then Freed else Untouched
    case _ => Untouched
  }

  predicate Locked(s: State, t: State, change: LockChange, key: Key) {
    match change
    case Taken(id) => Holds(t, key, id)
    case Freed => key !in t.locks
    case Untouched => (key in t.locks <==> key in s.locks) && (key in s.locks ==> t.locks[key] == s.locks[key])
  }

  lemma CallRestLocks(s: State, e: Event, key: Key)
    requires Enabled(s, e) && IsCall(e) && !CallWrites(e)
    ensures Locked(s, Next(s, e), Locking(s, e, key), key)
  {
  }

  lemma JobWriteLocks(s: State, e: Event, key: Key)
    requires Enabled(s, e) && JobWrites(e)
    ensures Next(s, e).locks == s.locks
  {
    hide JobTo, SetStatus;
    var id := s.jobs[e.run].id;
    JobMoves(s, s, e.run);
    SettingLeavesLocks(s, id);
    JobMoves(s, Claimed(s, id), e.run);
    JobMoves(s, Claimed(s, id).(sandboxes := s.sandboxes + multiset{id}), e.run);
    JobMoves(s, SetStatus(s, id, JudgeError), e.run);
    if e.EVerdict? { JobMoves(s, SetStatus(s, id, e.status), e.run); }
  }

  lemma SettingLeavesLocks(s: State, id: Id)
    ensures forall status :: SetStatus(s, id, status).locks == s.locks && SetStatus(s, id, status).jobs == s.jobs
  {
  }

  lemma JobMoves(s: State, t: State, run: nat)
    requires run in s.jobs && t.jobs == s.jobs && t.locks == s.locks
    ensures forall phase :: JobTo(t, run, phase).locks == s.locks
  {
  }

  lemma JobRestLocks(s: State, e: Event, key: Key)
    requires Enabled(s, e) && IsJob(e) && !JobWrites(e)
    ensures Locked(s, Next(s, e), Locking(s, e, key), key)
  {
    if !e.EJobRelease? {
      OtherJobLocks(s, e);
      hide Next, Enabled;
    }
  }

  lemma OtherJobLocks(s: State, e: Event)
    requires Enabled(s, e) && IsJob(e) && !JobWrites(e) && !e.EJobRelease?
    ensures Next(s, e).locks == s.locks
  {
    if !e.ELoad? && !e.ELoadMissing? {
      hide JobTo;
      JobMoves(s, s, e.run);
    }
  }

  lemma SweepLocks(s: State, e: Event, key: Key)
    requires Enabled(s, e) && !IsCall(e) && !IsJob(e)
    ensures Locked(s, Next(s, e), Locking(s, e, key), key)
  {
  }

  lemma StepLocks(s: State, e: Event, key: Key)
    requires Enabled(s, e)
    ensures Locked(s, Next(s, e), Locking(s, e, key), key)
  {
    hide Enabled, Next;
    if CallWrites(e) {
      CallWriteLeavesRest(s, e);
    } else if IsCall(e) {
      CallRestLocks(s, e, key);
    } else if JobWrites(e) {
      JobWriteLocks(s, e, key);
    } else if IsJob(e) {
      JobRestLocks(s, e, key);
    } else {
      SweepLocks(s, e, key);
    }
  }

  /** Who took the lock last, if nothing has freed it since. */
  function Holder(es: seq<Event>, key: Key): Option<Id>
    requires Happens(START, es)
    decreases |es|
  {
    if es == [] then None
    else
      LastStep(START, es);
      var n := |es| - 1;
      match Locking(After(START, es[..n]), es[n], key)
      case Taken(id) => Some(id)
      case Freed => None
      case Untouched => Holder(es[..n], key)
  }

  /** In every run a lock is held by the submission that took it last, until its release or its expiry. */
  lemma {:induction false} LockIsLastTaken(es: seq<Event>, key: Key)
    requires Happens(START, es)
    ensures var s := After(START, es);
            Holder(es, key) == if key in s.locks then Some(s.locks[key]) else None
    decreases |es|
  {
    hide Happens, Locking, Enabled, Next;
    if es == [] {
      EmptyRun();
    } else {
      var n := |es| - 1;
      LastStep(START, es);
      StepLocks(After(START, es[..n]), es[n], key);
      LockIsLastTaken(es[..n], key);
    }
  }

  // ----- sandboxes -----

  /** A sandbox starts exactly at a claim that is won. */
  lemma StepSandboxes(s: State, e: Event, id: Id)
    requires Enabled(s, e)
    ensures Next(s, e).sandboxes[id] ==
            s.sandboxes[id] + if e.EClaim? && JobOf(s, e.run, id) && Is(s, id, Pending) then 1 else 0
  {
    hide Enabled, Next;
    if CallWrites(e) {
      CallWriteLeavesRest(s, e);
    } else if IsCall(e) {
      CallRestSandboxes(s, e);
    } else if Claims(e) {
      ClaimSandboxes(s, e, id);
    } else if JobWrites(e) {
      JobSettleSandboxes(s, e);
    } else if IsJob(e) {
      JobRestSandboxes(s, e);
    } else {
      SweepSandboxes(s, e);
    }
  }

  lemma CallRestSandboxes(s: State, e: Event)
    requires Enabled(s, e) && IsCall(e) && !CallWrites(e)
    ensures Next(s, e).sandboxes == s.sandboxes
  {
  }

  lemma ClaimSandboxes(s: State, e: Event, id: Id)
    requires Enabled(s, e) && Claims(e)
    ensures Next(s, e).sandboxes[id] ==
            s.sandboxes[id] + if e.EClaim? && JobOf(s, e.run, id) && Is(s, id, Pending) then 1 else 0
  {
  }

  lemma JobSettleSandboxes(s: State, e: Event)
    requires Enabled(s, e) && JobWrites(e) && !Claims(e)
    ensures Next(s, e).sandboxes == s.sandboxes
  {
  }

  lemma JobRestSandboxes(s: State, e: Event)
    requires Enabled(s, e) && IsJob(e) && !JobWrites(e)
    ensures Next(s, e).sandboxes == s.sandboxes
  {
  }

  lemma SweepSandboxes(s: State, e: Event)
    requires Enabled(s, e) && !IsCall(e) && !IsJob(e)
    ensures Next(s, e).sandboxes == s.sandboxes
  {
  }

  ghost predicate WasClaimed(es: seq<Event>, id: Id)
    requires Happens(START, es)
  {
    exists m: nat, run :: ClaimedAt(es, m, run, id)
  }

  /** In every run a submission has a sandbox, and then one, exactly when a job has claimed it. */
  lemma {:induction false} SandboxedWhenClaimed(es: seq<Event>, id: Id)
    requires Happens(START, es)
    ensures After(START, es).sandboxes[id] == if WasClaimed(es, id) then 1 else 0
    decreases |es|
  {
    hide Happens, Enabled, Next, After;
    ClaimedAtMostOnce(es, id);
    if es == [] {
      EmptyRun();
    } else {
      var n := |es| - 1;
      LastStep(START, es);
      StepSandboxes(After(START, es[..n]), es[n], id);
      SandboxedWhenClaimed(es[..n], id);
      ClaimedOn(es, id);
    }
  }

  lemma ClaimedOn(es: seq<Event>, id: Id)
    requires Happens(START, es) && es != []
    ensures var n := |es| - 1;
            && Happens(START, es[..n])
            && (WasClaimed(es, id) <==>
                  WasClaimed(es[..n], id)
                  || (es[n].EClaim? && JobOf(After(START, es[..n]), es[n].run, id)
                      && Is(After(START, es[..n]), id, Pending)))
  {
    hide Happens, After;
    var n := |es| - 1;
    LastStep(START, es);
    forall m: nat | m < n ensures Before(es[..n], m) == Before(es, m) {
      BeforeShorter(es, m);
    }
    if m: nat, run :| ClaimedAt(es[..n], m, run, id) {
      assert ClaimedAt(es, m, run, id);
    }
    if m: nat, run :| ClaimedAt(es, m, run, id) {
      assert m < n ==> ClaimedAt(es[..n], m, run, id);
    }
    if es[n].EClaim? && JobOf(After(START, es[..n]), es[n].run, id) && Is(After(START, es[..n]), id, Pending) {
      assert ClaimedAt(es, n, es[n].run, id);
    }
  }

  // ----- the queue -----

  /** A job enqueued, or a lost one that a sweep has seen pending, waits unless its id is known already. */
  lemma EnqueuedWaits(s: State, e: Event, id: Id)
    requires Enabled(s, e) && (e == EEnqueue(id) || e == ERequeue(id) || e == EEnqueueFails(id, true))
    ensures id in Next(s, e).known && (id !in s.known ==> id in Next(s, e).queue)
    ensures forall other :: other != id ==> (other in Next(s, e).queue <==> other in s.queue)
  {
  }

  /** A delivery takes the job from the queue unless it will come again. */
  lemma DeliveredLeaves(s: State, e: Event)
    requires Enabled(s, e) && (e.ELoad? || e.ELoadMissing?)
    ensures e.id in Next(s, e).queue <==> e.again
    ensures Next(s, e).known == s.known
    ensures forall other :: other != e.id ==> (other in Next(s, e).queue <==> other in s.queue)
  {
  }
}
