/**
  * The shared state of the submission pipeline and its steps: each is one database statement with its
  * commit, or one Redis command, together with where it leaves the code that issued it.
  */
module Submissions {
  type Id = nat
  datatype Key = Key(user: nat, problem: nat)

  // Settled holds whatever status a verdict wrote.
  datatype Status = Pending | Running | JudgeError | Settled(verdict: nat)

  datatype Row = Row(key: Key, submit: bool, status: Status) {
    predicate Active() {
      status == Pending || status == Running
    }
  }

  // A request between two statements: its row is not written yet, it is written, its enqueue raised,
  // or only its lock is left to give back.
  datatype CallPhase = Unwritten | Written | EnqueueRaised | CallReleasing

  datatype Call = Call(key: Key, submit: bool, phase: CallPhase)

  datatype JobPhase = Loaded | Judging | Failing | Cancelled | JobReleasing | Finished

  datatype Job = Job(id: Id, key: Key, submit: bool, phase: JobPhase)

  datatype State = State(
    rows: map<Id, Row>,         // the submissions table
    locks: map<Key, Id>,        // the in-flight locks and their owners
    known: set<Id>,             // job ids that may not be enqueued again
    queue: set<Id>,             // jobs waiting for a worker
    calls: map<Id, Call>,       // requests under way, by the submission id they chose
    jobs: map<nat, Job>,        // job runs, by run number
    owed: map<Id, Key>,         // releases a sweep has still to make
    seen: set<Id>,              // pending rows a sweep has read
    used: set<Id>,              // ids ever chosen
    claims: multiset<Id>,       // successful claims so far
    sandboxes: multiset<Id>,    // sandboxes started so far
    loadedBy: map<Id, nat>      // the last job run that loaded each submission
  )

  const START := State(map[], map[], {}, {}, map[], map[], map[], {}, {}, multiset{}, multiset{}, map[])

  predicate InCall(s: State, id: Id, phase: CallPhase) {
    id in s.calls && s.calls[id].phase == phase
  }

  predicate InJob(s: State, run: nat, phase: JobPhase) {
    run in s.jobs && s.jobs[run].phase == phase
  }

  predicate Is(s: State, id: Id, status: Status) {
    id in s.rows && s.rows[id].status == status
  }

  predicate Active(s: State, id: Id) {
    id in s.rows && s.rows[id].Active()
  }

  predicate Holds(s: State, key: Key, id: Id) {
    key in s.locks && s.locks[key] == id
  }

  // ----- statements -----

  /** Compare and delete: only the owner's own lock goes. */
  function Release(s: State, key: Key, owner: Id): State {
    if key in s.locks && s.locks[key] == owner then s.(locks := s.locks - {key}) else s
  }

  function SetStatus(s: State, id: Id, status: Status): State {
    if id in s.rows then s.(rows := s.rows[id := s.rows[id].(status := status)]) else s
  }

  /** arq refuses an id it knows. */
  function Queued(s: State, id: Id): State {
    if id in s.known then s else s.(known := s.known + {id}, queue := s.queue + {id})
  }

  function CallTo(s: State, id: Id, phase: CallPhase): State
    requires id in s.calls
  {
    s.(calls := s.calls[id := s.calls[id].(phase := phase)])
  }

  function EndCall(s: State, id: Id): State {
    s.(calls := s.calls - {id})
  }

  function JobTo(s: State, run: nat, phase: JobPhase): State
    requires run in s.jobs
  {
    s.(jobs := s.jobs[run := s.jobs[run].(phase := phase)])
  }

  function NewRow(s: State, id: Id): State
    requires id in s.calls
  {
    s.(rows := s.rows[id := Row(s.calls[id].key, s.calls[id].submit, Pending)])
  }

  // ----- a request -----

  predicate MayAcquire(s: State, id: Id, key: Key) {
    id !in s.used && key !in s.locks
  }

  function Acquire(s: State, id: Id, key: Key): State {
    s.(locks := s.locks[key := id], used := s.used + {id}, calls := s.calls[id := Call(key, true, Unwritten)])
  }

  /** The lock is set but its reply is lost, so the request gives up. */
  function AcquireLost(s: State, id: Id, key: Key): State {
    s.(locks := s.locks[key := id], used := s.used + {id})
  }

  /** A Run takes no lock. */
  function BeginRun(s: State, id: Id, key: Key): State {
    s.(used := s.used + {id}, calls := s.calls[id := Call(key, false, Unwritten)])
  }

  function Insert(s: State, id: Id): State
    requires id in s.calls
  {
    CallTo(NewRow(s, id), id, Written)
  }

  /** A submit still has to give its lock back; a Run is over. */
  function CallUndo(s: State, id: Id): State
    requires id in s.calls
  {
    if s.calls[id].submit then CallTo(s, id, CallReleasing) else EndCall(s, id)
  }

  /** The commit raises; `stored` when the row was written all the same. */
  function InsertFails(s: State, id: Id, stored: bool): State
    requires id in s.calls
  {
    CallUndo(if stored then NewRow(s, id) else s, id)
  }

  function Enqueue(s: State, id: Id): State {
    EndCall(Queued(s, id), id)
  }

  function EnqueueFails(s: State, id: Id, stored: bool): State
    requires id in s.calls
  {
    CallTo(if stored then Queued(s, id) else s, id, EnqueueRaised)
  }

  /** Only a row still pending is failed, and only then is the lock given back. */
  function FailPending(s: State, id: Id): State
    requires id in s.calls
  {
    if Is(s, id, Pending) then CallUndo(SetStatus(s, id, JudgeError), id) else EndCall(s, id)
  }

  /** The database fails too: the lock is given back without knowing what the row is. */
  function FailPendingFails(s: State, id: Id, stored: bool): State
    requires id in s.calls
  {
    CallUndo(if stored && Is(s, id, Pending) then SetStatus(s, id, JudgeError) else s, id)
  }

  function CallRelease(s: State, id: Id): State
    requires id in s.calls
  {
    EndCall(Release(s, s.calls[id].key, id), id)
  }

  function Delete(s: State, id: Id): State {
    s.(rows := s.rows - {id})
  }

  // ----- a judge job -----

  /** `again` when the queue will deliver the job once more. */
  function Load(s: State, run: nat, id: Id, again: bool): State
    requires id in s.rows
  {
    s.(jobs := s.jobs[run := Job(id, s.rows[id].key, s.rows[id].submit, Loaded)],
       queue := if again then s.queue else s.queue - {id}, loadedBy := s.loadedBy[id := run])
  }

  function LoadMissing(s: State, id: Id, again: bool): State {
    s.(queue := if again then s.queue else s.queue - {id})
  }

  function Claimed(s: State, id: Id): State {
    SetStatus(s, id, Running).(claims := s.claims + multiset{id})
  }

  function Claim(s: State, run: nat): State
    requires run in s.jobs
  {
    var id := s.jobs[run].id;
    if Is(s, id, Pending) then JobTo(Claimed(s, id).(sandboxes := s.sandboxes + multiset{id}), run, Judging)
    else JobTo(s, run, JobReleasing)
  }

  function ClaimFails(s: State, run: nat, stored: bool): State
    requires run in s.jobs
  {
    var id := s.jobs[run].id;
    JobTo(if stored && Is(s, id, Pending) then Claimed(s, id) else s, run, Failing)
  }

  /** The verdict is written whatever the row's status is by now. */
  function Verdict(s: State, run: nat, status: Status): State
    requires run in s.jobs
  {
    var id := s.jobs[run].id;
    if id in s.rows then JobTo(SetStatus(s, id, status), run, JobReleasing) else JobTo(s, run, Failing)
  }

  function FailAlways(s: State, run: nat): State
    requires run in s.jobs
  {
    JobTo(SetStatus(s, s.jobs[run].id, JudgeError), run, JobReleasing)
  }

  function FailUnfinished(s: State, run: nat): State
    requires run in s.jobs
  {
    var id := s.jobs[run].id;
    JobTo(if Active(s, id) then SetStatus(s, id, JudgeError) else s, run, JobReleasing)
  }

  function JobRelease(s: State, run: nat): State
    requires run in s.jobs
  {
    var j := s.jobs[run];
    JobTo(if j.submit then Release(s, j.key, j.id) else s, run, Finished)
  }

  // ----- a sweep -----

  /** One UPDATE fails every stale row; their locks are released afterwards, one by one. */
  function Sweep(s: State, stale: set<Id>): State {
    s.(rows := map id | id in s.rows :: if id in stale then s.rows[id].(status := JudgeError) else s.rows[id],
       owed := s.owed + (map id | id in stale && id in s.rows :: s.rows[id].key))
  }

  function SweepRelease(s: State, id: Id): State
    requires id in s.owed
  {
    Release(s, s.owed[id], id).(owed := s.owed - {id})
  }

  function SweepDrops(s: State, id: Id): State {
    s.(owed := s.owed - {id})
  }

  function SeePending(s: State, id: Id): State {
    s.(seen := s.seen + {id})
  }

  function Requeue(s: State, id: Id): State {
    Queued(s, id).(seen := s.seen - {id})
  }

  /** arq drops a kept result. */
  function ForgetJob(s: State, id: Id): State {
    s.(known := s.known - {id})
  }

  function Expire(s: State, key: Key): State {
    s.(locks := s.locks - {key})
  }

  // ----- what every step keeps, failures and duplicates included -----

  ghost predicate Inv(s: State) {
    && (forall id :: id in s.rows || id in s.calls || id in s.claims ==> id in s.used)
    && (forall run :: run in s.jobs ==> s.jobs[run].id in s.used)
    && (forall id :: InCall(s, id, Unwritten) ==> id !in s.rows && id !in s.claims)
    && (forall id :: Is(s, id, Pending) ==> id !in s.claims)
    && (forall id :: Is(s, id, Running) ==> id in s.claims)
    && (forall id :: s.claims[id] <= 1 && s.sandboxes[id] <= s.claims[id])
    && (forall run :: InJob(s, run, Judging) ==> s.jobs[run].id in s.claims)
  }

  /** A step that makes no row, call or job more than it was: rows only vanish or are settled. */
  ghost predicate Calms(s: State, t: State) {
    && t.used == s.used && t.claims == s.claims && t.sandboxes == s.sandboxes
    && (forall id :: id in t.rows ==> id in s.rows && (t.rows[id] == s.rows[id] || !t.rows[id].Active()))
    && (forall id :: id in t.calls ==> id in s.calls)
    && (forall id :: InCall(t, id, Unwritten) ==> InCall(s, id, Unwritten))
    && (forall run :: run in t.jobs ==> run in s.jobs && t.jobs[run].id == s.jobs[run].id)
    && (forall run :: InJob(t, run, Judging) ==> InJob(s, run, Judging))
  }

  lemma CalmKeepsInv(s: State, t: State)
    requires Inv(s) && Calms(s, t)
    ensures Inv(t)
  {
  }

  lemma CalmAgain(s: State, t: State, u: State)
    requires Calms(s, t) && Calms(t, u)
    ensures Calms(s, u)
  {
  }

  lemma ReleaseCalms(s: State, key: Key, owner: Id)
    ensures Calms(s, Release(s, key, owner))
  {
  }

  lemma SettleCalms(s: State, id: Id, status: Status)
    requires status != Pending && status != Running
    ensures Calms(s, SetStatus(s, id, status))
  {
  }

  lemma CallToCalms(s: State, id: Id, phase: CallPhase)
    requires id in s.calls && phase != Unwritten
    ensures Calms(s, CallTo(s, id, phase))
  {
  }

  lemma JobToCalms(s: State, run: nat, phase: JobPhase)
    requires run in s.jobs && phase != Judging
    ensures Calms(s, JobTo(s, run, phase))
  {
  }

  lemma SweepCalms(s: State, stale: set<Id>)
    ensures Calms(s, Sweep(s, stale))
  {
  }

  lemma EndCallCalms(s: State, id: Id)
    ensures Calms(s, EndCall(s, id))
  {
  }

  lemma DeleteCalms(s: State, id: Id)
    ensures Calms(s, Delete(s, id))
  {
  }

  predicate SameView(s: State, t: State) {
    && t.rows == s.rows && t.calls == s.calls && t.jobs == s.jobs
    && t.used == s.used && t.claims == s.claims && t.sandboxes == s.sandboxes
  }

  lemma SameViewCalms(s: State, t: State)
    requires SameView(s, t)
    ensures Calms(s, t)
  {
  }

  lemma QueuesCalm(s: State, id: Id, again: bool)
    ensures Calms(s, Queued(s, id)) && Calms(s, Requeue(s, id)) && Calms(s, LoadMissing(s, id, again))
  {
    hide Calms;
    SameViewCalms(s, Queued(s, id));
    SameViewCalms(s, Requeue(s, id));
    SameViewCalms(s, LoadMissing(s, id, again));
  }

  lemma NotesCalm(s: State, id: Id, key: Key)
    ensures Calms(s, SweepDrops(s, id)) && Calms(s, SeePending(s, id)) && Calms(s, ForgetJob(s, id))
    ensures Calms(s, Expire(s, key))
    ensures id in s.owed ==> Calms(s, SweepRelease(s, id))
  {
    hide Calms;
    SameViewCalms(s, SweepDrops(s, id));
    SameViewCalms(s, SeePending(s, id));
    SameViewCalms(s, ForgetJob(s, id));
    SameViewCalms(s, Expire(s, key));
    if id in s.owed { SameViewCalms(s, SweepRelease(s, id)); }
  }

  // ----- request steps -----

  lemma NewIdKeepsInv(s: State, id: Id)
    requires Inv(s) && id !in s.used
    ensures Inv(s.(used := s.used + {id}))
  {
  }

  lemma NewCallKeepsInv(s: State, id: Id, call: Call)
    requires Inv(s) && id in s.used && id !in s.rows && id !in s.claims
    ensures Inv(s.(calls := s.calls[id := call]))
  {
  }

  lemma BeginKeepsInv(s: State, id: Id, key: Key)
    requires Inv(s) && id !in s.used
    ensures Inv(Acquire(s, id, key)) && Inv(AcquireLost(s, id, key)) && Inv(BeginRun(s, id, key))
  {
    NewIdKeepsInv(s, id);
    var t := s.(used := s.used + {id});
    assert id !in s.rows && id !in s.claims;
    hide Inv, Calms;
    NewCallKeepsInv(t, id, Call(key, true, Unwritten));
    NewCallKeepsInv(t, id, Call(key, false, Unwritten));
    SameViewKeepsInv(t.(calls := s.calls[id := Call(key, true, Unwritten)]), Acquire(s, id, key));
    SameViewKeepsInv(t, AcquireLost(s, id, key));
    SameViewKeepsInv(t.(calls := s.calls[id := Call(key, false, Unwritten)]), BeginRun(s, id, key));
  }

  lemma SameViewKeepsInv(s: State, t: State)
    requires Inv(s) && SameView(s, t)
    ensures Inv(t)
  {
    hide Inv, Calms;
    SameViewCalms(s, t);
    CalmKeepsInv(s, t);
  }

  lemma RowAddedKeepsInv(s: State, id: Id, row: Row)
    requires Inv(s) && !InCall(s, id, Unwritten) && id in s.used && id !in s.claims && row.status == Pending
    ensures Inv(s.(rows := s.rows[id := row]))
  {
  }

  /** The row is written as the request moves on. */
  lemma NewRowKeepsInv(s: State, id: Id, phase: CallPhase)
    requires Inv(s) && InCall(s, id, Unwritten) && phase != Unwritten
    ensures Inv(CallTo(NewRow(s, id), id, phase)) && Inv(EndCall(NewRow(s, id), id))
  {
    var row := Row(s.calls[id].key, s.calls[id].submit, Pending);
    var t, u := CallTo(s, id, phase), EndCall(s, id);
    CallToCalms(s, id, phase);
    EndCallCalms(s, id);
    CalmKeepsInv(s, t);
    CalmKeepsInv(s, u);
    assert id in s.used && id !in s.claims;
    hide Inv, Calms;
    RowAddedKeepsInv(t, id, row);
    RowAddedKeepsInv(u, id, row);
    SameViewKeepsInv(t.(rows := s.rows[id := row]), CallTo(NewRow(s, id), id, phase));
    SameViewKeepsInv(u.(rows := s.rows[id := row]), EndCall(NewRow(s, id), id));
  }

  lemma CallUndoCalms(s: State, id: Id)
    requires id in s.calls
    ensures Calms(s, CallUndo(s, id))
  {
    CallToCalms(s, id, CallReleasing);
    EndCallCalms(s, id);
  }

  lemma InsertFailsKeepsInv(s: State, id: Id, stored: bool)
    requires Inv(s) && InCall(s, id, Unwritten)
    ensures Inv(InsertFails(s, id, stored))
  {
    hide Inv, Calms, NewRow, CallTo, EndCall;
    NewRowKeepsInv(s, id, CallReleasing);
    CallUndoCalms(s, id);
    CalmKeepsInv(s, CallUndo(s, id));
    assert NewRow(s, id).calls == s.calls by { RowLeavesCalls(s, id); }
  }

  lemma RowLeavesCalls(s: State, id: Id)
    requires id in s.calls
    ensures NewRow(s, id).calls == s.calls
  {
  }

  lemma FailPendingCalms(s: State, id: Id, stored: bool)
    requires id in s.calls
    ensures Calms(s, FailPending(s, id)) && Calms(s, FailPendingFails(s, id, stored))
  {
    hide Calms, CallUndo, EndCall;
    var t := SetStatus(s, id, JudgeError);
    SettleCalms(s, id, JudgeError);
    CallUndoCalms(s, id);
    CallUndoCalms(t, id);
    CalmAgain(s, t, CallUndo(t, id));
    EndCallCalms(s, id);
  }

  lemma CallRestCalms(s: State, id: Id, stored: bool)
    requires id in s.calls
    ensures Calms(s, Enqueue(s, id)) && Calms(s, EnqueueFails(s, id, stored)) && Calms(s, CallRelease(s, id))
  {
    hide Calms, EndCall, CallTo;
    var t, u := Queued(s, id), Release(s, s.calls[id].key, id);
    QueuesCalm(s, id, false);
    EndCallCalms(t, id);
    CalmAgain(s, t, EndCall(t, id));
    CallToCalms(t, id, EnqueueRaised);
    CallToCalms(s, id, EnqueueRaised);
    CalmAgain(s, t, CallTo(t, id, EnqueueRaised));
    ReleaseCalms(s, s.calls[id].key, id);
    EndCallCalms(u, id);
    CalmAgain(s, u, EndCall(u, id));
  }

  // ----- job steps -----

  lemma LoadKeepsInv(s: State, run: nat, id: Id, again: bool)
    requires Inv(s) && id in s.rows
    ensures Inv(Load(s, run, id, again))
  {
  }

  lemma ClaimedKeepsInv(s: State, id: Id)
    requires Inv(s) && Is(s, id, Pending)
    ensures Inv(Claimed(s, id)) && Inv(Claimed(s, id).(sandboxes := s.sandboxes + multiset{id}))
    ensures id in Claimed(s, id).claims
  {
    ClaimCountedKeepsInv(s, id);
    var t := Claimed(s, id);
    assert t.sandboxes[id] == 0 && t.claims[id] == 1;
    SandboxKeepsInv(t, id);
  }

  lemma ClaimCountedKeepsInv(s: State, id: Id)
    requires Inv(s) && Is(s, id, Pending)
    ensures Inv(Claimed(s, id)) && s.claims[id] == 0 && s.sandboxes[id] == 0
  {
  }

  lemma SandboxKeepsInv(s: State, id: Id)
    requires Inv(s) && s.sandboxes[id] < s.claims[id]
    ensures Inv(s.(sandboxes := s.sandboxes + multiset{id}))
  {
  }

  lemma JudgingKeepsInv(s: State, run: nat)
    requires Inv(s) && run in s.jobs && s.jobs[run].id in s.claims
    ensures Inv(JobTo(s, run, Judging))
  {
  }

  lemma JobToKeepsInv(s: State, run: nat, phase: JobPhase)
    requires Inv(s) && run in s.jobs && phase != Judging
    ensures Inv(JobTo(s, run, phase))
  {
    hide Inv, Calms;
    JobToCalms(s, run, phase);
    CalmKeepsInv(s, JobTo(s, run, phase));
  }

  lemma ClaimKeepsInv(s: State, run: nat, stored: bool)
    requires Inv(s) && InJob(s, run, Loaded)
    ensures Inv(Claim(s, run)) && Inv(ClaimFails(s, run, stored))
  {
    hide Inv, JobTo, SetStatus;
    var id := s.jobs[run].id;
    if Is(s, id, Pending) {
      ClaimedKeepsInv(s, id);
      ClaimLeavesJobs(s, id);
      JudgingKeepsInv(Claimed(s, id).(sandboxes := s.sandboxes + multiset{id}), run);
      JobToKeepsInv(Claimed(s, id), run, Failing);
    }
    JobToKeepsInv(s, run, JobReleasing);
    JobToKeepsInv(s, run, Failing);
  }

  lemma ClaimLeavesJobs(s: State, id: Id)
    ensures Claimed(s, id).jobs == s.jobs && SetStatus(s, id, JudgeError).jobs == s.jobs
  {
  }

  lemma SettleKeepsInv(s: State, run: nat, status: Status, phase: JobPhase)
    requires Inv(s) && run in s.jobs && phase != Judging && status != Pending && status != Running
    ensures run in SetStatus(s, s.jobs[run].id, status).jobs
    ensures Inv(JobTo(SetStatus(s, s.jobs[run].id, status), run, phase))
  {
    var t := SetStatus(s, s.jobs[run].id, status);
    assert t.jobs == s.jobs;
    hide Inv, Calms, SetStatus, JobTo;
    SettleCalms(s, s.jobs[run].id, status);
    CalmKeepsInv(s, t);
    JobToKeepsInv(t, run, phase);
  }

  lemma JobRestKeepsInv(s: State, run: nat, status: Status)
    requires Inv(s) && run in s.jobs && status != Pending && status != Running
    ensures Inv(Verdict(s, run, status)) && Inv(FailAlways(s, run)) && Inv(FailUnfinished(s, run))
    ensures Inv(JobRelease(s, run))
  {
    hide Inv, Calms, JobTo;
    var j := s.jobs[run];
    SettleKeepsInv(s, run, status, JobReleasing);
    SettleKeepsInv(s, run, JudgeError, JobReleasing);
    JobToKeepsInv(s, run, Failing);
    JobToKeepsInv(s, run, JobReleasing);
    JobToKeepsInv(s, run, Finished);
    ReleaseCalms(s, j.key, j.id);
    var t := Release(s, j.key, j.id);
    CalmKeepsInv(s, t);
    JobToKeepsInv(t, run, Finished);
  }
}
