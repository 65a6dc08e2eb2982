/**
  * At most one live submit per user and problem. The property is not kept by every run: this module
  * shows exactly which steps put it at risk, and that it holds until such a step is taken.
  */
module SubmissionExclusion {
  import opened Submissions
  import opened SubmissionLinks
  import opened SubmissionLocks
  import opened SubmissionRuns

  /** Two live submits of one user on one problem. */
  ghost predicate Overlap(s: State) {
    exists a, b :: a != b && Live(s, a) && Live(s, b) && s.rows[a].key == s.rows[b].key
  }

  /** A submit begins and writes its row, or a request or a job makes the release it has come to. */
  predicate Ordinary(e: Event) {
    e.EAcquire? || e.EInsert? || e.ECallRelease? || e.EJobRelease?
  }

  predicate AllOrdinary(es: seq<Event>) {
    forall e :: e in es ==> Ordinary(e)
  }

  /** No ordinary steps from here make two submits of one key live. */
  ghost predicate Safe(s: State) {
    forall es :: Happens(s, es) && AllOrdinary(es) ==> !Overlap(After(s, es))
  }

  /** Every state of the run is safe. */
  ghost predicate StaysSafe(s: State, es: seq<Event>)
    requires Happens(s, es)
    decreases es
  {
    Safe(s) && (es != [] ==> StaysSafe(Next(s, es[0]), es[1..]))
  }

  predicate AllGuarded(s: State, es: seq<Event>)
    requires Happens(s, es)
    decreases es
  {
    es != [] ==> Guard(s, es[0]) && AllGuarded(Next(s, es[0]), es[1..])
  }

  // ----- guarded steps keep it -----

  lemma LocksExclude(s: State)
    requires LocksOk(s)
    ensures !Overlap(s)
  {
    forall a, b | Live(s, a) && Live(s, b) && s.rows[a].key == s.rows[b].key
      ensures a == b
    {
      assert LockOk(s, a) && LockOk(s, b);
    }
  }

  lemma {:induction false} GuardedRun(s: State, es: seq<Event>)
    requires Linked(s) && LocksOk(s) && Happens(s, es) && AllGuarded(s, es)
    ensures Linked(After(s, es)) && LocksOk(After(s, es))
    decreases es
  {
    hide Linked, LocksOk, Enabled, Next, Guard;
    if es != [] {
      StepKeepsLinks(s, es[0]);
      GuardKeepsLocks(s, es[0]);
      GuardedRun(Next(s, es[0]), es[1..]);
    }
  }

  lemma {:induction false} OrdinaryIsGuarded(s: State, es: seq<Event>)
    requires Happens(s, es) && AllOrdinary(es)
    ensures AllGuarded(s, es)
    decreases es
  {
    hide Enabled, Next;
    if es != [] {
      assert Ordinary(es[0]);
      OrdinaryIsGuarded(Next(s, es[0]), es[1..]);
    }
  }

  lemma LocksMakeSafe(s: State)
    requires Linked(s) && LocksOk(s)
    ensures Safe(s)
  {
    hide Linked, LocksOk, Happens, After, AllOrdinary, Overlap;
    forall es | Happens(s, es) && AllOrdinary(es)
      ensures !Overlap(After(s, es))
    {
      OrdinaryIsGuarded(s, es);
      GuardedRun(s, es);
      LocksExclude(After(s, es));
    }
  }

  /** Every live submit owns its lock, so no two of one user on one problem are live together. */
  lemma OneLiveSubmit(es: seq<Event>, a: Id, b: Id)
    requires Happens(START, es) && AllGuarded(START, es)
    ensures var s := After(START, es);
            && (Live(s, a) ==> Holds(s, s.rows[a].key, a))
            && (Live(s, a) && Live(s, b) && s.rows[a].key == s.rows[b].key ==> a == b)
  {
    hide Happens, After, AllGuarded;
    GuardedRun(START, es);
    var s := After(START, es);
    assert LockOk(s, a) && LockOk(s, b);
  }

  // ----- runs of few steps -----

  lemma {:induction false} HappensThen(s: State, es: seq<Event>, fs: seq<Event>)
    requires Happens(s, es) && Happens(After(s, es), fs)
    ensures Happens(s, es + fs) && After(s, es + fs) == After(After(s, es), fs)
    decreases es
  {
    hide Enabled, Next;
    if es == [] {
      assert es + fs == fs;
    } else {
      assert (es + fs)[1..] == es[1..] + fs;
      HappensThen(Next(s, es[0]), es[1..], fs);
    }
  }

  lemma EndsWith(s: State, e: Event)
    requires Enabled(s, e)
    ensures Happens(s, [e]) && After(s, [e]) == Next(s, e)
  {
    hide Enabled, Next;
    assert [e][1..] == [];
    assert Happens(Next(s, e), []) && After(Next(s, e), []) == Next(s, e);
  }

  /** `es` leads from `s` to two live submits of one key by ordinary steps. */
  ghost predicate LeadsToOverlap(s: State, es: seq<Event>) {
    Happens(s, es) && AllOrdinary(es) && Overlap(After(s, es))
  }

  lemma StepThen(s: State, e: Event, es: seq<Event>)
    requires Enabled(s, e) && Ordinary(e) && LeadsToOverlap(Next(s, e), es)
    ensures LeadsToOverlap(s, [e] + es)
  {
    hide Enabled, Next, Overlap;
    EndsWith(s, e);
    HappensThen(s, [e], es);
  }

  // ----- other steps put it at risk -----

  lemma FreshId(used: set<Id>) returns (id: Id)
    ensures id !in used
  {
    id := 0;
    var rest := used;
    while id in used
      invariant forall j :: 0 <= j < id ==> j !in rest
      invariant rest <= used && forall j :: j in used && j !in rest ==> j < id
      decreases |rest|
    {
      rest := rest - {id};
      id := id + 1;
    }
  }

  /** Once a live submit's lock is free, another submit gets in. */
  lemma SecondSubmit(s: State, a: Id, key: Key) returns (es: seq<Event>)
    requires Linked(s) && Live(s, a) && s.rows[a].key == key && key !in s.locks
    ensures LeadsToOverlap(s, es)
  {
    var b := FreshId(s.used);
    assert LinkAt(s, a) && LinkAt(s, b);
    hide Linked;
    var t := Next(s, EAcquire(b, key));
    TwoLive(t, a, b, key);
    EndsWith(t, EInsert(b));
    StepThen(s, EAcquire(b, key), [EInsert(b)]);
    es := [EAcquire(b, key)] + [EInsert(b)];
  }

  lemma TwoLive(s: State, a: Id, b: Id, key: Key)
    requires a != b && Live(s, a) && s.rows[a].key == key
    requires Opening(s, b) && s.calls[b].key == key
    ensures Overlap(Next(s, EInsert(b)))
  {
    var t := Next(s, EInsert(b));
    assert Live(t, a) && Live(t, b) && t.rows[a].key == t.rows[b].key;
  }

  /** So it does when the submit whose lock is free has still to write its row. */
  lemma SecondOpening(s: State, a: Id, key: Key) returns (es: seq<Event>)
    requires Linked(s) && Opening(s, a) && s.calls[a].key == key && key !in s.locks
    ensures LeadsToOverlap(s, es)
  {
    StepKeepsLinks(s, EInsert(a));
    es := SecondSubmit(Next(s, EInsert(a)), a, key);
    StepThen(s, EInsert(a), es);
    es := [EInsert(a)] + es;
  }

  /** A step that releases a live submit's lock makes room for another. */
  lemma ReleaseFirst(s: State, e: Event, a: Id) returns (es: seq<Event>)
    requires Linked(s) && Live(s, a) && Holds(s, s.rows[a].key, a) && Enabled(s, e)
    requires e == ECallRelease(a) || (e.EJobRelease? && s.jobs[e.run].id == a)
    ensures LeadsToOverlap(s, es)
  {
    assert LinkAt(s, a) && (e.EJobRelease? ==> LinkJob(s, e.run));
    StepKeepsLinks(s, e);
    var key := s.rows[a].key;
    var t := Next(s, e);
    assert t.rows == s.rows && key !in t.locks;
    hide Linked, Enabled, Next;
    es := SecondSubmit(t, a, key);
    StepThen(s, e, es);
    es := [e] + es;
  }

  lemma ExpiryOverlaps(s: State, key: Key) returns (es: seq<Event>)
    requires Linked(s) && Enabled(s, EExpire(key)) && !Guard(s, EExpire(key))
    ensures LeadsToOverlap(Next(s, EExpire(key)), es)
  {
    var owner, t := s.locks[key], Next(s, EExpire(key));
    StepKeepsLinks(s, EExpire(key));
    hide Linked;
    if Live(s, owner) && s.rows[owner].key == key {
      es := SecondSubmit(t, owner, key);
    } else {
      es := SecondOpening(t, owner, key);
    }
  }

  lemma RequestOverlaps(s: State, e: Event) returns (es: seq<Event>)
    requires Linked(s) && LocksOk(s) && Enabled(s, e) && !Guard(s, e) && (e.EInsertFails? || e.EFailPendingFails?)
    ensures LeadsToOverlap(Next(s, e), es)
  {
    assert LockOk(s, e.id) && LinkAt(s, e.id);
    StepKeepsLinks(s, e);
    var t := Next(s, e);
    assert Live(t, e.id) && Holds(t, t.rows[e.id].key, e.id) && InCall(t, e.id, CallReleasing);
    hide Linked, LocksOk, Next;
    es := ReleaseFirst(t, ECallRelease(e.id), e.id);
  }

  lemma JobOverlaps(s: State, e: Event) returns (es: seq<Event>)
    requires Linked(s) && LocksOk(s) && Enabled(s, e) && !Guard(s, e) && (e.EClaim? || e.EHandlerFails?)
    ensures LeadsToOverlap(Next(s, e), es)
  {
    var a, t := s.jobs[e.run].id, Next(s, e);
    assert LockOk(s, a);
    StepKeepsLinks(s, e);
    assert Live(t, a) && Holds(t, t.rows[a].key, a) && InJob(t, e.run, JobReleasing) && t.jobs[e.run].id == a;
    hide Linked, LocksOk, Next;
    es := ReleaseFirst(t, EJobRelease(e.run), a);
  }

  /** After a step that breaks its guard, ordinary steps lead to two live submits of one key. */
  lemma UnguardedOverlaps(s: State, e: Event) returns (es: seq<Event>)
    requires Linked(s) && LocksOk(s) && Enabled(s, e) && !Guard(s, e)
    ensures LeadsToOverlap(Next(s, e), es)
  {
    hide Linked, LocksOk, Next, LeadsToOverlap;
    if e.EExpire? {
      es := ExpiryOverlaps(s, e.key);
    } else if e.EInsertFails? || e.EFailPendingFails? {
      es := RequestOverlaps(s, e);
    } else {
      es := JobOverlaps(s, e);
    }
  }

  /** A step keeps every live submit's lock its own, and the state safe, exactly when its guard holds. */
  lemma StepKeepsExclusion(s: State, e: Event)
    requires Linked(s) && LocksOk(s) && Enabled(s, e)
    ensures Guard(s, e) <==> LocksOk(Next(s, e))
    ensures Guard(s, e) <==> Safe(Next(s, e))
  {
    hide Linked, LocksOk, Next, Guard, Happens, AllOrdinary, Overlap;
    StepKeepsLinks(s, e);
    if Guard(s, e) {
      GuardKeepsLocks(s, e);
    } else {
      var es := UnguardedOverlaps(s, e);
      assert !Safe(Next(s, e));
    }
    if LocksOk(Next(s, e)) {
      LocksMakeSafe(Next(s, e));
    }
  }

  lemma {:induction false} StaysSafeFrom(s: State, es: seq<Event>)
    requires Linked(s) && LocksOk(s) && Happens(s, es)
    ensures StaysSafe(s, es) <==> AllGuarded(s, es)
    decreases es
  {
    hide Linked, LocksOk, Enabled, Next, Guard, Safe;
    LocksMakeSafe(s);
    if es != [] {
      StepKeepsLinks(s, es[0]);
      StepKeepsExclusion(s, es[0]);
      if Guard(s, es[0]) {
        StaysSafeFrom(Next(s, es[0]), es[1..]);
      } else {
        UnsafeFirst(Next(s, es[0]), es[1..]);
      }
    }
  }

  lemma UnsafeFirst(s: State, es: seq<Event>)
    requires Happens(s, es) && !Safe(s)
    ensures !StaysSafe(s, es)
  {
  }

  /** A run never comes to where two submits of one key may both be live exactly when each step met its guard. */
  lemma SafeExactlyWhenGuarded(es: seq<Event>)
    requires Happens(START, es)
    ensures StaysSafe(START, es) <==> AllGuarded(START, es)
  {
    StaysSafeFrom(START, es);
  }

  // ----- a failure handler cut short -----

  lemma ThreeSteps(s: State, a: Event, b: Event, c: Event)
    requires Enabled(s, a) && Enabled(Next(s, a), b) && Enabled(Next(Next(s, a), b), c)
    ensures Happens(s, [a, b, c]) && After(s, [a, b, c]) == Next(Next(Next(s, a), b), c)
  {
    hide Enabled, Next;
    assert [a, b, c][1..] == [b, c] && [b, c][1..] == [c] && [c][1..] == [];
    var t := Next(Next(s, a), b);
    assert Happens(Next(t, c), []) && After(Next(t, c), []) == Next(t, c);
    assert Happens(t, [c]) && After(t, [c]) == Next(t, c);
    assert Happens(Next(s, a), [b, c]);
  }

  const KEY := Key(0, 0)

  // One submit accepted; judged as far as its sandbox; its lock released while its row still runs.
  const QUEUED := State(map[0 := Row(KEY, true, Pending)], map[KEY := 0], {0}, {0}, map[], map[], map[], {}, {0},
    multiset{}, multiset{}, map[])
  const BROKEN := State(map[0 := Row(KEY, true, Running)], map[KEY := 0], {0}, {}, map[],
    map[0 := Job(0, KEY, true, Failing)], map[], {}, {0}, multiset{0}, multiset{0}, map[0 := 0])

  lemma Accepts()
    ensures var es := [EAcquire(0, KEY), EInsert(0), EEnqueue(0)];
            Happens(START, es) && After(START, es) == QUEUED
  {
    ThreeSteps(START, EAcquire(0, KEY), EInsert(0), EEnqueue(0));
  }

  const LOADED := QUEUED.(queue := {}, jobs := map[0 := Job(0, KEY, true, Loaded)], loadedBy := map[0 := 0])
  const JUDGED := BROKEN.(jobs := map[0 := Job(0, KEY, true, Judging)])

  lemma LoadsFirst()
    ensures Enabled(QUEUED, ELoad(0, 0, false)) && Next(QUEUED, ELoad(0, 0, false)) == LOADED
  {
  }

  lemma ClaimsFirst()
    ensures Enabled(LOADED, EClaim(0)) && Next(LOADED, EClaim(0)) == JUDGED
  {
  }

  lemma RaisesFirst()
    ensures Enabled(JUDGED, EJudgingRaises(0)) && Next(JUDGED, EJudgingRaises(0)) == BROKEN
  {
  }

  lemma Breaks()
    ensures var es := [ELoad(0, 0, false), EClaim(0), EJudgingRaises(0)];
            Happens(QUEUED, es) && After(QUEUED, es) == BROKEN
  {
    LoadsFirst();
    ClaimsFirst();
    RaisesFirst();
    hide *;
    ThreeSteps(QUEUED, ELoad(0, 0, false), EClaim(0), EJudgingRaises(0));
  }

  lemma Frees()
    ensures var es := [EHandlerFails(0), EJobRelease(0), EAcquire(1, KEY)];
            && Happens(BROKEN, es)
            && After(BROKEN, es).rows == BROKEN.rows && InCall(After(BROKEN, es), 1, Unwritten)
            && After(BROKEN, es).calls[1] == Call(KEY, true, Unwritten)
  {
    ThreeSteps(BROKEN, EHandlerFails(0), EJobRelease(0), EAcquire(1, KEY));
  }

  /** The steps up to where a second submit has the lock. */
  lemma SecondGetsLock() returns (es: seq<Event>)
    ensures Happens(START, es) && forall e :: e in es ==> !e.EExpire? && !e.EFailPendingFails? && !e.EInsertFails?
    ensures var s := After(START, es);
            s.rows == BROKEN.rows && InCall(s, 1, Unwritten) && s.calls[1] == Call(KEY, true, Unwritten)
  {
    Accepts();
    Breaks();
    Frees();
    hide *;
    var a, b := [EAcquire(0, KEY), EInsert(0), EEnqueue(0)], [ELoad(0, 0, false), EClaim(0), EJudgingRaises(0)];
    var c := [EHandlerFails(0), EJobRelease(0), EAcquire(1, KEY)];
    HappensThen(START, a, b);
    HappensThen(START, a + b, c);
    es := a + b + c;
  }

  /**
    * Why a failure handler cut short is guarded against above: the sandbox raises, the job is cancelled
    * while it records that, the row stays `running`, the lock goes, and a second submit gets in.
    */
  lemma HandlerCutShortOverlaps() returns (es: seq<Event>)
    ensures Happens(START, es) && forall e :: e in es ==> !e.EExpire? && !e.EFailPendingFails? && !e.EInsertFails?
    ensures var s := After(START, es);
            Active(s, 0) && Active(s, 1) && s.rows[0].submit && s.rows[1].submit && s.rows[0].key == s.rows[1].key
  {
    var first := SecondGetsLock();
    hide Happens, After;
    EndsWith(After(START, first), EInsert(1));
    HappensThen(START, first, [EInsert(1)]);
    es := first + [EInsert(1)];
  }
}
