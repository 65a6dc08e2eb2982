/**
  * Refresh-token rotation: requests that read, claim, spend grace and issue, one statement at a time,
  * between logouts, password changes, revocations and deletions.
  */
module RefreshTokens {
  import opened Wrappers

  type Tok = nat
  type User = nat
  type Req = nat

  const GRACE_SECONDS := 10

  /** Whose session it is, and whether the cookie outlives the browser's. */
  datatype Session = Session(user: User, persistent: bool)

  datatype Row = Row(user: User, persistent: bool, expires: int, revoked: Option<int>, rotated: Option<int>) {
    function Of(): Session {
      Session(user, persistent)
    }
  }

  // Read: the row was just read. Lost: the claim found it consumed. Checked: it is known to be consumed.
  // Claimed, Graced: its own update took effect and waits to be committed with the successor.
  // Reused: everything is to be revoked.
  datatype Phase = Read | Lost | Checked | Claimed | Graced | Reused | Done

  /** A rotation under way: its token, its own clock reading, and the row as it last read it. */
  datatype Rotation = Rotation(tok: Tok, now: int, snap: Row, phase: Phase)

  /** How a token came from another: by which rotation. */
  datatype Origin = Origin(parent: Tok, via: Req)

  datatype State = State(
    rows: map<Tok, Row>,            // the table as committed
    locks: map<Tok, Req>,           // rows a rotation has updated and not yet committed
    users: set<User>,
    reqs: map<Req, Rotation>,
    used: set<Tok>,                 // tokens ever issued
    claimer: map<Tok, Req>,         // the rotation whose claim changed the row
    gracer: map<Tok, Req>,          // the rotation that spent the grace
    origin: map<Tok, Origin>        // every successor ever issued
  )

  const START := State(map[], map[], {}, map[], {}, map[], map[], map[])

  predicate In(s: State, r: Req, phase: Phase) {
    r in s.reqs && s.reqs[r].phase == phase
  }

  /** Between its update and its commit. */
  predicate Issuing(s: State, r: Req) {
    In(s, r, Claimed) || In(s, r, Graced)
  }

  function To(s: State, r: Req, phase: Phase): State
    requires r in s.reqs
  {
    s.(reqs := s.reqs[r := s.reqs[r].(phase := phase)])
  }

  // ----- statements -----

  /** The row is read by its hash; one already revoked goes straight to the grace check. */
  function Begin(s: State, r: Req, tok: Tok, now: int): State
    requires tok in s.rows
  {
    var row := s.rows[tok];
    var phase := if row.revoked.Some? then Checked else if row.expires <= now then Done else Read;
    s.(reqs := s.reqs[r := Rotation(tok, now, row, phase)])
  }

  predicate Claims(s: State, r: Req)
    requires r in s.reqs
  {
    s.reqs[r].tok in s.rows && s.rows[s.reqs[r].tok].revoked.None?
  }

  /** UPDATE … WHERE id = … AND revoked_at IS NULL: the arbiter between concurrent rotations. */
  function Claim(s: State, r: Req): State
    requires r in s.reqs
  {
    if Claims(s, r) then To(s, r, Claimed).(locks := s.locks[s.reqs[r].tok := r]) else To(s, r, Lost)
  }

  /** The loser reads the row again; if it was deleted meanwhile, the request just fails. */
  function Reread(s: State, r: Req): State
    requires r in s.reqs
  {
    var q := s.reqs[r];
    if q.tok in s.rows then s.(reqs := s.reqs[r := q.(snap := s.rows[q.tok], phase := Checked)]) else To(s, r, Done)
  }

  predicate InGrace(q: Rotation) {
    q.snap.rotated.Some? && q.snap.expires > q.now && q.now - q.snap.rotated.value <= GRACE_SECONDS
  }

  predicate Spends(s: State, r: Req)
    requires r in s.reqs
  {
    var q := s.reqs[r];
    InGrace(q) && q.tok in s.rows && s.rows[q.tok].rotated == q.snap.rotated
  }

  /** UPDATE … WHERE id = … AND rotated_at = the value read: grace is spent once. */
  function Spend(s: State, r: Req): State
    requires r in s.reqs
  {
    if Spends(s, r) then To(s, r, Graced).(locks := s.locks[s.reqs[r].tok := r]) else To(s, r, Reused)
  }

  /** The consume is committed. */
  function Commit(s: State, r: Req): State
    requires r in s.reqs && s.reqs[r].tok in s.rows
  {
    var q := s.reqs[r];
    var row := s.rows[q.tok];
    var t := To(s, r, Done).(locks := s.locks - {q.tok});
    if q.phase == Claimed then
      t.(rows := s.rows[q.tok := row.(revoked := Some(q.now), rotated := Some(q.now))],
         claimer := s.claimer[q.tok := r])
    else
      t.(rows := s.rows[q.tok := row.(rotated := None)], gracer := s.gracer[q.tok := r])
  }

  /** The successor is written and committed with it, unless the user was deleted. */
  function Issue(s: State, r: Req, next: Tok, expires: int): State
    requires r in s.reqs && s.reqs[r].tok in s.rows
  {
    var q := s.reqs[r];
    var t := Commit(s, r);
    if q.snap.user in s.users then
      t.(rows := t.rows[next := Row(q.snap.user, q.snap.persistent, expires, None, None)], used := s.used + {next},
         origin := s.origin[next := Origin(q.tok, r)])
    else t
  }

  /** The request dies; an update not committed is rolled back. */
  function Fail(s: State, r: Req): State
    requires r in s.reqs
  {
    if Issuing(s, r) then To(s, r, Done).(locks := s.locks - {s.reqs[r].tok}) else To(s, r, Done)
  }

  function RevokedIf(row: Row, revoke: bool, now: int): Row {
    row.(revoked := if revoke && row.revoked.None? then Some(now) else row.revoked, rotated := None)
  }

  /** The rows a revocation of the user's sessions updates: active ones but the kept one, and any in grace. */
  predicate Revokes(row: Row, user: User, revoke: bool) {
    row.user == user && ((revoke && row.revoked.None?) || row.rotated.Some?)
  }

  /**
    * Every active token of the user but the kept one is revoked, and no consumed one stays in grace. A row
    * that another transaction committed while the update was already waiting is missed.
    */
  function RevokeAll(s: State, user: User, keep: Option<Tok>, missed: set<Tok>, now: int): State {
    s.(rows := map t | t in s.rows ::
      if s.rows[t].user == user && t !in missed then RevokedIf(s.rows[t], keep != Some(t), now) else s.rows[t])
  }

  /** An update waits for the rows it is to change. */
  predicate MayRevoke(s: State, user: User, keep: Option<Tok>, missed: set<Tok>) {
    forall t :: t in s.rows && t !in missed && Revokes(s.rows[t], user, keep != Some(t)) ==> t !in s.locks
  }

  predicate MayEndGrace(s: State, user: User) {
    forall t :: t in s.rows && s.rows[t].user == user && s.rows[t].rotated.Some? ==> t !in s.locks
  }

  /** Reuse detection. */
  function RevokeReused(s: State, r: Req, missed: set<Tok>, now: int): State
    requires r in s.reqs
  {
    To(RevokeAll(s, s.reqs[r].snap.user, None, missed, now), r, Done)
  }

  /** Logout ends one session, and the grace of all the user's tokens. */
  function Logout(s: State, tok: Tok, now: int): State
    requires tok in s.rows
  {
    var t := s.(rows := s.rows[tok := s.rows[tok].(revoked := Some(now))]);
    t.(rows := map k | k in t.rows ::
      if t.rows[k].user == s.rows[tok].user then t.rows[k].(rotated := None) else t.rows[k])
  }

  function Login(s: State, user: User, persistent: bool, next: Tok, expires: int): State {
    s.(rows := s.rows[next := Row(user, persistent, expires, None, None)], used := s.used + {next})
  }

  function Prune(s: State, tok: Tok): State {
    s.(rows := s.rows - {tok})
  }

  datatype Event =
    | EBegin(r: Req, tok: Tok, now: int)
    | EClaim(r: Req)
    | EReread(r: Req)
    | ESpend(r: Req)
    | EIssue(r: Req, next: Tok, expires: int)
    | ERevokeReused(r: Req, missed: set<Tok>, now: int)
    | EFails(r: Req)
    | ERevokeAll(user: User, keep: Option<Tok>, missed: set<Tok>, now: int)   // a password change or reset
    | ELogout(tok: Tok, now: int)
    | ELogin(user: User, persistent: bool, next: Tok, expires: int)
    | EPrune(tok: Tok)
    | EAddUser(user: User)
    | EDeleteUser(user: User)

  predicate Enabled(s: State, e: Event) {
    match e
    case EBegin(r, tok, _) => r !in s.reqs && tok in s.rows
    case EClaim(r) => In(s, r, Read) && (Claims(s, r) ==> s.reqs[r].tok !in s.locks)
    case EReread(r) => In(s, r, Lost)
    case ESpend(r) => In(s, r, Checked) && (Spends(s, r) ==> s.reqs[r].tok !in s.locks)
    case EIssue(r, next, _) => Issuing(s, r) && s.reqs[r].tok in s.rows && next !in s.used
    case ERevokeReused(r, missed, _) => In(s, r, Reused) && MayRevoke(s, s.reqs[r].snap.user, None, missed)
    case EFails(r) => r in s.reqs
    case ERevokeAll(user, keep, missed, _) => MayRevoke(s, user, keep, missed)
    case ELogout(tok, _) => tok in s.rows && tok !in s.locks && MayEndGrace(s, s.rows[tok].user)
    case ELogin(user, _, next, _) => user in s.users && next !in s.used
    case EPrune(tok) => tok in s.rows && tok !in s.locks
    case EAddUser(_) => true
    case EDeleteUser(_) => true
  }

  function Next(s: State, e: Event): State
    requires Enabled(s, e)
  {
    match e
    case EBegin(r, tok, now) => Begin(s, r, tok, now)
    case EClaim(r) => Claim(s, r)
    case EReread(r) => Reread(s, r)
    case ESpend(r) => Spend(s, r)
    case EIssue(r, next, expires) => Issue(s, r, next, expires)
    case ERevokeReused(r, missed, now) => RevokeReused(s, r, missed, now)
    case EFails(r) => Fail(s, r)
    case ERevokeAll(user, keep, missed, now) => RevokeAll(s, user, keep, missed, now)
    case ELogout(tok, now) => Logout(s, tok, now)
    case ELogin(user, persistent, next, expires) => Login(s, user, persistent, next, expires)
    case EPrune(tok) => Prune(s, tok)
    case EAddUser(user) => s.(users := s.users + {user})
    case EDeleteUser(user) => s.(users := s.users - {user})
  }

  predicate Happens(s: State, es: seq<Event>)
    decreases es
  {
    es != [] ==> Enabled(s, es[0]) && Happens(Next(s, es[0]), es[1..])
  }

  function After(s: State, es: seq<Event>): State
    requires Happens(s, es)
    decreases es
  {
    if es == [] then s else After(Next(s, es[0]), es[1..])
  }

  // ----- what every step keeps, token by token and rotation by rotation -----

  /** A locked row is as it was when its rotation's update matched it. */
  predicate LockOk(s: State, t: Tok)
    requires t in s.locks
  {
    var r := s.locks[t];
    && t in s.rows && r in s.reqs && s.reqs[r].tok == t
    && if s.reqs[r].phase == Claimed then s.rows[t].revoked.None?
       else s.reqs[r].phase == Graced && InGrace(s.reqs[r]) && s.rows[t].rotated == s.reqs[r].snap.rotated
  }

  /** A token is claimed at most once, and in grace only between its claim and the spending of its grace. */
  predicate TokOk(s: State, t: Tok) {
    && (t in s.rows || t in s.claimer || t in s.origin ==> t in s.used)
    && (t in s.locks ==> LockOk(s, t))
    && (t in s.rows && s.rows[t].revoked.None? ==> t !in s.claimer && s.rows[t].rotated.None?)
    && (t in s.rows && s.rows[t].rotated.Some? ==>
          && t in s.claimer && t !in s.gracer && s.claimer[t] in s.reqs
          && s.rows[t].rotated.value == s.reqs[s.claimer[t]].now)
    && (t in s.gracer ==>
          && t in s.claimer && s.claimer[t] in s.reqs && s.gracer[t] in s.reqs
          && s.reqs[s.gracer[t]].now - s.reqs[s.claimer[t]].now <= GRACE_SECONDS)
  }

  predicate WonBy(s: State, t: Tok, r: Req) {
    (t in s.claimer && s.claimer[t] == r) || (t in s.gracer && s.gracer[t] == r)
  }

  /** A rotation about to commit holds its token's row. */
  predicate ReqOk(s: State, r: Req) {
    Issuing(s, r) ==> s.reqs[r].tok in s.locks && s.locks[s.reqs[r].tok] == r
  }

  /** A successor was issued by a rotation that won its parent and is over. */
  predicate OriginOk(s: State, n: Tok) {
    n in s.origin ==> WonBy(s, s.origin[n].parent, s.origin[n].via) && In(s, s.origin[n].via, Done)
  }

  predicate DistinctOrigins(s: State, m: Tok, n: Tok) {
    m in s.origin && n in s.origin && s.origin[m].via == s.origin[n].via ==> m == n
  }

  ghost predicate Inv(s: State) {
    && (forall t :: TokOk(s, t)) && (forall r :: ReqOk(s, r)) && (forall n :: OriginOk(s, n))
    && (forall m, n :: DistinctOrigins(s, m, n))
  }

  lemma BeginKeeps(s: State, r: Req, tok: Tok, now: int)
    requires Inv(s) && r !in s.reqs && tok in s.rows
    ensures Inv(Begin(s, r, tok, now))
  {
    var u := Begin(s, r, tok, now);
    forall t ensures TokOk(u, t) { assert TokOk(s, t); }
    forall q ensures ReqOk(u, q) { assert ReqOk(s, q); }
    forall n ensures OriginOk(u, n) { assert OriginOk(s, n); }
    forall m, n ensures DistinctOrigins(u, m, n) { assert DistinctOrigins(s, m, n); }
  }

  /** A rotation that is not over moves on without an update of its own. */
  lemma MoveKeeps(s: State, r: Req, snap: Row, phase: Phase)
    requires Inv(s) && r in s.reqs && !Issuing(s, r) && !In(s, r, Done) && phase != Claimed && phase != Graced
    ensures Inv(s.(reqs := s.reqs[r := s.reqs[r].(snap := snap, phase := phase)]))
  {
    var u := s.(reqs := s.reqs[r := s.reqs[r].(snap := snap, phase := phase)]);
    forall t ensures TokOk(u, t) { assert TokOk(s, t); }
    forall q ensures ReqOk(u, q) { assert ReqOk(s, q); }
    forall n ensures OriginOk(u, n) { assert OriginOk(s, n); }
    forall m, n ensures DistinctOrigins(u, m, n) { assert DistinctOrigins(s, m, n); }
  }

  /** Or it locks the row that its update matches. */
  lemma LockKeeps(s: State, r: Req, phase: Phase)
    requires Inv(s) && (In(s, r, Read) || In(s, r, Checked)) && s.reqs[r].tok !in s.locks
    requires (phase == Claimed && Claims(s, r)) || (phase == Graced && Spends(s, r))
    ensures Inv(To(s, r, phase).(locks := s.locks[s.reqs[r].tok := r]))
  {
    var u := To(s, r, phase).(locks := s.locks[s.reqs[r].tok := r]);
    assert TokOk(s, s.reqs[r].tok);
    forall t ensures TokOk(u, t) { assert TokOk(s, t); }
    forall q ensures ReqOk(u, q) { assert ReqOk(s, q); }
    forall n ensures OriginOk(u, n) { assert OriginOk(s, n); }
    forall m, n ensures DistinctOrigins(u, m, n) { assert DistinctOrigins(s, m, n); }
  }

  lemma ClaimKeeps(s: State, r: Req)
    requires Inv(s) && Enabled(s, EClaim(r))
    ensures Inv(Claim(s, r))
  {
    hide Inv;
    if Claims(s, r) {
      LockKeeps(s, r, Claimed);
    } else {
      MoveKeeps(s, r, s.reqs[r].snap, Lost);
    }
  }

  lemma RereadKeeps(s: State, r: Req)
    requires Inv(s) && In(s, r, Lost)
    ensures Inv(Reread(s, r))
  {
    hide Inv;
    var q := s.reqs[r];
    MoveKeeps(s, r, q.snap, Done);
    if q.tok in s.rows {
      MoveKeeps(s, r, s.rows[q.tok], Checked);
    }
  }

  lemma SpendKeeps(s: State, r: Req)
    requires Inv(s) && Enabled(s, ESpend(r))
    ensures Inv(Spend(s, r))
  {
    hide Inv;
    if Spends(s, r) {
      LockKeeps(s, r, Graced);
    } else {
      MoveKeeps(s, r, s.reqs[r].snap, Reused);
    }
  }

  lemma CommitClaimKeeps(s: State, r: Req)
    requires Inv(s) && In(s, r, Claimed) && s.reqs[r].tok in s.rows
    ensures Inv(Commit(s, r))
  {
    var u := Commit(s, r);
    assert TokOk(s, s.reqs[r].tok) && ReqOk(s, r);
    forall t ensures TokOk(u, t) { assert TokOk(s, t); }
    forall q ensures ReqOk(u, q) { assert ReqOk(s, q); }
    forall n ensures OriginOk(u, n) { assert OriginOk(s, n); }
    forall m, n ensures DistinctOrigins(u, m, n) { assert DistinctOrigins(s, m, n); }
  }

  lemma CommitGraceKeeps(s: State, r: Req)
    requires Inv(s) && In(s, r, Graced) && s.reqs[r].tok in s.rows
    ensures Inv(Commit(s, r))
  {
    var u := Commit(s, r);
    assert TokOk(s, s.reqs[r].tok) && ReqOk(s, r);
    forall t ensures TokOk(u, t) { assert TokOk(s, t); }
    forall q ensures ReqOk(u, q) { assert ReqOk(s, q); }
    forall n ensures OriginOk(u, n) { assert OriginOk(s, n); }
    forall m, n ensures DistinctOrigins(u, m, n) { assert DistinctOrigins(s, m, n); }
  }

  lemma CommitKeeps(s: State, r: Req)
    requires Inv(s) && Issuing(s, r) && s.reqs[r].tok in s.rows
    ensures Inv(Commit(s, r))
  {
    hide Inv, Commit;
    if In(s, r, Claimed) {
      CommitClaimKeeps(s, r);
    } else {
      CommitGraceKeeps(s, r);
    }
  }

  lemma SuccessorKeeps(s: State, r: Req, row: Row, next: Tok)
    requires Inv(s) && In(s, r, Done) && WonBy(s, s.reqs[r].tok, r) && next !in s.used
    requires row.revoked.None? && row.rotated.None? && forall n :: n in s.origin ==> s.origin[n].via != r
    ensures Inv(s.(rows := s.rows[next := row], used := s.used + {next},
                   origin := s.origin[next := Origin(s.reqs[r].tok, r)]))
  {
    var u := s.(rows := s.rows[next := row], used := s.used + {next},
                origin := s.origin[next := Origin(s.reqs[r].tok, r)]);
    assert TokOk(s, next);
    forall t ensures TokOk(u, t) { assert TokOk(s, t); }
    forall q ensures ReqOk(u, q) { assert ReqOk(s, q); }
    forall n ensures OriginOk(u, n) { assert OriginOk(s, n); }
    forall m, n ensures DistinctOrigins(u, m, n) { assert DistinctOrigins(s, m, n); }
  }

  lemma IssueKeeps(s: State, r: Req, next: Tok, expires: int)
    requires Inv(s) && Enabled(s, EIssue(r, next, expires))
    ensures Inv(Issue(s, r, next, expires))
  {
    var t := Commit(s, r);
    CommitKeeps(s, r);
    assert t.used == s.used && t.users == s.users && In(t, r, Done) && WonBy(t, t.reqs[r].tok, r);
    forall n | n in t.origin ensures t.origin[n].via != r { assert OriginOk(s, n); }
    hide Inv, Commit;
    var snap := s.reqs[r].snap;
    SuccessorKeeps(t, r, Row(snap.user, snap.persistent, expires, None, None), next);
  }

  lemma RevokeAllKeeps(s: State, user: User, keep: Option<Tok>, missed: set<Tok>, now: int)
    requires Inv(s) && MayRevoke(s, user, keep, missed)
    ensures Inv(RevokeAll(s, user, keep, missed, now))
  {
    var u := RevokeAll(s, user, keep, missed, now);
    forall t ensures TokOk(u, t) { assert TokOk(s, t); }
    forall q ensures ReqOk(u, q) { assert ReqOk(s, q); }
    forall n ensures OriginOk(u, n) { assert OriginOk(s, n); }
    forall m, n ensures DistinctOrigins(u, m, n) { assert DistinctOrigins(s, m, n); }
  }

  lemma LogoutKeeps(s: State, tok: Tok, now: int)
    requires Inv(s) && Enabled(s, ELogout(tok, now))
    ensures Inv(Logout(s, tok, now))
  {
    var u := Logout(s, tok, now);
    forall t ensures TokOk(u, t) { assert TokOk(s, t); }
    forall q ensures ReqOk(u, q) { assert ReqOk(s, q); }
    forall n ensures OriginOk(u, n) { assert OriginOk(s, n); }
    forall m, n ensures DistinctOrigins(u, m, n) { assert DistinctOrigins(s, m, n); }
  }

  lemma FailKeeps(s: State, r: Req)
    requires Inv(s) && r in s.reqs
    ensures Inv(Fail(s, r))
  {
    var u := Fail(s, r);
    assert ReqOk(s, r);
    forall t ensures TokOk(u, t) { assert TokOk(s, t); }
    forall q ensures ReqOk(u, q) { assert ReqOk(s, q); }
    forall n ensures OriginOk(u, n) { assert OriginOk(s, n); }
    forall m, n ensures DistinctOrigins(u, m, n) { assert DistinctOrigins(s, m, n); }
  }

  lemma EndKeeps(s: State, r: Req)
    requires Inv(s) && r in s.reqs && !Issuing(s, r)
    ensures Inv(To(s, r, Done))
  {
    var u := To(s, r, Done);
    assert ReqOk(s, r);
    forall t ensures TokOk(u, t) { assert TokOk(s, t); }
    forall q ensures ReqOk(u, q) { assert ReqOk(s, q); }
    forall n ensures OriginOk(u, n) { assert OriginOk(s, n); }
    forall m, n ensures DistinctOrigins(u, m, n) { assert DistinctOrigins(s, m, n); }
  }

  lemma LoginKeeps(s: State, user: User, persistent: bool, next: Tok, expires: int)
    requires Inv(s) && next !in s.used
    ensures Inv(Login(s, user, persistent, next, expires))
  {
    var u := Login(s, user, persistent, next, expires);
    forall t ensures TokOk(u, t) { assert TokOk(s, t); }
    forall q ensures ReqOk(u, q) { assert ReqOk(s, q); }
    forall n ensures OriginOk(u, n) { assert OriginOk(s, n); }
    forall m, n ensures DistinctOrigins(u, m, n) { assert DistinctOrigins(s, m, n); }
  }

  lemma PruneKeeps(s: State, tok: Tok)
    requires Inv(s) && tok !in s.locks
    ensures Inv(Prune(s, tok))
  {
    var u := Prune(s, tok);
    forall t ensures TokOk(u, t) { assert TokOk(s, t); }
    forall q ensures ReqOk(u, q) { assert ReqOk(s, q); }
    forall n ensures OriginOk(u, n) { assert OriginOk(s, n); }
    forall m, n ensures DistinctOrigins(u, m, n) { assert DistinctOrigins(s, m, n); }
  }

  lemma UsersKeep(s: State, users: set<User>)
    requires Inv(s)
    ensures Inv(s.(users := users))
  {
    var u := s.(users := users);
    forall t ensures TokOk(u, t) { assert TokOk(s, t); }
    forall q ensures ReqOk(u, q) { assert ReqOk(s, q); }
    forall n ensures OriginOk(u, n) { assert OriginOk(s, n); }
    forall m, n ensures DistinctOrigins(u, m, n) { assert DistinctOrigins(s, m, n); }
  }

  lemma StepKeepsInv(s: State, e: Event)
    requires Inv(s) && Enabled(s, e)
    ensures Inv(Next(s, e))
  {
    hide Inv, Begin, Claim, Reread, Spend, Issue, Fail, To, RevokeAll, Logout, Login, Prune;
    match e
    case EBegin(r, tok, now) => BeginKeeps(s, r, tok, now);
    case EClaim(r) => ClaimKeeps(s, r);
    case EReread(r) => RereadKeeps(s, r);
    case ESpend(r) => SpendKeeps(s, r);
    case EIssue(r, next, expires) => IssueKeeps(s, r, next, expires);
    case ERevokeReused(r, missed, now) => RevokeReusedKeeps(s, r, missed, now);
    case EFails(r) => FailKeeps(s, r);
    case ERevokeAll(user, keep, missed, now) => RevokeAllKeeps(s, user, keep, missed, now);
    case ELogout(tok, now) => LogoutKeeps(s, tok, now);
    case ELogin(user, persistent, next, expires) => LoginKeeps(s, user, persistent, next, expires);
    case EPrune(tok) => PruneKeeps(s, tok);
    case EAddUser(user) => UsersKeep(s, s.users + {user});
    case EDeleteUser(user) => UsersKeep(s, s.users - {user});
  }

  lemma RevokeReusedKeeps(s: State, r: Req, missed: set<Tok>, now: int)
    requires Inv(s) && Enabled(s, ERevokeReused(r, missed, now))
    ensures Inv(RevokeReused(s, r, missed, now))
  {
    var t := RevokeAll(s, s.reqs[r].snap.user, None, missed, now);
    assert t.reqs == s.reqs;
    hide Inv, RevokeAll, To, MayRevoke;
    RevokeAllKeeps(s, s.reqs[r].snap.user, None, missed, now);
    EndKeeps(t, r);
  }

  lemma {:induction false} RunKeepsInv(s: State, es: seq<Event>)
    requires Inv(s) && Happens(s, es)
    ensures Inv(After(s, es))
    decreases es
  {
    hide Inv, Enabled, Next;
    if es != [] {
      StepKeepsInv(s, es[0]);
      RunKeepsInv(Next(s, es[0]), es[1..]);
    }
  }

  // ----- at most two successors -----

  ghost function Successors(s: State, t: Tok): set<Tok> {
    set n | n in s.origin && s.origin[n].parent == t
  }

  /** The successors issued by one rotation: it issues once. */
  ghost function IssuedBy(s: State, t: Tok, won: map<Tok, Req>): set<Tok> {
    set n | n in s.origin && s.origin[n].parent == t && t in won && s.origin[n].via == won[t]
  }

  lemma IssuedOnce(s: State, t: Tok, won: map<Tok, Req>)
    requires Inv(s)
    ensures |IssuedBy(s, t, won)| <= 1
  {
    var made := IssuedBy(s, t, won);
    if made != {} {
      var n :| n in made;
      forall m | m in made ensures m == n { assert DistinctOrigins(s, m, n); }
      assert made == {n};
    }
  }

  /**
    * Under any interleaving a token gets at most two successors: one by the claim, and at most one by
    * the grace, whose rotation read its clock at most ten seconds after the claim's did.
    */
  lemma AtMostTwoSuccessors(es: seq<Event>, t: Tok)
    requires Happens(START, es)
    ensures var s := After(START, es);
            && Successors(s, t) == IssuedBy(s, t, s.claimer) + IssuedBy(s, t, s.gracer)
            && |IssuedBy(s, t, s.claimer)| <= 1 && |IssuedBy(s, t, s.gracer)| <= 1 && |Successors(s, t)| <= 2
    ensures var s := After(START, es);
            t in s.gracer ==>
              && t in s.claimer && s.claimer[t] in s.reqs && s.gracer[t] in s.reqs
              && s.reqs[s.gracer[t]].now - s.reqs[s.claimer[t]].now <= GRACE_SECONDS
  {
    var s := After(START, es);
    RunKeepsInv(START, es);
    hide Happens, After;
    assert TokOk(s, t);
    IssuedOnce(s, t, s.claimer);
    IssuedOnce(s, t, s.gracer);
    forall n | n in Successors(s, t) ensures n in IssuedBy(s, t, s.claimer) || n in IssuedBy(s, t, s.gracer) {
      assert OriginOk(s, n);
    }
    assert Successors(s, t) == IssuedBy(s, t, s.claimer) + IssuedBy(s, t, s.gracer);
  }

  // ----- nothing after everything was revoked -----

  /** A token consumed and out of grace, or gone. */
  predicate Spent(s: State, t: Tok) {
    t in s.used && (t in s.rows ==> s.rows[t].revoked.Some? && s.rows[t].rotated.None?)
  }

  /** The step ends the session of `t`: everything of its user is revoked, or it is logged out. */
  predicate Ends(s: State, e: Event, t: Tok)
    requires Enabled(s, e)
  {
    && t in s.rows
    && match e
       case ERevokeAll(user, keep, missed, _) => s.rows[t].user == user && keep != Some(t) && t !in missed
       case ERevokeReused(r, missed, _) => s.rows[t].user == s.reqs[r].snap.user && t !in missed
       case ELogout(tok, _) => t == tok
       case _ => false
  }

  /** Every token of the user that the revocation finds is consumed and out of grace afterwards. */
  lemma RevokeAllSpends(s: State, e: Event, t: Tok)
    requires Enabled(s, e) && Ends(s, e, t) && t in s.used
    ensures Spent(Next(s, e), t)
  {
  }

  /** No rotation holds the row of a token consumed and out of grace. */
  lemma SpentIsFree(s: State, t: Tok)
    requires TokOk(s, t) && Spent(s, t)
    ensures t !in s.locks
  {
  }

  predicate SameWins(s: State, u: State, t: Tok) {
    && (t in u.claimer <==> t in s.claimer) && (t in s.claimer ==> u.claimer[t] == s.claimer[t])
    && (t in u.gracer <==> t in s.gracer) && (t in s.gracer ==> u.gracer[t] == s.gracer[t])
  }

  lemma IssueLeavesSpent(s: State, r: Req, next: Tok, expires: int, t: Tok)
    requires Enabled(s, EIssue(r, next, expires)) && ReqOk(s, r) && TokOk(s, next) && Spent(s, t) && t !in s.locks
    ensures var u := Issue(s, r, next, expires);
            Spent(u, t) && SameWins(s, u, t) && Successors(u, t) == Successors(s, t)
  {
    var u := Issue(s, r, next, expires);
    forall n ensures n in Successors(u, t) <==> n in Successors(s, t) {
      assert n != next ==> (n in u.origin <==> n in s.origin);
    }
  }

  predicate SameTokens(s: State, u: State) {
    u.rows == s.rows && u.used == s.used && u.claimer == s.claimer && u.gracer == s.gracer && u.origin == s.origin
  }

  /** Nothing is written before the commit. */
  lemma RotationWritesNothing(s: State, e: Event)
    requires Enabled(s, e) && (e.EBegin? || e.EClaim? || e.EReread? || e.ESpend? || e.EFails?)
    ensures SameTokens(s, Next(s, e))
  {
  }

  lemma SameTokensSameSpent(s: State, u: State, t: Tok)
    requires SameTokens(s, u) && Spent(s, t)
    ensures Spent(u, t) && SameWins(s, u, t) && u.origin == s.origin
  {
  }

  lemma OtherLeavesSpent(s: State, e: Event, t: Tok)
    requires Enabled(s, e) && !e.EBegin? && !e.EClaim? && !e.EReread? && !e.ESpend? && !e.EFails? && !e.EIssue?
    requires Spent(s, t)
    ensures Spent(Next(s, e), t) && SameWins(s, Next(s, e), t) && Next(s, e).origin == s.origin
  {
  }

  lemma StepLeavesSpent(s: State, e: Event, t: Tok)
    requires Inv(s) && Enabled(s, e) && Spent(s, t)
    ensures Spent(Next(s, e), t) && SameWins(s, Next(s, e), t) && Successors(Next(s, e), t) == Successors(s, t)
  {
    assert TokOk(s, t) && (e.EIssue? ==> ReqOk(s, e.r) && TokOk(s, e.next));
    SpentIsFree(s, t);
    hide Inv, Enabled, Spent, Issue, SameWins;
    if e.EIssue? {
      IssueLeavesSpent(s, e.r, e.next, e.expires, t);
    } else {
      hide Next;
      if e.EBegin? || e.EClaim? || e.EReread? || e.ESpend? || e.EFails? {
        RotationWritesNothing(s, e);
        SameTokensSameSpent(s, Next(s, e), t);
      } else {
        OtherLeavesSpent(s, e, t);
      }
      assert Successors(Next(s, e), t) == Successors(s, t);
    }
  }

  lemma {:induction false} SpentWinsNothing(s: State, es: seq<Event>, t: Tok)
    requires Inv(s) && Happens(s, es) && Spent(s, t)
    ensures Spent(After(s, es), t) && SameWins(s, After(s, es), t)
    ensures Successors(After(s, es), t) == Successors(s, t)
    decreases es
  {
    hide Inv, Enabled, Next, Spent;
    if es != [] {
      StepKeepsInv(s, es[0]);
      StepLeavesSpent(s, es[0], t);
      SpentWinsNothing(Next(s, es[0]), es[1..], t);
    }
  }

  /**
    * A token whose session was ended, by a revocation that found it or by its logout, wins nothing ever
    * after, neither a claim nor grace, and gets no further successor.
    */
  lemma RevokedNeverRotates(before: seq<Event>, e: Event, later: seq<Event>, t: Tok)
    requires Happens(START, before)
    requires var s := After(START, before);
             Enabled(s, e) && Ends(s, e, t) && Happens(Next(s, e), later)
    ensures var s := After(START, before);
            var end := After(Next(s, e), later);
            SameWins(s, end, t) && Successors(end, t) == Successors(s, t)
  {
    var s := After(START, before);
    RunKeepsInv(START, before);
    StepKeepsInv(s, e);
    hide Happens, After;
    assert TokOk(s, t);
    hide Inv;
    RevokeAllSpends(s, e, t);
    EndingIssuesNone(s, e, t);
    SpentWinsNothing(Next(s, e), later, t);
  }

  lemma EndingIssuesNone(s: State, e: Event, t: Tok)
    requires Enabled(s, e) && Ends(s, e, t)
    ensures SameWins(s, Next(s, e), t) && Successors(Next(s, e), t) == Successors(s, t)
  {
    assert Next(s, e).origin == s.origin;
  }
}
