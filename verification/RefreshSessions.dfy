/** Whose session each token is, over every run, and what happens to a token that is used again. */
module RefreshSessions {
  import opened RefreshTokens
  import opened Wrappers

  // ----- who each token was issued to -----

  /** The sessions of the tokens ever issued: a login's own, and a successor's that of its parent. */
  function Issued(s: State, es: seq<Event>, before: map<Tok, Session>): map<Tok, Session>
    requires Happens(s, es)
    decreases es
  {
    if es == [] then before
    else
      var t := Next(s, es[0]);
      Issued(t, es[1..], Grown(before, es[0], t.origin))
  }

  function Grown(m: map<Tok, Session>, e: Event, origin: map<Tok, Origin>): map<Tok, Session> {
    match e
    case ELogin(user, persistent, next, _) => m[next := Session(user, persistent)]
    case EIssue(_, next, _) =>
      if next in origin && origin[next].parent in m then m[next := m[origin[next].parent]] else m
    case _ => m
  }

  predicate RowOwned(s: State, m: map<Tok, Session>, t: Tok) {
    && (t in s.rows ==> t in m && s.rows[t].Of() == m[t])
    && (t in m ==> t in s.used)
  }

  predicate ReqOwned(s: State, m: map<Tok, Session>, r: Req) {
    r in s.reqs ==> s.reqs[r].tok in m && s.reqs[r].snap.Of() == m[s.reqs[r].tok]
  }

  predicate OriginOwned(s: State, m: map<Tok, Session>, n: Tok) {
    n in s.origin ==> n in m && s.origin[n].parent in m && m[n] == m[s.origin[n].parent]
  }

  ghost predicate Owned(s: State, m: map<Tok, Session>) {
    && (forall t :: RowOwned(s, m, t)) && (forall r :: ReqOwned(s, m, r)) && (forall n :: OriginOwned(s, m, n))
  }

  predicate RowFollows(s: State, t: State, k: Tok) {
    k in t.rows ==> k in s.rows && t.rows[k].Of() == s.rows[k].Of()
  }

  predicate ReqFollows(s: State, t: State, r: Req) {
    r in t.reqs ==>
      var tok := t.reqs[r].tok;
      || (r in s.reqs && s.reqs[r].tok == tok && s.reqs[r].snap.Of() == t.reqs[r].snap.Of())
      || (tok in s.rows && s.rows[tok].Of() == t.reqs[r].snap.Of())
  }

  /** A step that issues nothing: rows keep their session, and a rotation reads only that of its token. */
  ghost predicate Follows(s: State, t: State) {
    && t.origin == s.origin && t.used == s.used
    && (forall k :: RowFollows(s, t, k)) && (forall r :: ReqFollows(s, t, r))
  }

  lemma FollowingKeepsOwned(s: State, t: State, m: map<Tok, Session>)
    requires Owned(s, m) && Follows(s, t)
    ensures Owned(t, m)
  {
    forall k ensures RowOwned(t, m, k) { assert RowOwned(s, m, k) && RowFollows(s, t, k); }
    forall r ensures ReqOwned(t, m, r) {
      assert ReqOwned(s, m, r) && ReqFollows(s, t, r);
      if r in t.reqs { assert RowOwned(s, m, t.reqs[r].tok); }
    }
    forall n ensures OriginOwned(t, m, n) { assert OriginOwned(s, m, n); }
  }

  lemma CommitFollows(s: State, r: Req)
    requires r in s.reqs && s.reqs[r].tok in s.rows
    ensures Follows(s, Commit(s, r))
  {
    var t := Commit(s, r);
    forall k ensures RowFollows(s, t, k) { }
    forall q ensures ReqFollows(s, t, q) { }
  }

  lemma IssueKeepsOwned(s: State, m: map<Tok, Session>, r: Req, next: Tok, expires: int)
    requires Owned(s, m) && Enabled(s, EIssue(r, next, expires))
    ensures var t := Issue(s, r, next, expires);
            Owned(t, Grown(m, EIssue(r, next, expires), t.origin))
  {
    var t := Commit(s, r);
    assert t.users == s.users && t.reqs[r].tok == s.reqs[r].tok && t.reqs[r].snap == s.reqs[r].snap;
    assert OriginOwned(s, m, next) && RowOwned(s, m, next);
    hide Owned;
    CommitFollows(s, r);
    FollowingKeepsOwned(s, t, m);
    hide Commit;
    if s.reqs[r].snap.user in s.users {
      SuccessorKeepsOwned(t, m, r, next, expires);
    } else {
      assert next !in t.origin;
    }
  }

  lemma SuccessorKeepsOwned(s: State, m: map<Tok, Session>, r: Req, next: Tok, expires: int)
    requires Owned(s, m) && r in s.reqs && next !in s.used
    ensures var q := s.reqs[r];
            q.tok in m
            && Owned(s.(rows := s.rows[next := Row(q.snap.user, q.snap.persistent, expires, None, None)],
                        used := s.used + {next}, origin := s.origin[next := Origin(q.tok, r)]),
                     m[next := m[q.tok]])
  {
    var q := s.reqs[r];
    assert ReqOwned(s, m, r) && RowOwned(s, m, next) && RowOwned(s, m, q.tok);
    var t := s.(rows := s.rows[next := Row(q.snap.user, q.snap.persistent, expires, None, None)],
                used := s.used + {next}, origin := s.origin[next := Origin(q.tok, r)]);
    var g := m[next := m[q.tok]];
    forall k ensures RowOwned(t, g, k) { assert RowOwned(s, m, k); }
    forall k ensures ReqOwned(t, g, k) { assert ReqOwned(s, m, k); }
    forall k ensures OriginOwned(t, g, k) { assert OriginOwned(s, m, k); }
  }

  lemma LoginKeepsOwned(s: State, m: map<Tok, Session>, e: Event)
    requires Owned(s, m) && Enabled(s, e) && e.ELogin?
    ensures Owned(Next(s, e), Grown(m, e, Next(s, e).origin))
  {
    var t := Next(s, e);
    var g := Grown(m, e, t.origin);
    assert RowOwned(s, m, e.next);
    forall k ensures RowOwned(t, g, k) { assert RowOwned(s, m, k); }
    forall k ensures ReqOwned(t, g, k) { assert ReqOwned(s, m, k); }
    forall k ensures OriginOwned(t, g, k) { assert OriginOwned(s, m, k); }
  }

  predicate IsRotation(e: Event) {
    e.EBegin? || e.EClaim? || e.EReread? || e.ESpend? || e.EFails?
  }

  lemma RotationFollows(s: State, e: Event)
    requires Enabled(s, e) && IsRotation(e)
    ensures Follows(s, Next(s, e))
  {
    var t := Next(s, e);
    RotationWritesNothing(s, e);
    forall k ensures RowFollows(s, t, k) { }
    forall q ensures ReqFollows(s, t, q) { }
  }

  lemma EndingFollows(s: State, e: Event)
    requires Enabled(s, e) && !IsRotation(e) && !e.EIssue? && !e.ELogin?
    ensures Follows(s, Next(s, e))
  {
    var t := Next(s, e);
    forall k ensures RowFollows(s, t, k) { }
    forall q ensures ReqFollows(s, t, q) { }
  }

  lemma {:induction false} RunKeepsOwned(s: State, es: seq<Event>, m: map<Tok, Session>)
    requires Owned(s, m) && Happens(s, es)
    ensures Owned(After(s, es), Issued(s, es, m))
    decreases es
  {
    hide Owned, Enabled, Next, Grown;
    if es != [] {
      var e := es[0];
      var t := Next(s, e);
      OwnedStep(s, m, e);
      RunKeepsOwned(t, es[1..], Grown(m, e, t.origin));
    }
  }

  lemma OwnedStep(s: State, m: map<Tok, Session>, e: Event)
    requires Owned(s, m) && Enabled(s, e)
    ensures Owned(Next(s, e), Grown(m, e, Next(s, e).origin))
  {
    hide Owned, Enabled, Issue;
    if e.EIssue? {
      IssueKeepsOwned(s, m, e.r, e.next, e.expires);
    } else if e.ELogin? {
      LoginKeepsOwned(s, m, e);
    } else {
      hide Next, Follows;
      if IsRotation(e) { RotationFollows(s, e); } else { EndingFollows(s, e); }
      FollowingKeepsOwned(s, Next(s, e), m);
    }
  }

  /**
    * In every run, whatever is pruned meanwhile, a token is of the user it was issued to, and a successor is
    * of the session its parent was of.
    */
  lemma SuccessorsKeepTheSession(es: seq<Event>)
    requires Happens(START, es)
    ensures var s, m := After(START, es), Issued(START, es, map[]);
            && (forall t :: t in s.rows ==> t in m && s.rows[t].Of() == m[t])
            && (forall n :: n in s.origin ==> n in m && s.origin[n].parent in m && m[n] == m[s.origin[n].parent])
  {
    RunKeepsOwned(START, es, map[]);
    var s, m := After(START, es), Issued(START, es, map[]);
    hide Happens, After, Issued;
    forall t | t in s.rows ensures t in m && s.rows[t].Of() == m[t] { assert RowOwned(s, m, t); }
    forall n | n in s.origin
      ensures n in m && s.origin[n].parent in m && m[n] == m[s.origin[n].parent]
    {
      assert OriginOwned(s, m, n);
    }
  }

  /** A revocation of a user's sessions ends every one of them it finds, successors among them. */
  lemma RevocationReaches(es: seq<Event>, e: Event, n: Tok)
    requires Happens(START, es)
    requires var s := After(START, es); Enabled(s, e) && n in s.rows
    ensures var s, m := After(START, es), Issued(START, es, map[]);
            && n in m
            && (e.ERevokeAll? && m[n].user == e.user && e.keep != Some(n) && n !in e.missed ==>
                  Spent(Next(s, e), n))
            && (e.ERevokeReused? ==>
                  && s.reqs[e.r].tok in m
                  && (m[n].user == m[s.reqs[e.r].tok].user && n !in e.missed ==> Spent(Next(s, e), n)))
  {
    SuccessorsKeepTheSession(es);
    RunKeepsOwned(START, es, map[]);
    RunKeepsInv(START, es);
    var s, m := After(START, es), Issued(START, es, map[]);
    hide Happens, After, Issued, Next, Spent;
    assert TokOk(s, n) && (e.ERevokeReused? ==> ReqOwned(s, m, e.r));
    if Ends(s, e, n) {
      RevokeAllSpends(s, e, n);
    }
  }

  // ----- one request after another -----

  /** The three statements of a rotation with nothing in between. */
  predicate Undisturbed(s: State, a: Event, b: Event, c: Event, end: State) {
    && Enabled(s, a) && Enabled(Next(s, a), b) && Enabled(Next(Next(s, a), b), c)
    && end == Next(Next(Next(s, a), b), c)
  }

  predicate Idle(s: State, r: Req, tok: Tok, next: Tok) {
    r !in s.reqs && tok in s.rows && s.locks == map[] && next !in s.used && s.rows[tok].user in s.users
  }

  /** An active token before its time is exchanged for one of the same session. */
  lemma FirstUse(s: State, r: Req, tok: Tok, now: int, next: Tok, expires: int) returns (end: State)
    requires Idle(s, r, tok, next) && s.rows[tok].revoked.None? && now < s.rows[tok].expires
    ensures Undisturbed(s, EBegin(r, tok, now), EClaim(r), EIssue(r, next, expires), end)
    ensures var row := s.rows[tok];
            end.rows == s.rows[tok := row.(revoked := Some(now), rotated := Some(now))]
                              [next := Row(row.user, row.persistent, expires, None, None)]
  {
    var t := Next(s, EBegin(r, tok, now));
    assert In(t, r, Read) && t.rows == s.rows && t.locks == s.locks && t.users == s.users && t.used == s.used;
    assert t.reqs[r] == Rotation(tok, now, s.rows[tok], Read);
    var u := Next(t, EClaim(r));
    assert In(u, r, Claimed) && u.rows == s.rows && u.users == s.users && u.used == s.used;
    assert u.reqs[r] == Rotation(tok, now, s.rows[tok], Claimed);
    end := Next(u, EIssue(r, next, expires));
  }

  /** Within ten seconds of that it is honoured once more, and is then out of grace. */
  lemma UseInGrace(s: State, r: Req, tok: Tok, now: int, at: int, next: Tok, expires: int) returns (end: State)
    requires Idle(s, r, tok, next) && s.rows[tok].revoked.Some? && s.rows[tok].rotated == Some(at)
    requires now - at <= 10 && now < s.rows[tok].expires
    ensures Undisturbed(s, EBegin(r, tok, now), ESpend(r), EIssue(r, next, expires), end)
    ensures var row := s.rows[tok];
            end.rows == s.rows[tok := row.(rotated := None)]
                              [next := Row(row.user, row.persistent, expires, None, None)]
  {
    var t := Next(s, EBegin(r, tok, now));
    assert In(t, r, Checked) && t.rows == s.rows && t.locks == s.locks && t.users == s.users && t.used == s.used;
    assert t.reqs[r] == Rotation(tok, now, s.rows[tok], Checked);
    var u := Next(t, ESpend(r));
    assert In(u, r, Graced) && u.rows == s.rows && u.users == s.users && u.used == s.used;
    assert u.reqs[r] == Rotation(tok, now, s.rows[tok], Graced);
    end := Next(u, EIssue(r, next, expires));
  }

  /** Any other use of a consumed token ends every session of its user, and changes no one else's. */
  lemma UseAgain(s: State, r: Req, tok: Tok, now: int, later: int) returns (end: State)
    requires r !in s.reqs && tok in s.rows && s.locks == map[] && s.rows[tok].revoked.Some?
    requires var row := s.rows[tok];
             row.rotated.None? || now - row.rotated.value > 10 || row.expires <= now
    ensures Undisturbed(s, EBegin(r, tok, now), ESpend(r), ERevokeReused(r, {}, later), end)
    ensures end.rows.Keys == s.rows.Keys
    ensures forall t :: t in s.rows ==>
              if s.rows[t].user != s.rows[tok].user then end.rows[t] == s.rows[t]
              else
                end.rows[t] ==
                s.rows[t].(rotated := None,
                           revoked := if s.rows[t].revoked.None? then Some(later) else s.rows[t].revoked)
  {
    var t := Next(s, EBegin(r, tok, now));
    assert In(t, r, Checked) && t.rows == s.rows && t.locks == s.locks;
    assert t.reqs[r] == Rotation(tok, now, s.rows[tok], Checked);
    var u := Next(t, ESpend(r));
    assert In(u, r, Reused) && u.rows == s.rows && u.locks == s.locks;
    assert u.reqs[r].snap == s.rows[tok];
    end := Next(u, ERevokeReused(r, {}, later));
  }

  /** An active token past its time gets nothing and changes nothing. */
  lemma UseExpired(s: State, r: Req, tok: Tok, now: int)
    requires r !in s.reqs && tok in s.rows && s.rows[tok].revoked.None? && s.rows[tok].expires <= now
    ensures Enabled(s, EBegin(r, tok, now))
    ensures In(Next(s, EBegin(r, tok, now)), r, Done) && SameTokens(s, Next(s, EBegin(r, tok, now)))
  {
  }

  /** Ending sessions leaves other users alone, and of the same user the kept one, or all but the one logged out. */
  lemma EndingSpares(s: State, e: Event, t: Tok)
    requires Enabled(s, e) && t in s.rows && (e.ERevokeAll? || e.ERevokeReused? || e.ELogout?)
    ensures var user := match e {
              case ERevokeAll(user, _, _, _) => user
              case ERevokeReused(r, _, _) => s.reqs[r].snap.user
              case ELogout(tok, _) => s.rows[tok].user
              case _ => 0
            };
            && t in Next(s, e).rows
            && (s.rows[t].user != user ==> Next(s, e).rows[t] == s.rows[t])
            && ((e.ERevokeAll? && e.keep == Some(t)) || (e.ELogout? && e.tok != t) ==>
                  Next(s, e).rows[t].(rotated := s.rows[t].rotated) == s.rows[t])
  {
  }
}
