/** The code of a rotation, statement by statement, with everything else free to run between them. */
module RefreshCode {
  import opened RefreshSessions
  import opened RefreshTokens
  import opened Wrappers

  lemma {:induction false} HappensOn(s: State, es: seq<Event>, e: Event)
    requires Happens(s, es) && Enabled(After(s, es), e)
    ensures Happens(s, es + [e]) && After(s, es + [e]) == Next(After(s, es), e)
    decreases es
  {
    hide Enabled, Next;
    if es == [] {
      assert es + [e] == [e] && [e][1..] == [];
      assert After(Next(s, e), []) == Next(s, e);
    } else {
      assert (es + [e])[1..] == es[1..] + [e];
      HappensOn(Next(s, es[0]), es[1..], e);
    }
  }

  // Broken: the row was deleted before it could be read again.
  datatype Reply = Rotated | InvalidRefresh | RefreshExpired | RefreshReuse | Broken

  class TokenStore {
    var state: State
    ghost var log: seq<Event>

    ghost predicate Valid()
      reads this
    {
      Happens(START, log) && After(START, log) == state
    }

    method Do(e: Event)
      requires Valid() && Enabled(state, e)
      modifies this
      ensures Valid() && state == Next(old(state), e) && log == old(log) + [e]
    {
      HappensOn(START, log, e);
      state := Next(state, e);
      log := log + [e];
    }

    /** Whatever else happens; no other request moves this one, or draws the token it will issue. */
    method Elsewhere(ghost r: Req, ghost next: Tok)
      requires Valid()
      modifies this
      ensures Valid() && old(log) <= log
      ensures r in old(state).reqs ==> r in state.reqs && state.reqs[r] == old(state).reqs[r]
      ensures next !in old(state).used ==> next !in state.used
    {
    }

    /** Waits for a row that another rotation has updated: it commits or, at the latest, is rolled back. */
    method AwaitRow(r: Req, tok: Tok, ghost next: Tok)
      requires Valid() && r in state.reqs && !Issuing(state, r) && next !in state.used
      modifies this
      ensures Valid() && old(log) <= log && next !in state.used && tok !in state.locks
      ensures r in state.reqs && state.reqs[r] == old(state).reqs[r]
    {
      HoldersKnown(tok);
      hide Happens, After, Valid;
      if tok in state.locks {
        Do(EFails(state.locks[tok]));
      }
    }

    lemma HoldersKnown(tok: Tok)
      requires Valid()
      ensures tok in state.locks ==>
                var h := state.locks[tok];
                h in state.reqs && state.reqs[h].tok == tok && Issuing(state, h)
    {
      RunKeepsInv(START, log);
      assert TokOk(state, tok);
    }

    /** Waits for every row that is locked. */
    method AwaitAll(r: Req, ghost next: Tok)
      requires Valid() && r in state.reqs && !Issuing(state, r) && next !in state.used
      modifies this
      ensures Valid() && old(log) <= log && next !in state.used && state.locks == map[]
      ensures r in state.reqs && state.reqs[r] == old(state).reqs[r]
    {
      hide Happens, After, Valid;
      while state.locks != map[]
        invariant Valid() && old(log) <= log && next !in state.used
        invariant r in state.reqs && state.reqs[r] == old(state).reqs[r]
        decreases |state.locks|
      {
        var tok :| tok in state.locks.Keys;
        HoldersKnown(tok);
        Do(EFails(state.locks[tok]));
      }
    }

    /** A rotation knows its token's session from the start. */
    predicate SameSession(q: Rotation, p: Rotation) {
      q.tok == p.tok && q.snap.Of() == p.snap.Of()
    }

    lemma RereadsItsOwn(r: Req)
      requires Valid() && r in state.reqs
      ensures state.reqs[r].tok in state.rows ==> state.rows[state.reqs[r].tok].Of() == state.reqs[r].snap.Of()
    {
      RunKeepsOwned(START, log, map[]);
      var m := Issued(START, log, map[]);
      assert RowOwned(state, m, state.reqs[r].tok) && ReqOwned(state, m, r);
    }

    /** Claims the token, or finds it consumed and reads it again. */
    method TryClaim(r: Req, next: Tok)
      requires Valid() && In(state, r, Read) && next !in state.used
      modifies this
      ensures Valid() && old(log) <= log && next !in state.used && r in state.reqs && EClaim(r) in log
      ensures SameSession(state.reqs[r], old(state.reqs[r]))
      ensures In(state, r, Claimed) || In(state, r, Checked) || In(state, r, Done)
    {
      hide Happens, After, Valid;
      Elsewhere(r, next);
      AwaitRow(r, state.reqs[r].tok, next);
      Do(EClaim(r));
      ghost var claimed := log;
      assert EClaim(r) in claimed;
      if In(state, r, Lost) {
        Elsewhere(r, next);
        RereadsItsOwn(r);
        Do(EReread(r));
      }
      assert claimed <= log;
    }

    /** Spends the grace of a token just rotated, or takes its return for reuse and revokes everything. */
    method TryGrace(r: Req, next: Tok, missed: set<Tok>, now: int)
      requires Valid() && In(state, r, Checked) && next !in state.used
      modifies this
      ensures Valid() && old(log) <= log && next !in state.used && r in state.reqs && ESpend(r) in log
      ensures SameSession(state.reqs[r], old(state.reqs[r]))
      ensures In(state, r, Graced) || (In(state, r, Done) && ERevokeReused(r, missed, now) in log)
    {
      hide Happens, After, Valid;
      Elsewhere(r, next);
      AwaitRow(r, state.reqs[r].tok, next);
      Do(ESpend(r));
      ghost var spent := log;
      assert ESpend(r) in spent;
      if In(state, r, Reused) {
        Elsewhere(r, next);
        AwaitAll(r, next);
        Do(ERevokeReused(r, missed, now));
      }
      assert spent <= log;
    }

    /** Writes the successor, unless the user is gone, and commits. */
    method IssueSuccessor(r: Req, next: Tok, expires: int) returns (reply: Reply)
      requires Valid() && Issuing(state, r) && next !in state.used
      modifies this
      ensures Valid() && old(log) <= log && In(state, r, Done) && (reply == Rotated || reply == InvalidRefresh)
      ensures reply == Rotated ==> next in state.origin && state.origin[next] == Origin(old(state.reqs[r].tok), r)
      ensures reply == Rotated ==>
                && next in state.rows && state.rows[next].user in state.users
                && state.rows[next] ==
                   Row(old(state.reqs[r].snap.user), old(state.reqs[r].snap.persistent), expires, None, None)
      ensures reply == InvalidRefresh ==> old(state.reqs[r].snap.user) !in state.users
    {
      Elsewhere(r, next);
      HolderHasRow(r);
      hide Happens, After, Valid;
      reply := if state.reqs[r].snap.user in state.users then Rotated else InvalidRefresh;
      Do(EIssue(r, next, expires));
    }

    lemma HolderHasRow(r: Req)
      requires Valid() && Issuing(state, r)
      ensures state.reqs[r].tok in state.rows
    {
      RunKeepsInv(START, log);
      assert ReqOk(state, r) && TokOk(state, state.reqs[r].tok);
    }

    /**
      * A rotation that answers with a new token has won the old one, and the new one is active and of the same
      * session; reuse has revoked everything.
      */
    method RotateRefreshToken(r: Req, tok: Tok, now: int, next: Tok, expires: int, missed: set<Tok>)
      returns (reply: Reply)
      requires Valid() && r !in state.reqs && next !in state.used
      modifies this
      ensures Valid() && old(log) <= log
      ensures tok !in old(state).rows ==> reply == InvalidRefresh && state == old(state)
      ensures tok in old(state).rows && old(state).rows[tok].revoked.Some? ==> ESpend(r) in log
      ensures tok in old(state).rows && old(state).rows[tok].revoked.None? ==>
                (reply == RefreshExpired <==> old(state).rows[tok].expires <= now)
                && (reply != RefreshExpired ==> EClaim(r) in log)
      ensures reply == Rotated ==> next in state.origin && state.origin[next] == Origin(tok, r)
      ensures reply == Rotated ==>
                && tok in old(state).rows && next in state.rows
                && var row := old(state).rows[tok];
                   state.rows[next] == Row(row.user, row.persistent, expires, None, None)
      ensures reply == RefreshReuse ==> ERevokeReused(r, missed, now) in log
      ensures r in state.reqs ==> In(state, r, Done)
    {
      hide Happens, After, Valid, Claim, Reread, Spend, Issue, RevokeAll, RevokeReused, Commit;
      if tok !in state.rows { return InvalidRefresh; }
      Do(EBegin(r, tok, now));
      if In(state, r, Done) { return RefreshExpired; }
      if In(state, r, Read) { TryClaim(r, next); }
      ghost var claimed := log;
      if In(state, r, Done) { return Broken; }
      if In(state, r, Checked) { TryGrace(r, next, missed, now); }
      ghost var spent := log;
      assert claimed <= spent;
      if In(state, r, Done) { return RefreshReuse; }
      reply := IssueSuccessor(r, next, expires);
      assert spent <= log;
    }
  }

  /** So a new token always comes from a rotation that won its parent. */
  lemma RotatedMeansWon(log: seq<Event>, next: Tok, tok: Tok, r: Req)
    requires Happens(START, log)
    requires var s := After(START, log); next in s.origin && s.origin[next] == Origin(tok, r)
    ensures WonBy(After(START, log), tok, r)
  {
    hide Happens, After;
    RunKeepsInv(START, log);
    assert OriginOk(After(START, log), next);
  }
}
