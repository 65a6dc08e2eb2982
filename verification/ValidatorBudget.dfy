/** The time a custom validator is given for a case: the rest of the limit, topped up from the run's pool. */
module ValidatorBudget {
  import opened Arithmetic
  import opened Wrappers

  // Durations in nanoseconds.
  type Duration = nat

  const MILLISECOND: Duration := 1_000_000
  const MIN_BUDGET: Duration := 20 * MILLISECOND
  const TOP_UP_POOL: Duration := 2_000 * MILLISECOND

  function Min(a: Duration, b: Duration): Duration {
    if a < b then a else b
  }

  function SaturatingSub(a: Duration, b: Duration): Duration {
    if a < b then 0 else a - b
  }

  /** How much the pool adds for a case that took `took`. */
  function TopUp(limit: Duration, took: Duration, pool: Duration): (t: Duration)
    ensures t <= pool
  {
    Min(SaturatingSub(MIN_BUDGET, SaturatingSub(limit, took)), pool)
  }

  function Budget(limit: Duration, took: Duration, pool: Duration): Duration {
    Max(SaturatingSub(limit, took) + TopUp(limit, took, pool), MILLISECOND)
  }

  class Pool {
    var left: Duration

    constructor ()
      ensures left == TOP_UP_POOL
    {
      left := TOP_UP_POOL;
    }

    method GiveBudget(limit: Duration, took: Duration) returns (budget: Duration)
      modifies this
      ensures budget == Budget(limit, took, old(left))
      ensures left + TopUp(limit, took, old(left)) == old(left)
    {
      var remaining := if limit < took then 0 else limit - took;
      var missing := if MIN_BUDGET < remaining then 0 else MIN_BUDGET - remaining;
      var topUp := if missing < left then missing else left;
      left := left - topUp;
      budget := if remaining + topUp < MILLISECOND then MILLISECOND else remaining + topUp;
    }
  }

  /** While the pool lasts a validator gets its minimum; always at least the floor, and no more than the limit needs. */
  lemma BudgetIsFair(limit: Duration, took: Duration, pool: Duration)
    ensures var b := Budget(limit, took, pool);
            && b >= MILLISECOND && b >= SaturatingSub(limit, took)
            && (pool >= MIN_BUDGET ==> b >= MIN_BUDGET)
            && (b > MIN_BUDGET ==> b == SaturatingSub(limit, took))
    ensures SaturatingSub(limit, took) >= MIN_BUDGET ==> TopUp(limit, took, pool) == 0
  {
  }

  // ----- a whole run -----

  /** How long a case took, and whether its validator was asked. */
  datatype CaseTime = CaseTime(took: Duration, validated: bool) {
    function Added(limit: Duration, pool: Duration): (t: Duration)
      ensures t <= pool
    {
      if validated then TopUp(limit, took, pool) else 0
    }

    function Allowed(limit: Duration, pool: Duration): Duration {
      if validated then Budget(limit, took, pool) else 0
    }
  }

  /** The pool after these cases. */
  function PoolAfter(limit: Duration, cases: seq<CaseTime>, pool: Duration): Duration {
    if cases == [] then pool else PoolAfter(limit, cases[1..], pool - cases[0].Added(limit, pool))
  }

  function TopUps(limit: Duration, cases: seq<CaseTime>, pool: Duration): Duration {
    if cases == [] then 0
    else
      var t := cases[0].Added(limit, pool);
      t + TopUps(limit, cases[1..], pool - t)
  }

  /** All the cases and all their validators, each validator using the whole of its budget. */
  function Spent(limit: Duration, cases: seq<CaseTime>, pool: Duration): Duration {
    if cases == [] then 0
    else
      cases[0].took + cases[0].Allowed(limit, pool) + Spent(limit, cases[1..], pool - cases[0].Added(limit, pool))
  }

  /** What the pool has left and what it has given out always make up the pool. */
  lemma {:induction false} PoolIsConserved(limit: Duration, cases: seq<CaseTime>, pool: Duration)
    ensures PoolAfter(limit, cases, pool) + TopUps(limit, cases, pool) == pool
  {
    if cases != [] { PoolIsConserved(limit, cases[1..], pool - cases[0].Added(limit, pool)); }
  }

  /** A case within its limit and its validator overrun the limit by the top-up and the floor at most. */
  lemma CaseIsBounded(limit: Duration, c: CaseTime, pool: Duration)
    requires c.took <= limit
    ensures c.took + c.Allowed(limit, pool) <= limit + c.Added(limit, pool) + MILLISECOND
  {
  }

  lemma OneMore(n: nat, t: Duration)
    ensures (n + 1) * t == n * t + t
  {
  }

  lemma {:induction false} SpentIsBounded(limit: Duration, cases: seq<CaseTime>, pool: Duration)
    requires forall i :: 0 <= i < |cases| ==> cases[i].took <= limit
    ensures Spent(limit, cases, pool) <= |cases| * (limit + MILLISECOND) + TopUps(limit, cases, pool)
  {
    if cases != [] {
      var c, n := cases[0], |cases| - 1;
      CaseIsBounded(limit, c, pool);
      SpentIsBounded(limit, cases[1..], pool - c.Added(limit, pool));
      hide *;
      OneMore(n, limit + MILLISECOND);
    }
  }

  /** When every case keeps to its limit, n cases and their validators take at most n limits, 2 s and n ms. */
  lemma RunIsBounded(limit: Duration, cases: seq<CaseTime>)
    requires forall i :: 0 <= i < |cases| ==> cases[i].took <= limit
    ensures Spent(limit, cases, TOP_UP_POOL) <= |cases| * limit + 2_000 * MILLISECOND + |cases| * MILLISECOND
  {
    SpentIsBounded(limit, cases, TOP_UP_POOL);
    PoolIsConserved(limit, cases, TOP_UP_POOL);
    assert |cases| * (limit + MILLISECOND) == |cases| * limit + |cases| * MILLISECOND;
  }

  /** By how much the rest of the limit falls short of the minimum a validator needs. */
  function Shortfall(limit: Duration, c: CaseTime): Duration {
    if !c.validated || limit >= c.took + 20_000_000 then 0
    else if limit <= c.took then 20_000_000
    else 20_000_000 - (limit - c.took)
  }

  function Shortfalls(limit: Duration, cases: seq<CaseTime>): Duration {
    if cases == [] then 0 else Shortfall(limit, cases[0]) + Shortfalls(limit, cases[1..])
  }

  /** A case is given its shortfall, or all that is left when that is less. */
  lemma ShortfallIsPaid(limit: Duration, c: CaseTime, pool: Duration)
    ensures c.Added(limit, pool) == if Shortfall(limit, c) <= pool then Shortfall(limit, c) else pool
    ensures c.validated && Shortfall(limit, c) > 0 ==>
              c.took + c.Allowed(limit, pool) ==
              c.took + Max((if limit < c.took then 0 else limit - c.took) + c.Added(limit, pool), 1_000_000)
    ensures c.validated && Shortfall(limit, c) == 0 ==> c.took + c.Allowed(limit, pool) == limit
  {
  }

  /**
    * Over a run the pool pays every shortfall in full as long as they add up to no more than it held, whatever
    * their order, and is empty once they add up to more.
    */
  lemma {:induction false} PoolPaysShortfalls(limit: Duration, cases: seq<CaseTime>, pool: Duration)
    ensures TopUps(limit, cases, pool) ==
            if Shortfalls(limit, cases) <= pool then Shortfalls(limit, cases) else pool
  {
    if cases != [] {
      var t := cases[0].Added(limit, pool);
      ShortfallIsPaid(limit, cases[0], pool);
      PoolPaysShortfalls(limit, cases[1..], pool - t);
    }
  }

  lemma {:induction false} PoolAfterOne(limit: Duration, cases: seq<CaseTime>, c: CaseTime, pool: Duration)
    ensures var left := PoolAfter(limit, cases, pool);
            PoolAfter(limit, cases + [c], pool) == left - c.Added(limit, left)
    decreases cases
  {
    if cases == [] {
      assert [c][1..] == [];
    } else {
      assert (cases + [c])[1..] == cases[1..] + [c];
      PoolAfterOne(limit, cases[1..], c, pool - cases[0].Added(limit, pool));
    }
  }

  /** One case after another: each validator asked gets its share of what the ones before it left in the pool. */
  method JudgeCases(limit: Duration, cases: seq<CaseTime>) returns (budgets: seq<Option<Duration>>, left: Duration)
    ensures |budgets| == |cases| && left == PoolAfter(limit, cases, TOP_UP_POOL)
    ensures forall i :: 0 <= i < |cases| ==>
              budgets[i] == if cases[i].validated
                            then Some(Budget(limit, cases[i].took, PoolAfter(limit, cases[..i], TOP_UP_POOL)))
                            else None
    ensures left + TopUps(limit, cases, TOP_UP_POOL) == TOP_UP_POOL
  {
    var pool := new Pool();
    budgets := [];
    for i := 0 to |cases|
      invariant |budgets| == i && pool.left == PoolAfter(limit, cases[..i], TOP_UP_POOL)
      invariant forall k :: 0 <= k < i ==>
                  budgets[k] == if cases[k].validated
                                then Some(Budget(limit, cases[k].took, PoolAfter(limit, cases[..k], TOP_UP_POOL)))
                                else None
    {
      PoolAfterOne(limit, cases[..i], cases[i], TOP_UP_POOL);
      assert cases[..i + 1] == cases[..i] + [cases[i]];
      if cases[i].validated {
        var b := pool.GiveBudget(limit, cases[i].took);
        budgets := budgets + [Some(b)];
      } else {
        budgets := budgets + [None];
      }
    }
    assert cases[..|cases|] == cases;
    left := pool.left;
    PoolIsConserved(limit, cases, TOP_UP_POOL);
  }
}
