/** Nodes are numbers below the size of their heap; no encoding may grow past this many entries. */
module NodeNumbers {
  const MAX_ENCODED := 2_000_000

  ghost function Below(n: nat): (s: set<nat>)
    ensures |s| == n && forall x: nat :: x in s <==> x < n
  {
    if n == 0 then {} else Below(n - 1) + {n - 1}
  }

  predicate DistinctBelow(s: seq<nat>, n: nat) {
    (forall i :: 0 <= i < |s| ==> s[i] < n) && (forall i, j :: 0 <= i < j < |s| ==> s[i] != s[j])
  }

  /** Distinct numbers below `n` are at most `n` many. */
  lemma {:induction false} Fits(s: seq<nat>, n: nat)
    requires DistinctBelow(s, n)
    ensures |s| <= n
  {
    FitsIn(s, n, Below(n));
  }

  lemma {:induction false} FitsIn(s: seq<nat>, n: nat, room: set<nat>)
    requires DistinctBelow(s, n) && forall i :: 0 <= i < |s| ==> s[i] in room
    ensures |s| <= |room|
    decreases |s|
  {
    if s != [] {
      FitsIn(s[1..], n, room - {s[0]});
    }
  }
}
