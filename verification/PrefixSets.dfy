/** Sets of sequences made by putting one of some elements in front of one of some sequences. */
module PrefixSets {
  ghost function Prepend(w: int, tails: set<seq<int>>): set<seq<int>> {
    set ws | ws in tails :: [w] + ws
  }

  ghost function PrependAny(heads: set<int>, tails: set<seq<int>>): set<seq<int>> {
    set w, ws | w in heads && ws in tails :: [w] + ws
  }

  lemma {:induction false} PrependSize(w: int, tails: set<seq<int>>)
    ensures |Prepend(w, tails)| == |tails|
    decreases |tails|
  {
    if tails != {} {
      var t :| t in tails;
      PrependSize(w, tails - {t});
      var less := Prepend(w, tails - {t});
      assert Prepend(w, tails) == less + {[w] + t};
      forall ws | ws in tails - {t} ensures [w] + ws != [w] + t {
        assert ([w] + ws)[1..] == ws && ([w] + t)[1..] == t;
      }
      assert [w] + t !in less;
    }
  }

  lemma {:induction false} PrependAnySize(heads: set<int>, tails: set<seq<int>>)
    ensures |PrependAny(heads, tails)| == |heads| * |tails|
    decreases |heads|
  {
    if heads != {} {
      var w := AnyOf(heads);
      var fewer := heads - {w};
      PrependAnySize(fewer, tails);
      PrependSize(w, tails);
      PrependSplits(heads, w, tails);
      assert |heads| == |fewer| + 1;
      hide *;
      Distribute(|fewer|, |tails|);
    } else {
      assert PrependAny(heads, tails) == {};
    }
  }

  lemma AnyOf<T>(s: set<T>) returns (x: T)
    requires s != {}
    ensures x in s
  {
    x :| x in s;
  }

  lemma Distribute(a: int, b: int)
    ensures (a + 1) * b == a * b + b
  {
  }

  lemma PrependSplits(heads: set<int>, w: int, tails: set<seq<int>>)
    requires w in heads
    ensures PrependAny(heads, tails) == PrependAny(heads - {w}, tails) + Prepend(w, tails)
    ensures PrependAny(heads - {w}, tails) !! Prepend(w, tails)
  {
    forall x | x in Prepend(w, tails) ensures x !in PrependAny(heads - {w}, tails) { assert x[0] == w; }
    forall x | x in PrependAny(heads, tails)
      ensures x in PrependAny(heads - {w}, tails) || x in Prepend(w, tails)
    {
      var v, ws :| v in heads && ws in tails && x == [v] + ws;
      if v == w { assert x in Prepend(w, tails); } else { assert v in heads - {w}; }
    }
  }

  lemma InPrependAny(heads: set<int>, tails: set<seq<int>>, ws: seq<int>)
    requires ws != []
    ensures ws in PrependAny(heads, tails) <==> ws[0] in heads && ws[1..] in tails
  {
    assert ws == [ws[0]] + ws[1..];
    if ws in PrependAny(heads, tails) {
      var w, t :| w in heads && t in tails && ws == [w] + t;
      assert ws[1..] == t;
    }
    if ws[0] in heads && ws[1..] in tails {
      var w, t := ws[0], ws[1..];
      assert [w] + t in PrependAny(heads, tails);
    }
  }
}
