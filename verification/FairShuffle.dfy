/** Every order of a shuffle is equally likely: the same number of accepted words leads to each. */
module FairShuffle {
  import opened PrefixSets
  import opened RngUniform
  import opened Shuffling
  import opened Words

  /** One accepted word for each draw of a shuffle of `n` elements, rejected words left out. */
  predicate AcceptedFor(n: nat, ws: seq<Word>)
    requires n < TWO_64
  {
    if n <= 1 then ws == [] else ws != [] && Accepted(ws[0], n) && AcceptedFor(n - 1, ws[1..])
  }

  /** The draws those words give. */
  function DrawsOf(n: nat, ws: seq<Word>): (js: seq<nat>)
    requires n < TWO_64 && AcceptedFor(n, ws)
    ensures DrawsFit(n, js)
    decreases n
  {
    if n <= 1 then [] else
      var rest := DrawsOf(n - 1, ws[1..]);
      assert ([High(ws[0], n) as nat] + rest)[1..] == rest;
      [High(ws[0], n)] + rest
  }

  /** 2^64/2 · 2^64/3 · … · 2^64/n, each rounded down. */
  function Ways(n: nat): int {
    if n <= 1 then 1 else (TWO_64 / n) * Ways(n - 1)
  }

  /** The words that give these draws. */
  ghost function WordsFor(n: nat, js: seq<nat>): set<seq<int>>
    requires n < TWO_64 && DrawsFit(n, js)
    decreases n
  {
    if n <= 1 then {[]} else PrependAny(Hits(n, js[0]), WordsFor(n - 1, js[1..]))
  }

  lemma {:induction false} WordsForSize(n: nat, js: seq<nat>)
    requires n < TWO_64 && DrawsFit(n, js)
    ensures |WordsFor(n, js)| == Ways(n)
    decreases n
  {
    if n > 1 {
      WordsForSize(n - 1, js[1..]);
      DrawIsUniform(n, js[0]);
      PrependAnySize(Hits(n, js[0]), WordsFor(n - 1, js[1..]));
    }
  }

  lemma {:induction false} WordsForAre(n: nat, js: seq<nat>, ws: seq<Word>)
    requires n < TWO_64 && DrawsFit(n, js)
    ensures ws in WordsFor(n, js) <==> AcceptedFor(n, ws) && DrawsOf(n, ws) == js
    decreases n
  {
    hide Accepted, High;
    if n > 1 {
      if ws != [] {
        WordsForAre(n - 1, js[1..], ws[1..]);
        assert ws == [ws[0]] + ws[1..];
        assert js == [js[0]] + js[1..];
        InPrependAny(Hits(n, js[0]), WordsFor(n - 1, js[1..]), ws);
        if AcceptedFor(n, ws) {
          assert DrawsOf(n, ws)[0] == High(ws[0], n) && DrawsOf(n, ws)[1..] == DrawsOf(n - 1, ws[1..]);
        }
      }
    }
  }

  /**
    * Of the sequences of accepted words, exactly `Ways(|s|)` lead from distinct elements to any given
    * order of them, whichever order it is.
    */
  lemma EveryOrderEquallyLikely<T>(s: seq<T>, p: seq<T>)
    requires |s| < TWO_64 && Distinct(s) && multiset(p) == multiset(s)
    ensures forall ws: seq<Word> ::
              ws in WordsFor(|s|, DrawsTo(s, p)) <==> AcceptedFor(|s|, ws) && Shuffled(s, DrawsOf(|s|, ws)) == p
    ensures |WordsFor(|s|, DrawsTo(s, p))| == Ways(|s|)
  {
    var js := DrawsTo(s, p);
    ShuffledIsSurjective(s, p);
    hide Shuffled, DrawsTo, DrawsFit, AcceptedFor, DrawsOf, WordsFor;
    WordsForSize(|s|, js);
    forall ws: seq<Word>
      ensures ws in WordsFor(|s|, js) <==> AcceptedFor(|s|, ws) && Shuffled(s, DrawsOf(|s|, ws)) == p
    {
      WordsForAre(|s|, js, ws);
      if AcceptedFor(|s|, ws) && Shuffled(s, DrawsOf(|s|, ws)) == p { ShuffledIsInjective(s, DrawsOf(|s|, ws), js); }
    }
  }
}
