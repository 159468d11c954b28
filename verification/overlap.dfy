/** Set-overlap (Jaccard) distances over the sets of terms, of bigrams and
    of trigrams of two texts; term frequency and order are ignored. */
module Overlap {
  import opened Results
  import opened Terms
  import opened Grams

  /** The set of distinct terms of a text. */
  function TermSet(t: string): set<string> {
    set w | w in MakeTerms(t)
  }

  /** The set of distinct n-grams of the terms of a text. */
  function GramSet(t: string, n: nat): set<seq<string>>
    requires n >= 1
  {
    set g | g in NGrams(MakeTerms(t), n)
  }

  lemma TermSetEmpty(t: string)
    ensures TermSet(t) == {} <==> MakeTerms(t) == []
  {
    if MakeTerms(t) != [] {
      assert MakeTerms(t)[0] in TermSet(t);
    }
  }

  lemma SubsetOfSameSize<T>(x: set<T>, y: set<T>)
    requires x <= y && |x| == |y|
    ensures x == y
  {
    assert x * y == x;
    assert |y - x| == 0;
  }

  /** How the sizes of intersection and union reflect equality and
      disjointness of two sets. */
  lemma OverlapSizes<T>(a: set<T>, b: set<T>)
    ensures |a * b| <= |a + b|
    ensures |a * b| == |a + b| <==> a == b
    ensures |a * b| == 0 <==> a * b == {}
  {
    SubsetCard(a * b, a + b);
    if |a * b| == |a + b| {
      SubsetOfSameSize(a * b, a + b);
      assert a <= a + b && b <= a + b;
    }
    if a == b {
      assert a * b == a + b;
    }
  }

  lemma SubsetCard<T>(x: set<T>, y: set<T>)
    requires x <= y
    ensures |x| <= |y|
  {
    assert y == x + (y - x);
    assert x !! (y - x);
  }

  /** `1 - i/u` for `0 <= i <= u` lies in [0, 1], is 0 exactly when `i == u`
      and is 1 exactly when `i == 0`. */
  lemma RatioComplement(i: nat, u: nat)
    requires 0 < u && i <= u
    ensures 0.0 <= 1.0 - i as real / u as real <= 1.0
    ensures 1.0 - i as real / u as real == 0.0 <==> i == u
    ensures 1.0 - i as real / u as real == 1.0 <==> i == 0
  {
    QuotientBounds(i as real, u as real);
  }

  lemma MulCancel(a: real, b: real, c: real)
    requires c != 0.0 && a * c == b * c
    ensures a == b
  {
    assert (a - b) * c == 0.0;
  }

  lemma NegTimesPos(a: real, c: real)
    requires a < 0.0 && c > 0.0
    ensures a * c < 0.0
  {
  }

  lemma QuotientSign(x: real, y: real)
    requires x >= 0.0 && y > 0.0
    ensures x / y >= 0.0
  {
    var q := x / y;
    assert q * y == x;
    if q < 0.0 {
      NegTimesPos(q, y);
    }
  }

  lemma QuotientBounds(x: real, y: real)
    requires 0.0 <= x <= y && y > 0.0
    ensures 0.0 <= x / y <= 1.0
    ensures x / y == 1.0 <==> x == y
    ensures x / y == 0.0 <==> x == 0.0
  {
    var q := x / y;
    assert q * y == x;
    if q == 1.0 { assert x == y; }
    if x == y { MulCancel(q, 1.0, y); }
    var r := (y - x) / y;
    assert r * y == y - x;
    assert (q + r) * y == q * y + r * y;
    MulCancel(q + r, 1.0, y);
    QuotientSign(x, y);
    QuotientSign(y - x, y);
  }

  /** `1 - |a ∩ b| / |a ∪ b|`: 0 for equal sets, 1 for disjoint ones. */
  function Jaccard<T>(a: set<T>, b: set<T>): (d: real)
    requires a + b != {}
    ensures 0.0 <= d <= 1.0
    ensures d == 0.0 <==> a == b
    ensures d == 1.0 <==> a * b == {}
  {
    var shared, all := |a * b|, |a + b|;
    OverlapSizes(a, b);
    RatioComplement(shared, all);
    1.0 - shared as real / all as real
  }

  /** The unigram distance divides by the size of the term union without
      checking it first, so two texts without any term raise. */
  function UnigramDistance(t1: string, t2: string): (r: Result<real>)
    ensures r.Ok? <==> MakeTerms(t1) != [] || MakeTerms(t2) != []
    ensures r.Err? ==> r.failure == DivisionByZero
    ensures r.Ok? ==> 0.0 <= r.value <= 1.0
    ensures r.Ok? ==> (r.value == 0.0 <==> TermSet(t1) == TermSet(t2))
    ensures r.Ok? ==> (r.value == 1.0 <==> TermSet(t1) * TermSet(t2) == {})
  {
    var a, b := TermSet(t1), TermSet(t2);
    TermSetEmpty(t1);
    TermSetEmpty(t2);
    if a + b == {} then
      Err(DivisionByZero)
    else
      Ok(Jaccard(a, b))
  }

  /** Shared body of the bigram and trigram distances: an empty union of
      n-gram sets counts as maximal distance 1.0. */
  function GuardedGramDistance(t1: string, t2: string, n: nat): (d: real)
    requires n >= 1
    ensures 0.0 <= d <= 1.0
    ensures GramSet(t1, n) + GramSet(t2, n) == {} ==> d == 1.0
    ensures d == 0.0 <==> GramSet(t1, n) == GramSet(t2, n) != {}
    ensures d == 1.0 <==> GramSet(t1, n) * GramSet(t2, n) == {}
  {
    var a, b := GramSet(t1, n), GramSet(t2, n);
    if a + b == {} then 1.0 else Jaccard(a, b)
  }

  function BigramDistance(t1: string, t2: string): (d: real)
    ensures 0.0 <= d <= 1.0
    ensures GramSet(t1, 2) + GramSet(t2, 2) == {} ==> d == 1.0
    ensures d == 0.0 <==> GramSet(t1, 2) == GramSet(t2, 2) != {}
    ensures d == 1.0 <==> GramSet(t1, 2) * GramSet(t2, 2) == {}
  {
    GuardedGramDistance(t1, t2, 2)
  }

  function TrigramDistance(t1: string, t2: string): (d: real)
    ensures 0.0 <= d <= 1.0
    ensures GramSet(t1, 3) + GramSet(t2, 3) == {} ==> d == 1.0
    ensures d == 0.0 <==> GramSet(t1, 3) == GramSet(t2, 3) != {}
    ensures d == 1.0 <==> GramSet(t1, 3) * GramSet(t2, 3) == {}
  {
    GuardedGramDistance(t1, t2, 3)
  }

  lemma OverlapSymmetric(t1: string, t2: string)
    ensures UnigramDistance(t1, t2) == UnigramDistance(t2, t1)
    ensures BigramDistance(t1, t2) == BigramDistance(t2, t1)
    ensures TrigramDistance(t1, t2) == TrigramDistance(t2, t1)
  {
    assert TermSet(t1) * TermSet(t2) == TermSet(t2) * TermSet(t1);
    assert TermSet(t1) + TermSet(t2) == TermSet(t2) + TermSet(t1);
    assert GramSet(t1, 2) * GramSet(t2, 2) == GramSet(t2, 2) * GramSet(t1, 2);
    assert GramSet(t1, 2) + GramSet(t2, 2) == GramSet(t2, 2) + GramSet(t1, 2);
    assert GramSet(t1, 3) * GramSet(t2, 3) == GramSet(t2, 3) * GramSet(t1, 3);
    assert GramSet(t1, 3) + GramSet(t2, 3) == GramSet(t2, 3) + GramSet(t1, 3);
  }

  /** Texts with fewer than `n` terms each have no n-grams, so even a text
      compared with itself is at distance 1.0 (not 0). */
  lemma ShortTextsAreDistant(t1: string, t2: string, n: nat)
    requires n >= 1
    requires |MakeTerms(t1)| < n && |MakeTerms(t2)| < n
    ensures GuardedGramDistance(t1, t2, n) == 1.0
  {
    assert GramSet(t1, n) == {};
    assert GramSet(t2, n) == {};
  }

  /** A text with at least one term is at unigram distance 0 from itself;
      a text with `n` or more terms is at n-gram distance 0 from itself. */
  lemma SelfDistanceZero(t: string, n: nat)
    requires n >= 1
    ensures MakeTerms(t) != [] ==> UnigramDistance(t, t) == Ok(0.0)
    ensures |MakeTerms(t)| >= n ==> GuardedGramDistance(t, t, n) == 0.0
  {
    if |MakeTerms(t)| >= n {
      assert NGrams(MakeTerms(t), n)[0] in GramSet(t, n);
    }
  }

  /** Every element wrapped as a one-element sequence. */
  function Singletons(a: set<string>): set<seq<string>> {
    set w | w in a :: [w]
  }

  lemma {:induction false} SingletonsCard(a: set<string>)
    ensures |Singletons(a)| == |a|
    decreases |a|
  {
    if a != {} {
      var x :| x in a;
      SingletonsCard(a - {x});
      assert Singletons(a) == Singletons(a - {x}) + {[x]};
    }
  }

  lemma OneGramsAreSingletons(t: string)
    ensures GramSet(t, 1) == Singletons(TermSet(t))
  {
    var ts := MakeTerms(t);
    var r := NGrams(ts, 1);
    forall g | g in GramSet(t, 1) ensures g in Singletons(TermSet(t)) {
      var i :| 0 <= i < |r| && r[i] == g;
      assert g == [ts[i]];
    }
    forall g | g in Singletons(TermSet(t)) ensures g in GramSet(t, 1) {
      var w :| w in TermSet(t) && g == [w];
      var i :| 0 <= i < |ts| && ts[i] == w;
      assert r[i] == g;
    }
  }

  /** The unigram distance is the n-gram distance for `n = 1` on every
      input it accepts; the two differ only when neither text has a term,
      where the unigram version raises and the guarded one gives 1.0. */
  lemma UnigramIsOneGramDistance(t1: string, t2: string)
    ensures UnigramDistance(t1, t2).Ok? ==> UnigramDistance(t1, t2).value == GuardedGramDistance(t1, t2, 1)
    ensures UnigramDistance(t1, t2).Err? ==> GuardedGramDistance(t1, t2, 1) == 1.0
  {
    var a, b := TermSet(t1), TermSet(t2);
    OneGramsAreSingletons(t1);
    OneGramsAreSingletons(t2);
    assert Singletons(a) * Singletons(b) == Singletons(a * b);
    assert Singletons(a) + Singletons(b) == Singletons(a + b);
    SingletonsCard(a * b);
    SingletonsCard(a + b);
  }
}
