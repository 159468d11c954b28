/** The term-frequency cosine distance of two texts. The similarity is a
    quotient of an integer by the square root of an integer; it is kept in
    that exact form and every statement about it is made through squares. */
module Cosine {
  import opened Results
  import opened Terms
  import opened Vectors

  type Positive = n: nat | n > 0 witness 1

  /** The real number `num / √radicand`; the root is never taken. */
  datatype Surd = Surd(num: int, radicand: Positive) {

    /** `0 <= num / √radicand <= 1` */
    predicate InUnitInterval() {
      0 <= num && num * num <= radicand
    }

    /** `num / √radicand == 0` */
    predicate IsZero() {
      num == 0
    }

    /** `num / √radicand == 1` */
    predicate IsOne() {
      num > 0 && num * num == radicand
    }

    /** `(num / √radicand)²` */
    function Square(): real {
      (num * num) as real / radicand as real
    }
  }

  const Zero := Surd(0, 1)
  const One := Surd(1, 1)

  /** The distance `1 - similarity`. */
  datatype CosineDistance = OneMinus(similarity: Surd) {

    predicate InUnitInterval() {
      similarity.InUnitInterval()
    }

    predicate IsZero() {
      similarity.IsOne()
    }

    predicate IsOne() {
      similarity.IsZero()
    }
  }

  /** Cosine of the angle between two vectors: the dot product over the
      product of the norms, and 0 when either norm is 0. */
  function CosineSimilarity(v1: seq<int>, v2: seq<int>): (s: Surd)
    requires |v1| == |v2|
    ensures s.IsZero() <==> IsZeroVector(v1) || IsZeroVector(v2) || Dot(v1, v2) == 0
    ensures v1 == v2 && !IsZeroVector(v1) ==> s.IsOne()
    ensures NonNegative(v1) && NonNegative(v2) ==> s.InUnitInterval()
  {
    var p := SqNorm(v1) * SqNorm(v2);
    if p == 0 then
      Zero
    else
      var d := Dot(v1, v2);
      assert d * d <= p by {
        CauchySchwarz(v1, v2);
      }
      assert NonNegative(v1) && NonNegative(v2) ==> 0 <= d by {
        if NonNegative(v1) && NonNegative(v2) {
          DotNonNegative(v1, v2);
        }
      }
      Surd(d, p)
  }

  /** The vocabulary: every distinct term of either sequence, each once. */
  function Vocabulary(ts1: seq<Term>, ts2: seq<Term>): (words: seq<Term>)
    ensures Distinct(words)
    ensures forall w :: w in words <==> w in ts1 || w in ts2
    ensures Covers(ts1, words) && Covers(ts2, words)
  {
    var words := Dedup(ts1 + ts2);
    assert forall k :: 0 <= k < |ts1| ==> ts1[k] in ts1 + ts2;
    assert forall k :: 0 <= k < |ts2| ==> ts2[k] in ts1 + ts2;
    words
  }

  lemma ProductZero(a: nat, b: nat)
    ensures a * b >= 0
    ensures a * b == 0 <==> a == 0 || b == 0
  {
    if a > 0 && b > 0 {
      MulMonotone(a, 1, b);
    }
  }

  /** The similarity in closed form, from counts of matching term pairs:
      the dot product is the number of index pairs at which the two term
      sequences agree, and each squared norm the same count of a sequence
      against itself. */
  function MatchSimilarity(ts1: seq<Term>, ts2: seq<Term>): Surd {
    var n1, n2 := MatchCount(ts1, ts1), MatchCount(ts2, ts2);
    ProductZero(n1, n2);
    if n1 == 0 || n2 == 0 then Zero else Surd(MatchCount(ts1, ts2), n1 * n2)
  }

  /** Builds the vocabulary and the two term-frequency vectors and takes
      their cosine similarity. */
  function TermsSimilarity(ts1: seq<Term>, ts2: seq<Term>): (s: Surd)
    ensures s == MatchSimilarity(ts1, ts2)
    ensures s.InUnitInterval()
  {
    var words := Vocabulary(ts1, ts2);
    var v1, v2 := Tally(ts1, words), Tally(ts2, words);
    TalliesInClosedForm(ts1, ts2, words);
    assert NonNegative(v1) && NonNegative(v2);
    CosineSimilarity(v1, v2)
  }

  lemma TalliesInClosedForm(ts1: seq<Term>, ts2: seq<Term>, words: seq<Term>)
    requires Distinct(words) && Covers(ts1, words) && Covers(ts2, words)
    ensures CosineSimilarity(Tally(ts1, words), Tally(ts2, words)) == MatchSimilarity(ts1, ts2)
  {
    var v1, v2 := Tally(ts1, words), Tally(ts2, words);
    DotOfTallies(ts1, ts2, words);
    DotOfTallies(ts1, ts1, words);
    DotOfTallies(ts2, ts2, words);
    assert SqNorm(v1) == MatchCount(ts1, ts1);
    assert SqNorm(v2) == MatchCount(ts2, ts2);
    ProductZero(SqNorm(v1), SqNorm(v2));
  }

  /** The cosine similarity of the two texts' term-frequency vectors; two
      texts that are both of length 0 have similarity 1. The guard looks at
      the raw lengths, not at the terms. */
  function TextSimilarity(t1: string, t2: string): (s: Surd)
    ensures |t1| == 0 && |t2| == 0 ==> s == One
    ensures |t1| > 0 || |t2| > 0 ==> s == MatchSimilarity(MakeTerms(t1), MakeTerms(t2))
    ensures s.InUnitInterval()
  {
    if |t1| == 0 && |t2| == 0 then One else TermsSimilarity(MakeTerms(t1), MakeTerms(t2))
  }

  /** The cosine distance. The similarity is checked to lie in [0, 1]
      before it is subtracted from 1; that check never fails. */
  function DistanceCosine(t1: string, t2: string): (r: Result<CosineDistance>)
    ensures r.Ok?
    ensures r.value.InUnitInterval()
    ensures |t1| == 0 && |t2| == 0 ==> r.value.IsZero()
  {
    var s := TextSimilarity(t1, t2);
    if s.InUnitInterval() then Ok(OneMinus(s)) else Err(AssertionViolated)
  }

  lemma DistanceCosineSymmetric(t1: string, t2: string)
    ensures DistanceCosine(t1, t2) == DistanceCosine(t2, t1)
  {
    var ts1, ts2 := MakeTerms(t1), MakeTerms(t2);
    MatchCountSymmetric(ts1, ts2);
    var s, s' := TextSimilarity(t1, t2), TextSimilarity(t2, t1);
    assert s.num == s'.num;
    assert s.radicand == s'.radicand;
  }

  /** A text is at distance 0 from itself exactly when it is empty or has a
      term; a non-empty blank text is at distance 1 from itself. */
  lemma DistanceCosineSelf(t: string)
    ensures DistanceCosine(t, t).value.IsZero() <==> |t| == 0 || MakeTerms(t) != []
  {
    var ts := MakeTerms(t);
    SelfMatchPositive(ts);
    var n := MatchCount(ts, ts);
    if |t| > 0 && n > 0 {
      var s := TextSimilarity(t, t);
      assert s.num == n && s.radicand == n * n;
    }
  }

  /** Unless both texts are empty, the distance is 1 exactly when the texts
      share no term, including when one of them has no terms at all. */
  lemma DistanceCosineDisjoint(t1: string, t2: string)
    requires |t1| > 0 || |t2| > 0
    ensures DistanceCosine(t1, t2).value.IsOne() <==> NoCommonTerm(MakeTerms(t1), MakeTerms(t2))
  {
    var ts1, ts2 := MakeTerms(t1), MakeTerms(t2);
    MatchSimilarityZeroIffDisjoint(ts1, ts2);
    assert DistanceCosine(t1, t2).value.similarity == MatchSimilarity(ts1, ts2);
  }

  lemma MatchSimilarityZeroIffDisjoint(ts1: seq<Term>, ts2: seq<Term>)
    ensures MatchSimilarity(ts1, ts2).IsZero() <==> NoCommonTerm(ts1, ts2)
  {
    MatchCountZeroIffDisjoint(ts1, ts2);
    SelfMatchPositive(ts1);
    SelfMatchPositive(ts2);
    if ts1 == [] || ts2 == [] {
      assert NoCommonTerm(ts1, ts2);
    }
  }

  /** A non-empty text with no terms gets distance 1 against any text, itself included. */
  lemma BlankIsMaximallyDistant(t1: string, t2: string)
    requires |t1| > 0 && AllWhitespace(t1)
    ensures DistanceCosine(t1, t2).value.IsOne()
    ensures DistanceCosine(t2, t1).value.IsOne()
  {
    NoTermsIffAllWhitespace(t1);
    DistanceCosineDisjoint(t1, t2);
    DistanceCosineSymmetric(t1, t2);
  }
}
