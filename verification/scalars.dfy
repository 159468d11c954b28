/** The two integer-valued deltas: difference in character length and
    difference in number of terms. */
module Scalars {
  import opened Terms

  /** Distance between two natural numbers on the number line. */
  function Gap(a: nat, b: nat): (d: nat)
    ensures d == 0 <==> a == b
    ensures a == b + d || b == a + d
  {
    if a >= b then a - b else b - a
  }

  /** How many more characters one title has than the other. */
  function TitleLenDistance(t1: string, t2: string): (d: nat)
    ensures d == 0 <==> |t1| == |t2|
    ensures |t1| == |t2| + d || |t2| == |t1| + d
  {
    Gap(|t1|, |t2|)
  }

  /** How many more terms one title has than the other. */
  function TermCountDistance(t1: string, t2: string): (d: nat)
    ensures d == 0 <==> |MakeTerms(t1)| == |MakeTerms(t2)|
    ensures |MakeTerms(t1)| == |MakeTerms(t2)| + d || |MakeTerms(t2)| == |MakeTerms(t1)| + d
  {
    Gap(|MakeTerms(t1)|, |MakeTerms(t2)|)
  }

  lemma ScalarDistancesSymmetric(t1: string, t2: string)
    ensures TitleLenDistance(t1, t2) == TitleLenDistance(t2, t1)
    ensures TermCountDistance(t1, t2) == TermCountDistance(t2, t1)
  {
  }

  /** A blank title (empty or all whitespace) has no terms, so the delta
      is the other title's term count. */
  lemma TermCountOfBlank(t1: string, t2: string)
    requires AllWhitespace(t1)
    ensures TermCountDistance(t1, t2) == |MakeTerms(t2)|
  {
    NoTermsIffAllWhitespace(t1);
  }
}
