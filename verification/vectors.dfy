/** Term-frequency vectors over a shared vocabulary, and the integer
    arithmetic on them that the cosine measure needs. */
module Vectors {

  // ---------------------------------------------------------------------
  // Integer vectors

  /** Sum of the pointwise products. */
  function Dot(a: seq<int>, b: seq<int>): int
    requires |a| == |b|
    decreases |a|
  {
    if |a| == 0 then 0 else a[0] * b[0] + Dot(a[1..], b[1..])
  }

  predicate IsZeroVector(a: seq<int>) {
    forall i :: 0 <= i < |a| ==> a[i] == 0
  }

  predicate NonNegative(a: seq<int>) {
    forall i :: 0 <= i < |a| ==> a[i] >= 0
  }

  lemma {:induction false} SelfDotFacts(a: seq<int>)
    ensures Dot(a, a) >= 0
    ensures Dot(a, a) == 0 <==> IsZeroVector(a)
    decreases |a|
  {
    if |a| > 0 {
      SelfDotFacts(a[1..]);
      assert IsZeroVector(a) ==> IsZeroVector(a[1..]) by {
        if IsZeroVector(a) {
          forall i | 0 <= i < |a[1..]| ensures a[1..][i] == 0 {
            assert a[1..][i] == a[i + 1];
          }
        }
      }
      if a[0] == 0 && IsZeroVector(a[1..]) {
        forall i | 0 <= i < |a| ensures a[i] == 0 {
          if i > 0 { assert a[i] == a[1..][i - 1]; }
        }
      }
    }
  }

  /** The squared Euclidean norm; zero only for the zero vector. */
  function SqNorm(a: seq<int>): (r: nat)
    ensures r == 0 <==> IsZeroVector(a)
  {
    SelfDotFacts(a);
    Dot(a, a)
  }

  lemma {:induction false} DotNonNegative(a: seq<int>, b: seq<int>)
    requires |a| == |b| && NonNegative(a) && NonNegative(b)
    ensures Dot(a, b) >= 0
    decreases |a|
  {
    if |a| > 0 {
      DotNonNegative(a[1..], b[1..]);
      assert a[0] * b[0] >= 0;
    }
  }

  /** Raising one coordinate of `a` by one raises the dot product by the
      matching coordinate of `b`. */
  lemma {:induction false} DotBump(a: seq<int>, b: seq<int>, j: nat)
    requires |a| == |b| && j < |a|
    ensures Dot(a[j := a[j] + 1], b) == Dot(a, b) + b[j]
    decreases |a|
  {
    var a' := a[j := a[j] + 1];
    if j > 0 {
      assert a'[1..] == a[1..][j - 1 := a[1..][j - 1] + 1];
      DotBump(a[1..], b[1..], j - 1);
    } else {
      assert a'[1..] == a[1..];
    }
  }

  // ---------------------------------------------------------------------
  // Cauchy–Schwarz, by induction on the length

  lemma MulMonotone(k: int, m: int, n: int)
    requires k >= 0 && m <= n
    ensures k * m <= k * n
  {
  }

  lemma SquareNonNegative(x: int)
    ensures x * x >= 0
  {
  }

  /** Of two non-negative numbers, the one with the larger square is larger. */
  lemma RootMonotone(p: int, q: int)
    requires p >= 0 && q * q <= p * p
    ensures q <= p
  {
    if q > p {
      MulMonotone(q, p, q);
      MulMonotone(p, p, q);
    }
  }

  lemma SquareOfSum(u: int, v: int)
    ensures (u + v) * (u + v) == 4 * (u * v) + (u - v) * (u - v)
  {
  }

  lemma CrossSquare(x: int, y: int, d: int)
    ensures (2 * x * y * d) * (2 * x * y * d) == 4 * ((x * y) * (x * y) * (d * d))
  {
  }

  lemma OuterProduct(x: int, y: int, A: int, B: int)
    ensures (x * x * B) * (A * y * y) == (x * y) * (x * y) * (A * B)
  {
  }

  /** The cross term of the induction step: from `d² ≤ A·B` it follows that
      `2·x·y·d ≤ x²·B + A·y²`. */
  lemma CrossTermBound(x: int, y: int, A: int, B: int, d: int)
    requires A >= 0 && B >= 0 && d * d <= A * B
    ensures 2 * x * y * d <= x * x * B + A * y * y
  {
    var u, v := x * x * B, A * y * y;
    var p, q := u + v, 2 * x * y * d;
    SquareNonNegative(x);
    SquareNonNegative(y);
    MulMonotone(x * x, 0, B);
    MulMonotone(A, 0, y * y);
    var k := (x * y) * (x * y);
    SquareNonNegative(x * y);
    MulMonotone(k, d * d, A * B);
    CrossSquare(x, y, d);
    OuterProduct(x, y, A, B);
    assert q * q <= 4 * (u * v);
    SquareOfSum(u, v);
    SquareNonNegative(u - v);
    assert q * q <= p * p;
    RootMonotone(p, q);
  }

  lemma StepIdentities(x: int, y: int, A: int, B: int, d: int)
    ensures (x * y + d) * (x * y + d) == x * x * (y * y) + 2 * x * y * d + d * d
    ensures (x * x + A) * (y * y + B) == x * x * (y * y) + x * x * B + A * y * y + A * B
  {
  }

  lemma {:induction false} CauchySchwarz(a: seq<int>, b: seq<int>)
    requires |a| == |b|
    ensures Dot(a, b) * Dot(a, b) <= Dot(a, a) * Dot(b, b)
    decreases |a|
  {
    if |a| > 0 {
      var a', b' := a[1..], b[1..];
      CauchySchwarz(a', b');
      SelfDotFacts(a');
      SelfDotFacts(b');
      var x, y := a[0], b[0];
      var A, B, d := Dot(a', a'), Dot(b', b'), Dot(a', b');
      CrossTermBound(x, y, A, B, d);
      StepIdentities(x, y, A, B, d);
      assert Dot(a, b) == x * y + d;
      assert Dot(a, a) == x * x + A;
      assert Dot(b, b) == y * y + B;
    }
  }

  // ---------------------------------------------------------------------
  // Vocabulary and term-frequency vectors

  /** A term is one whitespace-free word of a text. */
  type Term = string

  predicate Distinct(s: seq<Term>) {
    forall i, j :: 0 <= i < j < |s| ==> s[i] != s[j]
  }

  /** The distinct elements of `s` in order of first occurrence. */
  function Dedup(s: seq<Term>): (r: seq<Term>)
    ensures Distinct(r)
    ensures forall w :: w in r <==> w in s
    decreases |s|
  {
    if |s| == 0 then []
    else
      var r := Dedup(s[..|s| - 1]);
      var w := s[|s| - 1];
      assert s == s[..|s| - 1] + [w];
      if w in r then r else r + [w]
  }

  /** The column index of every vocabulary word. */
  function Lookup(words: seq<Term>): (m: map<Term, nat>)
    requires Distinct(words)
    ensures forall w :: w in m <==> w in words
    ensures forall j :: 0 <= j < |words| ==> m[words[j]] == j
  {
    map j | 0 <= j < |words| :: words[j] := j
  }

  /** Every term of `ts` has a column in `words`. */
  predicate Covers(ts: seq<Term>, words: seq<Term>) {
    forall k :: 0 <= k < |ts| ==> ts[k] in words
  }

  lemma CoversPrefix(ts: seq<Term>, words: seq<Term>)
    requires Covers(ts, words) && |ts| > 0
    ensures Covers(ts[..|ts| - 1], words)
  {
    var front := ts[..|ts| - 1];
    forall k | 0 <= k < |front| ensures front[k] in words {
      assert front[k] == ts[k];
    }
  }

  /** The term-frequency vector of `ts` over the vocabulary `words`, built by
      adding one to the column of each term in turn. Every term must have a
      column. */
  function Tally(ts: seq<Term>, words: seq<Term>): (v: seq<nat>)
    requires Distinct(words)
    requires Covers(ts, words)
    ensures |v| == |words|
    ensures forall j :: 0 <= j < |words| ==> v[j] == multiset(ts)[words[j]]
    decreases |ts|
  {
    if |ts| == 0 then seq(|words|, _ => 0)
    else
      var front, w := ts[..|ts| - 1], ts[|ts| - 1];
      assert ts == front + [w];
      CoversPrefix(ts, words);
      var v := Tally(front, words);
      var j := Lookup(words)[w];
      v[j := v[j] + 1]
  }

  /** The number of index pairs `(i, j)` with `xs[i] == ys[j]`: for each
      element of `xs`, how often it occurs in `ys`. */
  function MatchCount(xs: seq<Term>, ys: seq<Term>): nat
    decreases |xs|
  {
    if |xs| == 0 then 0
    else MatchCount(xs[..|xs| - 1], ys) + multiset(ys)[xs[|xs| - 1]]
  }

  /** The dot product of two term-frequency vectors over any vocabulary that
      covers both sequences counts the matching index pairs; in particular
      it does not depend on the order of the vocabulary. */
  lemma {:induction false} DotOfTallies(xs: seq<Term>, ys: seq<Term>, words: seq<Term>)
    requires Distinct(words)
    requires Covers(xs, words) && Covers(ys, words)
    ensures Dot(Tally(xs, words), Tally(ys, words)) == MatchCount(xs, ys)
    decreases |xs|
  {
    if |xs| > 0 {
      var front, w := xs[..|xs| - 1], xs[|xs| - 1];
      CoversPrefix(xs, words);
      DotOfTallies(front, ys, words);
      var j := Lookup(words)[w];
      var u, v := Tally(front, words), Tally(ys, words);
      assert Tally(xs, words) == u[j := u[j] + 1];
      DotBump(u, v, j);
      assert v[j] == multiset(ys)[w];
    } else {
      ZeroDot(Tally(ys, words));
    }
  }

  lemma {:induction false} ZeroDot(b: seq<int>)
    ensures Dot(seq(|b|, _ => 0), b) == 0
    decreases |b|
  {
    if |b| > 0 {
      assert seq(|b|, _ => 0)[1..] == seq(|b| - 1, _ => 0);
      ZeroDot(b[1..]);
    }
  }

  lemma {:induction false} MatchCountAppendRight(xs: seq<Term>, ys: seq<Term>, y: Term)
    ensures MatchCount(xs, ys + [y]) == MatchCount(xs, ys) + multiset(xs)[y]
    decreases |xs|
  {
    if |xs| > 0 {
      var front, x := xs[..|xs| - 1], xs[|xs| - 1];
      MatchCountAppendRight(front, ys, y);
      assert xs == front + [x];
    }
  }

  lemma {:induction false} MatchCountSymmetric(xs: seq<Term>, ys: seq<Term>)
    ensures MatchCount(xs, ys) == MatchCount(ys, xs)
    decreases |ys|
  {
    if |ys| > 0 {
      var front, y := ys[..|ys| - 1], ys[|ys| - 1];
      MatchCountSymmetric(xs, front);
      MatchCountAppendRight(xs, front, y);
      assert ys == front + [y];
    } else {
      MatchCountEmptyRight(xs);
    }
  }

  lemma {:induction false} MatchCountEmptyRight(xs: seq<Term>)
    ensures MatchCount(xs, []) == 0
    decreases |xs|
  {
    if |xs| > 0 {
      MatchCountEmptyRight(xs[..|xs| - 1]);
    }
  }

  /** No element of `xs` occurs in `ys`. */
  predicate NoCommonTerm(xs: seq<Term>, ys: seq<Term>) {
    forall k :: 0 <= k < |xs| ==> xs[k] !in ys
  }

  /** No pair matches exactly when the two sequences share no element. */
  lemma {:induction false} MatchCountZeroIffDisjoint(xs: seq<Term>, ys: seq<Term>)
    ensures MatchCount(xs, ys) == 0 <==> NoCommonTerm(xs, ys)
    decreases |xs|
  {
    if |xs| > 0 {
      var front, x := xs[..|xs| - 1], xs[|xs| - 1];
      MatchCountZeroIffDisjoint(front, ys);
      assert forall k :: 0 <= k < |front| ==> front[k] == xs[k];
    }
  }

  /** Every element matches at least itself. */
  lemma SelfMatchPositive(xs: seq<Term>)
    ensures MatchCount(xs, xs) == 0 <==> xs == []
  {
    if |xs| > 0 {
      assert xs[|xs| - 1] in multiset(xs);
    }
  }
}
