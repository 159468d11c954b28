/** The sliding-window n-gram extractor, generic over the element type. */
module Grams {

  function Max(a: int, b: int): int {
    if a >= b then a else b
  }

  /** All windows of `n` consecutive elements of `xs`, left to right; an
      n-gram is represented by the sequence of its `n` elements. */
  function NGrams<T>(xs: seq<T>, n: nat): (r: seq<seq<T>>)
    requires n >= 1
    ensures |r| == Max(0, |xs| - n + 1)
    ensures forall i :: 0 <= i < |r| ==> r[i] == xs[i..i + n]
    decreases |xs|
  {
    if |xs| < n then [] else [xs[..n]] + NGrams(xs[1..], n)
  }

  /** The `n` consecutive elements of `xs` starting at position `i`. */
  function Window<T>(xs: seq<T>, i: nat, n: nat): seq<T>
    requires i + n <= |xs|
  {
    xs[i..i + n]
  }

  /** A sequence is an n-gram of `xs` exactly when it is a window of `xs`. */
  lemma IsNGramIffWindow<T>(xs: seq<T>, n: nat, g: seq<T>)
    requires n >= 1
    ensures g in NGrams(xs, n) <==> exists i: nat :: i + n <= |xs| && g == Window(xs, i, n)
  {
    var r := NGrams(xs, n);
    if exists i: nat :: i + n <= |xs| && g == Window(xs, i, n) {
      var i: nat :| i + n <= |xs| && g == Window(xs, i, n);
      assert r[i] == g;
    }
    if g in r {
      var i :| 0 <= i < |r| && r[i] == g;
      assert g == Window(xs, i, n);
    }
  }

  /** Fewer than `n` elements give no n-gram at all. */
  lemma NoNGramsOfShort<T>(xs: seq<T>, n: nat)
    requires n >= 1
    ensures NGrams(xs, n) == [] <==> |xs| < n
  {
  }
}
