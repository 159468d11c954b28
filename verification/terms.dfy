/** The tokeniser: a text is turned into the sequence of its terms, the
    maximal runs of non-whitespace characters, from left to right. */
module Terms {

  /** The whitespace class the splitter uses: tab, line feed, vertical tab,
      form feed, carriage return, the four information separators and space. */
  predicate IsWhitespace(c: char) {
    c == ' ' || 9 <= c as int <= 13 || 28 <= c as int <= 31
  }

  predicate NoWhitespace(w: string) {
    forall i :: 0 <= i < |w| ==> !IsWhitespace(w[i])
  }

  predicate AllWhitespace(s: string) {
    forall i :: 0 <= i < |s| ==> IsWhitespace(s[i])
  }

  /** A term is a non-empty run of non-whitespace characters. */
  predicate IsTerm(w: string) {
    |w| > 0 && NoWhitespace(w)
  }

  /** Length of the longest prefix of `s` that holds no whitespace. */
  function RunLength(s: string): (k: nat)
    ensures k <= |s|
    ensures NoWhitespace(s[..k])
    ensures k < |s| ==> IsWhitespace(s[k])
  {
    if |s| == 0 || IsWhitespace(s[0]) then 0 else 1 + RunLength(s[1..])
  }

  /** Splits `s` on runs of whitespace, dropping leading and trailing
      whitespace, so that no empty fragment is produced. */
  function MakeTerms(s: string): (ts: seq<string>)
    ensures forall i :: 0 <= i < |ts| ==> IsTerm(ts[i])
    decreases |s|
  {
    if |s| == 0 then []
    else if IsWhitespace(s[0]) then MakeTerms(s[1..])
    else
      var k := RunLength(s);
      [s[..k]] + MakeTerms(s[k..])
  }

  /** The non-whitespace characters of `s`, in order. */
  function Visible(s: string): string {
    if |s| == 0 then []
    else (if IsWhitespace(s[0]) then [] else [s[0]]) + Visible(s[1..])
  }

  /** All terms written one after another with nothing in between. */
  function Concat(ts: seq<string>): string {
    if |ts| == 0 then [] else ts[0] + Concat(ts[1..])
  }

  /** The terms separated by single spaces. */
  function Join(ts: seq<string>): string {
    if |ts| == 0 then []
    else if |ts| == 1 then ts[0]
    else ts[0] + " " + Join(ts[1..])
  }

  /** A text has no terms exactly when it is empty or all whitespace. */
  lemma {:induction false} NoTermsIffAllWhitespace(s: string)
    ensures MakeTerms(s) == [] <==> AllWhitespace(s)
    decreases |s|
  {
    if |s| > 0 && IsWhitespace(s[0]) {
      NoTermsIffAllWhitespace(s[1..]);
      if AllWhitespace(s[1..]) {
        forall i | 0 <= i < |s| ensures IsWhitespace(s[i]) {
          if i > 0 { assert s[i] == s[1..][i - 1]; }
        }
      } else {
        var i :| 0 <= i < |s[1..]| && !IsWhitespace(s[1..][i]);
        assert !IsWhitespace(s[i + 1]);
      }
    }
  }

  lemma {:induction false} VisibleAppend(a: string, b: string)
    ensures Visible(a + b) == Visible(a) + Visible(b)
    decreases |a|
  {
    if |a| > 0 {
      assert (a + b)[1..] == a[1..] + b;
      VisibleAppend(a[1..], b);
    } else {
      assert a + b == b;
    }
  }

  lemma {:induction false} VisibleOfRun(w: string)
    requires NoWhitespace(w)
    ensures Visible(w) == w
    decreases |w|
  {
    if |w| > 0 {
      VisibleOfRun(w[1..]);
    }
  }

  /** No character other than whitespace is lost or reordered: the terms,
      written one after another, are exactly the visible characters. */
  lemma {:induction false} TermsKeepVisibleText(s: string)
    ensures Concat(MakeTerms(s)) == Visible(s)
    decreases |s|
  {
    if |s| > 0 {
      if IsWhitespace(s[0]) {
        TermsKeepVisibleText(s[1..]);
      } else {
        var k := RunLength(s);
        var ts := MakeTerms(s);
        TermsKeepVisibleText(s[k..]);
        assert ts[1..] == MakeTerms(s[k..]);
        assert s == s[..k] + s[k..];
        VisibleAppend(s[..k], s[k..]);
        VisibleOfRun(s[..k]);
      }
    }
  }

  lemma {:induction false} RunLengthOfTerm(w: string, rest: string)
    requires NoWhitespace(w)
    requires |rest| == 0 || IsWhitespace(rest[0])
    ensures RunLength(w + rest) == |w|
    decreases |w|
  {
    if |w| > 0 {
      assert (w + rest)[1..] == w[1..] + rest;
      RunLengthOfTerm(w[1..], rest);
    } else {
      assert w + rest == rest;
    }
  }

  /** The run at the front of `x` ends inside `x` when `x` holds a
      whitespace character, whatever follows `x`. */
  lemma {:induction false} RunLengthOfPrefix(x: string, y: string)
    requires RunLength(x) < |x|
    ensures RunLength(x + y) == RunLength(x)
    decreases |x|
  {
    if !IsWhitespace(x[0]) {
      assert (x + y)[1..] == x[1..] + y;
      RunLengthOfPrefix(x[1..], y);
    }
  }

  /** A single term splits into itself. */
  lemma MakeTermsOfTerm(w: string)
    requires IsTerm(w)
    ensures MakeTerms(w) == [w]
  {
    RunLengthOfTerm(w, []);
    assert w + [] == w;
    assert w[..|w|] == w;
  }

  /** A term followed by whitespace is split off whole. */
  lemma SplitAfterTerm(w: string, c: char, b: string)
    requires IsTerm(w) && IsWhitespace(c)
    ensures MakeTerms(w + [c] + b) == [w] + MakeTerms(b)
  {
    var s := w + ([c] + b);
    assert w + [c] + b == s;
    RunLengthOfTerm(w, [c] + b);
    assert s[..|w|] == w;
    assert s[|w|..] == [c] + b;
    assert ([c] + b)[1..] == b;
  }

  /** A run that ends inside `a` is split off the same way whatever
      follows `a`. */
  lemma SplitWithinRun(a: string, tail: string)
    requires 0 < RunLength(a) < |a|
    ensures MakeTerms(a + tail) == [a[..RunLength(a)]] + MakeTerms(a[RunLength(a)..] + tail)
  {
    var k, s := RunLength(a), a + tail;
    RunLengthOfPrefix(a, tail);
    assert s[..k] == a[..k];
    assert s[k..] == a[k..] + tail;
  }

  /** Every whitespace character separates: the terms of `a`, a whitespace
      character and `b` are the terms of `a` followed by those of `b`.
      With `MakeTermsOfTerm` and `NoTermsIffAllWhitespace` this fixes the
      split of every text, runs of whitespace and leading or trailing
      whitespace included. */
  lemma {:induction false} SplitAtWhitespace(a: string, c: char, b: string)
    requires IsWhitespace(c)
    ensures MakeTerms(a + [c] + b) == MakeTerms(a) + MakeTerms(b)
    decreases |a|
  {
    if |a| == 0 {
      assert a + [c] + b == [c] + b;
      assert ([c] + b)[1..] == b;
    } else if IsWhitespace(a[0]) {
      assert (a + [c] + b)[1..] == a[1..] + [c] + b;
      SplitAtWhitespace(a[1..], c, b);
    } else if RunLength(a) == |a| {
      SplitAfterTerm(a, c, b);
      MakeTermsOfTerm(a);
    } else {
      var k := RunLength(a);
      SplitWithinRun(a, [c] + b);
      assert a + [c] + b == a + ([c] + b);
      assert a[k..] + ([c] + b) == a[k..] + [c] + b;
      SplitAtWhitespace(a[k..], c, b);
    }
  }

  /** Splitting undoes joining with single spaces. */
  lemma {:induction false} MakeTermsOfJoin(ts: seq<string>)
    requires forall i :: 0 <= i < |ts| ==> IsTerm(ts[i])
    ensures MakeTerms(Join(ts)) == ts
    decreases |ts|
  {
    if |ts| == 1 {
      MakeTermsOfTerm(ts[0]);
    } else if |ts| > 1 {
      var w, rest := ts[0], Join(ts[1..]);
      var s := w + " " + rest;
      RunLengthOfTerm(w, " " + rest);
      assert s == w + (" " + rest);
      assert s[..|w|] == w;
      assert s[|w|..] == " " + rest;
      assert (" " + rest)[1..] == rest;
      MakeTermsOfJoin(ts[1..]);
      assert [w] + ts[1..] == ts;
    }
  }
}
