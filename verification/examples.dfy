/** The concrete scenarios of `test_string_distance_measures.py`, stated
    exactly. */
module Examples {
  import opened Results
  import opened Terms
  import opened Grams
  import opened Scalars
  import opened Overlap
  import opened Vectors
  import opened Cosine

  lemma NGramsExamples()
    ensures NGrams([1, 2, 3, 4], 2) == [[1, 2], [2, 3], [3, 4]]
    ensures NGrams<int>([], 2) == []
    ensures NGrams([1], 2) == []
    ensures NGrams([1, 2], 2) == [[1, 2]]
  {
    var r := NGrams([1, 2, 3, 4], 2);
    assert r[0] == [1, 2] && r[1] == [2, 3] && r[2] == [3, 4];
    var r' := NGrams([1, 2], 2);
    assert r'[0] == [1, 2];
  }

  lemma FourWordTerms()
    ensures MakeTerms("string1 some thing else") == ["string1", "some", "thing", "else"]
    ensures MakeTerms("string2 some thing else") == ["string2", "some", "thing", "else"]
  {
    var ts1 := ["string1", "some", "thing", "else"];
    var ts2 := ["string2", "some", "thing", "else"];
    assert Join(["thing", "else"]) == "thing" + " " + "else";
    assert Join(["some", "thing", "else"]) == "some" + " " + ("thing" + " " + "else");
    assert Join(ts1) == "string1 some thing else";
    assert Join(ts2) == "string2 some thing else";
    assert forall i :: 0 <= i < |ts1| ==> IsTerm(ts1[i]);
    assert forall i :: 0 <= i < |ts2| ==> IsTerm(ts2[i]);
    MakeTermsOfJoin(ts1);
    MakeTermsOfJoin(ts2);
  }

  /** A tab separates terms just as a space does, and whitespace at either
      end is dropped. */
  lemma TabAndEdgeWhitespace()
    ensures MakeTerms("a\tb") == ["a", "b"]
    ensures MakeTerms(" a ") == ["a"]
  {
    MakeTermsOfTerm("a");
    MakeTermsOfTerm("b");
    SplitAtWhitespace("a", '\t', "b");
    assert "a" + ['\t'] + "b" == "a\tb";
    SplitAtWhitespace("", ' ', "a ");
    assert "" + [' '] + "a " == " a ";
    SplitAtWhitespace("a", ' ', "");
    assert "a" + [' '] + "" == "a ";
    assert MakeTerms("") == [];
  }

  lemma OneWordTerms()
    ensures MakeTerms("string1") == ["string1"]
    ensures MakeTerms("string2") == ["string2"]
  {
    assert IsTerm("string1") && IsTerm("string2");
    MakeTermsOfJoin(["string1"]);
    MakeTermsOfJoin(["string2"]);
  }

  lemma ScalarExamples()
    ensures TitleLenDistance("string1", "string1") == 0
    ensures TitleLenDistance("string1", "string2") == 0
    ensures TermCountDistance("string1", "string1") == 0
    ensures TermCountDistance("string1", "string2") == 0
  {
    OneWordTerms();
  }

  lemma OneWordOverlapExamples()
    ensures UnigramDistance("string1", "string1") == Ok(0.0)
    ensures UnigramDistance("string1", "string2") == Ok(1.0)
    ensures BigramDistance("string1", "string1") == 1.0
    ensures BigramDistance("string1", "string2") == 1.0
    ensures TrigramDistance("string1", "string1") == 1.0
    ensures TrigramDistance("string1", "string2") == 1.0
  {
    OneWordUnigrams();
    OneWordNGrams(2);
    OneWordNGrams(3);
  }

  lemma OneWordUnigrams()
    ensures UnigramDistance("string1", "string1") == Ok(0.0)
    ensures UnigramDistance("string1", "string2") == Ok(1.0)
  {
    OneWordTermSets();
    UnigramFromSets("string1", "string1", {"string1"}, {"string1"});
    UnigramFromSets("string1", "string2", {"string1"}, {"string2"});
    SingletonJaccard();
  }

  lemma OneWordTermSets()
    ensures TermSet("string1") == {"string1"}
    ensures TermSet("string2") == {"string2"}
  {
    OneWordTerms();
  }

  lemma SingletonJaccard()
    ensures Jaccard({"string1"}, {"string1"}) == 0.0
    ensures Jaccard({"string1"}, {"string2"}) == 1.0
  {
    assert {"string1"} * {"string2"} == {};
  }

  lemma OneWordNGrams(n: nat)
    requires n >= 2
    ensures GuardedGramDistance("string1", "string1", n) == 1.0
    ensures GuardedGramDistance("string1", "string2", n) == 1.0
  {
    OneWordTerms();
    ShortTextsAreDistant("string1", "string1", n);
    ShortTextsAreDistant("string1", "string2", n);
  }

  /** The Jaccard distance from the sizes of the intersection and union. */
  lemma JaccardFromSizes<T>(a: set<T>, b: set<T>, shared: nat, all: nat)
    requires all > 0 && |a * b| == shared && |a + b| == all
    ensures Jaccard(a, b) == 1.0 - shared as real / all as real
  {
  }

  lemma FourWordUnigram()
    ensures UnigramDistance("string1 some thing else", "string2 some thing else") == Ok(0.4)
  {
    var a: set<string> := {"string1", "some", "thing", "else"};
    var b: set<string> := {"string2", "some", "thing", "else"};
    FourWordTermSets();
    UnigramFromSets("string1 some thing else", "string2 some thing else", a, b);
    FourWordUnigramJaccard();
  }

  lemma FourWordUnigramJaccard()
    ensures Jaccard({"string1", "some", "thing", "else"}, {"string2", "some", "thing", "else"}) == 0.4
  {
    var a: set<string> := {"string1", "some", "thing", "else"};
    var b: set<string> := {"string2", "some", "thing", "else"};
    assert a * b == {"some", "thing", "else"};
    assert a + b == {"string1", "string2", "some", "thing", "else"};
    JaccardFromSizes(a, b, 3, 5);
  }

  lemma FourWordTermSets()
    ensures TermSet("string1 some thing else") == {"string1", "some", "thing", "else"}
    ensures TermSet("string2 some thing else") == {"string2", "some", "thing", "else"}
  {
    FourWordTerms();
    SetOfFour("string1", "some", "thing", "else");
    SetOfFour("string2", "some", "thing", "else");
  }

  lemma SetOfFour<T>(w: T, x: T, y: T, z: T)
    ensures (set e | e in [w, x, y, z]) == {w, x, y, z}
  {
  }

  lemma SetOfThree<T>(x: T, y: T, z: T)
    ensures (set e | e in [x, y, z]) == {x, y, z}
  {
  }

  lemma SetOfTwo<T>(x: T, y: T)
    ensures (set e | e in [x, y]) == {x, y}
  {
  }

  lemma UnigramFromSets(t1: string, t2: string, a: set<string>, b: set<string>)
    requires TermSet(t1) == a && TermSet(t2) == b && a != {}
    ensures UnigramDistance(t1, t2) == Ok(Jaccard(a, b))
  {
  }

  lemma GramsFromSets(t1: string, t2: string, n: nat, a: set<seq<string>>, b: set<seq<string>>)
    requires n >= 1 && GramSet(t1, n) == a && GramSet(t2, n) == b && a != {}
    ensures GuardedGramDistance(t1, t2, n) == Jaccard(a, b)
  {
  }

  lemma FourWordBigram()
    ensures BigramDistance("string1 some thing else", "string2 some thing else") == 0.5
  {
    var a: set<seq<string>> := {["string1", "some"], ["some", "thing"], ["thing", "else"]};
    var b: set<seq<string>> := {["string2", "some"], ["some", "thing"], ["thing", "else"]};
    FourWordBigramSets();
    GramsFromSets("string1 some thing else", "string2 some thing else", 2, a, b);
    FourWordBigramJaccard();
  }

  lemma FourWordBigramJaccard()
    ensures Jaccard({["string1", "some"], ["some", "thing"], ["thing", "else"]},
                    {["string2", "some"], ["some", "thing"], ["thing", "else"]}) == 0.5
  {
    var a: set<seq<string>> := {["string1", "some"], ["some", "thing"], ["thing", "else"]};
    var b: set<seq<string>> := {["string2", "some"], ["some", "thing"], ["thing", "else"]};
    assert a * b == {["some", "thing"], ["thing", "else"]};
    assert a + b == {["string1", "some"], ["string2", "some"], ["some", "thing"], ["thing", "else"]};
    JaccardFromSizes(a, b, 2, 4);
  }

  lemma FourWordBigramSets()
    ensures GramSet("string1 some thing else", 2) == {["string1", "some"], ["some", "thing"], ["thing", "else"]}
    ensures GramSet("string2 some thing else", 2) == {["string2", "some"], ["some", "thing"], ["thing", "else"]}
  {
    FourWordTerms();
    BigramsOfFour("string1", "some", "thing", "else");
    BigramsOfFour("string2", "some", "thing", "else");
  }

  lemma BigramsOfFour(w: string, x: string, y: string, z: string)
    ensures NGrams([w, x, y, z], 2) == [[w, x], [x, y], [y, z]]
    ensures (set g | g in NGrams([w, x, y, z], 2)) == {[w, x], [x, y], [y, z]}
  {
    var ts := [w, x, y, z];
    var g := NGrams(ts, 2);
    assert g[0] == [w, x] && g[1] == [x, y] && g[2] == [y, z];
    SetOfThree([w, x], [x, y], [y, z]);
  }

  lemma TrigramsOfFour(w: string, x: string, y: string, z: string)
    ensures NGrams([w, x, y, z], 3) == [[w, x, y], [x, y, z]]
    ensures (set g | g in NGrams([w, x, y, z], 3)) == {[w, x, y], [x, y, z]}
  {
    var ts := [w, x, y, z];
    var g := NGrams(ts, 3);
    assert g[0] == [w, x, y] && g[1] == [x, y, z];
    SetOfTwo([w, x, y], [x, y, z]);
  }

  lemma FourWordTrigram()
    ensures TrigramDistance("string1 some thing else", "string2 some thing else") == 2.0 / 3.0
  {
    var a: set<seq<string>> := {["string1", "some", "thing"], ["some", "thing", "else"]};
    var b: set<seq<string>> := {["string2", "some", "thing"], ["some", "thing", "else"]};
    FourWordTrigramSets();
    GramsFromSets("string1 some thing else", "string2 some thing else", 3, a, b);
    FourWordTrigramJaccard();
  }

  lemma FourWordTrigramJaccard()
    ensures Jaccard({["string1", "some", "thing"], ["some", "thing", "else"]},
                    {["string2", "some", "thing"], ["some", "thing", "else"]}) == 2.0 / 3.0
  {
    var a: set<seq<string>> := {["string1", "some", "thing"], ["some", "thing", "else"]};
    var b: set<seq<string>> := {["string2", "some", "thing"], ["some", "thing", "else"]};
    assert a * b == {["some", "thing", "else"]};
    assert a + b == {["string1", "some", "thing"], ["string2", "some", "thing"], ["some", "thing", "else"]};
    JaccardFromSizes(a, b, 1, 3);
  }

  lemma FourWordTrigramSets()
    ensures GramSet("string1 some thing else", 3) == {["string1", "some", "thing"], ["some", "thing", "else"]}
    ensures GramSet("string2 some thing else", 3) == {["string2", "some", "thing"], ["some", "thing", "else"]}
  {
    FourWordTerms();
    TrigramsOfFour("string1", "some", "thing", "else");
    TrigramsOfFour("string2", "some", "thing", "else");
  }

  lemma FourWordSelfDistances()
    ensures UnigramDistance("string1 some thing else", "string1 some thing else") == Ok(0.0)
    ensures BigramDistance("string1 some thing else", "string1 some thing else") == 0.0
    ensures TrigramDistance("string1 some thing else", "string1 some thing else") == 0.0
  {
    FourWordTerms();
    SelfDistanceZero("string1 some thing else", 2);
    SelfDistanceZero("string1 some thing else", 3);
  }

  lemma CosineOneWordExamples()
    ensures DistanceCosine("string1", "string1").value.IsZero()
    ensures DistanceCosine("string1", "string2").value.IsOne()
    ensures DistanceCosine("", "").value.IsZero()
  {
    OneWordTerms();
    DistanceCosineSelf("string1");
    DistanceCosineDisjoint("string1", "string2");
  }

  /** A text known to be the space-joined form of some terms splits into them. */
  lemma TermsOfJoin(s: string, ts: seq<string>)
    requires forall i :: 0 <= i < |ts| ==> IsTerm(ts[i])
    requires Join(ts) == s
    ensures MakeTerms(s) == ts
  {
    MakeTermsOfJoin(ts);
  }

  lemma MaryTerms1()
    ensures MakeTerms("mary had a little lamb") == ["mary", "had", "a", "little", "lamb"]
  {
    MaryJoins();
    MaryWordsAreTerms();
    TermsOfJoin("mary had a little lamb", ["mary", "had", "a", "little", "lamb"]);
  }

  lemma MaryTerms2()
    ensures MakeTerms("mary had another little lamb") == ["mary", "had", "another", "little", "lamb"]
  {
    MaryJoins();
    MaryWordsAreTerms();
    TermsOfJoin("mary had another little lamb", ["mary", "had", "another", "little", "lamb"]);
  }

  lemma MaryTerms3()
    ensures MakeTerms("mary had little lamb") == ["mary", "had", "little", "lamb"]
  {
    MaryJoins();
    MaryWordsAreTerms();
    TermsOfJoin("mary had little lamb", ["mary", "had", "little", "lamb"]);
  }

  lemma MaryJoins()
    ensures Join(["mary", "had", "a", "little", "lamb"]) == "mary had a little lamb"
    ensures Join(["mary", "had", "another", "little", "lamb"]) == "mary had another little lamb"
    ensures Join(["mary", "had", "little", "lamb"]) == "mary had little lamb"
  {
    MaryJoin1();
    MaryJoin2();
    MaryJoin3();
  }

  lemma JoinOfFour(a: string, b: string, c: string, d: string)
    ensures Join([a, b, c, d]) == a + " " + (b + " " + (c + " " + d))
  {
    assert [c, d][1..] == [d];
    assert Join([c, d]) == c + " " + d;
    assert [b, c, d][1..] == [c, d];
    assert Join([b, c, d]) == b + " " + (c + " " + d);
    assert [a, b, c, d][1..] == [b, c, d];
  }

  lemma JoinOfFive(a: string, b: string, c: string, d: string, e: string)
    ensures Join([a, b, c, d, e]) == a + " " + (b + " " + (c + " " + (d + " " + e)))
  {
    JoinOfFour(b, c, d, e);
    assert [a, b, c, d, e][1..] == [b, c, d, e];
  }

  lemma MaryJoin1()
    ensures Join(["mary", "had", "a", "little", "lamb"]) == "mary had a little lamb"
  {
    JoinOfFive("mary", "had", "a", "little", "lamb");
    assert "mary" + " " + ("had" + " " + ("a" + " " + ("little" + " " + "lamb")))
        == "mary had a little lamb";
  }

  lemma MaryJoin2()
    ensures Join(["mary", "had", "another", "little", "lamb"]) == "mary had another little lamb"
  {
    JoinOfFive("mary", "had", "another", "little", "lamb");
    assert "mary" + " " + ("had" + " " + ("another" + " " + ("little" + " " + "lamb")))
        == "mary had another little lamb";
  }

  lemma MaryJoin3()
    ensures Join(["mary", "had", "little", "lamb"]) == "mary had little lamb"
  {
    JoinOfFour("mary", "had", "little", "lamb");
    assert "mary" + " " + ("had" + " " + ("little" + " " + "lamb")) == "mary had little lamb";
  }

  lemma MaryWordsAreTerms()
    ensures IsTerm("mary") && IsTerm("had") && IsTerm("a") && IsTerm("another")
    ensures IsTerm("little") && IsTerm("lamb")
  {
  }

  /** Four shared terms out of five on each side: similarity 4/5, so the
      distance is exactly 0.2. */
  lemma CosineMaryAnother()
    ensures DistanceCosine("mary had a little lamb", "mary had another little lamb")
         == Ok(OneMinus(Surd(4, 25)))
    ensures Surd(4, 25).Square() == (4.0 / 5.0) * (4.0 / 5.0)
  {
    var ts1 := ["mary", "had", "a", "little", "lamb"];
    var ts2 := ["mary", "had", "another", "little", "lamb"];
    MaryTerms1();
    MaryTerms2();
    MatchCountMary12();
    MatchCountMary11();
    MatchCountMary22();
    DistanceFromTerms("mary had a little lamb", "mary had another little lamb", ts1, ts2);
  }

  /** Four shared terms, five and four terms: the similarity is 4/√20,
      whose square 0.8 lies strictly between 0.89² and 0.9², so the
      distance lies strictly between 0.1 and 0.11. */
  lemma CosineMaryShorter()
    ensures DistanceCosine("mary had a little lamb", "mary had little lamb")
         == Ok(OneMinus(Surd(4, 20)))
    ensures 0.89 * 0.89 < Surd(4, 20).Square() < 0.9 * 0.9
  {
    var ts1 := ["mary", "had", "a", "little", "lamb"];
    var ts3 := ["mary", "had", "little", "lamb"];
    MaryTerms1();
    MaryTerms3();
    MatchCountMary13();
    MatchCountMary11();
    MatchCountMary33();
    DistanceFromTerms("mary had a little lamb", "mary had little lamb", ts1, ts3);
    SquareOfFourOverRootTwenty();
  }

  lemma SquareOfFourOverRootTwenty()
    ensures 0.89 * 0.89 < Surd(4, 20).Square() < 0.9 * 0.9
  {
    assert Surd(4, 20).Square() == 16.0 / 20.0;
  }

  /** A non-empty pair of texts whose terms are known has the closed-form
      similarity of those terms. */
  lemma DistanceFromTerms(t1: string, t2: string, ts1: seq<string>, ts2: seq<string>)
    requires |t1| > 0 && MakeTerms(t1) == ts1 && MakeTerms(t2) == ts2
    ensures DistanceCosine(t1, t2) == Ok(OneMinus(MatchSimilarity(ts1, ts2)))
  {
  }

  lemma MatchCountSnoc(xs: seq<string>, x: string, ys: seq<string>)
    ensures MatchCount(xs + [x], ys) == MatchCount(xs, ys) + multiset(ys)[x]
  {
    assert (xs + [x])[..|xs|] == xs;
  }

  /** MatchCount of a five-term sequence, one term at a time. */
  lemma MatchCountOfFive(a: string, b: string, c: string, d: string, e: string, ys: seq<string>)
    ensures MatchCount([a, b, c, d, e], ys)
         == multiset(ys)[a] + multiset(ys)[b] + multiset(ys)[c] + multiset(ys)[d] + multiset(ys)[e]
  {
    assert [] + [a] == [a] && [a] + [b] == [a, b] && [a, b] + [c] == [a, b, c];
    assert [a, b, c] + [d] == [a, b, c, d];
    MatchCountSnoc([], a, ys);
    MatchCountSnoc([a], b, ys);
    MatchCountSnoc([a, b], c, ys);
    MatchCountSnoc([a, b, c], d, ys);
    assert [a, b, c, d] + [e] == [a, b, c, d, e];
    MatchCountSnoc([a, b, c, d], e, ys);
  }

  lemma MatchCountOfFour(a: string, b: string, c: string, d: string, ys: seq<string>)
    ensures MatchCount([a, b, c, d], ys)
         == multiset(ys)[a] + multiset(ys)[b] + multiset(ys)[c] + multiset(ys)[d]
  {
    assert [] + [a] == [a] && [a] + [b] == [a, b] && [a, b] + [c] == [a, b, c];
    assert [a, b, c] + [d] == [a, b, c, d];
    MatchCountSnoc([], a, ys);
    MatchCountSnoc([a], b, ys);
    MatchCountSnoc([a, b], c, ys);
    MatchCountSnoc([a, b, c], d, ys);
  }

  lemma MatchCountMary12()
    ensures MatchCount(["mary", "had", "a", "little", "lamb"], ["mary", "had", "another", "little", "lamb"]) == 4
  {
    var m := multiset(["mary", "had", "another", "little", "lamb"]);
    assert m["mary"] == 1 && m["had"] == 1 && m["a"] == 0 && m["little"] == 1 && m["lamb"] == 1;
    MatchCountOfFive("mary", "had", "a", "little", "lamb", ["mary", "had", "another", "little", "lamb"]);
  }

  lemma MatchCountMary13()
    ensures MatchCount(["mary", "had", "a", "little", "lamb"], ["mary", "had", "little", "lamb"]) == 4
  {
    var m := multiset(["mary", "had", "little", "lamb"]);
    assert m["mary"] == 1 && m["had"] == 1 && m["a"] == 0 && m["little"] == 1 && m["lamb"] == 1;
    MatchCountOfFive("mary", "had", "a", "little", "lamb", ["mary", "had", "little", "lamb"]);
  }

  lemma MatchCountMary11()
    ensures MatchCount(["mary", "had", "a", "little", "lamb"], ["mary", "had", "a", "little", "lamb"]) == 5
  {
    var m := multiset(["mary", "had", "a", "little", "lamb"]);
    assert m["mary"] == 1 && m["had"] == 1 && m["a"] == 1 && m["little"] == 1 && m["lamb"] == 1;
    MatchCountOfFive("mary", "had", "a", "little", "lamb", ["mary", "had", "a", "little", "lamb"]);
  }

  lemma MatchCountMary22()
    ensures MatchCount(["mary", "had", "another", "little", "lamb"], ["mary", "had", "another", "little", "lamb"]) == 5
  {
    var m := multiset(["mary", "had", "another", "little", "lamb"]);
    assert m["mary"] == 1 && m["had"] == 1 && m["another"] == 1 && m["little"] == 1 && m["lamb"] == 1;
    MatchCountOfFive("mary", "had", "another", "little", "lamb", ["mary", "had", "another", "little", "lamb"]);
  }

  lemma MatchCountMary33()
    ensures MatchCount(["mary", "had", "little", "lamb"], ["mary", "had", "little", "lamb"]) == 4
  {
    var m := multiset(["mary", "had", "little", "lamb"]);
    assert m["mary"] == 1 && m["had"] == 1 && m["little"] == 1 && m["lamb"] == 1;
    MatchCountOfFour("mary", "had", "little", "lamb", ["mary", "had", "little", "lamb"]);
  }
}
