# Word-level string distance measures, modelled in Dafny

This project models the word-level similarity layer of `string_distance_measures.py`.
It covers:

- the whitespace tokeniser `make_terms_from_string`;
- the sliding-window `ngrams` extractor;
- the two integer deltas `distance_title_len` and `distance_nbr_title_terms`;
- the set-overlap (Jaccard) distances over unigrams, bigrams and trigrams;
- the term-frequency cosine distance `distance_cosine_measure`, including its inner `__cosine_similarity`.

All of these are pure functions, so every one of them is a Dafny `function`.

Modules, one per component:

| file | module | models |
|---|---|---|
| `results.dfy` | `Results` | the exceptions the code can raise, as `Result` values |
| `terms.dfy` | `Terms` | `make_terms_from_string` |
| `grams.dfy` | `Grams` | `ngrams` |
| `scalars.dfy` | `Scalars` | `distance_title_len`, `distance_nbr_title_terms` |
| `overlap.dfy` | `Overlap` | `distance_unigrams_same`, `distance_bigrams_same`, `distance_trigrams_same` |
| `vectors.dfy` | `Vectors` | vocabulary, word lookup, count vectors, dot product, Cauchy–Schwarz |
| `cosine.dfy` | `Cosine` | `__cosine_similarity`, `distance_cosine_measure` |
| `examples.dfy` | `Examples` | the concrete scenarios of `test_string_distance_measures.py` |

Modelling choices:

- **Texts and terms.** A text is a `string` (a sequence of characters). A term is a non-empty run of non-whitespace characters. An n-gram is the `seq` of its `n` terms.
- **Exact numbers.** Jaccard distances are exact `real`s.
- **Division by zero.** The unigram distance divides by the size of the term union without checking it. When neither text has a term, it returns `Err(DivisionByZero)`.
- **The cosine similarity as an exact surd.** The similarity is `dot / (‖v1‖·‖v2‖)`. It is kept as a `Surd(num, radicand)`, meaning `num / √radicand`, and the square root is never taken. Statements that it lies in [0, 1], equals 0 or equals 1 are made through squares. The cosine distance is `OneMinus(similarity)`.
- **The assertion on line 150.** The check `assert cos_sim >= 0 and cos_sim <= 1.0` becomes an `Err(AssertionViolated)` branch. `DistanceCosine` proves that this branch is never taken. The proof uses Cauchy–Schwarz on integer vectors together with the non-negativity of counts.
- **Definitions the rows below rely on.** `Overlap.TermSet` is `set(t1_terms)` (`string_distance_measures.py:70-71`). `Overlap.GramSet` is `set(ngrams(t1_terms, n))` (`string_distance_measures.py:83-84` and `98-99`). `Vectors.Dot` is `np.dot(v1, v2)` on integer count vectors (`string_distance_measures.py:119`). These carry no contract of their own; the distances and lemmas built on them do.
- **Vocabulary order.** The code enumerates a Python `set`, so the column order is arbitrary. The model enumerates the vocabulary in order of first occurrence. `DotOfTallies` shows that the dot product of the count vectors over any duplicate-free vocabulary that covers both term sequences equals `MatchCount`. `MatchCount` is the number of index pairs at which the two term sequences hold the same term. So no result depends on the chosen order.

Three behaviours of the code that a reader might not expect, all modelled as written:

- **Cosine empty-input guard.** The guard at `string_distance_measures.py:124` tests raw string lengths, not term counts. So a non-empty all-whitespace text is at cosine distance 1 from every text, itself included (`BlankIsMaximallyDistant`, `DistanceCosineSelf`). It is not at distance 0.
- **Unigram distance on empty input.** The unigram distance has no empty-union guard, so two term-less texts raise. The bigram and trigram distances return 1.0 in that case (the empty-union clause of `GuardedGramDistance`, and `ShortTextsAreDistant`). `UnigramIsOneGramDistance` relates the two policies.
- **Term-count delta input.** `distance_nbr_title_terms` takes two strings and tokenises them itself. It does not take two term sequences.

## Model

| member | source | states |
|---|---|---|
| Terms.MakeTerms | string_distance_measures.py:21-24 | every term produced is non-empty and contains no whitespace character |
| Terms.NoTermsIffAllWhitespace | string_distance_measures.py:21-24 | a text yields no terms if and only if it is empty or consists only of whitespace |
| Terms.TermsKeepVisibleText | string_distance_measures.py:21-24 | the terms, concatenated in order, are exactly the non-whitespace characters of the text: nothing is lost, added or reordered |
| Terms.MakeTermsOfTerm | string_distance_measures.py:21-24 | a non-empty whitespace-free text splits into exactly one term, itself |
| Terms.SplitAtWhitespace | string_distance_measures.py:21-24 | every whitespace character separates: the terms of a, a whitespace character, b are the terms of a followed by the terms of b; with the two rows above this fixes the split of every text, including runs of whitespace and whitespace at either end |
| Terms.MakeTermsOfJoin | string_distance_measures.py:21-24 | splitting inverts joining with single spaces: any sequence of whitespace-free non-empty terms is recovered from its space-joined text |
| Grams.NGrams | string_distance_measures.py:12-18 | for n ≥ 1 the result has exactly max(0, L−n+1) windows, and window i is the n consecutive elements starting at i |
| Grams.IsNGramIffWindow | string_distance_measures.py:12-18 | a sequence is among the n-grams exactly when it equals some in-range window of the input |
| Grams.NoNGramsOfShort | string_distance_measures.py:12-18 | there are no n-grams exactly when the input is shorter than n |
| Scalars.TitleLenDistance | string_distance_measures.py:51-54 | the delta is a natural number, is 0 exactly when the lengths agree, and is the gap between the two lengths |
| Scalars.TermCountDistance | string_distance_measures.py:57-62 | the delta is a natural number, is 0 exactly when the term counts agree, and is the gap between the two term counts |
| Scalars.ScalarDistancesSymmetric | string_distance_measures.py:51-62 | both deltas are symmetric in their two arguments |
| Scalars.TermCountOfBlank | string_distance_measures.py:57-62 | a blank title counts as having no terms |
| Overlap.Jaccard | string_distance_measures.py:72-74 | 1 − \|A∩B\|/\|A∪B\| lies in [0,1], is 0 exactly for equal sets and is 1 exactly for disjoint sets |
| Overlap.UnigramDistance | string_distance_measures.py:65-75 | raises division by zero exactly when neither text has a term; otherwise it lies in [0,1], is 0 iff the term sets are equal, and is 1 iff they are disjoint |
| Overlap.GuardedGramDistance | string_distance_measures.py:83-89 | always in [0,1]; 1.0 when neither text has an n-gram; 0 iff the n-gram sets are equal and non-empty; 1 iff they share no n-gram |
| Overlap.BigramDistance | string_distance_measures.py:78-90 | the bigram distance has the bounds, empty-union policy and equality/disjointness characterisation of the guarded distance |
| Overlap.TrigramDistance | string_distance_measures.py:93-105 | the trigram distance has the bounds, empty-union policy and equality/disjointness characterisation of the guarded distance |
| Overlap.OverlapSymmetric | string_distance_measures.py:65-105 | the unigram, bigram and trigram distances are symmetric, including the error outcome |
| Overlap.ShortTextsAreDistant | string_distance_measures.py:87-89 | two texts with fewer than n terms each are at n-gram distance 1.0, even when identical |
| Overlap.SelfDistanceZero | string_distance_measures.py:65-105 | a text with a term is at unigram distance 0 from itself; a text with at least n terms is at n-gram distance 0 from itself |
| Overlap.UnigramIsOneGramDistance | string_distance_measures.py:65-90 | the unigram distance equals the guarded distance for n = 1 whenever it does not raise; when it raises, the guarded one gives 1.0 |
| Vectors.SqNorm | string_distance_measures.py:113-114 | the squared norm is a natural number and is 0 exactly for the zero vector |
| Vectors.DotNonNegative | string_distance_measures.py:119 | the dot product of two non-negative vectors is non-negative |
| Vectors.CauchySchwarz | string_distance_measures.py:115-121 | dot(a,b)² ≤ ‖a‖²·‖b‖² for all integer vectors of equal length |
| Vectors.Dedup | string_distance_measures.py:127-132 | the enumeration has no duplicates and contains exactly the elements of its input |
| Vectors.Lookup | string_distance_measures.py:134 | every vocabulary word, and nothing else, has a column, and the column of word j is j |
| Vectors.Tally | string_distance_measures.py:136-141 | given that every term has a column (the assertion at line 140), the vector has one entry per column, and each entry is the number of occurrences of that column's word |
| Vectors.DotOfTallies | string_distance_measures.py:136-142 | the dot product of two count vectors over any duplicate-free covering vocabulary is the number of index pairs holding equal terms, whatever the vocabulary order |
| Vectors.MatchCountSymmetric | string_distance_measures.py:119 | the count of matching index pairs does not depend on the argument order |
| Vectors.MatchCountZeroIffDisjoint | string_distance_measures.py:119 | no index pair matches exactly when the sequences share no element |
| Vectors.SelfMatchPositive | string_distance_measures.py:113-114 | a term sequence has squared norm 0 exactly when it is empty |
| Cosine.CosineSimilarity | string_distance_measures.py:112-121 | the similarity is 0 iff a norm is 0 or the vectors are orthogonal; it is 1 for equal non-zero vectors; for non-negative vectors it lies in [0,1] |
| Cosine.Vocabulary | string_distance_measures.py:127-132 | the vocabulary has no duplicates and holds exactly the terms of either text |
| Cosine.TermsSimilarity | string_distance_measures.py:127-142 | the similarity computed through vocabulary, count vectors and norms equals the closed form from matching-pair counts, and lies in [0,1] |
| Cosine.TextSimilarity | string_distance_measures.py:123-142 | two zero-length texts have similarity 1; otherwise the similarity is the closed form from the texts' terms; it always lies in [0,1] |
| Cosine.DistanceCosine | string_distance_measures.py:108-151 | the range assertion never fails; the distance lies in [0,1]; two zero-length texts are at distance 0 |
| Cosine.DistanceCosineSymmetric | string_distance_measures.py:108-151 | the cosine distance is symmetric |
| Cosine.DistanceCosineSelf | string_distance_measures.py:116-125 | in exact arithmetic, a text is at distance 0 from itself if and only if it is empty or has a term (floating-point rounding is under "Left out") |
| Cosine.DistanceCosineDisjoint | string_distance_measures.py:116-142 | unless both texts are empty, the distance is 1 if and only if they share no term, including when one side has no terms |
| Cosine.BlankIsMaximallyDistant | string_distance_measures.py:116-125 | a non-empty all-whitespace text passes the length guard and ends at distance 1 against any text |
| Examples.TabAndEdgeWhitespace | string_distance_measures.py:21-24 | `split()` with no argument treats a tab as a separator and drops whitespace at either end: "a\tb" gives ["a","b"] and " a " gives ["a"] |
| Examples.NGramsExamples | test_string_distance_measures.py:6-18 | [1,2,3,4] with n=2 gives [[1,2],[2,3],[3,4]]; [] and [1] give []; [1,2] gives [[1,2]] |
| Examples.ScalarExamples | test_string_distance_measures.py:34-40 | "string1" and "string2" have length delta 0 against themselves and each other (lines 34-35); the term-count deltas of lines 39-40 are restated on the strings, since the test passes term lists that `unicode()` would turn into strings |
| Examples.OneWordOverlapExamples | test_string_distance_measures.py:91-111 | single words: unigram distance 0 to itself and 1 to another word; bigram and trigram distance 1 in both cases |
| Examples.FourWordUnigram | test_string_distance_measures.py:119-122 | "string1 some thing else" against "string2 some thing else" has unigram distance exactly 0.4 |
| Examples.FourWordBigram | test_string_distance_measures.py:124-129 | the same pair has bigram distance exactly 0.5 |
| Examples.FourWordTrigram | test_string_distance_measures.py:131-136 | the same pair has trigram distance exactly 2/3 |
| Examples.FourWordSelfDistances | test_string_distance_measures.py:119-133 | the four-word text is at unigram, bigram and trigram distance 0 from itself |
| Examples.CosineOneWordExamples | test_string_distance_measures.py:63-88 | "string1" is at cosine distance 0 from itself and 1 from "string2"; "" is at distance 0 from "" |
| Examples.CosineMaryAnother | test_string_distance_measures.py:74-78 | "mary had a little lamb" against "mary had another little lamb" has similarity 4/√25 = 0.8, so distance 0.2 |
| Examples.CosineMaryShorter | test_string_distance_measures.py:80-84 | "mary had a little lamb" against "mary had little lamb" has similarity 4/√20, whose square lies strictly between 0.89² and 0.9², so the distance lies strictly between 0.1 and 0.11 |

## Left out

- The Levenshtein, Jaro, Jaro-Winkler and ratio wrappers (`string_distance_measures.py:27-48`) are left out. They only call an external C library that is not part of this model.
- Floating point is not modelled. This covers `numpy.linalg.norm`, float division and the snap-down of values just above 1.0 (`string_distance_measures.py:143-144`). Reals and squared quantities replace them. In exact arithmetic the similarity never exceeds 1, so the snap-down has nothing to do in the model. In IEEE double arithmetic it does work: for a text with three distinct terms compared with itself, √3·√3 rounds to 2.9999999999999996, so the quotient is 1.0000000000000002 and the snap-down brings it back to 1.0.
- The diagnostic `print` statements (`string_distance_measures.py:145-149`) are left out because they are output only. The failing assertion they precede is modelled as `Err(AssertionViolated)` and proved unreachable.
- Cosine.DistanceCosineSelf: distance 0 for identical texts holds in exact arithmetic only. In IEEE doubles the product of the two norms is rounded. For "a b" against itself √2·√2 rounds to 2.0000000000000004, so the similarity is 0.9999999999999998 and the program's distance is about 2.2e-16, not 0. The same happens whenever the squared norm is not a perfect square and the rounding goes down ("mary had a little lamb": √5·√5 rounds to 5.000000000000001). These are facts about IEEE rounding, not outputs of the program.
- Python 2's `unicode()` coercion is left out. Inputs are taken to be strings already. The test that passes term lists into string functions depends on that coercion and is not modelled.
- `ngrams` with `n <= 0` is excluded by `requires n >= 1`. The code would return degenerate slices in that case.
- Terms.IsWhitespace: only ASCII whitespace counts (tab, line feed, vertical tab, form feed, carriage return, the separators 0x1C–0x1F and space). Python's Unicode whitespace class also includes characters such as U+0085, U+00A0 and U+2000–U+200A. The general lemmas hold for any class; `MakeTermsOfJoin` also relies on the space being whitespace, and the concrete examples rely on tab and space being whitespace and on the letters and digits they use not being whitespace.
- The column order of the vocabulary is fixed to first occurrence rather than Python's hash order. `Vectors.DotOfTallies` shows that the similarity does not depend on the order.
- Cosine.DistanceCosine: the claim that the distance is 0 exactly when the count vectors are proportional is not proved. That would need the equality case of Cauchy–Schwarz. Distance 0 is proved for identical texts with at least one term and for two zero-length texts.
