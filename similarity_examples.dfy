/** The expected values of EqualityCheck.Test/StringSimilarityTest.cs, derived from the model. */
module SimilarityExamples {
  import opened Wrappers
  import opened Text
  import opened EditDistance
  import opened StringSimilarity

  /** "ab" against "ba" is one transposition apart; without the transposition cap the cell
      would hold 2, the plain Levenshtein distance. */
  lemma TranspositionCostsOne()
    ensures Distance("ab", "ba") == 1
    ensures EditCost("ab", "ba", 3, 3) == 2
  {
  }

  /** In case-sensitive mode, two accepted strings `source` = `p + x` and `target` = `p + y`
      of equal length that share the prefix `p` and nothing else are as similar as the share
      of the prefix in their length. */
  lemma SharedPrefixSimilarity(p: string, x: string, y: string, source: string, target: string)
    requires source == p + x && target == p + y && |x| == |y|
    requires forall k :: 0 <= k < |x| ==> x[k] !in target
    requires forall k :: 0 <= k < |y| ==> y[k] !in source
    requires !IsNullOrWhiteSpace(Some(source)) && !IsNullOrWhiteSpace(Some(target))
    ensures Similarity(Some(source), Some(target), true) == Success(1.0 - |x| as real / |source| as real)
  {
    DistanceCommonPrefix(p, x, y);
  }

  /** Two strings whose characters lie on either side of a bound share no character, and a
      first character that is not white space makes each of them pass the guard. */
  lemma NoCommonPrefix(x: string, y: string, bound: char)
    requires |x| == |y| && 0 < |x| && !IsWhiteSpace(x[0]) && !IsWhiteSpace(y[0])
    requires (forall k :: 0 <= k < |x| ==> x[k] < bound) && (forall k :: 0 <= k < |y| ==> bound <= y[k])
    ensures "" + x == x && "" + y == y
    ensures forall k :: 0 <= k < |x| ==> x[k] !in y
    ensures forall k :: 0 <= k < |y| ==> y[k] !in x
    ensures !IsNullOrWhiteSpace(Some(x)) && !IsNullOrWhiteSpace(Some(y))
  {
    assert "" + x == x && "" + y == y;
    NotWhiteSpaceCharIsNotBlank(x, 0);
    NotWhiteSpaceCharIsNotBlank(y, 0);
  }

  /** Test row: no character in common. */
  lemma DisjointStringsAreDissimilar()
    ensures Similarity(Some("abcdefgh"), Some("ijklmnop"), true) == Success(0.0)
  {
    NoCommonPrefix("abcdefgh", "ijklmnop", 'i');
    SharedPrefixSimilarity("", "abcdefgh", "ijklmnop", "abcdefgh", "ijklmnop");
  }

  /** Test row: case-sensitive, every letter differs in case. */
  lemma CaseSensitiveCapitalsAreDissimilar()
    ensures Similarity(Some("abcdefgh"), Some("ABCDEFGH"), true) == Success(0.0)
  {
    NoCommonPrefix("ABCDEFGH", "abcdefgh", 'a');
    SharedPrefixSimilarity("", "abcdefgh", "ABCDEFGH", "abcdefgh", "ABCDEFGH");
  }

  /** Test row: two of eight characters kept. */
  lemma TwoOfEightKept()
    ensures Similarity(Some("abcdefgh"), Some("abijklmn"), true) == Success(0.25)
  {
    assert "ab" + "cdefgh" == "abcdefgh" && "ab" + "ijklmn" == "abijklmn";
    NotWhiteSpaceCharIsNotBlank("abcdefgh", 0);
    NotWhiteSpaceCharIsNotBlank("abijklmn", 0);
    SharedPrefixSimilarity("ab", "cdefgh", "ijklmn", "abcdefgh", "abijklmn");
  }

  /** Test row: four of eight characters kept. */
  lemma FourOfEightKept()
    ensures Similarity(Some("abcdefgh"), Some("abcdijkl"), true) == Success(0.5)
  {
    assert "abcd" + "efgh" == "abcdefgh" && "abcd" + "ijkl" == "abcdijkl";
    NotWhiteSpaceCharIsNotBlank("abcdefgh", 0);
    NotWhiteSpaceCharIsNotBlank("abcdijkl", 0);
    SharedPrefixSimilarity("abcd", "efgh", "ijkl", "abcdefgh", "abcdijkl");
  }

  /** Test row: six of eight characters kept. */
  lemma SixOfEightKept()
    ensures Similarity(Some("abcdefgh"), Some("abcdefij"), true) == Success(0.75)
  {
    assert "abcdef" + "gh" == "abcdefgh" && "abcdef" + "ij" == "abcdefij";
    NotWhiteSpaceCharIsNotBlank("abcdefgh", 0);
    NotWhiteSpaceCharIsNotBlank("abcdefij", 0);
    SharedPrefixSimilarity("abcdef", "gh", "ij", "abcdefgh", "abcdefij");
  }

  /** Test row: identical strings. */
  lemma IdenticalStringsAreSimilar()
    ensures Similarity(Some("abcdefgh"), Some("abcdefgh"), true) == Success(1.0)
  {
    assert !IsWhiteSpace("abcdefgh"[0]);
    SimilarityOfSelf("abcdefgh", true);
  }

  /** Test row: case-insensitive, the capitals fold onto the small letters. */
  lemma CaseInsensitiveCapitalsAreSimilar()
    ensures Similarity(Some("abcdefgh"), Some("ABCDEFGH"), false) == Success(1.0)
  {
    assert ToLower("ABCDEFGH") == "abcdefgh";
    assert ToLower("abcdefgh") == "abcdefgh";
    assert !IsWhiteSpace("abcdefgh"[0]) && !IsWhiteSpace("ABCDEFGH"[0]);
    SimilarityOneIffEqual("abcdefgh", "ABCDEFGH", false);
  }

  /** Test rows of the percentage form: the similarity scaled by 100. */
  lemma PercentageTestValues()
    ensures SimilarityPercentage(Some("abcdefgh"), Some("ijklmnop"), true) == Success(0.0)
    ensures SimilarityPercentage(Some("abcdefgh"), Some("ABCDEFGH"), true) == Success(0.0)
    ensures SimilarityPercentage(Some("abcdefgh"), Some("abijklmn"), true) == Success(25.0)
    ensures SimilarityPercentage(Some("abcdefgh"), Some("abcdijkl"), true) == Success(50.0)
    ensures SimilarityPercentage(Some("abcdefgh"), Some("abcdefij"), true) == Success(75.0)
    ensures SimilarityPercentage(Some("abcdefgh"), Some("abcdefgh"), true) == Success(100.0)
    ensures SimilarityPercentage(Some("abcdefgh"), Some("ABCDEFGH"), false) == Success(100.0)
  {
    DisjointStringsAreDissimilar();
    CaseSensitiveCapitalsAreDissimilar();
    TwoOfEightKept();
    FourOfEightKept();
    SixOfEightKept();
    IdenticalStringsAreSimilar();
    CaseInsensitiveCapitalsAreSimilar();
  }

  /** Test rows of the failures: null, empty and white-space inputs on either side. */
  lemma BlankInputsFail()
    ensures Similarity(None, Some("abcdefgh"), false) == Failure(InvalidInput(NullOrWhiteSpaceMessage))
    ensures Similarity(Some(""), Some("abcdefgh"), false) == Failure(InvalidInput(NullOrWhiteSpaceMessage))
    ensures Similarity(Some(" "), Some("abcdefgh"), false) == Failure(InvalidInput(NullOrWhiteSpaceMessage))
    ensures Similarity(Some("abcdefgh"), None, false) == Failure(InvalidInput(NullOrWhiteSpaceMessage))
    ensures Similarity(Some("abcdefgh"), Some(""), false) == Failure(InvalidInput(NullOrWhiteSpaceMessage))
    ensures Similarity(Some("abcdefgh"), Some(" "), false) == Failure(InvalidInput(NullOrWhiteSpaceMessage))
    ensures SimilarityPercentage(None, Some("abcdefgh"), false) == Failure(InvalidInput(NullOrWhiteSpaceMessage))
    ensures SimilarityPercentage(Some(""), Some("abcdefgh"), false) == Failure(InvalidInput(NullOrWhiteSpaceMessage))
    ensures SimilarityPercentage(Some(" "), Some("abcdefgh"), false) == Failure(InvalidInput(NullOrWhiteSpaceMessage))
    ensures SimilarityPercentage(Some("abcdefgh"), None, false) == Failure(InvalidInput(NullOrWhiteSpaceMessage))
    ensures SimilarityPercentage(Some("abcdefgh"), Some(""), false) == Failure(InvalidInput(NullOrWhiteSpaceMessage))
    ensures SimilarityPercentage(Some("abcdefgh"), Some(" "), false) == Failure(InvalidInput(NullOrWhiteSpaceMessage))
  {
  }
}
