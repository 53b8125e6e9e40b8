# StringSimilarity: a verified model of the Damerau-Levenshtein similarity of EqualityCheck

EqualityCheck scores how alike two strings are. It computes their Damerau-Levenshtein distance:
the number of single-character insertions, deletions, substitutions and adjacent transpositions
needed to turn one string into the other. It then turns that distance into a ratio,
`1 - distance / max(|source|, |target|)`, and into a percentage. This project models
`EqualityCheck/StringSimilarity.cs` in Dafny and proves what the code computes.

The model has five modules:

- `EditDistance` (`edit_distance.dfy`) states the recurrence of the dynamic-programming fill.
  - `Score(s, t, i, j)` is the value the routine stores in `score[i, j]`. Row 0 and column 0 hold the sentinel `|s| + |t|`. Row 1 and column 1 hold `0..n`. Every other cell is `EditCost` capped by `TranspositionCost`.
  - `EditCost` is the diagonal when the characters match. Otherwise it is one more than the cheapest of the diagonal, left and upper cells.
  - `TranspositionCost` is `score[i1, j1] + (i - i1 - 1) + 1 + (j - j1 - 1)`.
  - `LastBefore` gives both `i1`, the dictionary value, and `j1`, the running `db`.
  - `Distance` is the bottom-right cell.
  - The lemmas prove:
    - bounds: every cell is between the length gap and the longer length, and within the sentinel;
    - the distance is 0 exactly for equal strings;
    - symmetry;
    - an exact formula for strings that share a prefix and nothing else.
- `StringSimilarity` (`string_similarity.dfy`) holds the imperative routine and the public functions.
  - `ComputeDamerauLevenshteinDistance` is the imperative routine. It uses an `array2<int>` table and a `map<char, int>` for the character-to-row dictionary, which is reassigned as rows are finished. A running `db` is reset for each row. The routine is proved to return `Distance`.
  - It is split into the border fill (`InitScore`), the dictionary set-up (`NewLastRowMap`), one pass of the outer loop (`FillRow`) and one step of the inner loop (`FillCell`). `InitScore` establishes the invariant that the filled cells agree with `Score`, and `FillRow` and `FillCell` keep it while changing no other cell. `NewLastRowMap` builds the dictionary and does not touch the table.
  - `ComputeSimilarity` and `ComputeSimilarityPercentage` are proved equal to the functions `Similarity` and `SimilarityPercentage`. The lemmas beside them prove the properties of those functions.
- `Text` (`text.dfy`) holds .NET's white-space test and the lower-casing.
- `Wrappers` (`wrappers.dfy`) defines `Option`, which stands for a string that may be null, and `Result`, which stands for a value or the thrown exception.
- `SimilarityExamples` (`similarity_examples.dfy`) derives the expected values of `EqualityCheck.Test/StringSimilarityTest.cs` from the model.

## Model

| member | source | states |
|---|---|---|
| `EditDistance.Infinity` | EqualityCheck/StringSimilarity.cs:33 | the sentinel is the sum of the two lengths |
| `EditDistance.Score` | EqualityCheck/StringSimilarity.cs:33-44 | defines the content of `score[i, j]`: the sentinel on row 0 and column 0, 0..n on row 1 and column 1, elsewhere the edit cost capped by the transposition candidate (lines 63-73) |
| `EditDistance.EditCost` | EqualityCheck/StringSimilarity.cs:63-71 | defines the cell before the cap: the diagonal on a match, otherwise one more than the least of diagonal, left and upper cells |
| `EditDistance.TranspositionCost` | EqualityCheck/StringSimilarity.cs:60-73 | defines the transposition candidate `score[i1, j1] + (i - i1 - 1) + 1 + (j - j1 - 1)` with `i1` from the dictionary and `j1` from `db` |
| `EditDistance.Distance` | EqualityCheck/StringSimilarity.cs:79 | defines the distance as the bottom-right cell of the table |
| `Text.IsWhiteSpace` | EqualityCheck/StringSimilarity.cs:90 | defines the white-space characters of .NET's `char.IsWhiteSpace` |
| `Text.IsNullOrWhiteSpace` | EqualityCheck/StringSimilarity.cs:90 | defines the guard: null, empty, or white space only |
| `StringSimilarity.Ratio` | EqualityCheck/StringSimilarity.cs:101-113 | defines the ratio: 1 when the longer length is 0, otherwise 1 - distance / longer length |
| `StringSimilarity.Similarity` | EqualityCheck/StringSimilarity.cs:88-114 | defines what `ComputeSimilarity` returns or throws: the failure on a null or white-space input, otherwise the ratio of the distance of the (folded) strings |
| `StringSimilarity.SimilarityPercentage` | EqualityCheck/StringSimilarity.cs:122-125 | defines what `ComputeSimilarityPercentage` returns or lets through: the similarity times 100, or the same failure |
| `EditDistance.LastBefore` | EqualityCheck/StringSimilarity.cs:55-76 | the dictionary value of a character at row i (and `db` at column j) is 0 or the last earlier position holding that character, so it is below the current row (column) and no later earlier position holds the character |
| `EditDistance.DistanceFromEmpty` | EqualityCheck/StringSimilarity.cs:16-27 | the early returns agree with the table: an empty source gives the target's length (0 when both are empty), an empty target the source's length |
| `EditDistance.ScoreAtMostLonger` | EqualityCheck/StringSimilarity.cs:63-73 | every real cell is at most the longer of the two prefix lengths it compares |
| `EditDistance.TranspositionCostAboveGap` | EqualityCheck/StringSimilarity.cs:73 | the transposition candidate always exceeds the length gap of the prefixes, and exceeds the sentinel when a partner is missing (so the sentinel never under-reports) |
| `EditDistance.ScoreAtLeastLengthGap` | EqualityCheck/StringSimilarity.cs:63-73 | every real cell is at least the difference of the two prefix lengths |
| `EditDistance.ScoreWithinSentinel` | EqualityCheck/StringSimilarity.cs:33-73 | every cell of the table, border included, lies in [0, infinity] with infinity = the sum of the two lengths |
| `EditDistance.DistanceBounds` | EqualityCheck/StringSimilarity.cs:63-79 | the returned distance lies between the length difference and the longer length |
| `EditDistance.ScoreSelfDiagonal` | EqualityCheck/StringSimilarity.cs:63-67 | comparing a string with itself, every diagonal cell is 0 |
| `EditDistance.ScoreZeroMeansEqualPrefixes` | EqualityCheck/StringSimilarity.cs:63-73 | a zero cell compares two equal prefixes of equal length |
| `EditDistance.DistanceZeroIffEqual` | EqualityCheck/StringSimilarity.cs:63-79 | the distance is 0 if and only if the two strings are equal |
| `EditDistance.ScoreTransposed` | EqualityCheck/StringSimilarity.cs:55-77 | swapping source and target transposes the whole table (the dictionary and `db` swap roles) |
| `EditDistance.DistanceSymmetric` | EqualityCheck/StringSimilarity.cs:14-80 | the distance does not depend on which string is the source |
| `EditDistance.ScoreCommonPrefix` | EqualityCheck/StringSimilarity.cs:55-77 | for strings p+x and p+y whose remainders share no character with the other string, each cell holds max(length gap, how far the longer prefix reaches past p) |
| `EditDistance.DistanceCommonPrefix` | EqualityCheck/StringSimilarity.cs:14-80 | such strings are as far apart as the longer of x and y is long; strings with no common character are as far apart as the longer is long |
| `StringSimilarity.InitScore` | EqualityCheck/StringSimilarity.cs:29-44 | the new table, two rows and two columns larger than the strings, has infinity on row 0 and column 0, k on cell (1, k+1) and (k+1, 1), which is the border of the recurrence |
| `StringSimilarity.NewLastRowMap` | EqualityCheck/StringSimilarity.cs:46-52 | the dictionary's keys are exactly the characters of source + target, each mapped to 0 |
| `StringSimilarity.FillCell` | EqualityCheck/StringSimilarity.cs:60-73 | one inner-loop step writes the recurrence value into cell (i+1, j+1), keeps every other filled cell, and advances `db` to the last matching column |
| `StringSimilarity.FillRow` | EqualityCheck/StringSimilarity.cs:57-74 | one outer-loop pass, with `db` reset to 0, fills row i+1 with the recurrence values and changes no cell outside that row's columns 2 and up |
| `StringSimilarity.ComputeDamerauLevenshteinDistance` | EqualityCheck/StringSimilarity.cs:14-80 | the imperative fill (table, dictionary updated after each row, running `db`) returns exactly the recurrence's distance `Distance(source, target)` |
| `StringSimilarity.Fold` | EqualityCheck/StringSimilarity.cs:95-99 | the optional case folding keeps the length |
| `StringSimilarity.ComputeSimilarity` | EqualityCheck/StringSimilarity.cs:88-114 | fails with "The inputs could not be null or white space." exactly when an input is null or white space, otherwise returns a ratio in [0, 1] equal to `Similarity` |
| `StringSimilarity.ComputeSimilarityPercentage` | EqualityCheck/StringSimilarity.cs:122-125 | the same failure with the same message "The inputs could not be null or white space.", otherwise a value in [0, 100] equal to `SimilarityPercentage` |
| `StringSimilarity.RatioWithinUnitInterval` | EqualityCheck/StringSimilarity.cs:101-113 | 1 - d/m lies in [0, 1] when d ≤ m and equals 1 exactly when d = 0 |
| `StringSimilarity.RatioDecreasesWithDistance` | EqualityCheck/StringSimilarity.cs:101-113 | for a fixed longer length the ratio never rises as the distance grows, and falls strictly when the longer length is positive and the distance strictly grows |
| `StringSimilarity.SimilarityWithinUnitInterval` | EqualityCheck/StringSimilarity.cs:88-114 | every similarity that is returned lies in [0, 1] |
| `StringSimilarity.SimilarityFailsIffBlank` | EqualityCheck/StringSimilarity.cs:90-93 | both public functions fail if and only if an input is null, empty or white space, always with the one message |
| `StringSimilarity.SimilarityOneIffEqual` | EqualityCheck/StringSimilarity.cs:95-113 | for accepted inputs the similarity is 1 if and only if the (folded) strings are equal |
| `StringSimilarity.SimilarityOfSelf` | EqualityCheck.Test/StringSimilarityTest.cs:37 | any accepted string is fully similar (1) to itself in either mode |
| `StringSimilarity.SimilaritySymmetric` | EqualityCheck/StringSimilarity.cs:88-114 | swapping the two inputs changes neither the result nor the failure |
| `StringSimilarity.PercentageIsScaledSimilarity` | EqualityCheck/StringSimilarity.cs:122-125 | the percentage succeeds exactly when the similarity does, equals it times 100 and lies in [0, 100] |
| `StringSimilarity.ToLowerKeepsNotBlank` | EqualityCheck/StringSimilarity.cs:90-98 | lower-casing an accepted input keeps it accepted |
| `StringSimilarity.CaseInsensitiveIsSensitiveOfLowered` | EqualityCheck/StringSimilarity.cs:95-101 | the case-insensitive similarity equals the case-sensitive similarity of the lower-cased inputs |
| `Text.NotBlankIsNonEmpty` | EqualityCheck/StringSimilarity.cs:90 | an input that passes the guard holds at least one character, so maxLength is positive |
| `Text.ToLowerChar` | EqualityCheck/StringSimilarity.cs:97-98 | a capital A-Z becomes its small letter, every other character is kept, and no capital remains |
| `Text.ToLower` | EqualityCheck/StringSimilarity.cs:97-98 | the lower-cased string has the same length, keeps non-capitals and holds no ASCII capital |
| `SimilarityExamples.TranspositionCostsOne` | EqualityCheck/StringSimilarity.cs:73 | "ab" and "ba" are at distance 1 through the transposition term, while the cell before the cap holds 2 |
| `SimilarityExamples.SharedPrefixSimilarity` | EqualityCheck.Test/StringSimilarityTest.cs:34-36 | in case-sensitive mode, two accepted (not null or white-space) equal-length strings sharing only a prefix p have similarity equal to the length of p divided by their length |
| `SimilarityExamples.DisjointStringsAreDissimilar` | EqualityCheck.Test/StringSimilarityTest.cs:32 | ("abcdefgh", "ijklmnop", case-sensitive) gives 0 |
| `SimilarityExamples.CaseSensitiveCapitalsAreDissimilar` | EqualityCheck.Test/StringSimilarityTest.cs:33 | ("abcdefgh", "ABCDEFGH", case-sensitive) gives 0 |
| `SimilarityExamples.TwoOfEightKept` | EqualityCheck.Test/StringSimilarityTest.cs:34 | ("abcdefgh", "abijklmn") gives 0.25 |
| `SimilarityExamples.FourOfEightKept` | EqualityCheck.Test/StringSimilarityTest.cs:35 | ("abcdefgh", "abcdijkl") gives 0.5 |
| `SimilarityExamples.SixOfEightKept` | EqualityCheck.Test/StringSimilarityTest.cs:36 | ("abcdefgh", "abcdefij") gives 0.75 |
| `SimilarityExamples.IdenticalStringsAreSimilar` | EqualityCheck.Test/StringSimilarityTest.cs:37 | ("abcdefgh", "abcdefgh") gives 1 |
| `SimilarityExamples.CaseInsensitiveCapitalsAreSimilar` | EqualityCheck.Test/StringSimilarityTest.cs:38 | ("abcdefgh", "ABCDEFGH", case-insensitive) gives 1 |
| `SimilarityExamples.PercentageTestValues` | EqualityCheck.Test/StringSimilarityTest.cs:46-52 | all seven percentage rows: 0 for the disjoint and the case-sensitive capitals, 25, 50, 75, 100 for identical strings and 100 for the case-insensitive capitals |
| `SimilarityExamples.BlankInputsFail` | EqualityCheck.Test/StringSimilarityTest.cs:5-29 | null, "" and " " on either side make both the similarity and the percentage fail with the message (all twelve rows) |

## Left out

- `StringSimilarity.ComputeSimilarity` returns the exact ratio as a `real`. The single-precision rounding of `distance / maxLength` and of `1.0F - …` is not modelled.
- `StringSimilarity.ComputeSimilarityPercentage` returns that exact ratio times 100. The rounding of the single-precision product is not modelled.
- `Text.ToLower` lower-cases only the ASCII capitals A-Z. The culture-dependent casing tables of `string.ToLower()` are not modelled. For example, a capital with a different small letter in the Turkish culture is not covered.
- Strings are sequences of Dafny `char`, which are Unicode scalar values. .NET strings are sequences of UTF-16 code units, so surrogate pairs are not modelled.
- A null string is `None` and the thrown `Exception` is `Failure(InvalidInput(message))`. The identity of the exception type is not modelled.
- `ComputeDamerauLevenshteinDistance` takes non-null strings, because its only caller never passes null. The null half of `IsNullOrEmpty` is therefore absent.
- The `SortedDictionary` is a `map<char, int>`. Its key ordering has no effect on the result and is not modelled.
- `StringSimilarity.ComputeDamerauLevenshteinDistance` uses unbounded integers. The 32-bit `int` of the table, including an overflow of `source.Length + target.Length`, is not modelled.
- The extension-method calling form and the default value of `caseSensitive` are not modelled. Both inputs and the flag are explicit parameters.
- The distance is not proved to be the minimum over all edit scripts. Its properties are proved about the recurrence that the code computes.
- The unused `using System.Threading` is not modelled.
