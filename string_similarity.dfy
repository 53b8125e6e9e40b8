/** EqualityCheck/StringSimilarity.cs: the Damerau-Levenshtein fill over a two-dimensional
    array with a character-to-row dictionary, and the similarity ratio and percentage built
    on it.  Each method is proved to compute the functions of module EditDistance and of
    this module, about which the properties are proved. */
module StringSimilarity {
  import opened Wrappers
  import opened Text
  import opened EditDistance

  const NullOrWhiteSpaceMessage: string := "The inputs could not be null or white space."

  /** The only failure of the similarity functions: an input that is null or white space. */
  datatype Error = InvalidInput(message: string)

  /** The cells filled so far agree with the recurrence: every cell of rows 0 to `rows`, the
      two border columns of every row, and row `rows` + 1 up to column `cols`. */
  ghost predicate FilledUpTo(score: array2<int>, source: string, target: string, rows: nat, cols: nat)
    reads score
    requires score.Length0 == |source| + 2 && score.Length1 == |target| + 2
  {
    forall r, c | 0 <= r < score.Length0 && 0 <= c < score.Length1 && (r <= rows || c <= 1 || (r == rows + 1 && c <= cols)) ::
      score[r, c] == Score(source, target, r, c)
  }

  /** Fills the border of the table: the sentinel on row 0 and column 0, and 0..n on row 1
      and column 1. */
  method InitScore(source: string, target: string) returns (score: array2<int>)
    ensures fresh(score)
    ensures score.Length0 == |source| + 2 && score.Length1 == |target| + 2
    ensures forall c | 0 <= c < score.Length1 :: score[0, c] == |source| + |target|
    ensures forall r | 0 <= r < score.Length0 :: score[r, 0] == |source| + |target|
    ensures forall c | 1 <= c < score.Length1 :: score[1, c] == c - 1
    ensures forall r | 1 <= r < score.Length0 :: score[r, 1] == r - 1
    ensures FilledUpTo(score, source, target, 1, 1)
  {
    score := new int[|source| + 2, |target| + 2];
    var infinity := |source| + |target|;
    score[0, 0] := infinity;
    for i := 0 to |source| + 1
      invariant forall r, c | 0 <= r < score.Length0 && 0 <= c < score.Length1 && ((r == 0 && c == 0) || (1 <= r <= i && c <= 1)) ::
          score[r, c] == Score(source, target, r, c)
    {
      score[i + 1, 1] := i;
      score[i + 1, 0] := infinity;
    }
    for j := 0 to |target| + 1
      invariant forall r, c | 0 <= r < score.Length0 && 0 <= c < score.Length1 && (c == 0 || (c == 1 && 1 <= r) || (r <= 1 && c <= j)) ::
          score[r, c] == Score(source, target, r, c)
    {
      score[1, j + 1] := j;
      score[0, j + 1] := infinity;
    }
  }

  /** The character-to-row dictionary before the fill: every character of `source + target`
      is a key, and every key maps to 0 ("not seen yet"). */
  method NewLastRowMap(source: string, target: string) returns (lastRow: map<char, int>)
    ensures forall c :: c in lastRow <==> c in source + target
    ensures forall c :: c in lastRow ==> lastRow[c] == 0
  {
    var letters := source + target;
    lastRow := map[];
    for k := 0 to |letters|
      invariant forall c :: c in lastRow <==> c in letters[..k]
      invariant forall c :: c in lastRow ==> lastRow[c] == 0
    {
      var letter := letters[k];
      assert letters[..k + 1] == letters[..k] + [letter];
      if letter !in lastRow {
        lastRow := lastRow[letter := 0];
      }
    }
    assert letters[..|letters|] == letters;
  }

  /** One step of the inner loop: fills cell (`i` + 1, `j` + 1) from the diagonal, left and upper
      neighbours, caps it with the transposition candidate at (`i1`, `j1`), and returns the new
      value of `db`, the last column of this row where source character `i` matched. */
  method FillCell(score: array2<int>, source: string, target: string, lastRow: map<char, int>, i: nat, j: nat, db: int)
    returns (db': int)
    requires score.Length0 == |source| + 2 && score.Length1 == |target| + 2
    requires 1 <= i <= |source| && 1 <= j <= |target|
    requires FilledUpTo(score, source, target, i, j)
    requires target[j - 1] in lastRow && lastRow[target[j - 1]] == LastBefore(source, target[j - 1], i)
    requires db == LastBefore(target, source[i - 1], j)
    modifies score
    ensures FilledUpTo(score, source, target, i, j + 1)
    ensures db' == LastBefore(target, source[i - 1], j + 1)
    ensures forall r, c | 0 <= r < score.Length0 && 0 <= c < score.Length1 && (r != i + 1 || c != j + 1) ::
              score[r, c] == old(score[r, c])
  {
    db' := db;
    var i1 := lastRow[target[j - 1]];
    var j1 := db;

    label BeforeCell:
    if source[i - 1] == target[j - 1] {
      score[i + 1, j + 1] := score[i, j];
      db' := j;
    } else {
      score[i + 1, j + 1] := Min(score[i, j], Min(score[i + 1, j], score[i, j + 1])) + 1;
    }
    assert score[i + 1, j + 1] == EditCost(source, target, i + 1, j + 1);

    score[i + 1, j + 1] := Min(score[i + 1, j + 1], score[i1, j1] + (i - i1 - 1) + 1 + (j - j1 - 1));
    assert score[i + 1, j + 1] == Score(source, target, i + 1, j + 1);
    forall r, c | 0 <= r < score.Length0 && 0 <= c < score.Length1 && (r <= i || c <= 1 || (r == i + 1 && c <= j + 1))
      ensures score[r, c] == Score(source, target, r, c)
    {
      if r != i + 1 || c != j + 1 {
        assert score[r, c] == old@BeforeCell(score[r, c]);
      }
    }
  }

  /** One pass of the outer loop: fills row `i` + 1 of the table from left to right, with `db`
      reset to 0 at the start of the row. */
  method FillRow(score: array2<int>, source: string, target: string, lastRow: map<char, int>, i: nat)
    requires score.Length0 == |source| + 2 && score.Length1 == |target| + 2
    requires 1 <= i <= |source|
    requires FilledUpTo(score, source, target, i, 1)
    requires forall k :: 0 <= k < |target| ==> target[k] in lastRow
    requires forall c :: c in lastRow ==> lastRow[c] == LastBefore(source, c, i)
    modifies score
    ensures FilledUpTo(score, source, target, i + 1, 1)
    ensures forall r, c | 0 <= r < score.Length0 && 0 <= c < score.Length1 && (r != i + 1 || c <= 1) ::
              score[r, c] == old(score[r, c])
  {
    var db := 0;
    for j := 1 to |target| + 1
      invariant FilledUpTo(score, source, target, i, j)
      invariant db == LastBefore(target, source[i - 1], j)
      invariant forall r, c | 0 <= r < score.Length0 && 0 <= c < score.Length1 && (r != i + 1 || c <= 1) ::
          score[r, c] == old(score[r, c])
    {
      db := FillCell(score, source, target, lastRow, i, j, db);
    }
  }

  /** ComputeDamerauLevenshteinDistance: the bottom-right cell of the table, filled row by row
      while the dictionary remembers the last row of each source character. */
  method ComputeDamerauLevenshteinDistance(source: string, target: string) returns (distance: nat)
    ensures distance == Distance(source, target)
  {
    DistanceFromEmpty(source, target);
    if |source| == 0 {
      if |target| == 0 {
        return 0;
      }
      return |target|;
    }
    if |target| == 0 {
      return |source|;
    }

    var score := InitScore(source, target);
    var lastRow := NewLastRowMap(source, target);
    forall k | 0 <= k < |target|
      ensures target[k] in lastRow
    {
      assert (source + target)[|source| + k] == target[k];
    }

    for i := 1 to |source| + 1
      invariant FilledUpTo(score, source, target, i, 1)
      invariant forall k :: 0 <= k < |target| ==> target[k] in lastRow
      invariant forall c :: c in lastRow ==> lastRow[c] == LastBefore(source, c, i)
    {
      FillRow(score, source, target, lastRow, i);
      lastRow := lastRow[source[i - 1] := i];
    }

    return score[|source| + 1, |target| + 1];
  }

  /** The strings the distance is taken between: both lower-cased unless the comparison is
      case-sensitive. */
  function Fold(s: string, caseSensitive: bool): (r: string)
    ensures |r| == |s|
  {
    if caseSensitive then s else ToLower(s)
  }

  /** 1 - distance / maxLength over exact reals, and 1 when both strings are empty. */
  function Ratio(distance: nat, maxLength: nat): real {
    if maxLength == 0 then 1.0 else 1.0 - distance as real / maxLength as real
  }

  /** What ComputeSimilarity returns, or the exception it throws. */
  function Similarity(source: Option<string>, target: Option<string>, caseSensitive: bool): Result<real, Error> {
    if IsNullOrWhiteSpace(source) || IsNullOrWhiteSpace(target) then
      Failure(InvalidInput(NullOrWhiteSpaceMessage))
    else
      var s, t := Fold(source.value, caseSensitive), Fold(target.value, caseSensitive);
      Success(Ratio(Distance(s, t), Max(|s|, |t|)))
  }

  /** What ComputeSimilarityPercentage returns, or the exception it lets through. */
  function SimilarityPercentage(source: Option<string>, target: Option<string>, caseSensitive: bool): Result<real, Error> {
    match Similarity(source, target, caseSensitive)
    case Success(ratio) => Success(ratio * 100.0)
    case Failure(e) => Failure(e)
  }

  /** ComputeSimilarity: rejects null or white-space inputs, lower-cases both strings unless
      `caseSensitive`, and scales the distance by the longer length. */
  method ComputeSimilarity(source: Option<string>, target: Option<string>, caseSensitive: bool)
    returns (r: Result<real, Error>)
    ensures r == Similarity(source, target, caseSensitive)
    ensures r.Failure? <==> IsNullOrWhiteSpace(source) || IsNullOrWhiteSpace(target)
    ensures r.Failure? ==> r.error.message == NullOrWhiteSpaceMessage
    ensures r.Success? ==> 0.0 <= r.value <= 1.0
  {
    if IsNullOrWhiteSpace(source) || IsNullOrWhiteSpace(target) {
      return Failure(InvalidInput(NullOrWhiteSpaceMessage));
    }

    var s, t := source.value, target.value;
    if !caseSensitive {
      s := ToLower(s);
      t := ToLower(t);
    }

    var distance := ComputeDamerauLevenshteinDistance(s, t);
    SimilarityWithinUnitInterval(source, target, caseSensitive);

    var maxLength := |s|;
    if maxLength < |t| {
      maxLength := |t|;
    }
    if maxLength == 0 {
      return Success(1.0);
    }
    return Success(1.0 - distance as real / maxLength as real);
  }

  /** ComputeSimilarityPercentage: the similarity times 100, with the same failure. */
  method ComputeSimilarityPercentage(source: Option<string>, target: Option<string>, caseSensitive: bool)
    returns (r: Result<real, Error>)
    ensures r == SimilarityPercentage(source, target, caseSensitive)
    ensures r.Failure? <==> IsNullOrWhiteSpace(source) || IsNullOrWhiteSpace(target)
    ensures r.Failure? ==> r.error.message == NullOrWhiteSpaceMessage
    ensures r.Success? ==> 0.0 <= r.value <= 100.0
  {
    var ratio := ComputeSimilarity(source, target, caseSensitive);
    match ratio
    case Success(v) => return Success(v * 100.0);
    case Failure(e) => return Failure(e);
  }

  /** A distance at most the longer length gives a ratio in [0, 1], equal to 1 exactly when the
      distance is 0. */
  lemma RatioWithinUnitInterval(distance: nat, maxLength: nat)
    requires distance <= maxLength
    ensures 0.0 <= Ratio(distance, maxLength) <= 1.0
    ensures Ratio(distance, maxLength) == 1.0 <==> distance == 0
  {
  }

  /** For a fixed longer length the ratio falls as more edits are needed. */
  lemma RatioDecreasesWithDistance(d1: nat, d2: nat, maxLength: nat)
    requires d1 <= d2
    ensures Ratio(d2, maxLength) <= Ratio(d1, maxLength)
    ensures 0 < maxLength && d1 < d2 ==> Ratio(d2, maxLength) < Ratio(d1, maxLength)
  {
  }

  /** The similarity of two accepted inputs lies in [0, 1]. */
  lemma SimilarityWithinUnitInterval(source: Option<string>, target: Option<string>, caseSensitive: bool)
    ensures Similarity(source, target, caseSensitive).Success? ==>
              0.0 <= Similarity(source, target, caseSensitive).value <= 1.0
  {
    if !IsNullOrWhiteSpace(source) && !IsNullOrWhiteSpace(target) {
      var s, t := Fold(source.value, caseSensitive), Fold(target.value, caseSensitive);
      DistanceBounds(s, t);
      RatioWithinUnitInterval(Distance(s, t), Max(|s|, |t|));
    }
  }

  /** The similarity fails, with the one message, exactly when an input is null or white space. */
  lemma SimilarityFailsIffBlank(source: Option<string>, target: Option<string>, caseSensitive: bool)
    ensures Similarity(source, target, caseSensitive).Failure? <==>
              IsNullOrWhiteSpace(source) || IsNullOrWhiteSpace(target)
    ensures SimilarityPercentage(source, target, caseSensitive).Failure? <==>
              IsNullOrWhiteSpace(source) || IsNullOrWhiteSpace(target)
    ensures Similarity(source, target, caseSensitive).Failure? ==>
              Similarity(source, target, caseSensitive).error == InvalidInput(NullOrWhiteSpaceMessage)
    ensures SimilarityPercentage(source, target, caseSensitive).Failure? ==>
              SimilarityPercentage(source, target, caseSensitive).error == InvalidInput(NullOrWhiteSpaceMessage)
  {
  }

  /** The similarity is 1 exactly when the two (folded) strings are equal. */
  lemma SimilarityOneIffEqual(source: string, target: string, caseSensitive: bool)
    requires !IsNullOrWhiteSpace(Some(source)) && !IsNullOrWhiteSpace(Some(target))
    ensures Similarity(Some(source), Some(target), caseSensitive).Success?
    ensures Similarity(Some(source), Some(target), caseSensitive).value == 1.0 <==>
              Fold(source, caseSensitive) == Fold(target, caseSensitive)
  {
    var s, t := Fold(source, caseSensitive), Fold(target, caseSensitive);
    DistanceBounds(s, t);
    DistanceZeroIffEqual(s, t);
    RatioWithinUnitInterval(Distance(s, t), Max(|s|, |t|));
  }

  /** A string is fully similar to itself, in either mode. */
  lemma SimilarityOfSelf(source: string, caseSensitive: bool)
    requires !IsNullOrWhiteSpace(Some(source))
    ensures Similarity(Some(source), Some(source), caseSensitive) == Success(1.0)
  {
    SimilarityOneIffEqual(source, source, caseSensitive);
  }

  /** The similarity does not depend on the order of the two inputs. */
  lemma SimilaritySymmetric(source: Option<string>, target: Option<string>, caseSensitive: bool)
    ensures Similarity(source, target, caseSensitive) == Similarity(target, source, caseSensitive)
  {
    if !IsNullOrWhiteSpace(source) && !IsNullOrWhiteSpace(target) {
      DistanceSymmetric(Fold(source.value, caseSensitive), Fold(target.value, caseSensitive));
    }
  }

  /** The percentage is the similarity scaled by 100, and so lies in [0, 100]. */
  lemma PercentageIsScaledSimilarity(source: Option<string>, target: Option<string>, caseSensitive: bool)
    ensures SimilarityPercentage(source, target, caseSensitive).Success? <==>
              Similarity(source, target, caseSensitive).Success?
    ensures Similarity(source, target, caseSensitive).Success? ==>
              SimilarityPercentage(source, target, caseSensitive).value
                == Similarity(source, target, caseSensitive).value * 100.0
              && 0.0 <= SimilarityPercentage(source, target, caseSensitive).value <= 100.0
  {
    SimilarityWithinUnitInterval(source, target, caseSensitive);
  }

  /** Lower-casing keeps a string that is not null or white space so. */
  lemma ToLowerKeepsNotBlank(s: string)
    requires !IsNullOrWhiteSpace(Some(s))
    ensures !IsNullOrWhiteSpace(Some(ToLower(s)))
  {
  }

  /** The case-insensitive similarity is the case-sensitive similarity of the lower-cased inputs. */
  lemma CaseInsensitiveIsSensitiveOfLowered(source: string, target: string)
    ensures Similarity(Some(source), Some(target), false)
              == Similarity(Some(ToLower(source)), Some(ToLower(target)), true)
  {
  }
}
