/** The Damerau-Levenshtein recurrence of EqualityCheck/StringSimilarity.cs, stated as
    functions over the two strings, together with what is proved about it.

    `Score(s, t, i, j)` is the value the dynamic-programming fill stores in `score[i, j]`:
    row 0 and column 0 hold the sentinel |s| + |t|, row 1 and column 1 hold the cost of
    building a prefix from nothing, and every other cell is defined from its neighbours
    and from the transposition partner found through the "last occurrence" lookups. */
module EditDistance {

  /** Math.Min on integers. */
  function Min(x: int, y: int): int {
    if x <= y then x else y
  }

  function Max(x: int, y: int): int {
    if x <= y then y else x
  }

  function Abs(x: int): nat {
    if x < 0 then -x else x
  }

  /** The 1-based position of the last occurrence of `c` in `s` strictly before position `n`,
      or 0 when `c` does not occur there.  With `s` the source this is the value the
      character-to-row dictionary holds for `c` while row `n` is filled; with `s` the target
      it is the running column `db` before column `n` is filled. */
  function LastBefore(s: string, c: char, n: nat): (k: nat)
    requires n <= |s| + 1
    ensures k == 0 || (k < n && s[k - 1] == c)
    ensures forall m :: k <= m < n - 1 ==> s[m] != c
  {
    if n <= 1 then 0
    else if s[n - 2] == c then n - 1
    else LastBefore(s, c, n - 1)
  }

  /** The sentinel stored in row 0 and column 0: no real distance exceeds it. */
  function Infinity(s: string, t: string): nat {
    |s| + |t|
  }

  /** The content of cell `score[i, j]` of the table, for 0 <= i <= |s| + 1 and 0 <= j <= |t| + 1:
      the sentinel on row 0 and column 0, the prefix lengths on row 1 and column 1, and
      elsewhere the edit cost capped by the transposition candidate. */
  function Score(s: string, t: string, i: nat, j: nat): nat
    requires i <= |s| + 1 && j <= |t| + 1
    decreases i + j, 1
  {
    if i == 0 || j == 0 then Infinity(s, t)
    else if i == 1 then j - 1
    else if j == 1 then i - 1
    else Min(EditCost(s, t, i, j), TranspositionCost(s, t, i, j))
  }

  /** The cost of cell (i, j) before the transposition cap: the diagonal when character
      i - 1 of `s` equals character j - 1 of `t` (1-based), otherwise one more than the
      cheapest of substitution (diagonal), insertion (left) and deletion (up). */
  function EditCost(s: string, t: string, i: nat, j: nat): nat
    requires 2 <= i <= |s| + 1 && 2 <= j <= |t| + 1
    decreases i + j, 0
  {
    var a, b := i - 1, j - 1;
    if s[a - 1] == t[b - 1] then Score(s, t, a, b)
    else Min(Score(s, t, a, b), Min(Score(s, t, i, b), Score(s, t, a, j))) + 1
  }

  /** The transposition candidate of cell (i, j): the cell before the last earlier pair of
      swapped matches (`i1` from the row dictionary, `j1` from the running column), plus the
      characters deleted and inserted between them, plus one for the swap itself. */
  function TranspositionCost(s: string, t: string, i: nat, j: nat): nat
    requires 2 <= i <= |s| + 1 && 2 <= j <= |t| + 1
    decreases i + j, 0
  {
    var a, b := i - 1, j - 1;
    var i1 := LastBefore(s, t[b - 1], a);
    var j1 := LastBefore(t, s[a - 1], b);
    Score(s, t, i1, j1) + (a - i1 - 1) + 1 + (b - j1 - 1)
  }

  /** The distance the routine returns: the bottom-right cell of the table. */
  function Distance(s: string, t: string): nat {
    Score(s, t, |s| + 1, |t| + 1)
  }

  /** The early returns of the routine agree with the table: from the empty string the
      distance is the other string's length. */
  lemma DistanceFromEmpty(s: string, t: string)
    ensures |s| == 0 ==> Distance(s, t) == |t|
    ensures |t| == 0 ==> Distance(s, t) == |s|
  {
  }

  /** Every real cell is at most the longer of the two prefix lengths it compares. */
  lemma {:induction false} ScoreAtMostLonger(s: string, t: string, i: nat, j: nat)
    requires 1 <= i <= |s| + 1 && 1 <= j <= |t| + 1
    ensures Score(s, t, i, j) <= Max(i - 1, j - 1)
  {
    if i > 1 && j > 1 {
      ScoreAtMostLonger(s, t, i - 1, j - 1);
      assert EditCost(s, t, i, j) <= Score(s, t, i - 1, j - 1) + 1;
    }
  }

  /** The transposition candidate always exceeds the length gap of the two prefixes, and it
      exceeds the sentinel when either partner is missing. */
  lemma {:induction false} TranspositionCostAboveGap(s: string, t: string, i: nat, j: nat)
    requires 2 <= i <= |s| + 1 && 2 <= j <= |t| + 1
    ensures TranspositionCost(s, t, i, j) > Abs(i - j)
    ensures LastBefore(s, t[j - 2], i - 1) == 0 || LastBefore(t, s[i - 2], j - 1) == 0 ==>
              TranspositionCost(s, t, i, j) > Infinity(s, t)
    decreases i + j, 0
  {
    var a, b := i - 1, j - 1;
    var i1 := LastBefore(s, t[b - 1], a);
    var j1 := LastBefore(t, s[a - 1], b);
    if 1 <= i1 && 1 <= j1 {
      ScoreAtLeastLengthGap(s, t, i1, j1);
    } else {
      assert Score(s, t, i1, j1) == Infinity(s, t);
    }
  }

  /** Every real cell is at least the difference of the two prefix lengths it compares. */
  lemma {:induction false} ScoreAtLeastLengthGap(s: string, t: string, i: nat, j: nat)
    requires 1 <= i <= |s| + 1 && 1 <= j <= |t| + 1
    ensures Score(s, t, i, j) >= Abs(i - j)
    decreases i + j, 1
  {
    if i > 1 && j > 1 {
      var a, b := i - 1, j - 1;
      ScoreAtLeastLengthGap(s, t, a, b);
      ScoreAtLeastLengthGap(s, t, i, b);
      ScoreAtLeastLengthGap(s, t, a, j);
      assert EditCost(s, t, i, j) >= Abs(i - j);
      TranspositionCostAboveGap(s, t, i, j);
    }
  }

  /** Every cell of the table, border included, lies between 0 and the sentinel. */
  lemma ScoreWithinSentinel(s: string, t: string, i: nat, j: nat)
    requires i <= |s| + 1 && j <= |t| + 1
    ensures 0 <= Score(s, t, i, j) <= Infinity(s, t)
  {
    if i >= 1 && j >= 1 {
      ScoreAtMostLonger(s, t, i, j);
    }
  }

  /** The distance lies between the length difference and the longer length. */
  lemma DistanceBounds(s: string, t: string)
    ensures Abs(|s| - |t|) <= Distance(s, t) <= Max(|s|, |t|)
  {
    ScoreAtMostLonger(s, t, |s| + 1, |t| + 1);
    ScoreAtLeastLengthGap(s, t, |s| + 1, |t| + 1);
  }

  /** Along the diagonal of a string against itself every cell is 0. */
  lemma {:induction false} ScoreSelfDiagonal(s: string, i: nat)
    requires 1 <= i <= |s| + 1
    ensures Score(s, s, i, i) == 0
  {
    if i > 1 {
      ScoreSelfDiagonal(s, i - 1);
      assert EditCost(s, s, i, i) == 0;
    }
  }

  /** A zero cell compares two equal prefixes. */
  lemma {:induction false} ScoreZeroMeansEqualPrefixes(s: string, t: string, i: nat, j: nat)
    requires 1 <= i <= |s| + 1 && 1 <= j <= |t| + 1
    requires Score(s, t, i, j) == 0
    ensures i == j && s[..i - 1] == t[..j - 1]
  {
    ScoreAtLeastLengthGap(s, t, i, j);
    if i > 1 {
      var a := i - 1;
      TranspositionCostAboveGap(s, t, i, i);
      assert EditCost(s, t, i, i) == 0;
      assert s[a - 1] == t[a - 1] && Score(s, t, a, a) == 0;
      ScoreZeroMeansEqualPrefixes(s, t, a, a);
      assert s[..a] == s[..a - 1] + [s[a - 1]];
      assert t[..a] == t[..a - 1] + [t[a - 1]];
    }
  }

  /** The distance is 0 exactly when the two strings are equal. */
  lemma DistanceZeroIffEqual(s: string, t: string)
    ensures Distance(s, t) == 0 <==> s == t
  {
    if s == t {
      ScoreSelfDiagonal(s, |s| + 1);
    }
    if Distance(s, t) == 0 {
      ScoreZeroMeansEqualPrefixes(s, t, |s| + 1, |t| + 1);
      assert s == s[..|s|] && t == t[..|t|];
    }
  }

  /** Swapping the strings transposes the table. */
  lemma {:induction false} ScoreTransposed(s: string, t: string, i: nat, j: nat)
    requires i <= |s| + 1 && j <= |t| + 1
    ensures Score(s, t, i, j) == Score(t, s, j, i)
    decreases i + j
  {
    if i > 1 && j > 1 {
      var a, b := i - 1, j - 1;
      var i1 := LastBefore(s, t[b - 1], a);
      var j1 := LastBefore(t, s[a - 1], b);
      ScoreTransposed(s, t, a, b);
      ScoreTransposed(s, t, i, b);
      ScoreTransposed(s, t, a, j);
      assert EditCost(s, t, i, j) == EditCost(t, s, j, i);
      ScoreTransposed(s, t, i1, j1);
      assert TranspositionCost(s, t, i, j) == TranspositionCost(t, s, j, i);
    }
  }

  /** The distance does not depend on which string is the source. */
  lemma DistanceSymmetric(s: string, t: string)
    ensures Distance(s, t) == Distance(t, s)
  {
    ScoreTransposed(s, t, |s| + 1, |t| + 1);
  }

  /** The cell value claimed for two strings with a common prefix of length `plen`. */
  function CommonPrefixCell(plen: nat, i: nat, j: nat): int {
    Max(Abs(i - j), Max(i - 1, j - 1) - plen)
  }

  /** The claimed values satisfy the recurrence: the diagonal wherever both prefixes lie inside
      the common prefix, and one more than the cheapest neighbour wherever a mismatch can occur. */
  lemma CommonPrefixCellStep(plen: nat, i: nat, j: nat)
    requires 2 <= i && 2 <= j
    ensures i - 1 <= plen && j - 1 <= plen ==> CommonPrefixCell(plen, i - 1, j - 1) == CommonPrefixCell(plen, i, j)
    ensures !(i == j && i - 1 <= plen) ==>
              Min(CommonPrefixCell(plen, i - 1, j - 1),
                  Min(CommonPrefixCell(plen, i, j - 1), CommonPrefixCell(plen, i - 1, j))) + 1
              == CommonPrefixCell(plen, i, j)
  {
  }

  /** With a common prefix and disjoint remainders, equal characters occur only inside the prefix. */
  lemma CommonPrefixMatch(p: string, x: string, y: string, a: nat, b: nat)
    requires forall k :: 0 <= k < |x| ==> x[k] !in p + y
    requires forall k :: 0 <= k < |y| ==> y[k] !in p + x
    requires 1 <= a <= |p + x| && 1 <= b <= |p + y|
    ensures (p + x)[a - 1] == (p + y)[b - 1] ==> a <= |p| && b <= |p|
  {
  }

  /** The exact table of two strings that share a prefix `p` and whose remainders `x`, `y` use
      no character of the other string: a cell comparing prefixes of lengths a and b holds
      the larger of their length difference and of how far the longer one reaches past `p`. */
  lemma {:induction false} ScoreCommonPrefix(p: string, x: string, y: string, i: nat, j: nat)
    requires forall k :: 0 <= k < |x| ==> x[k] !in p + y
    requires forall k :: 0 <= k < |y| ==> y[k] !in p + x
    requires 1 <= i <= |p + x| + 1 && 1 <= j <= |p + y| + 1
    ensures Score(p + x, p + y, i, j) == CommonPrefixCell(|p|, i, j)
    decreases i + j
  {
    var s, t := p + x, p + y;
    if i > 1 && j > 1 {
      var a, b := i - 1, j - 1;
      ScoreCommonPrefix(p, x, y, a, b);
      ScoreCommonPrefix(p, x, y, i, b);
      ScoreCommonPrefix(p, x, y, a, j);
      CommonPrefixCellStep(|p|, i, j);
      CommonPrefixMatch(p, x, y, a, b);
      if a <= |p| && a == b {
        assert s[a - 1] == p[a - 1] == t[b - 1];
      }
      assert EditCost(s, t, i, j) == CommonPrefixCell(|p|, i, j);
      TranspositionCostAboveGap(s, t, i, j);
      var i1 := LastBefore(s, t[b - 1], a);
      var j1 := LastBefore(t, s[a - 1], b);
      if 1 <= i1 && 1 <= j1 {
        CommonPrefixMatch(p, x, y, i1, b);
        CommonPrefixMatch(p, x, y, a, j1);
      }
      assert TranspositionCost(s, t, i, j) > CommonPrefixCell(|p|, i, j);
    }
  }

  /** Two strings with a common prefix and otherwise disjoint remainders are as far apart as
      the longer remainder is long; with an empty prefix, two strings sharing no character
      are as far apart as the longer of them is long. */
  lemma DistanceCommonPrefix(p: string, x: string, y: string)
    requires forall k :: 0 <= k < |x| ==> x[k] !in p + y
    requires forall k :: 0 <= k < |y| ==> y[k] !in p + x
    ensures Distance(p + x, p + y) == Max(|x|, |y|)
  {
    ScoreCommonPrefix(p, x, y, |p + x| + 1, |p + y| + 1);
  }
}
