/**
 * PartNumberFilter: the regex normaliser `[^A-Za-zА-Яа-я0-9]` -> '' followed
 * by upper(), and the similarity score built on it. The fuzzy
 * token-sort ratio is a foreign function and enters as a parameter.
 */
module PartNumberFilter {
  import opened Wrappers
  import opened Text

  /** The character class `[A-Za-zА-Яа-я0-9]` (Ё and ё lie outside А-я). */
  predicate InPattern(c: char) {
    IsAsciiUpper(c) || IsAsciiLower(c) || ('А' <= c <= 'Я') || ('а' <= c <= 'я') || IsDigit(c)
  }

  /** What a normalised part number consists of: A-Z, А-Я and 0-9. */
  predicate IsNormalChar(c: char) {
    IsAsciiUpper(c) || ('А' <= c <= 'Я') || IsDigit(c)
  }

  function NormalizeChar(c: char): (r: string)
    ensures |r| <= 1
    ensures forall i :: 0 <= i < |r| ==> IsNormalChar(r[i])
  {
    if InPattern(c) then [Upper(c)] else []
  }

  /** normalize_part_number: drop every character outside the pattern, then upper-case. */
  function Normalize(partNumber: string): (r: string)
    ensures |r| <= |partNumber|
    ensures forall i :: 0 <= i < |r| ==> IsNormalChar(r[i])
  {
    if partNumber == [] then [] else NormalizeChar(partNumber[0]) + Normalize(partNumber[1..])
  }

  lemma {:induction false} NormalizeFixesNormal(s: string)
    requires forall i :: 0 <= i < |s| ==> IsNormalChar(s[i])
    ensures Normalize(s) == s
    decreases |s|
  {
    if s != [] {
      NormalizeFixesNormal(s[1..]);
    }
  }

  lemma NormalizeIdempotent(s: string)
    ensures Normalize(Normalize(s)) == Normalize(s)
  {
    NormalizeFixesNormal(Normalize(s));
  }

  /** Hyphens, Ё and ё never survive, although the docstring promises to keep hyphens. */
  lemma NormalizeDropsHyphenAndYo(s: string)
    ensures forall i :: 0 <= i < |Normalize(s)| ==> Normalize(s)[i] !in {'-', 'Ё', 'ё'}
  {
  }

  /** Normalisation distributes over concatenation, so it works character by character in order. */
  lemma {:induction false} NormalizeAppend(a: string, b: string)
    ensures Normalize(a + b) == Normalize(a) + Normalize(b)
    decreases |a|
  {
    if a == [] {
      assert a + b == b;
    } else {
      assert (a + b)[0] == a[0] && (a + b)[1..] == a[1..] + b;
      NormalizeAppend(a[1..], b);
    }
  }

  /** normalize_part_number is the upper-cased subsequence of the pattern characters. */
  lemma {:induction false} NormalizeIsUpperKept(s: string)
    ensures Normalize(s) == UpperKept(s, InPattern)
    decreases |s|
  {
    if s != [] {
      NormalizeIsUpperKept(s[1..]);
    }
  }

  /**
   * Every character of the pattern survives, upper-cased and in its place:
   * `idx` lists, in increasing order, every position of `s` holding a
   * pattern character, and the result is those characters upper-cased.
   */
  lemma NormalizeIsUpperSubsequence(s: string) returns (idx: seq<nat>)
    ensures |idx| == |Normalize(s)|
    ensures forall k :: 0 <= k < |idx| ==> idx[k] < |s| && InPattern(s[idx[k]]) && Normalize(s)[k] == Upper(s[idx[k]])
    ensures forall k :: 0 < k < |idx| ==> idx[k - 1] < idx[k]
    ensures forall j :: 0 <= j < |s| && InPattern(s[j]) ==> j in idx
  {
    NormalizeIsUpperKept(s);
    idx := UpperKeptPositions(s, InPattern);
  }

  /** Lower-case pattern letters are kept as capitals: "a" normalises to "A". */
  lemma NormalizeOfLowerCase()
    ensures Normalize("a") == "A"
    ensures Normalize("я-1") == "Я1"
  {
  }

  /** `s.count(ch)`. */
  function Count(s: string, ch: char): (n: nat)
    ensures n <= |s|
  {
    if s == [] then 0 else (if s[0] == ch then 1 else 0) + Count(s[1..], ch)
  }

  lemma {:induction false} CountAbsent(s: string, ch: char)
    requires forall i :: 0 <= i < |s| ==> s[i] != ch
    ensures Count(s, ch) == 0
    decreases |s|
  {
    if s != [] {
      CountAbsent(s[1..], ch);
    }
  }

  function Abs(x: int): nat { if x < 0 then -x else x }

  /** Real multiplication behind a name, so that facts about a product stay attached to it. */
  function Mul(a: real, b: real): real { a * b }

  lemma MulPositive(a: real, b: real)
    requires a > 0.0 && b > 0.0
    ensures Mul(a, b) > 0.0
  {
    assert a * b > 0.0 * b;
  }

  lemma ScaleDown(a: real, f: real)
    requires 0.0 <= a && 0.0 <= f <= 1.0
    ensures 0.0 <= Mul(a, f) <= a
  {
    assert a * f <= a * 1.0;
  }

  /** `max(0, 1 - x ** 2)` for a relative length difference `x` in [0, 1]. */
  function SquarePenalty(x: real): (p: real)
    requires 0.0 <= x <= 1.0
    ensures 0.0 <= p <= 1.0
    ensures p == 1.0 <==> x == 0.0
  {
    ScaleDown(x, x);
    assert x == 0.0 || Mul(x, x) > 0.0 by {
      if x > 0.0 {
        MulPositive(x, x);
      }
    }
    var penalty := 1.0 - Mul(x, x);
    if penalty < 0.0 then 0.0 else penalty
  }

  lemma Fraction(a: real, b: real)
    requires 0.0 <= a <= b && b > 0.0
    ensures 0.0 <= a / b <= 1.0
    ensures a / b == 0.0 <==> a == 0.0
  {
    assert a / b * b == a;
  }

  /** `length_diff / max_len` for lengths that are not both 0. */
  function RelativeDifference(m: nat, n: nat): (x: real)
    requires m > 0 || n > 0
    ensures 0.0 <= x <= 1.0
    ensures x == 0.0 <==> m == n
  {
    var maxLen := if m >= n then m else n;
    Fraction(Abs(m - n) as real, maxLen as real);
    Abs(m - n) as real / maxLen as real
  }

  /** `max(0, 1 - (length_diff / max_len) ** 2)`. */
  function LengthPenalty(q: string, d: string): (p: real)
    requires |q| > 0 || |d| > 0
    ensures 0.0 <= p <= 1.0
    ensures p == 1.0 <==> |q| == |d|
  {
    SquarePenalty(RelativeDifference(|q|, |d|))
  }

  /** 1.0 when both carry the same number of hyphens, else 0.9. */
  function StructureBonus(q: string, d: string): real {
    if Count(q, '-') == Count(d, '-') then 1.0 else 0.9
  }

  /** `s[-3:] if len(s) >= 3 else s`. */
  function Suffix(s: string): (r: string)
    ensures |r| == if |s| >= 3 then 3 else |s|
    ensures r == s[|s| - |r|..]
  {
    if |s| >= 3 then s[|s| - 3..] else s
  }

  /** 1.0 when the suffixes agree, else 0.95. */
  function SuffixBonus(q: string, d: string): real {
    if Suffix(q) == Suffix(d) then 1.0 else 0.95
  }

  datatype ScoreError = ZeroDivision

  /**
   * calculate_similarity_score. `ratio` stands for fuzz.token_sort_ratio and
   * is applied to the normalised strings; when both normalise to "" the
   * length penalty divides by zero and Python raises.
   */
  function SimilarityScore(query: string, dbValue: string, ratio: (string, string) -> real): Result<real, ScoreError> {
    ScoreOfNormalized(Normalize(query), Normalize(dbValue), ratio)
  }

  /** `similarity * length_penalty * structure_bonus * suffix_bonus`. */
  function Product(r: real, p: real, sb: real, b: real): real {
    Mul(Mul(Mul(r, p), sb), b)
  }

  /** The score once `query` and `db_value` have been normalised to `q` and `d`. */
  function ScoreOfNormalized(q: string, d: string, ratio: (string, string) -> real): Result<real, ScoreError> {
    var similarity := ratio(q, d);
    if |q| == 0 && |d| == 0 then Failure(ZeroDivision)
    else Success(Product(similarity, LengthPenalty(q, d), StructureBonus(q, d), SuffixBonus(q, d)))
  }

  lemma ProductBound(r: real, p: real, sb: real, b: real)
    requires 0.0 <= r && 0.0 <= p <= 1.0 && 0.0 <= sb <= 1.0 && 0.0 <= b <= 1.0
    ensures 0.0 <= Product(r, p, sb, b) <= r
  {
    ScaleDown(r, p);
    ScaleDown(Mul(r, p), sb);
    ScaleDown(Mul(Mul(r, p), sb), b);
  }

  /** The hyphen count is always 0 after normalisation, so structure_bonus is always 1.0. */
  lemma StructureBonusAlwaysOne(query: string, dbValue: string)
    ensures StructureBonus(Normalize(query), Normalize(dbValue)) == 1.0
  {
    CountAbsent(Normalize(query), '-');
    CountAbsent(Normalize(dbValue), '-');
  }

  /** The score normalises both arguments first, so pre-normalising changes nothing. */
  lemma ScoreNormalizesFirst(query: string, dbValue: string, ratio: (string, string) -> real)
    ensures SimilarityScore(query, dbValue, ratio) == SimilarityScore(Normalize(query), Normalize(dbValue), ratio)
  {
    NormalizeIdempotent(query);
    NormalizeIdempotent(dbValue);
  }

  /** The score fails exactly when both inputs normalise to the empty string. */
  lemma ScoreFailsIff(query: string, dbValue: string, ratio: (string, string) -> real)
    ensures SimilarityScore(query, dbValue, ratio).Failure? <==> Normalize(query) == "" && Normalize(dbValue) == ""
  {
  }

  /** When either key is non-empty the score is the product of the ratio and the three factors. */
  lemma ScoreValue(q: string, d: string, ratio: (string, string) -> real)
    requires |q| > 0 || |d| > 0
    ensures ScoreOfNormalized(q, d, ratio)
      == Success(Product(ratio(q, d), LengthPenalty(q, d), StructureBonus(q, d), SuffixBonus(q, d)))
  {
  }

  lemma FactorsInUnit(q: string, d: string)
    requires |q| > 0 || |d| > 0
    ensures 0.0 <= LengthPenalty(q, d) <= 1.0
    ensures 0.0 <= StructureBonus(q, d) <= 1.0 && 0.0 <= SuffixBonus(q, d) <= 1.0
  {
  }

  /** For a non-negative ratio every factor lies in [0, 1], so the score never exceeds the ratio. */
  lemma ScoreAtMostRatio(q: string, d: string, ratio: (string, string) -> real)
    requires ratio(q, d) >= 0.0
    ensures ScoreOfNormalized(q, d, ratio).Success? ==>
      0.0 <= ScoreOfNormalized(q, d, ratio).value <= ratio(q, d)
  {
    if |q| > 0 || |d| > 0 {
      ScoreValue(q, d, ratio);
      FactorsInUnit(q, d);
      ProductBound(ratio(q, d), LengthPenalty(q, d), StructureBonus(q, d), SuffixBonus(q, d));
    }
  }

  /** Inputs that normalise to the same non-empty key score exactly the ratio. */
  lemma ScoreOfEqualKeys(query: string, dbValue: string, ratio: (string, string) -> real)
    requires Normalize(query) == Normalize(dbValue) != ""
    ensures SimilarityScore(query, dbValue, ratio) == Success(ratio(Normalize(query), Normalize(query)))
  {
    StructureBonusAlwaysOne(query, dbValue);
    var q := Normalize(query);
    assert LengthPenalty(q, q) == 1.0 && SuffixBonus(q, q) == 1.0;
    assert Product(ratio(q, q), 1.0, 1.0, 1.0) == ratio(q, q);
  }

  /** The suffix bonus is 1.0 or 0.95, and 1.0 exactly when the last three characters (or the whole strings) agree. */
  lemma SuffixBonusValues(q: string, d: string)
    ensures SuffixBonus(q, d) == 1.0 <==> Suffix(q) == Suffix(d)
    ensures SuffixBonus(q, d) != 1.0 ==> SuffixBonus(q, d) == 0.95
    ensures |q| >= 3 && |d| >= 3 ==> (SuffixBonus(q, d) == 1.0 <==> q[|q| - 3..] == d[|d| - 3..])
  {
  }
}
