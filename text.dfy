/**
 * The parts of Python's `str` that the pricing core relies on, restricted to
 * the alphabet the model covers: ASCII and the basic Cyrillic block
 * U+0400..U+045F. Every other character is treated as neither a letter nor a
 * digit and `upper()` leaves it unchanged.
 */
module Text {

  predicate IsAsciiUpper(c: char) { 'A' <= c <= 'Z' }
  predicate IsAsciiLower(c: char) { 'a' <= c <= 'z' }
  /** Ѐ..Џ and А..Я */
  predicate IsCyrillicUpper(c: char) { '\U{0400}' <= c <= '\U{042F}' }
  /** а..я and ѐ..џ */
  predicate IsCyrillicLower(c: char) { '\U{0430}' <= c <= '\U{045F}' }
  predicate IsDigit(c: char) { '0' <= c <= '9' }

  /** `str.isalpha()` on one character. */
  predicate IsAlpha(c: char) {
    IsAsciiUpper(c) || IsAsciiLower(c) || IsCyrillicUpper(c) || IsCyrillicLower(c)
  }

  /** `str.isnumeric()` on one character. */
  predicate IsNumeric(c: char) { IsDigit(c) }

  /**
   * `str.isalnum()` on one character. Python defines it as isalpha or
   * isdecimal or isdigit or isnumeric; on this alphabet the last three agree.
   */
  predicate IsAlnum(c: char) { IsAlpha(c) || IsNumeric(c) }

  /** `str.isspace()` on one character (Python's full whitespace set). */
  predicate IsSpace(c: char) {
    ('\t' <= c <= '\r') || ('\U{001C}' <= c <= ' ') || c == '\U{0085}' || c == '\U{00A0}'
    || c == '\U{1680}' || ('\U{2000}' <= c <= '\U{200A}') || c == '\U{2028}' || c == '\U{2029}'
    || c == '\U{202F}' || c == '\U{205F}' || c == '\U{3000}'
  }

  /** A lower-case letter of the alphabet. */
  predicate IsLowerLetter(c: char) { IsAsciiLower(c) || IsCyrillicLower(c) }

  /** Upper-case to lower-case: A..Z, А..Я by 0x20 and Ѐ..Џ by 0x50. */
  function Lower(c: char): char {
    if IsAsciiUpper(c) then (c as int + 32) as char
    else if 'А' <= c <= 'Я' then (c as int + 0x20) as char
    else if IsCyrillicUpper(c) then (c as int + 0x50) as char
    else c
  }

  /**
   * `str.upper()` on one character: a lower-case letter becomes the
   * upper-case letter that lower-cases back to it; every other character,
   * upper-case letters included, is left as it is.
   */
  function Upper(c: char): (u: char)
    ensures IsAlpha(c) ==> IsAlpha(u) && !IsLowerLetter(u)
    ensures IsAlnum(c) <==> IsAlnum(u)
    ensures !IsLowerLetter(c) ==> u == c
    ensures IsLowerLetter(c) ==> u != c && Lower(u) == c
  {
    if IsAsciiLower(c) then (c as int - 32) as char
    else if '\U{0430}' <= c <= '\U{044F}' then (c as int - 0x20) as char
    else if '\U{0450}' <= c <= '\U{045F}' then (c as int - 0x50) as char
    else c
  }

  /** Two lower-case letters never upper-case to the same letter. */
  lemma UpperInjective(c: char, d: char)
    requires IsLowerLetter(c) && IsLowerLetter(d) && c != d
    ensures Upper(c) != Upper(d)
  {
  }

  /** A character that `upper()` leaves as it is and that is a letter or digit. */
  predicate IsUpperAlnum(c: char) { IsAlnum(c) && Upper(c) == c }

  lemma UpperIsUpperAlnum(c: char)
    requires IsAlnum(c)
    ensures IsUpperAlnum(Upper(c))
  {
  }

  /** `str.upper()`. */
  function UpperStr(s: string): (r: string)
    ensures |r| == |s|
    ensures forall i :: 0 <= i < |s| ==> r[i] == Upper(s[i])
  {
    seq(|s|, i requires 0 <= i < |s| => Upper(s[i]))
  }

  /** The characters of `s` that satisfy `keep`, upper-cased, in order. */
  ghost function UpperKept(s: string, keep: char -> bool): string
  {
    if s == [] then [] else (if keep(s[0]) then [Upper(s[0])] else []) + UpperKept(s[1..], keep)
  }

  /** The positions of the characters of `s` that satisfy `keep`, in increasing order. */
  ghost function KeptPositions(s: string, keep: char -> bool): (idx: seq<nat>)
    ensures forall k :: 0 <= k < |idx| ==> idx[k] < |s|
    decreases |s|
  {
    if s == [] then []
    else
      var tail := KeptPositions(s[1..], keep);
      (if keep(s[0]) then [0] else []) + seq(|tail|, k requires 0 <= k < |tail| => tail[k] + 1)
  }

  lemma {:induction false} KeptPositionsPick(s: string, keep: char -> bool)
    ensures |KeptPositions(s, keep)| == |UpperKept(s, keep)|
    ensures forall k :: 0 <= k < |UpperKept(s, keep)| ==>
      keep(s[KeptPositions(s, keep)[k]]) && UpperKept(s, keep)[k] == Upper(s[KeptPositions(s, keep)[k]])
    decreases |s|
  {
    if s != [] {
      KeptPositionsPick(s[1..], keep);
      var tail, f := KeptPositions(s[1..], keep), UpperKept(s[1..], keep);
      var idx, r := KeptPositions(s, keep), UpperKept(s, keep);
      var off := if keep(s[0]) then 1 else 0;
      assert |idx| == off + |tail| && |r| == off + |f|;
      forall k | off <= k < |r|
        ensures keep(s[idx[k]]) && r[k] == Upper(s[idx[k]])
      {
        assert idx[k] == tail[k - off] + 1;
        assert s[idx[k]] == s[1..][tail[k - off]];
        assert r[k] == f[k - off];
      }
    }
  }

  lemma {:induction false} KeptPositionsIncreasing(s: string, keep: char -> bool)
    ensures forall k :: 0 < k < |KeptPositions(s, keep)| ==> KeptPositions(s, keep)[k - 1] < KeptPositions(s, keep)[k]
    decreases |s|
  {
    if s != [] {
      KeptPositionsIncreasing(s[1..], keep);
    }
  }

  lemma {:induction false} KeptPositionsComplete(s: string, keep: char -> bool)
    ensures forall j :: 0 <= j < |s| && keep(s[j]) ==> j in KeptPositions(s, keep)
    decreases |s|
  {
    if s != [] {
      KeptPositionsComplete(s[1..], keep);
      var tail := KeptPositions(s[1..], keep);
      var shifted := seq(|tail|, k requires 0 <= k < |tail| => tail[k] + 1);
      assert KeptPositions(s, keep) == (if keep(s[0]) then [0] else []) + shifted;
      forall j | 1 <= j < |s| && keep(s[j]) ensures j in shifted {
        assert s[1..][j - 1] == s[j];
        var k :| 0 <= k < |tail| && tail[k] == j - 1;
        assert shifted[k] == j;
      }
    }
  }

  /**
   * The kept characters form a subsequence: `idx` lists, in increasing
   * order, every position whose character is kept, and the result holds
   * exactly those characters upper-cased.
   */
  lemma UpperKeptPositions(s: string, keep: char -> bool) returns (idx: seq<nat>)
    ensures |idx| == |UpperKept(s, keep)|
    ensures forall k :: 0 <= k < |idx| ==>
      idx[k] < |s| && keep(s[idx[k]]) && UpperKept(s, keep)[k] == Upper(s[idx[k]])
    ensures forall k :: 0 < k < |idx| ==> idx[k - 1] < idx[k]
    ensures forall j :: 0 <= j < |s| && keep(s[j]) ==> j in idx
  {
    idx := KeptPositions(s, keep);
    KeptPositionsPick(s, keep);
    KeptPositionsIncreasing(s, keep);
    KeptPositionsComplete(s, keep);
  }

  /** `c` is the ASCII capital `l` or its lower-case form. */
  predicate CaseVariant(c: char, l: char) {
    c == l || c as int == l as int + 32
  }

  /** Only the capital itself and its lower-case form upper-case to an ASCII capital. */
  lemma UpperToAsciiCapital(c: char, l: char)
    requires IsAsciiUpper(l)
    ensures Upper(c) == l <==> CaseVariant(c, l)
  {
  }

  /**
   * Comparing `v.upper()` with a word of ASCII capitals is the
   * case-insensitive comparison: `v` has the word's length and each of its
   * characters is the word's letter in either case.
   */
  lemma {:induction false} UpperStrMatchesIgnoringCase(v: string, w: string)
    requires forall i :: 0 <= i < |w| ==> IsAsciiUpper(w[i])
    ensures UpperStr(v) == w <==> |v| == |w| && forall i :: 0 <= i < |v| ==> CaseVariant(v[i], w[i])
  {
    if |v| == |w| {
      forall i | 0 <= i < |v| ensures UpperStr(v)[i] == w[i] <==> CaseVariant(v[i], w[i]) {
        UpperToAsciiCapital(v[i], w[i]);
      }
    }
  }

  /**
   * SQLite's built-in lower(): every ASCII capital becomes the lower-case
   * letter that upper-cases back to it, and every other character,
   * Cyrillic letters included, is left as it is.
   */
  function SqlLower(s: string): (r: string)
    ensures |r| == |s|
    ensures forall i :: 0 <= i < |s| && !IsAsciiUpper(s[i]) ==> r[i] == s[i]
    ensures forall i :: 0 <= i < |s| && IsAsciiUpper(s[i]) ==> IsAsciiLower(r[i]) && Upper(r[i]) == s[i]
    ensures forall i :: 0 <= i < |r| ==> !IsAsciiUpper(r[i])
  {
    seq(|s|, i requires 0 <= i < |s| => if IsAsciiUpper(s[i]) then (s[i] as int + 32) as char else s[i])
  }

  /** A string without ASCII capitals is its own SQL lower-case form. */
  lemma SqlLowerFixes(s: string)
    requires forall i :: 0 <= i < |s| ==> !IsAsciiUpper(s[i])
    ensures SqlLower(s) == s
  {
  }

  /** `s.strip() == ''`: every character is whitespace. */
  predicate IsBlank(s: string) {
    forall i :: 0 <= i < |s| ==> IsSpace(s[i])
  }

  predicate IsPrefix(p: string, s: string) {
    |p| <= |s| && s[..|p|] == p
  }

  /** `sub in s` (also SQL `instr(s, sub) > 0`); the empty string occurs everywhere. */
  predicate IsSubstring(sub: string, s: string)
    decreases |s|
  {
    IsPrefix(sub, s) || (s != [] && IsSubstring(sub, s[1..]))
  }

  lemma {:induction false} SubstringAt(sub: string, s: string, i: nat)
    requires i + |sub| <= |s| && s[i..i + |sub|] == sub
    ensures IsSubstring(sub, s)
    decreases i
  {
    if i > 0 {
      assert s[1..][i - 1..i - 1 + |sub|] == sub;
      SubstringAt(sub, s[1..], i - 1);
    }
  }

  lemma {:induction false} SubstringHasPosition(sub: string, s: string) returns (i: nat)
    requires IsSubstring(sub, s)
    ensures i + |sub| <= |s| && s[i..i + |sub|] == sub
    decreases |s|
  {
    if IsPrefix(sub, s) {
      i := 0;
    } else {
      var j := SubstringHasPosition(sub, s[1..]);
      assert s[1..][j..j + |sub|] == s[j + 1..j + 1 + |sub|];
      i := j + 1;
    }
  }

  /** A string that lacks the character `sub[k]` cannot contain `sub`. */
  lemma {:induction false} NoSubstringWithForeignChar(sub: string, s: string, k: nat)
    requires k < |sub|
    requires forall i :: 0 <= i < |s| ==> s[i] != sub[k]
    ensures !IsSubstring(sub, s)
    decreases |s|
  {
    if |sub| <= |s| {
      assert s[..|sub|][k] != sub[k];
    }
    if s != [] {
      NoSubstringWithForeignChar(sub, s[1..], k);
    }
  }

  /** Python's `s.replace('', r)`: `r` before every character and at the end. */
  function InsertEverywhere(s: string, r: string): (t: string)
    ensures IsPrefix(r, t)
  {
    if s == [] then r else r + [s[0]] + InsertEverywhere(s[1..], r)
  }

  /**
   * Python's `s.replace(target, r)`: every non-overlapping occurrence of
   * `target`, scanning left to right, is replaced by `r`.
   */
  function ReplaceAll(s: string, target: string, r: string): string
    decreases |s|
  {
    if target == [] then InsertEverywhere(s, r)
    else if |s| < |target| then s
    else if s[..|target|] == target then r + ReplaceAll(s[|target|..], target, r)
    else [s[0]] + ReplaceAll(s[1..], target, r)
  }

  /** When `target` does not occur, `replace` returns the string unchanged. */
  lemma {:induction false} ReplaceAbsent(s: string, target: string, r: string)
    requires !IsSubstring(target, s)
    ensures ReplaceAll(s, target, r) == s
    decreases |s|
  {
    if |s| >= |target| && s != [] {
      ReplaceAbsent(s[1..], target, r);
    }
  }

  /** When `target` occurs, the replacement occurs in the result. */
  lemma {:induction false} ReplacePresent(s: string, target: string, r: string)
    requires IsSubstring(target, s)
    ensures IsSubstring(r, ReplaceAll(s, target, r))
    decreases |s|
  {
    var p := SubstringHasPosition(target, s);
    if target == [] {
      SubstringAt(r, InsertEverywhere(s, r), 0);
    } else if s[..|target|] == target {
      SubstringAt(r, ReplaceAll(s, target, r), 0);
    } else {
      ReplacePresent(s[1..], target, r);
      var t := ReplaceAll(s[1..], target, r);
      var i := SubstringHasPosition(r, t);
      assert ([s[0]] + t)[i + 1..i + 1 + |r|] == t[i..i + |r|];
      SubstringAt(r, [s[0]] + t, i + 1);
    }
  }

  /** Python's `sep.join(parts)`. */
  function Join(sep: string, parts: seq<string>): string
  {
    if |parts| == 0 then ""
    else if |parts| == 1 then parts[0]
    else parts[0] + sep + Join(sep, parts[1..])
  }
}
