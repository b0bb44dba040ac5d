/** EliminationFilter.filter: keep letters and digits, upper-case them. */
module Eliminations {
  import opened Wrappers
  import opened Text

  /** Python's `str(key)` for an optional string: None renders as "None". */
  function Str(key: Option<string>): string {
    match key
    case None => "None"
    case Some(s) => s
  }

  /** What filter keeps of one character. */
  function Keep(c: char): (r: string)
    ensures |r| <= 1
    ensures forall i :: 0 <= i < |r| ==> IsUpperAlnum(r[i])
  {
    if IsAlnum(c) then UpperIsUpperAlnum(c); [Upper(c)] else []
  }

  /** The characters of `key` that are isalpha() or isnumeric(), joined and upper-cased. */
  function Filter(key: string): (r: string)
    ensures |r| <= |key|
    ensures forall i :: 0 <= i < |r| ==> IsUpperAlnum(r[i])
  {
    if key == [] then [] else Keep(key[0]) + Filter(key[1..])
  }

  /** Filtering distributes over concatenation. */
  lemma {:induction false} FilterAppend(a: string, b: string)
    ensures Filter(a + b) == Filter(a) + Filter(b)
    decreases |a|
  {
    if a == [] {
      assert a + b == b;
    } else {
      assert (a + b)[0] == a[0] && (a + b)[1..] == a[1..] + b;
      FilterAppend(a[1..], b);
    }
  }

  /** A string already made of upper-case letters and digits is a fixed point. */
  lemma {:induction false} FilterFixesUpperAlnum(s: string)
    requires forall i :: 0 <= i < |s| ==> IsUpperAlnum(s[i])
    ensures Filter(s) == s
    decreases |s|
  {
    if s != [] {
      FilterFixesUpperAlnum(s[1..]);
    }
  }

  /** filter(filter(x)) == filter(x). */
  lemma FilterIdempotent(s: string)
    ensures Filter(Filter(s)) == Filter(s)
  {
    FilterFixesUpperAlnum(Filter(s));
  }

  /** The result is empty exactly when the input has no letter or digit. */
  lemma {:induction false} FilterEmptyIff(s: string)
    ensures Filter(s) == "" <==> forall i :: 0 <= i < |s| ==> !IsAlnum(s[i])
    decreases |s|
  {
    if s != [] {
      FilterEmptyIff(s[1..]);
      assert forall i :: 1 <= i < |s| ==> s[i] == s[1..][i - 1];
    }
  }

  /** filter is the upper-cased subsequence of the letters and digits. */
  lemma {:induction false} FilterIsUpperKept(s: string)
    ensures Filter(s) == UpperKept(s, IsAlnum)
    decreases |s|
  {
    if s != [] {
      FilterIsUpperKept(s[1..]);
    }
  }

  /**
   * Retained characters keep their relative order: the result is the
   * upper-cased subsequence of the letters and digits of `s`, and `idx`
   * lists every one of their positions in increasing order.
   */
  lemma FilterIsUpperSubsequence(s: string) returns (idx: seq<nat>)
    ensures |idx| == |Filter(s)|
    ensures forall k :: 0 <= k < |idx| ==> idx[k] < |s| && IsAlnum(s[idx[k]]) && Filter(s)[k] == Upper(s[idx[k]])
    ensures forall k :: 0 < k < |idx| ==> idx[k - 1] < idx[k]
    ensures forall j :: 0 <= j < |s| && IsAlnum(s[j]) ==> j in idx
  {
    FilterIsUpperKept(s);
    idx := UpperKeptPositions(s, IsAlnum);
  }

  /** str(None) is "None", which filters to the truthy string "NONE". */
  lemma FilterOfNone()
    ensures Filter(Str(None)) == "NONE"
  {
    var s := Str(None);
    assert s == ['N'] + "one";
    assert "one" == ['o'] + "ne";
    assert "ne" == ['n'] + "e";
    assert "e" == ['e'] + "";
  }
}
