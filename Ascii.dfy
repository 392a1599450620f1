/** ASCII case folding and the case-insensitive suffix test the
    Remove-Test-suffix analyzer performs on method identifiers. */
module Ascii {

  /** The lower-case form of one character; only 'A'..'Z' change. */
  function LowerChar(c: char): char
  {
    if 'A' <= c <= 'Z' then (c as int + 32) as char else c
  }

  /** Folds every character of `s` to lower case. */
  function Lower(s: string): (r: string)
    ensures |r| == |s|
    ensures forall i :: 0 <= i < |s| ==> r[i] == LowerChar(s[i])
  {
    if s == [] then [] else [LowerChar(s[0])] + Lower(s[1..])
  }

  /** `s` ends with `suffix` when case is ignored. */
  predicate EndsWithIgnoreCase(s: string, suffix: string)
  {
    |suffix| <= |s| && Lower(s[|s| - |suffix|..]) == Lower(suffix)
  }

  /** Folding commutes with taking a suffix. */
  lemma {:induction false} LowerSuffix(s: string, k: nat)
    requires k <= |s|
    ensures Lower(s[k..]) == Lower(s)[k..]
  {
    var a, b := Lower(s[k..]), Lower(s)[k..];
    forall i | 0 <= i < |a|
      ensures a[i] == b[i]
    {
      assert s[k..][i] == s[k + i];
    }
  }

  /** The suffix test only sees the folded identifier: two identifiers that
      differ only in case, such as "MethodTest", "Methodtest" and
      "MethodTEST", are either both accepted or both rejected. */
  lemma EndsWithIgnoreCaseOnlySeesFolding(s: string, s': string, suffix: string)
    requires Lower(s) == Lower(s')
    ensures EndsWithIgnoreCase(s, suffix) <==> EndsWithIgnoreCase(s', suffix)
  {
    if |suffix| <= |s| {
      LowerSuffix(s, |s| - |suffix|);
      LowerSuffix(s', |s'| - |suffix|);
    }
  }

  /** Independent characterisation: `s` ends with `suffix` ignoring case
      exactly when it splits into some prefix and a tail that folds to the
      same text as `suffix`. */
  lemma EndsWithIgnoreCaseSplit(p: string, v: string, suffix: string)
    ensures Lower(v) == Lower(suffix) ==> EndsWithIgnoreCase(p + v, suffix)
    ensures EndsWithIgnoreCase(p + v, suffix) && |v| == |suffix| ==> Lower(v) == Lower(suffix)
  {
    assert (p + v)[|p + v| - |v|..] == v;
  }
}
