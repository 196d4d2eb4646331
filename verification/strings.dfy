/**
 * The two string tests the pipeline relies on: Python's `str.startswith`
 * and the substring operator `sub in s`, each written as a character-by-
 * character recursion and connected to a slice-based characterisation.
 */
module Strings {

  /** `s` begins with `p` (Python's `s.startswith(p)`). */
  function StartsWith(s: string, p: string): (r: bool)
    ensures r <==> |p| <= |s| && s[..|p|] == p
    decreases |p|
  {
    if |p| == 0 then true
    else if |s| == 0 then false
    else
      assert |p| <= |s| ==> s[..|p|] == [s[0]] + s[1..][..|p| - 1];
      assert p == [p[0]] + p[1..];
      s[0] == p[0] && StartsWith(s[1..], p[1..])
  }

  /** `sub` occurs in `s` starting at index `i`. */
  ghost predicate OccursAt(s: string, sub: string, i: int) {
    0 <= i && i + |sub| <= |s| && s[i..i + |sub|] == sub
  }

  /** An occurrence of `sub` in `s` is either at the start or an occurrence in
      the rest of `s`. */
  lemma OccursFirstOrLater(s: string, sub: string)
    ensures (exists i :: OccursAt(s, sub, i))
            <==> StartsWith(s, sub) || (|s| > 0 && exists i :: OccursAt(s[1..], sub, i))
  {
    if StartsWith(s, sub) {
      assert OccursAt(s, sub, 0);
    } else if |s| == 0 {
      assert forall i :: !OccursAt(s, sub, i);
    } else {
      if exists i :: OccursAt(s[1..], sub, i) {
        var i :| OccursAt(s[1..], sub, i);
        assert s[1..][i..i + |sub|] == s[i + 1..i + 1 + |sub|];
        assert OccursAt(s, sub, i + 1);
      }
      forall i | OccursAt(s, sub, i)
        ensures OccursAt(s[1..], sub, i - 1)
      {
        assert i != 0;
        assert s[1..][i - 1..i - 1 + |sub|] == s[i..i + |sub|];
      }
    }
  }

  /** Python's `sub in s`: `sub` occurs at some index of `s`. */
  function Contains(s: string, sub: string): (r: bool)
    ensures r <==> exists i :: OccursAt(s, sub, i)
    decreases |s|
  {
    OccursFirstOrLater(s, sub);
    StartsWith(s, sub) || (|s| > 0 && Contains(s[1..], sub))
  }

  /** A string placed between two others is contained in the result. */
  lemma ContainsInfix(a: string, sub: string, b: string)
    ensures Contains(a + sub + b, sub)
  {
    var s := a + sub + b;
    assert s[|a|..|a| + |sub|] == sub;
    assert OccursAt(s, sub, |a|);
  }

  /** A string in which the first two characters of `sub` never stand side by
      side does not contain `sub`. */
  lemma NotContainsWithoutFirstPair(s: string, sub: string)
    requires |sub| >= 2
    requires forall k :: 0 <= k < |s| - 1 ==> !(s[k] == sub[0] && s[k + 1] == sub[1])
    ensures !Contains(s, sub)
  {
    forall i | 0 <= i && i + |sub| <= |s|
      ensures !OccursAt(s, sub, i)
    {
      assert s[i..i + |sub|][0] == s[i];
      assert s[i..i + |sub|][1] == s[i + 1];
    }
  }

  /** A string that contains `sub` still does once another is joined to it on either side. */
  lemma ContainsInConcat(a: string, b: string, sub: string)
    requires Contains(a, sub) || Contains(b, sub)
    ensures Contains(a + b, sub)
  {
    var t := a + b;
    if Contains(a, sub) {
      var i :| OccursAt(a, sub, i);
      assert t[i..i + |sub|] == a[i..i + |sub|];
      assert OccursAt(t, sub, i);
    } else {
      var i :| OccursAt(b, sub, i);
      assert t[|a| + i..|a| + i + |sub|] == b[i..i + |sub|];
      assert OccursAt(t, sub, |a| + i);
    }
  }
}
