/** The two string tests the authentication layer is built on: Go's
    `strings.HasPrefix` and `strings.Contains`. Strings are sequences of
    characters; the patterns used by the classifier are all ASCII. */
module Strings {

  /** `strings.HasPrefix(s, prefix)`: `s` is long enough and begins with `prefix`. */
  predicate HasPrefix(s: string, prefix: string)
  {
    |prefix| <= |s| && s[..|prefix|] == prefix
  }

  /** A prefix, character by character. */
  lemma HasPrefixPointwise(s: string, prefix: string)
    ensures HasPrefix(s, prefix) <==> |prefix| <= |s| && forall i :: 0 <= i < |prefix| ==> s[i] == prefix[i]
  {
    if |prefix| <= |s| && forall i :: 0 <= i < |prefix| ==> s[i] == prefix[i] {
      assert s[..|prefix|] == prefix;
    }
  }

  /** `sub` occurs in `s` at position `i`. */
  ghost predicate OccursAt(s: string, sub: string, i: int)
  {
    0 <= i && i + |sub| <= |s| && s[i..i + |sub|] == sub
  }

  /** Declarative reading of "contains": some position of `s` starts a copy of `sub`. */
  ghost predicate Occurs(s: string, sub: string)
  {
    exists i :: OccursAt(s, sub, i)
  }

  /** `strings.Contains(s, sub)`: scans `s` from the left for a position at
      which `sub` starts. The empty pattern is contained in every string. */
  function Contains(s: string, sub: string): (b: bool)
    ensures b <==> Occurs(s, sub)
    ensures b ==> |sub| <= |s|
    decreases |s|
  {
    OccursShift(s, sub);
    if HasPrefix(s, sub) then true
    else if |s| == 0 then false
    else Contains(s[1..], sub)
  }

  /** An occurrence is either at the front or an occurrence in the tail. */
  lemma OccursShift(s: string, sub: string)
    ensures Occurs(s, sub) <==> HasPrefix(s, sub) || (|s| > 0 && Occurs(s[1..], sub))
  {
    if Occurs(s, sub) && !HasPrefix(s, sub) {
      var i :| OccursAt(s, sub, i);
      assert i != 0;
      assert s[1..][i - 1..i - 1 + |sub|] == s[i..i + |sub|];
      assert OccursAt(s[1..], sub, i - 1);
    }
    if HasPrefix(s, sub) {
      assert OccursAt(s, sub, 0);
    } else if |s| > 0 && Occurs(s[1..], sub) {
      var j :| OccursAt(s[1..], sub, j);
      assert s[j + 1..j + 1 + |sub|] == s[1..][j..j + |sub|];
      assert OccursAt(s, sub, j + 1);
    }
  }

  /** Putting characters in front of or behind a string keeps what it contains. */
  lemma {:induction false} ContainsInContext(front: string, s: string, back: string, sub: string)
    requires Contains(s, sub)
    ensures Contains(front + s + back, sub)
  {
    var i :| OccursAt(s, sub, i);
    var t := front + s + back;
    assert t[|front| + i..|front| + i + |sub|] == s[i..i + |sub|];
    assert OccursAt(t, sub, |front| + i);
  }

  /** Two prefixes that differ in their first character exclude each other. */
  lemma DistinctPrefixesExclude(s: string, p: string, q: string)
    requires |p| > 0 && |q| > 0 && p[0] != q[0]
    ensures !(HasPrefix(s, p) && HasPrefix(s, q))
  {
  }
}
