/** The three string tests the synchroniser relies on: prefix, suffix and
    substring containment, with substring search given both as a scan and as
    a declarative reference definition. */
module Strings {

  /** `s` begins with `prefix` (an empty prefix begins every string). */
  predicate StartsWith(s: string, prefix: string) {
    |prefix| <= |s| && s[..|prefix|] == prefix
  }

  /** `s` ends with `suffix` (an empty suffix ends every string). */
  predicate EndsWith(s: string, suffix: string) {
    |suffix| <= |s| && s[|s| - |suffix|..] == suffix
  }

  /** `sub` sits in `s` starting at position `k`. */
  ghost predicate OccursAt(s: string, sub: string, k: int) {
    0 <= k && k + |sub| <= |s| && s[k..k + |sub|] == sub
  }

  /** Reference definition of substring containment. */
  ghost predicate OccursIn(sub: string, s: string) {
    exists k :: OccursAt(s, sub, k)
  }

  /** Substring test `sub in s`, as a left-to-right scan. */
  function Contains(s: string, sub: string): bool
    decreases |s|
  {
    if |sub| > |s| then false
    else if s[..|sub|] == sub then true
    else Contains(s[1..], sub)
  }

  /** The scan finds `sub` exactly when it occurs somewhere in `s`. */
  lemma {:induction false} ContainsIffOccurs(s: string, sub: string)
    ensures Contains(s, sub) <==> OccursIn(sub, s)
    decreases |s|
  {
    if |sub| > |s| {
    } else if s[..|sub|] == sub {
      assert OccursAt(s, sub, 0);
    } else {
      ContainsIffOccurs(s[1..], sub);
      if OccursIn(sub, s) {
        var k :| OccursAt(s, sub, k);
        assert k != 0;
        assert s[1..][k - 1..k - 1 + |sub|] == s[k..k + |sub|];
        assert OccursAt(s[1..], sub, k - 1);
      }
      if OccursIn(sub, s[1..]) {
        var k :| OccursAt(s[1..], sub, k);
        assert s[1..][k..k + |sub|] == s[k + 1..k + 1 + |sub|];
        assert OccursAt(s, sub, k + 1);
      }
    }
  }

  /** A string lacking one of the characters of `sub` does not contain `sub`. */
  lemma MissingCharNotContained(s: string, sub: string, i: int)
    requires 0 <= i < |sub| && sub[i] !in s
    ensures !Contains(s, sub)
  {
  }

  /** A two-character string sits at `k` when its two characters do. */
  lemma OccursAtPair(s: string, sub: string, k: int)
    requires |sub| == 2
    ensures OccursAt(s, sub, k) <==> 0 <= k && k + 2 <= |s| && s[k] == sub[0] && s[k + 1] == sub[1]
  {
  }

  /** A two-character string that is in neither half of `a + b` and does not
      straddle the join is not in `a + b`. */
  lemma PairNotContainedInJoin(a: string, b: string, sub: string)
    requires |sub| == 2
    requires !Contains(a, sub) && !Contains(b, sub)
    requires |a| > 0 && |b| > 0 ==> !(a[|a| - 1] == sub[0] && b[0] == sub[1])
    ensures !Contains(a + b, sub)
  {
    ContainsIffOccurs(a, sub);
    ContainsIffOccurs(b, sub);
    ContainsIffOccurs(a + b, sub);
    forall k | 0 <= k && k + 2 <= |a + b|
      ensures !OccursAt(a + b, sub, k)
    {
      OccursAtPair(a + b, sub, k);
      if k + 2 <= |a| {
        OccursAtPair(a, sub, k);
      } else if k >= |a| {
        OccursAtPair(b, sub, k - |a|);
      }
    }
  }
}
