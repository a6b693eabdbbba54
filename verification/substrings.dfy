/** Python's `keyword in title` on strings: case-sensitive substring search. */
module Substrings {

  /** `pat` sits in `s` starting at position `i`. */
  predicate OccursAt(pat: string, s: string, i: nat)
  {
    i + |pat| <= |s| && s[i..i + |pat|] == pat
  }

  /** Reference meaning of containment: some position of `s` starts a copy of `pat`. */
  ghost predicate Occurs(pat: string, s: string)
  {
    exists i: nat :: OccursAt(pat, s, i)
  }

  /** The search itself: try `pat` as a prefix, then slide one character on. */
  function Contains(s: string, pat: string): bool
    decreases |s|
  {
    if |s| < |pat| then false
    else if pat <= s then true
    else Contains(s[1..], pat)
  }

  /** The search finds `pat` exactly when it occurs somewhere in `s`. */
  lemma {:induction false} ContainsIffOccurs(s: string, pat: string)
    ensures Contains(s, pat) <==> Occurs(pat, s)
    decreases |s|
  {
    if |s| < |pat| {
    } else if pat <= s {
      assert OccursAt(pat, s, 0);
    } else {
      ContainsIffOccurs(s[1..], pat);
      if Occurs(pat, s[1..]) {
        var j: nat :| OccursAt(pat, s[1..], j);
        assert s[1..][j..j + |pat|] == s[j + 1..j + 1 + |pat|];
        assert OccursAt(pat, s, j + 1);
      }
      if Occurs(pat, s) {
        var i: nat :| OccursAt(pat, s, i);
        assert i != 0;
        assert s[1..][i - 1..i - 1 + |pat|] == s[i..i + |pat|];
        assert OccursAt(pat, s[1..], i - 1);
      }
    }
  }

  /** Python's `any(p in s for p in pats)`. */
  function ContainsAny(s: string, pats: seq<string>): (r: bool)
    ensures r <==> exists k :: 0 <= k < |pats| && Occurs(pats[k], s)
    decreases |pats|
  {
    if |pats| == 0 then false
    else
      ContainsIffOccurs(s, pats[0]);
      var rest := ContainsAny(s, pats[1..]);
      assert rest <==> exists k :: 1 <= k < |pats| && Occurs(pats[k], s) by {
        forall k | 1 <= k < |pats| ensures pats[1..][k - 1] == pats[k] {}
      }
      Contains(s, pats[0]) || rest
  }
}
