/** Python's substring test `p in s` on strings. */
module Substrings {

  /** `p` occurs in `s` starting at index `i`. */
  predicate MatchAt(s: string, p: string, i: int)
  {
    0 <= i && i + |p| <= |s| && s[i..i + |p|] == p
  }

  /** `p in s`: a left-to-right search for the first occurrence. */
  function Contains(s: string, p: string): (r: bool)
    ensures r <==> exists i :: MatchAt(s, p, i)
    decreases |s|
  {
    if |s| < |p| then
      assert forall i :: !MatchAt(s, p, i);
      false
    else if s[..|p|] == p then
      assert MatchAt(s, p, 0);
      true
    else
      var r := Contains(s[1..], p);
      assert forall i :: MatchAt(s[1..], p, i) <==> MatchAt(s, p, i + 1) by {
        forall i ensures MatchAt(s[1..], p, i) <==> MatchAt(s, p, i + 1) {
          if 0 <= i && i + |p| <= |s| - 1 {
            assert s[1..][i..i + |p|] == s[i + 1..i + 1 + |p|];
          }
        }
      }
      assert r ==> MatchAt(s, p, (var j :| MatchAt(s[1..], p, j); j) + 1);
      assert (exists i :: MatchAt(s, p, i)) ==> r by {
        if i :| MatchAt(s, p, i) {
          assert i != 0;
          assert MatchAt(s[1..], p, i - 1);
        }
      }
      r
  }
}
