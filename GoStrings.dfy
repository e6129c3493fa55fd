/**
 * The part of Go's strings package the query builder relies on: finding the
 * first occurrence of a pattern, and strings.Replace(s, old, new, 1).
 * Go strings are byte strings; here they are sequences of char.
 */
module GoStrings {
  import opened Wrappers

  /** pat occurs in s starting at index i. */
  predicate OccursAt(s: string, pat: string, i: int) {
    0 <= i && i + |pat| <= |s| && s[i..i + |pat|] == pat
  }

  ghost predicate Contains(s: string, pat: string) {
    exists i :: OccursAt(s, pat, i)
  }

  /** strings.Index(s, pat), with None for Go's -1. */
  function FirstIndex(s: string, pat: string): (r: Option<nat>)
    ensures r.None? <==> !Contains(s, pat)
    ensures r.Some? ==> OccursAt(s, pat, r.value) && forall j | 0 <= j < r.value :: !OccursAt(s, pat, j)
    decreases |s|
  {
    if |s| < |pat| then None
    else if s[..|pat|] == pat then assert OccursAt(s, pat, 0); Some(0)
    else
      var rest := FirstIndex(s[1..], pat);
      assert forall j | j >= 1 :: OccursAt(s, pat, j) <==> OccursAt(s[1..], pat, j - 1) by {
        forall j | j >= 1 ensures OccursAt(s, pat, j) <==> OccursAt(s[1..], pat, j - 1) {
          OccursShifted(s, pat, j);
        }
      }
      assert !OccursAt(s, pat, 0);
      match rest
      case None => None
      case Some(k) => assert OccursAt(s[1..], pat, k) && OccursAt(s, pat, k + 1); Some(k + 1)
  }

  /** Dropping the first character of s shifts every later occurrence one place left. */
  lemma OccursShifted(s: string, pat: string, j: int)
    requires |s| >= 1 && j >= 1
    ensures OccursAt(s, pat, j) <==> OccursAt(s[1..], pat, j - 1)
  {
    if j + |pat| <= |s| {
      var t := s[1..];
      forall m | j <= m < j + |pat| ensures s[m] == t[m - 1] {
      }
      assert s[j..j + |pat|] == t[j - 1..j - 1 + |pat|];
    }
  }

  /**
   * strings.Replace(s, old, new, 1): when old == new Go returns s at once;
   * otherwise the first occurrence of pat, if any, is replaced by repl. An
   * empty pat occurs at index 0, so repl is then put in front of s.
   */
  function ReplaceOne(s: string, pat: string, repl: string): string {
    if pat == repl then s
    else match FirstIndex(s, pat)
      case None => s
      case Some(p) => s[..p] + repl + s[p + |pat|..]
  }

  /** strings.Replace(s, old, new, 1) leaves s unchanged exactly when pat does not occur in s or pat == repl. */
  lemma ReplaceOneUnchanged(s: string, pat: string, repl: string)
    ensures ReplaceOne(s, pat, repl) == s <==> (pat == repl || !Contains(s, pat))
  {
    if pat != repl && Contains(s, pat) {
      var p := FirstIndex(s, pat).value;
      var r := ReplaceOne(s, pat, repl);
      if |repl| == |pat| {
        assert r[p..p + |repl|] == repl;
        assert s[p..p + |pat|] == pat;
      } else {
        assert |r| != |s|;
      }
    }
  }

  /** What strings.Replace(s, old, new, 1) does when pat occurs: the text before the first occurrence is kept, repl takes the occurrence's place, the rest follows. */
  lemma ReplaceOneFound(s: string, pat: string, repl: string)
    requires pat != repl && Contains(s, pat)
    ensures exists p | OccursAt(s, pat, p) && (forall j | 0 <= j < p :: !OccursAt(s, pat, j)) ::
      ReplaceOne(s, pat, repl) == s[..p] + repl + s[p + |pat|..]
  {
    var p := FirstIndex(s, pat).value;
    assert OccursAt(s, pat, p);
  }
}
