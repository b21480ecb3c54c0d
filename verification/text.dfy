/** Substring containment, used to state what an error message mentions. */
module Text {

  /** `t` occurs somewhere inside `s` as a contiguous run of characters. */
  predicate Contains(s: string, t: string)
    decreases |s|
  {
    |t| <= |s| && (s[..|t|] == t || (0 < |s| && Contains(s[1..], t)))
  }

  /** A string placed between any prefix and any suffix is contained in the
      result. */
  lemma {:induction false} ContainsMiddle(prefix: string, t: string, suffix: string)
    ensures Contains(prefix + t + suffix, t)
    decreases |prefix|
  {
    var s := prefix + t + suffix;
    if |prefix| == 0 {
      assert s == t + suffix;
      assert s[..|t|] == t;
    } else {
      assert s[1..] == prefix[1..] + t + suffix;
      ContainsMiddle(prefix[1..], t, suffix);
    }
  }
}
