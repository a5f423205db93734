/** Small shared vocabulary. */
module Common {
  datatype Option<+T> = None | Some(value: T)

  /** The elements of a sequence, as a set. */
  function Elements<T>(s: seq<T>): (r: set<T>) {
    set x | x in s
  }

  /** No element occurs at two positions. */
  ghost predicate Distinct<T>(s: seq<T>) {
    forall i, j | 0 <= i < j < |s| :: s[i] != s[j]
  }

  /** `p` is a prefix of `s`. */
  ghost predicate IsPrefix<T>(p: seq<T>, s: seq<T>) {
    |p| <= |s| && forall i | 0 <= i < |p| :: p[i] == s[i]
  }

  lemma {:induction false} DistinctCount<T>(s: seq<T>)
    requires Distinct(s)
    ensures |Elements(s)| == |s|
  {
    if s == [] {
    } else {
      var init := s[..|s| - 1];
      var last := s[|s| - 1];
      DistinctCount(init);
      assert s == init + [last] && last !in init;
      assert Elements(s) == Elements(init) + {last};
    }
  }
}
