/** Optional values, lists without duplicates, and sizes of sets. */
module Basics {

  datatype Option<+T> = None | Some(value: T)

  predicate NoDuplicates<T(==)>(s: seq<T>) {
    forall i, j | 0 <= i < j < |s| :: s[i] != s[j]
  }

  /** A set is as large as its list exactly when the list has no duplicates. */
  lemma {:induction false} SetSize<T(!new)>(s: seq<T>)
    ensures |set x | x in s| <= |s|
    ensures |set x | x in s| == |s| <==> NoDuplicates(s)
    decreases |s|
  {
    if s != [] {
      var front, last := s[..|s| - 1], s[|s| - 1];
      SetSize(front);
      assert s == front + [last];
      var a, b := set x | x in front, set x | x in s;
      assert b == a + {last};
      if last in front {
        assert b == a;
        var i :| 0 <= i < |front| && front[i] == last;
        assert s[i] == s[|s| - 1];
      } else {
        assert NoDuplicates(front) ==> NoDuplicates(s);
        assert NoDuplicates(s) ==> NoDuplicates(front) by {
          assert forall i | 0 <= i < |front| :: s[i] == front[i];
        }
      }
    }
  }

  lemma SmallerSet<T>(a: set<T>, b: set<T>)
    requires a <= b
    ensures |a| <= |b| && (a != b ==> |a| < |b|)
  {
    var rest := b - a;
    assert b == a + rest;
  }
}
