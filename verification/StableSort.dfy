/** Array.prototype.sort: a stable sort, given by where it puts each element. */
module StableSort {

  /** x after the elements it does not come before. */
  function Insert<T>(s: seq<T>, x: T, before: (T, T) -> bool): seq<T> {
    if s == [] || !before(x, s[|s| - 1]) then s + [x]
    else Insert(s[..|s| - 1], x, before) + [s[|s| - 1]]
  }

  function Sort<T>(s: seq<T>, before: (T, T) -> bool): seq<T> {
    if s == [] then [] else Insert(Sort(s[..|s| - 1], before), s[|s| - 1], before)
  }

  predicate Sorted<T>(s: seq<T>, before: (T, T) -> bool) {
    forall i, j | 0 <= i < j < |s| :: !before(s[j], s[i])
  }

  /** A consistent comparison of the elements of s: what comes before is a strict order whose ties
      are an equivalence. */
  ghost predicate Consistent<T>(s: seq<T>, before: (T, T) -> bool) {
    && (forall x, y | x in s && y in s :: before(x, y) ==> !before(y, x))
    && (forall x, y, z | x in s && y in s && z in s :: !before(x, y) && !before(y, z) ==> !before(x, z))
  }

  predicate Ties<T>(x: T, y: T, before: (T, T) -> bool) {
    !before(x, y) && !before(y, x)
  }

  /** The elements that tie with v, in their order. */
  function Tied<T>(s: seq<T>, v: T, before: (T, T) -> bool): seq<T> {
    if s == [] then []
    else
      var front := Tied(s[..|s| - 1], v, before);
      if Ties(s[|s| - 1], v, before) then front + [s[|s| - 1]] else front
  }

  // ---------------------------------------------------------------------------------------------
  // A permutation
  // ---------------------------------------------------------------------------------------------

  lemma {:induction false} InsertKeepsAll<T>(s: seq<T>, x: T, before: (T, T) -> bool)
    ensures multiset(Insert(s, x, before)) == multiset(s) + multiset{x}
  {
    if s != [] && before(x, s[|s| - 1]) {
      InsertKeepsAll(s[..|s| - 1], x, before);
      assert s == s[..|s| - 1] + [s[|s| - 1]];
    }
  }

  lemma {:induction false} SortKeepsAll<T>(s: seq<T>, before: (T, T) -> bool)
    ensures multiset(Sort(s, before)) == multiset(s)
    ensures |Sort(s, before)| == |s|
    ensures (forall x <- s :: x in Sort(s, before)) && (forall x <- Sort(s, before) :: x in s)
  {
    if s != [] {
      SortKeepsAll(s[..|s| - 1], before);
      InsertKeepsAll(Sort(s[..|s| - 1], before), s[|s| - 1], before);
      assert s == s[..|s| - 1] + [s[|s| - 1]];
    }
    assert forall x <- s :: x in multiset(Sort(s, before));
    assert forall x <- Sort(s, before) :: x in multiset(s);
    assert |Sort(s, before)| == |multiset(Sort(s, before))|;
  }

  // ---------------------------------------------------------------------------------------------
  // In order
  // ---------------------------------------------------------------------------------------------

  lemma {:induction false} InsertKeepsOrder<T>(s: seq<T>, x: T, before: (T, T) -> bool, all: seq<T>)
    requires Consistent(all, before) && x in all && (forall y <- s :: y in all)
    requires Sorted(s, before)
    ensures Sorted(Insert(s, x, before), before)
    ensures forall y <- Insert(s, x, before) :: y == x || y in s
  {
    if s == [] {
    } else if before(x, s[|s| - 1]) {
      var front, last := s[..|s| - 1], s[|s| - 1];
      InsertKeepsOrder(front, x, before, all);
      forall y <- front
        ensures !before(last, y)
      {
        var i :| 0 <= i < |front| && front[i] == y;
        assert s[i] == y;
      }
    } else {
      forall i | 0 <= i < |s|
        ensures !before(x, s[i])
      {
        if i < |s| - 1 {
          assert !before(s[|s| - 1], s[i]);
        }
      }
    }
  }

  lemma {:induction false} SortSorts<T>(s: seq<T>, before: (T, T) -> bool)
    requires Consistent(s, before)
    ensures Sorted(Sort(s, before), before)
  {
    if s != [] {
      var front := s[..|s| - 1];
      assert forall y <- front :: y in s;
      SortSorts(front, before);
      SortKeepsAll(front, before);
      InsertKeepsOrder(Sort(front, before), s[|s| - 1], before, s);
    }
  }

  // ---------------------------------------------------------------------------------------------
  // Stable
  // ---------------------------------------------------------------------------------------------

  lemma TiedAppend<T>(s: seq<T>, x: T, v: T, before: (T, T) -> bool)
    ensures Tied(s + [x], v, before) == if Ties(x, v, before) then Tied(s, v, before) + [x] else Tied(s, v, before)
  {
    assert (s + [x])[..|s|] == s;
  }

  /** Two elements that tie with v tie with each other. */
  ghost predicate TiesCompose<T>(s: seq<T>, x: T, v: T, before: (T, T) -> bool) {
    Ties(x, v, before) ==> forall y <- s :: Ties(y, v, before) ==> !before(x, y)
  }

  /** An element goes behind those it ties with. */
  lemma {:induction false} InsertIsStable<T>(s: seq<T>, x: T, before: (T, T) -> bool, v: T)
    requires TiesCompose(s, x, v, before)
    ensures Tied(Insert(s, x, before), v, before) == if Ties(x, v, before) then Tied(s, v, before) + [x] else Tied(s, v, before)
  {
    TiedAppend(s, x, v, before);
    if s != [] && before(x, s[|s| - 1]) {
      var front, last := s[..|s| - 1], s[|s| - 1];
      assert last in s && forall y <- front :: y in s;
      InsertIsStable(front, x, before, v);
      TiedAppend(Insert(front, x, before), last, v, before);
    }
  }

  lemma {:induction false} SortIsStable<T>(s: seq<T>, before: (T, T) -> bool, all: seq<T>, v: T)
    requires Consistent(all, before) && v in all && (forall y <- s :: y in all)
    ensures Tied(Sort(s, before), v, before) == Tied(s, v, before)
  {
    if s != [] {
      var front, x := s[..|s| - 1], s[|s| - 1];
      SortIsStable(front, before, all, v);
      SortKeepsAll(front, before);
      assert x in all;
      InsertIsStable(Sort(front, before), x, before, v);
    }
  }

  // ---------------------------------------------------------------------------------------------
  // No other result
  // ---------------------------------------------------------------------------------------------

  ghost predicate SameTies<T>(s: seq<T>, r: seq<T>, before: (T, T) -> bool) {
    forall v <- s :: Tied(r, v, before) == Tied(s, v, before)
  }

  /** What the language promises of a sort. */
  ghost predicate StablySorted<T>(s: seq<T>, r: seq<T>, before: (T, T) -> bool) {
    multiset(r) == multiset(s) && Sorted(r, before) && SameTies(s, r, before)
  }

  lemma SortIsStablySorted<T>(s: seq<T>, before: (T, T) -> bool)
    requires Consistent(s, before)
    ensures StablySorted(s, Sort(s, before), before)
  {
    SortKeepsAll(s, before);
    SortSorts(s, before);
    forall v <- s
      ensures Tied(Sort(s, before), v, before) == Tied(s, v, before)
    {
      SortIsStable(s, before, s, v);
    }
  }

  lemma LastIsGreatest<T>(r: seq<T>, x: T, before: (T, T) -> bool)
    requires r != [] && Sorted(r, before) && x in r && !before(x, x)
    ensures !before(r[|r| - 1], x)
  {
  }

  lemma LastElements<T>(a: seq<T>, x: T, b: seq<T>, y: T, before: (T, T) -> bool)
    requires multiset(a + [x]) == multiset(b + [y]) && !before(x, x) && !before(y, y)
    requires Sorted(a + [x], before) && Sorted(b + [y], before)
    requires Tied(a + [x], x, before) == Tied(b + [y], x, before)
    ensures x == y
  {
    assert y in multiset(a + [x]) && x in multiset(b + [y]);
    LastIsGreatest(a + [x], y, before);
    LastIsGreatest(b + [y], x, before);
    TiedAppend(a, x, x, before);
    TiedAppend(b, y, x, before);
    assert Ties(x, x, before) && Ties(y, x, before);
    assert Tied(a + [x], x, before) == Tied(a, x, before) + [x];
    assert Tied(b + [y], x, before) == Tied(b, x, before) + [y];
    assert (Tied(a, x, before) + [x])[|Tied(a + [x], x, before)| - 1] == x;
  }

  lemma FrontTies<T>(a: seq<T>, b: seq<T>, x: T, v: T, before: (T, T) -> bool)
    requires Tied(b + [x], v, before) == Tied(a + [x], v, before)
    ensures Tied(b, v, before) == Tied(a, v, before)
  {
    TiedAppend(a, x, v, before);
    TiedAppend(b, x, v, before);
    var e := if Ties(x, v, before) then [x] else [];
    var c, d := Tied(a, v, before), Tied(b, v, before);
    assert c + e == d + e;
    assert |c| == |d|;
    assert c == (c + e)[..|c|] && d == (d + e)[..|d|];
  }

  lemma SortedFront<T>(a: seq<T>, x: T, before: (T, T) -> bool)
    requires Sorted(a + [x], before)
    ensures Sorted(a, before)
  {
    forall i, j | 0 <= i < j < |a|
      ensures !before(a[j], a[i])
    {
      assert (a + [x])[i] == a[i] && (a + [x])[j] == a[j];
    }
  }

  lemma TiesOfFronts<T>(a: seq<T>, b: seq<T>, x: T, before: (T, T) -> bool)
    requires SameTies(a + [x], b + [x], before)
    ensures SameTies(a, b, before)
  {
    forall v <- a
      ensures Tied(b, v, before) == Tied(a, v, before)
    {
      assert v in a + [x];
      FrontTies(a, b, x, v, before);
    }
  }

  ghost predicate Irreflexive<T>(s: seq<T>, before: (T, T) -> bool) {
    forall v <- s :: !before(v, v)
  }

  /** Two results with the same elements, in order, their ties in the same order. */
  ghost predicate Alike<T>(r: seq<T>, q: seq<T>, before: (T, T) -> bool) {
    && multiset(r) == multiset(q) && Irreflexive(r, before)
    && Sorted(r, before) && Sorted(q, before) && SameTies(r, q, before)
  }

  lemma SameFronts<T>(a: seq<T>, b: seq<T>, x: T)
    requires multiset(a + [x]) == multiset(b + [x])
    ensures multiset(a) == multiset(b)
  {
    assert multiset(a) == multiset(a + [x]) - multiset{x} && multiset(b) == multiset(b + [x]) - multiset{x};
  }

  lemma AlikeFronts<T>(a: seq<T>, x: T, b: seq<T>, y: T, before: (T, T) -> bool)
    requires Alike(a + [x], b + [y], before)
    ensures x == y && Alike(a, b, before)
  {
    assert x in a + [x] && y in multiset(a + [x]);
    LastElements(a, x, b, y, before);
    SameFronts(a, b, x);
    SortedFront(a, x, before);
    SortedFront(b, x, before);
    TiesOfFronts(a, b, x, before);
    assert forall v <- a :: v in a + [x];
  }

  lemma {:induction false} SortedUnique<T>(r: seq<T>, q: seq<T>, before: (T, T) -> bool)
    requires |r| == |q| && Alike(r, q, before)
    ensures r == q
    decreases |r|
  {
    if r != [] {
      var a, b := r[..|r| - 1], q[..|q| - 1];
      assert r == a + [r[|r| - 1]] && q == b + [q[|q| - 1]];
      AlikeFronts(a, r[|r| - 1], b, q[|q| - 1], before);
      SortedUnique(a, b, before);
    }
  }

  /** Whatever sorts stably sorts like this. */
  lemma StableSortIsUnique<T>(s: seq<T>, r: seq<T>, before: (T, T) -> bool)
    requires Consistent(s, before)
    ensures StablySorted(s, r, before) <==> r == Sort(s, before)
  {
    SortIsStablySorted(s, before);
    SortKeepsAll(s, before);
    if StablySorted(s, r, before) {
      assert forall v <- Sort(s, before) :: v in s;
      assert |r| == |multiset(r)|;
      SortedUnique(Sort(s, before), r, before);
    }
  }
}
