/** Depth-first search over a dependency graph: the cycle check of the platform validator.

    A graph maps each known name to the names it depends on; a name on such a list may be unknown.
  */
module DependencyGraph {
  import opened Basics

  type Graph = map<string, seq<string>>

  function Needs(g: Graph, a: string): seq<string> {
    if a in g then g[a] else []
  }

  predicate Edge(g: Graph, a: string, b: string) {
    b in Needs(g, a)
  }

  predicate Step(g: Graph, p: seq<string>, i: nat)
    requires i + 1 < |p|
  {
    Edge(g, p[i], p[i + 1])
  }

  predicate IsPath(g: Graph, p: seq<string>) {
    p != [] && forall i | 0 <= i < |p| - 1 :: Step(g, p, i)
  }

  ghost predicate HasCycle(g: Graph) {
    exists p {:trigger IsPath(g, p)} :: 2 <= |p| && IsPath(g, p) && p[0] == p[|p| - 1]
  }

  /** b is needed, directly or not, by a. */
  ghost predicate Reaches(g: Graph, a: string, b: string) {
    exists p {:trigger IsPath(g, p)} :: 2 <= |p| && IsPath(g, p) && p[0] == a && p[|p| - 1] == b
  }

  lemma PathExtend(g: Graph, p: seq<string>, b: string)
    requires IsPath(g, p) && Edge(g, p[|p| - 1], b)
    ensures IsPath(g, p + [b])
  {
    forall i | 0 <= i < |p|
      ensures Step(g, p + [b], i)
    {
      assert i < |p| - 1 ==> Step(g, p, i);
    }
  }

  lemma PathFrom(g: Graph, p: seq<string>, i: nat)
    requires IsPath(g, p) && i < |p|
    ensures IsPath(g, p[i..])
  {
    forall j | 0 <= j < |p[i..]| - 1
      ensures Step(g, p[i..], j)
    {
      assert Step(g, p, i + j);
    }
  }

  lemma CycleAt(g: Graph, p: seq<string>, i: nat)
    requires IsPath(g, p) && i < |p| - 1 && p[i] == p[|p| - 1]
    ensures HasCycle(g)
  {
    PathFrom(g, p, i);
    var loop := p[i..];
    assert 2 <= |loop| && loop[0] == loop[|loop| - 1];
  }

  // ---------------------------------------------------------------------------------------------
  // Names searched, and the measure of the search
  // ---------------------------------------------------------------------------------------------

  function Elements(s: seq<string>): set<string> {
    set x | x in s
  }

  function Names(g: Graph): set<string> {
    g.Keys + set a, b | a in g && b in g[a] :: b
  }

  lemma NeedsAreNames(g: Graph, a: string)
    ensures Elements(Needs(g, a)) <= Names(g)
  {
  }

  /** Names not on the path: what bounds the depth of the search. */
  function Unvisited(g: Graph, path: seq<string>): nat {
    |Names(g) - Elements(path)|
  }

  lemma PathShrinks(g: Graph, path: seq<string>, id: string)
    requires id in Names(g) && id !in path
    ensures Unvisited(g, path + [id]) < Unvisited(g, path)
  {
    SmallerSet(Names(g) - Elements(path + [id]), Names(g) - Elements(path));
    assert id in Names(g) - Elements(path) && id !in Names(g) - Elements(path + [id]);
  }

  // ---------------------------------------------------------------------------------------------
  // The search
  // ---------------------------------------------------------------------------------------------

  /** Visit a name below path: the names completed so far, and whether a cycle was reported. */
  function Visit(g: Graph, path: seq<string>, id: string, done: seq<string>): (seq<string>, bool)
    requires id in Names(g)
    decreases Unvisited(g, path), 1, 0
  {
    if id in path then (done, true)
    else if id in done then (done, false)
    else
      PathShrinks(g, path, id);
      NeedsAreNames(g, id);
      var (completed, cycle) := VisitAll(g, path + [id], Needs(g, id), done);
      (completed + [id], cycle)
  }

  function VisitAll(g: Graph, path: seq<string>, ids: seq<string>, done: seq<string>): (seq<string>, bool)
    requires Elements(ids) <= Names(g)
    decreases Unvisited(g, path), 2, |ids|
  {
    if ids == [] then (done, false)
    else
      assert ids[0] in Elements(ids);
      assert Elements(ids[1..]) <= Elements(ids);
      var (first, cycle) := Visit(g, path, ids[0], done);
      var (rest, cycles) := VisitAll(g, path, ids[1..], first);
      (rest, cycle || cycles)
  }

  // Soundness: a reported cycle is one

  lemma {:induction false} VisitSound(g: Graph, path: seq<string>, id: string, done: seq<string>)
    requires id in Names(g) && IsPath(g, path + [id])
    ensures Visit(g, path, id, done).1 ==> HasCycle(g)
    decreases Unvisited(g, path), 1, 0
  {
    if id in path {
      var i :| 0 <= i < |path| && path[i] == id;
      CycleAt(g, path + [id], i);
    } else if id !in done {
      PathShrinks(g, path, id);
      NeedsAreNames(g, id);
      VisitAllSound(g, path + [id], Needs(g, id), done);
    }
  }

  lemma {:induction false} VisitAllSound(g: Graph, path: seq<string>, ids: seq<string>, done: seq<string>)
    requires Elements(ids) <= Names(g)
    requires path == [] || (IsPath(g, path) && forall b <- ids :: Edge(g, path[|path| - 1], b))
    ensures VisitAll(g, path, ids, done).1 ==> HasCycle(g)
    decreases Unvisited(g, path), 2, |ids|
  {
    if ids != [] {
      assert ids[0] in Elements(ids) && Elements(ids[1..]) <= Elements(ids);
      if path != [] {
        PathExtend(g, path, ids[0]);
      } else {
        assert path + [ids[0]] == [ids[0]];
      }
      VisitSound(g, path, ids[0], done);
      assert forall b <- ids[1..] :: b in ids;
      VisitAllSound(g, path, ids[1..], Visit(g, path, ids[0], done).0);
    }
  }

  // Completeness: a search without report leaves dependencies first

  /** Everything a completed name needs was completed before it. */
  ghost predicate Closed(g: Graph, done: seq<string>) {
    forall i | 0 <= i < |done| :: Elements(Needs(g, done[i])) <= Elements(done[..i])
  }

  lemma ClosedAppend(g: Graph, done: seq<string>, id: string)
    requires Closed(g, done) && Elements(Needs(g, id)) <= Elements(done)
    ensures Closed(g, done + [id])
  {
    forall i | 0 <= i < |done + [id]|
      ensures Elements(Needs(g, (done + [id])[i])) <= Elements((done + [id])[..i])
    {
      if i < |done| {
        assert (done + [id])[..i] == done[..i];
      } else {
        assert (done + [id])[..i] == done;
      }
    }
  }

  lemma {:induction false} VisitComplete(g: Graph, path: seq<string>, id: string, done: seq<string>)
    requires id in Names(g) && Closed(g, done)
    ensures var (done', cycle) := Visit(g, path, id, done);
            done <= done' && (!cycle ==> id in done' && Closed(g, done'))
    decreases Unvisited(g, path), 1, 0
  {
    if id !in path && id !in done {
      PathShrinks(g, path, id);
      NeedsAreNames(g, id);
      VisitAllComplete(g, path + [id], Needs(g, id), done);
      var (completed, cycle) := VisitAll(g, path + [id], Needs(g, id), done);
      if !cycle {
        ClosedAppend(g, completed, id);
      }
    }
  }

  lemma {:induction false} VisitAllComplete(g: Graph, path: seq<string>, ids: seq<string>, done: seq<string>)
    requires Elements(ids) <= Names(g) && Closed(g, done)
    ensures var (done', cycle) := VisitAll(g, path, ids, done);
            done <= done' && (!cycle ==> Elements(ids) <= Elements(done') && Closed(g, done'))
    decreases Unvisited(g, path), 2, |ids|
  {
    if ids != [] {
      assert ids[0] in Elements(ids) && Elements(ids[1..]) <= Elements(ids);
      VisitComplete(g, path, ids[0], done);
      var (first, cycle) := Visit(g, path, ids[0], done);
      if cycle {
        VisitAllGrows(g, path, ids[1..], first);
      } else {
        VisitAllComplete(g, path, ids[1..], first);
        assert ids == [ids[0]] + ids[1..];
      }
    }
  }

  lemma {:induction false} VisitGrows(g: Graph, path: seq<string>, id: string, done: seq<string>)
    requires id in Names(g)
    ensures done <= Visit(g, path, id, done).0
    decreases Unvisited(g, path), 1, 0
  {
    if id !in path && id !in done {
      PathShrinks(g, path, id);
      NeedsAreNames(g, id);
      VisitAllGrows(g, path + [id], Needs(g, id), done);
    }
  }

  lemma {:induction false} VisitAllGrows(g: Graph, path: seq<string>, ids: seq<string>, done: seq<string>)
    requires Elements(ids) <= Names(g)
    ensures done <= VisitAll(g, path, ids, done).0
    decreases Unvisited(g, path), 2, |ids|
  {
    if ids != [] {
      assert ids[0] in Elements(ids) && Elements(ids[1..]) <= Elements(ids);
      VisitGrows(g, path, ids[0], done);
      VisitAllGrows(g, path, ids[1..], Visit(g, path, ids[0], done).0);
    }
  }

  /** Place of the first occurrence. */
  function Rank(done: seq<string>, a: string): nat
    requires a in done
    ensures Rank(done, a) < |done| && done[Rank(done, a)] == a
    ensures forall j | 0 <= j < |done| && done[j] == a :: Rank(done, a) <= j
  {
    if done[0] == a then 0 else 1 + Rank(done[1..], a)
  }

  /** Everything known that a listed name needs is listed before it. */
  ghost predicate DependenciesFirst(g: Graph, done: seq<string>) {
    forall i | 0 <= i < |done| :: NeedsListed(g, done, i)
  }

  predicate NeedsListed(g: Graph, done: seq<string>, i: nat)
    requires i < |done|
  {
    forall b <- Needs(g, done[i]) :: b in g ==> b in done[..i]
  }

  lemma StepDescends(g: Graph, done: seq<string>, a: string, b: string)
    requires DependenciesFirst(g, done) && a in done && Edge(g, a, b) && b in g
    ensures b in done && Rank(done, b) < Rank(done, a)
  {
    var i := Rank(done, a);
    assert NeedsListed(g, done, i);
    var j :| 0 <= j < i && done[..i][j] == b;
    assert done[j] == b;
  }

  /** Along a path the places in a dependencies-first list go down, step by step. */
  lemma {:induction false} PathDescends(g: Graph, done: seq<string>, p: seq<string>, k: nat)
    requires DependenciesFirst(g, done) && IsPath(g, p) && (forall i | 0 < i < |p| :: p[i] in g)
    requires p[0] in done && k < |p|
    ensures p[k] in done && Rank(done, p[k]) + k <= Rank(done, p[0])
    decreases k
  {
    if k != 0 {
      PathDescends(g, done, p, k - 1);
      assert Step(g, p, k - 1);
      StepDescends(g, done, p[k - 1], p[k]);
    }
  }

  /** So whatever a listed name needs, directly or not, is listed before it. */
  lemma NeedsComeFirst(g: Graph, done: seq<string>, a: string, b: string)
    requires DependenciesFirst(g, done) && a in done && b in g && Reaches(g, a, b)
    ensures b in done && Rank(done, b) < Rank(done, a)
  {
    var p :| 2 <= |p| && IsPath(g, p) && p[0] == a && p[|p| - 1] == b;
    forall k | 0 < k < |p|
      ensures p[k] in g
    {
      if k < |p| - 1 {
        assert Step(g, p, k);
      }
    }
    PathDescends(g, done, p, |p| - 1);
  }

  /** A list that names every known name after what it needs rules cycles out. */
  lemma DependenciesFirstIsAcyclic(g: Graph, done: seq<string>)
    requires g.Keys <= Elements(done) && DependenciesFirst(g, done)
    ensures !HasCycle(g)
  {
    forall p | 2 <= |p| && IsPath(g, p) && p[0] == p[|p| - 1]
      ensures false
    {
      CycleIsKnown(g, p);
      assert p[0] in Elements(done);
      PathDescends(g, done, p, |p| - 1);
    }
  }

  lemma CycleIsKnown(g: Graph, p: seq<string>)
    requires 2 <= |p| && IsPath(g, p) && p[0] == p[|p| - 1]
    ensures forall i | 0 <= i < |p| :: p[i] in g
  {
    forall i | 0 <= i < |p|
      ensures p[i] in g
    {
      assert Step(g, p, if i == |p| - 1 then 0 else i);
    }
  }

  /** The check over all apps reports a cycle if and only if the dependency graph has one. */
  lemma CycleCheckIsExact(g: Graph, keys: seq<string>)
    requires Elements(keys) == g.Keys
    ensures Elements(keys) <= Names(g)
    ensures VisitAll(g, [], keys, []).1 <==> HasCycle(g)
  {
    VisitAllSound(g, [], keys, []);
    VisitAllComplete(g, [], keys, []);
    var (done, cycle) := VisitAll(g, [], keys, []);
    if !cycle {
      forall i | 0 <= i < |done|
        ensures NeedsListed(g, done, i)
      {
        assert forall b <- Needs(g, done[i]) :: b in Elements(Needs(g, done[i]));
      }
      DependenciesFirstIsAcyclic(g, done);
    }
  }
}
