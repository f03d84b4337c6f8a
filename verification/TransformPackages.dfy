/** The packages a test run transforms: a worklist over the installed packages, from a list of seeds. */
module TransformPackages {
  import opened Basics
  import G = DependencyGraph

  /** The dependency names a package lists, by kind. */
  datatype Package = Package(dependencies: seq<string>, optionalDependencies: seq<string>, peerDependencies: seq<string>)

  /** What can be read under node_modules; a name without a readable package is not in the map. */
  type Registry = map<string, Package>

  /** Names merged under one key each, in the order they first appear. */
  function Merged(names: seq<string>): (r: seq<string>)
    ensures forall x :: x in r <==> x in names
  {
    if names == [] then []
    else
      assert names == names[..|names| - 1] + [names[|names| - 1]];
      var r := Merged(names[..|names| - 1]);
      if names[|names| - 1] in r then r else r + [names[|names| - 1]]
  }

  function Dependencies(pkg: Package): seq<string> {
    Merged(pkg.dependencies + pkg.optionalDependencies + pkg.peerDependencies)
  }

  function DependenciesOf(registry: Registry): G.Graph {
    map name | name in registry :: Dependencies(registry[name])
  }

  /** A package is reached if a path of packages with a name leads to it from a seed. */
  ghost predicate PathTo(registry: Registry, seeds: seq<string>, p: seq<string>, name: string) {
    G.IsPath(DependenciesOf(registry), p) && p[0] in seeds && p[|p| - 1] == name && "" !in p
  }

  ghost predicate Reached(registry: Registry, seeds: seq<string>, name: string) {
    exists p :: PathTo(registry, seeds, p, name)
  }

  /** All names there are. */
  function Universe(registry: Registry, seeds: seq<string>): set<string> {
    G.Elements(seeds) + G.Names(DependenciesOf(registry))
  }

  lemma SeedIsReached(registry: Registry, seeds: seq<string>, name: string)
    requires name in seeds && name != ""
    ensures Reached(registry, seeds, name)
  {
    assert PathTo(registry, seeds, [name], name);
  }

  lemma NeedIsReached(registry: Registry, seeds: seq<string>, name: string, need: string)
    requires Reached(registry, seeds, name) && need in G.Needs(DependenciesOf(registry), name) && need != ""
    ensures Reached(registry, seeds, need)
  {
    var p :| PathTo(registry, seeds, p, name);
    G.PathExtend(DependenciesOf(registry), p, need);
    assert (p + [need])[0] == p[0];
    assert PathTo(registry, seeds, p + [need], need);
  }

  /** Nothing is missing once no name waits: every seed and every need is seen or waiting. */
  ghost predicate Covered(registry: Registry, names: seq<string>, seen: seq<string>, queue: seq<string>) {
    forall name <- names :: name == "" || name in seen || name in queue
  }

  ghost predicate NeedsCovered(registry: Registry, seen: seq<string>, queue: seq<string>) {
    forall name <- seen :: Covered(registry, G.Needs(DependenciesOf(registry), name), seen, queue)
  }

  ghost predicate AllReached(registry: Registry, seeds: seq<string>, names: seq<string>) {
    forall name <- names :: name != "" ==> Reached(registry, seeds, name)
  }

  lemma {:induction false} PathIsSeen(registry: Registry, seeds: seq<string>, seen: seq<string>, p: seq<string>, k: nat)
    requires Covered(registry, seeds, seen, []) && NeedsCovered(registry, seen, [])
    requires k < |p| && PathTo(registry, seeds, p, p[|p| - 1])
    ensures p[k] in seen
  {
    if k != 0 {
      PathIsSeen(registry, seeds, seen, p, k - 1);
      assert G.Step(DependenciesOf(registry), p, k - 1);
    }
  }

  lemma CoveredIsComplete(registry: Registry, seeds: seq<string>, seen: seq<string>)
    requires Covered(registry, seeds, seen, []) && NeedsCovered(registry, seen, [])
    ensures forall name | Reached(registry, seeds, name) :: name in seen
  {
    forall name | Reached(registry, seeds, name)
      ensures name in seen
    {
      var p :| PathTo(registry, seeds, p, name);
      PathIsSeen(registry, seeds, seen, p, |p| - 1);
    }
  }

  function Unseen(registry: Registry, seeds: seq<string>, seen: seq<string>): nat {
    |Universe(registry, seeds) - G.Elements(seen)|
  }

  lemma SeeingOneMore(registry: Registry, seeds: seq<string>, seen: seq<string>, name: string)
    requires name in Universe(registry, seeds) && name !in seen
    ensures Unseen(registry, seeds, seen + [name]) < Unseen(registry, seeds, seen)
  {
    var before := Universe(registry, seeds) - G.Elements(seen);
    var after := Universe(registry, seeds) - G.Elements(seen + [name]);
    SmallerSet(after, before);
    assert name in before && name !in after;
  }

  /** Those of the names not seen yet. */
  function NotSeen(names: seq<string>, seen: seq<string>): (r: seq<string>)
    ensures forall x :: x in r <==> x in names && x !in seen
  {
    if names == [] then []
    else
      assert names == names[..|names| - 1] + [names[|names| - 1]];
      NotSeen(names[..|names| - 1], seen) + if names[|names| - 1] in seen then [] else [names[|names| - 1]]
  }

  method PushNew(queue: seq<string>, names: seq<string>, seen: seq<string>) returns (longer: seq<string>)
    ensures longer == queue + NotSeen(names, seen)
  {
    longer := queue;
    var k := 0;
    while k < |names|
      invariant 0 <= k <= |names|
      invariant longer == queue + NotSeen(names[..k], seen)
    {
      assert names[..k + 1][..k] == names[..k];
      if names[k] !in seen {
        longer := longer + [names[k]];
      }
      k := k + 1;
    }
    assert names[..k] == names;
  }

  lemma TakenKeepsCover(registry: Registry, names: seq<string>, seen: seq<string>, queue: seq<string>, seen': seq<string>, queue': seq<string>)
    requires Covered(registry, names, seen, queue) && queue != []
    requires queue[0] == "" || queue[0] in seen'
    requires seen <= seen' && forall x <- queue[1..] :: x in queue' || x in seen'
    ensures Covered(registry, names, seen', queue')
  {
  }

  lemma TakenKeepsNeeds(registry: Registry, seen: seq<string>, queue: seq<string>, seen': seq<string>, queue': seq<string>)
    requires NeedsCovered(registry, seen, queue) && queue != []
    requires queue[0] == "" || queue[0] in seen'
    requires seen <= seen' && forall x <- queue[1..] :: x in queue' || x in seen'
    ensures forall name <- seen :: Covered(registry, G.Needs(DependenciesOf(registry), name), seen', queue')
  {
  }

  lemma NeedsAreReached(registry: Registry, seeds: seq<string>, name: string)
    requires Reached(registry, seeds, name)
    ensures AllReached(registry, seeds, G.Needs(DependenciesOf(registry), name))
  {
    forall need <- G.Needs(DependenciesOf(registry), name) | need != ""
      ensures Reached(registry, seeds, need)
    {
      NeedIsReached(registry, seeds, name, need);
    }
  }

  ghost predicate Inv(registry: Registry, seeds: seq<string>, seen: seq<string>, queue: seq<string>) {
    && NoDuplicates(seen) && "" !in seen
    && AllReached(registry, seeds, seen) && AllReached(registry, seeds, queue)
    && (forall name <- queue :: name in Universe(registry, seeds))
    && Covered(registry, seeds, seen, queue) && NeedsCovered(registry, seen, queue)
  }

  lemma StartHoldsInv(registry: Registry, seeds: seq<string>)
    ensures Inv(registry, seeds, [], seeds)
  {
    forall name <- seeds | name != ""
      ensures Reached(registry, seeds, name)
    {
      SeedIsReached(registry, seeds, name);
    }
  }

  lemma SkipKeepsInv(registry: Registry, seeds: seq<string>, seen: seq<string>, queue: seq<string>)
    requires Inv(registry, seeds, seen, queue) && queue != [] && (queue[0] == "" || queue[0] in seen)
    ensures Inv(registry, seeds, seen, queue[1..])
  {
  }

  lemma TakeKeepsInv(registry: Registry, seeds: seq<string>, seen: seq<string>, queue: seq<string>)
    requires Inv(registry, seeds, seen, queue) && queue != [] && queue[0] != "" && queue[0] !in seen
    ensures var needs := G.Needs(DependenciesOf(registry), queue[0]);
            var seen' := seen + [queue[0]];
            Inv(registry, seeds, seen', queue[1..] + NotSeen(needs, seen'))
  {
    var name := queue[0];
    var needs := G.Needs(DependenciesOf(registry), name);
    var seen' := seen + [name];
    var queue' := queue[1..] + NotSeen(needs, seen');
    assert name in queue;
    NeedsAreReached(registry, seeds, name);
    TakenKeepsCover(registry, seeds, seen, queue, seen', queue');
    TakenKeepsNeeds(registry, seen, queue, seen', queue');
    assert Covered(registry, needs, seen', queue');
    forall x <- queue'
      ensures x in Universe(registry, seeds) && (x != "" ==> Reached(registry, seeds, x))
    {
      assert x in queue[1..] ==> x in queue;
      assert x in needs ==> x in G.Names(DependenciesOf(registry));
    }
  }

  lemma TakeShrinks(registry: Registry, seeds: seq<string>, seen: seq<string>, queue: seq<string>)
    requires Inv(registry, seeds, seen, queue) && queue != [] && queue[0] !in seen
    ensures Unseen(registry, seeds, seen + [queue[0]]) < Unseen(registry, seeds, seen)
  {
    SeeingOneMore(registry, seeds, seen, queue[0]);
  }

  lemma InvIsExact(registry: Registry, seeds: seq<string>, seen: seq<string>)
    requires Inv(registry, seeds, seen, [])
    ensures forall name :: name in seen <==> Reached(registry, seeds, name)
  {
    CoveredIsComplete(registry, seeds, seen);
  }

  /** A name listed in any of the three lists of an installed package. */
  ghost predicate Lists(registry: Registry, name: string, need: string) {
    && name in registry
    && var pkg := registry[name];
       need in pkg.dependencies || need in pkg.optionalDependencies || need in pkg.peerDependencies
  }

  lemma NeedsAreListed(registry: Registry, name: string, need: string)
    ensures need in G.Needs(DependenciesOf(registry), name) <==> Lists(registry, name, need)
  {
    if name in registry {
      var pkg := registry[name];
      assert need in pkg.dependencies + pkg.optionalDependencies + pkg.peerDependencies <==> Lists(registry, name, need);
    }
  }

  /** Closed under the seeds and under what packages list. */
  ghost predicate Closed(registry: Registry, seeds: seq<string>, names: set<string>) {
    && (forall seed <- seeds :: seed == "" || seed in names)
    && (forall name <- names, need | Lists(registry, name, need) :: need == "" || need in names)
  }

  lemma {:induction false} PathStaysIn(registry: Registry, seeds: seq<string>, names: set<string>, p: seq<string>, k: nat)
    requires Closed(registry, seeds, names) && k < |p| && PathTo(registry, seeds, p, p[|p| - 1])
    ensures p[k] in names
  {
    assert p[k] in p;
    if k > 0 {
      PathStaysIn(registry, seeds, names, p, k - 1);
      assert G.Step(DependenciesOf(registry), p, k - 1);
      NeedsAreListed(registry, p[k - 1], p[k]);
    }
  }

  /** The names reached are the least set closed under the seeds and under what packages list. */
  lemma ReachedIsLeast(registry: Registry, seeds: seq<string>, reached: set<string>)
    requires forall name :: name in reached <==> Reached(registry, seeds, name)
    ensures "" !in reached && Closed(registry, seeds, reached)
    ensures forall names | Closed(registry, seeds, names) :: reached <= names
  {
    assert forall p, name | PathTo(registry, seeds, p, name) :: name in p;
    forall seed <- seeds | seed != ""
      ensures seed in reached
    {
      SeedIsReached(registry, seeds, seed);
    }
    forall name <- reached, need | Lists(registry, name, need) && need != ""
      ensures need in reached
    {
      NeedsAreListed(registry, name, need);
      NeedIsReached(registry, seeds, name, need);
    }
    forall names, name | Closed(registry, seeds, names) && name in reached
      ensures name in names
    {
      var p :| PathTo(registry, seeds, p, name);
      PathStaysIn(registry, seeds, names, p, |p| - 1);
    }
  }

  /** Exactly the packages reached, each once. */
  method CollectTransformPackages(registry: Registry, seeds: seq<string>) returns (seen: seq<string>)
    ensures NoDuplicates(seen)
    ensures forall name :: name in seen <==> Reached(registry, seeds, name)
    ensures "" !in seen && Closed(registry, seeds, G.Elements(seen))
    ensures forall names | Closed(registry, seeds, names) :: G.Elements(seen) <= names
  {
    seen := [];
    var queue := seeds;
    StartHoldsInv(registry, seeds);
    while queue != []
      invariant Inv(registry, seeds, seen, queue)
      decreases Unseen(registry, seeds, seen), |queue|
    {
      var name := queue[0];
      ghost var waiting := queue;
      queue := queue[1..];
      if name == "" || name in seen {
        SkipKeepsInv(registry, seeds, seen, waiting);
        continue;
      }
      TakeShrinks(registry, seeds, seen, waiting);
      TakeKeepsInv(registry, seeds, seen, waiting);
      seen := seen + [name];
      if name in registry {
        queue := PushNew(queue, Dependencies(registry[name]), seen);
      } else {
        assert NotSeen([], seen) == [] && queue + [] == queue;
      }
    }
    InvIsExact(registry, seeds, seen);
    ReachedIsLeast(registry, seeds, G.Elements(seen));
  }
}
