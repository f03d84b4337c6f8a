/** The apps of a platform definition, and the order in which they are set up. */
module AppPlatform {
  import opened Basics
  import opened DependencyGraph

  datatype AppRef = AppRef(pluginName: string, appName: string)
  datatype App = App(key: string, appRef: AppRef, required: bool, enabled: bool, dependsOn: seq<string>)

  /** new Map of the apps by key: the last app with a key counts. */
  function AppsByKey(apps: seq<App>): (m: map<string, App>)
    ensures m.Keys == set a <- apps :: a.key
    ensures forall k <- m :: m[k] in apps && m[k].key == k
  {
    if apps == [] then map[]
    else
      var last := apps[|apps| - 1];
      assert apps == apps[..|apps| - 1] + [last];
      AppsByKey(apps[..|apps| - 1])[last.key := last]
  }

  function GraphOf(apps: map<string, App>): Graph {
    map k | k in apps :: apps[k].dependsOn
  }

  ghost predicate UniqueKeys(apps: seq<App>) {
    forall i, j | 0 <= i < j < |apps| :: apps[i].key != apps[j].key
  }

  lemma KeyNamesApp(apps: seq<App>, i: nat)
    requires UniqueKeys(apps) && i < |apps|
    ensures apps[i].key in AppsByKey(apps) && AppsByKey(apps)[apps[i].key] == apps[i]
  {
  }

  // ---------------------------------------------------------------------------------------------
  // appPlatformAppOrder
  // ---------------------------------------------------------------------------------------------

  function Keys(apps: seq<App>): set<string> {
    set a <- apps :: a.key
  }

  function KeySeq(apps: seq<App>): (keys: seq<string>)
    ensures |keys| == |apps| && forall i | 0 <= i < |apps| :: keys[i] == apps[i].key
  {
    seq(|apps|, i requires 0 <= i < |apps| => apps[i].key)
  }

  predicate Keyed(apps: map<string, App>) {
    forall k <- apps :: apps[k].key == k
  }

  /** Visit an app: the keys seen so far and the apps emitted so far. */
  function Place(apps: map<string, App>, app: App, seen: set<string>, ordered: seq<App>): (r: (set<string>, seq<App>))
    requires Keyed(apps) && app.key in apps
    ensures seen + {app.key} <= r.0
    decreases |apps.Keys - seen|, 1, 0
  {
    if app.key in seen then (seen, ordered)
    else
      SmallerSet(apps.Keys - (seen + {app.key}), apps.Keys - seen);
      assert app.key in apps.Keys - seen && app.key !in apps.Keys - (seen + {app.key});
      var (s, o) := PlaceAll(apps, app.dependsOn, seen + {app.key}, ordered);
      (s, o + [app])
  }

  function PlaceAll(apps: map<string, App>, ids: seq<string>, seen: set<string>, ordered: seq<App>): (r: (set<string>, seq<App>))
    requires Keyed(apps)
    ensures seen <= r.0
    decreases |apps.Keys - seen|, 2, |ids|
  {
    if ids == [] then (seen, ordered)
    else
      var (s, o) := if ids[0] in apps then Place(apps, apps[ids[0]], seen, ordered) else (seen, ordered);
      SmallerSet(apps.Keys - s, apps.Keys - seen);
      PlaceAll(apps, ids[1..], s, o)
  }

  /** definition.apps.forEach(visit), over the apps not yet visited. */
  function PlaceEach(apps: map<string, App>, rest: seq<App>, seen: set<string>, ordered: seq<App>): (set<string>, seq<App>)
    requires Keyed(apps) && forall a <- rest :: a.key in apps
    decreases |rest|
  {
    if rest == [] then (seen, ordered)
    else
      var (s, o) := Place(apps, rest[0], seen, ordered);
      PlaceEach(apps, rest[1..], s, o)
  }

  function AppOrder(apps: seq<App>): seq<App> {
    PlaceEach(AppsByKey(apps), apps, {}, []).1
  }

  // Every app is emitted exactly once

  /** stack lists the apps seen but not yet emitted: those whose dependencies are being placed. */
  ghost predicate Consistent(apps: map<string, App>, seen: set<string>, ordered: seq<App>, stack: seq<string>) {
    && UniqueKeys(ordered)
    && (forall a <- ordered :: a.key in apps && apps[a.key] == a && a.key !in stack)
    && seen == Elements(stack) + Keys(ordered)
  }

  lemma {:induction false} PlaceConsistent(apps: map<string, App>, app: App, seen: set<string>, ordered: seq<App>, stack: seq<string>)
    requires Keyed(apps) && app.key in apps && apps[app.key] == app
    requires Consistent(apps, seen, ordered, stack)
    ensures var (s, o) := Place(apps, app, seen, ordered); Consistent(apps, s, o, stack) && ordered <= o
    decreases |apps.Keys - seen|, 1, 0
  {
    if app.key !in seen {
      SmallerSet(apps.Keys - (seen + {app.key}), apps.Keys - seen);
      assert app.key in apps.Keys - seen && app.key !in apps.Keys - (seen + {app.key});
      var deeper := stack + [app.key];
      assert Elements(deeper) == Elements(stack) + {app.key};
      PlaceAllConsistent(apps, app.dependsOn, seen + {app.key}, ordered, deeper);
      var (s, o) := PlaceAll(apps, app.dependsOn, seen + {app.key}, ordered);
      assert app.key !in stack by { assert app.key !in Elements(stack); }
      EmitConsistent(apps, app, s, o, stack);
    }
  }

  lemma EmitConsistent(apps: map<string, App>, app: App, seen: set<string>, ordered: seq<App>, stack: seq<string>)
    requires app.key in apps && apps[app.key] == app
    requires Consistent(apps, seen, ordered, stack + [app.key]) && app.key !in stack
    ensures Consistent(apps, seen, ordered + [app], stack)
  {
  }

  lemma {:induction false} PlaceAllConsistent(apps: map<string, App>, ids: seq<string>, seen: set<string>, ordered: seq<App>, stack: seq<string>)
    requires Keyed(apps) && Consistent(apps, seen, ordered, stack)
    ensures var (s, o) := PlaceAll(apps, ids, seen, ordered); Consistent(apps, s, o, stack) && ordered <= o
    decreases |apps.Keys - seen|, 2, |ids|
  {
    if ids != [] {
      var (s, o) := if ids[0] in apps then Place(apps, apps[ids[0]], seen, ordered) else (seen, ordered);
      if ids[0] in apps {
        PlaceConsistent(apps, apps[ids[0]], seen, ordered, stack);
      }
      SmallerSet(apps.Keys - s, apps.Keys - seen);
      PlaceAllConsistent(apps, ids[1..], s, o, stack);
    }
  }

  // In an acyclic graph every app is emitted after what it needs

  ghost predicate Sorted(apps: map<string, App>, ordered: seq<App>) {
    DependenciesFirst(GraphOf(apps), KeySeq(ordered))
  }

  predicate Emitted(apps: map<string, App>, ids: seq<string>, ordered: seq<App>) {
    forall b <- ids :: b in apps ==> b in Keys(ordered)
  }

  lemma EmittedGrows(apps: map<string, App>, ids: seq<string>, ordered: seq<App>, more: seq<App>)
    requires ids != [] && (ids[0] in apps ==> ids[0] in Keys(ordered))
    requires Emitted(apps, ids[1..], more) && ordered <= more
    ensures Emitted(apps, ids, more)
  {
  }

  lemma EmitSorted(apps: map<string, App>, app: App, ordered: seq<App>)
    requires app.key in apps && apps[app.key] == app
    requires Sorted(apps, ordered) && Emitted(apps, app.dependsOn, ordered)
    ensures Sorted(apps, ordered + [app])
  {
    var g := GraphOf(apps);
    var keys := KeySeq(ordered + [app]);
    forall i | 0 <= i < |keys|
      ensures NeedsListed(g, keys, i)
    {
      if i < |ordered| {
        assert NeedsListed(g, KeySeq(ordered), i);
        assert keys[..i] == KeySeq(ordered)[..i];
      } else {
        forall b <- app.dependsOn | b in apps
          ensures b in keys[..i]
        {
          var a :| a in ordered && a.key == b;
          var j :| 0 <= j < |ordered| && ordered[j] == a;
          assert keys[..i][j] == b;
        }
      }
    }
  }

  /** What placing an app with the given stack leaves: the stack is a path, so an app seen but not yet
      emitted would close a cycle. */
  lemma {:induction false} PlaceSorted(apps: map<string, App>, app: App, seen: set<string>, ordered: seq<App>, stack: seq<string>)
    requires Keyed(apps) && app.key in apps && apps[app.key] == app
    requires Consistent(apps, seen, ordered, stack) && Sorted(apps, ordered)
    requires !HasCycle(GraphOf(apps)) && IsPath(GraphOf(apps), stack + [app.key])
    ensures var o := Place(apps, app, seen, ordered).1; Sorted(apps, o) && app.key in Keys(o)
    decreases |apps.Keys - seen|, 1, 0
  {
    var deeper := stack + [app.key];
    if app.key in seen {
      if app.key in stack {
        var i :| 0 <= i < |stack| && stack[i] == app.key;
        CycleAt(GraphOf(apps), deeper, i);
      }
    } else {
      SmallerSet(apps.Keys - (seen + {app.key}), apps.Keys - seen);
      assert app.key in apps.Keys - seen && app.key !in apps.Keys - (seen + {app.key});
      assert Elements(deeper) == Elements(stack) + {app.key};
      assert Needs(GraphOf(apps), app.key) == app.dependsOn;
      PlaceAllSorted(apps, app.dependsOn, seen + {app.key}, ordered, deeper);
      var (s, o) := PlaceAll(apps, app.dependsOn, seen + {app.key}, ordered);
      EmitSorted(apps, app, o);
      assert app in o + [app];
    }
  }

  lemma {:induction false} PlaceAllSorted(apps: map<string, App>, ids: seq<string>, seen: set<string>, ordered: seq<App>, stack: seq<string>)
    requires Keyed(apps) && Consistent(apps, seen, ordered, stack) && Sorted(apps, ordered)
    requires !HasCycle(GraphOf(apps)) && IsPath(GraphOf(apps), stack)
    requires forall b <- ids :: Edge(GraphOf(apps), stack[|stack| - 1], b)
    ensures var o := PlaceAll(apps, ids, seen, ordered).1; Sorted(apps, o) && Emitted(apps, ids, o)
    decreases |apps.Keys - seen|, 2, |ids|
  {
    if ids != [] {
      var (s, o) := if ids[0] in apps then Place(apps, apps[ids[0]], seen, ordered) else (seen, ordered);
      assert ids[0] in ids;
      if ids[0] in apps {
        PlaceNextSorted(apps, ids[0], seen, ordered, stack);
      }
      SmallerSet(apps.Keys - s, apps.Keys - seen);
      assert forall b <- ids[1..] :: b in ids;
      PlaceAllSorted(apps, ids[1..], s, o, stack);
      PlaceAllConsistent(apps, ids[1..], s, o, stack);
      EmittedGrows(apps, ids, o, PlaceAll(apps, ids[1..], s, o).1);
    }
  }

  lemma {:induction false} PlaceNextSorted(apps: map<string, App>, id: string, seen: set<string>, ordered: seq<App>, stack: seq<string>)
    requires Keyed(apps) && Consistent(apps, seen, ordered, stack) && Sorted(apps, ordered)
    requires !HasCycle(GraphOf(apps)) && IsPath(GraphOf(apps), stack)
    requires id in apps && Edge(GraphOf(apps), stack[|stack| - 1], id)
    ensures var (s, o) := Place(apps, apps[id], seen, ordered);
            Consistent(apps, s, o, stack) && Sorted(apps, o) && id in Keys(o)
    decreases |apps.Keys - seen|, 1, 1
  {
    PathExtend(GraphOf(apps), stack, id);
    PlaceConsistent(apps, apps[id], seen, ordered, stack);
    PlaceSorted(apps, apps[id], seen, ordered, stack);
  }

  lemma {:induction false} PlaceEachConsistent(apps: map<string, App>, rest: seq<App>, seen: set<string>, ordered: seq<App>)
    requires Keyed(apps) && forall a <- rest :: a.key in apps && apps[a.key] == a
    requires Consistent(apps, seen, ordered, [])
    ensures var (s, o) := PlaceEach(apps, rest, seen, ordered);
            Consistent(apps, s, o, []) && Keys(rest) + seen <= s
    ensures var o := PlaceEach(apps, rest, seen, ordered).1;
            Sorted(apps, ordered) && !HasCycle(GraphOf(apps)) ==> Sorted(apps, o)
    decreases |rest|
  {
    if rest != [] {
      assert rest[0] in rest && forall a <- rest[1..] :: a in rest;
      assert [] + [rest[0].key] == [rest[0].key];
      PlaceConsistent(apps, rest[0], seen, ordered, []);
      if Sorted(apps, ordered) && !HasCycle(GraphOf(apps)) {
        PlaceSorted(apps, rest[0], seen, ordered, []);
      }
      var (s, o) := Place(apps, rest[0], seen, ordered);
      PlaceEachConsistent(apps, rest[1..], s, o);
      assert forall a <- rest :: a == rest[0] || a in rest[1..];
    }
  }

  lemma OrderConsistent(apps: seq<App>)
    requires UniqueKeys(apps)
    ensures var m := AppsByKey(apps);
            && Consistent(m, m.Keys, AppOrder(apps), [])
            && (!HasCycle(GraphOf(m)) ==> Sorted(m, AppOrder(apps)))
  {
    var m := AppsByKey(apps);
    forall a <- apps
      ensures a.key in m && m[a.key] == a
    {
      var i :| 0 <= i < |apps| && apps[i] == a;
      KeyNamesApp(apps, i);
    }
    PlaceEachConsistent(m, apps, {}, []);
    var (s, o) := PlaceEach(m, apps, {}, []);
    assert Keys(o) <= m.Keys;
  }

  lemma {:induction false} OnceEach(apps: seq<App>, a: App)
    requires UniqueKeys(apps)
    ensures multiset(apps)[a] == if a in apps then 1 else 0
    decreases |apps|
  {
    if apps != [] {
      OnceEach(apps[1..], a);
      assert apps == [apps[0]] + apps[1..];
    }
  }

  /** The order is a permutation of the apps, whatever they depend on. */
  lemma OrderIsPermutation(apps: seq<App>)
    requires UniqueKeys(apps)
    ensures multiset(AppOrder(apps)) == multiset(apps)
  {
    OrderConsistent(apps);
    var m := AppsByKey(apps);
    var o := AppOrder(apps);
    forall a: App
      ensures multiset(o)[a] == multiset(apps)[a]
    {
      OnceEach(o, a);
      OnceEach(apps, a);
      if a in apps {
        var i :| 0 <= i < |apps| && apps[i] == a;
        KeyNamesApp(apps, i);
        assert a.key in Keys(o);
        var b :| b in o && b.key == a.key;
      }
    }
  }

  lemma KeyIsListed(apps: seq<App>, k: string)
    requires k in Keys(apps)
    ensures k in KeySeq(apps)
  {
  }

  /** It puts every app after all it needs exactly when no app needs itself. */
  lemma OrderIsTopologicalExactly(apps: seq<App>)
    requires UniqueKeys(apps)
    ensures Sorted(AppsByKey(apps), AppOrder(apps)) <==> !HasCycle(GraphOf(AppsByKey(apps)))
  {
    OrderConsistent(apps);
    var m := AppsByKey(apps);
    var o := AppOrder(apps);
    if Sorted(m, o) {
      forall k <- m
        ensures k in KeySeq(o)
      {
        KeyIsListed(o, k);
      }
      DependenciesFirstIsAcyclic(GraphOf(m), KeySeq(o));
    }
  }

  /** So in an acyclic definition each app comes after everything it needs, directly or not. */
  lemma OrderRespectsTransitiveNeeds(apps: seq<App>, i: nat, j: nat)
    requires UniqueKeys(apps) && !HasCycle(GraphOf(AppsByKey(apps)))
    requires i < |AppOrder(apps)| && j < |AppOrder(apps)|
    requires Reaches(GraphOf(AppsByKey(apps)), AppOrder(apps)[i].key, AppOrder(apps)[j].key)
    ensures j < i
  {
    OrderConsistent(apps);
    var o := AppOrder(apps);
    assert o[j] in o;
    RankInOrder(o, i);
    RankInOrder(o, j);
    NeedsComeFirst(GraphOf(AppsByKey(apps)), KeySeq(o), o[i].key, o[j].key);
  }

  lemma RankInOrder(ordered: seq<App>, i: nat)
    requires UniqueKeys(ordered) && i < |ordered|
    ensures ordered[i].key in KeySeq(ordered) && Rank(KeySeq(ordered), ordered[i].key) == i
  {
  }

  // By turns

  /** A known app that one of these is, or needs, directly or not. */
  ghost predicate Needed(apps: map<string, App>, ids: seq<string>, k: string) {
    k in apps && exists id <- ids :: NeededBy(apps, id, k)
  }

  ghost predicate NeededBy(apps: map<string, App>, id: string, k: string) {
    id in apps && (id == k || Reaches(GraphOf(apps), id, k))
  }

  lemma EdgeReaches(g: Graph, a: string, b: string)
    requires Edge(g, a, b)
    ensures Reaches(g, a, b)
  {
    var p := [a, b];
    assert Step(g, p, 0);
    assert IsPath(g, p) && p[0] == a && p[|p| - 1] == b;
  }

  lemma EdgeThenReaches(g: Graph, a: string, b: string, c: string)
    requires Edge(g, a, b) && Reaches(g, b, c)
    ensures Reaches(g, a, c)
  {
    var p :| 2 <= |p| && IsPath(g, p) && p[0] == b && p[|p| - 1] == c;
    var q := [a] + p;
    forall i | 0 <= i < |q| - 1
      ensures Step(g, q, i)
    {
      if i > 0 {
        assert Step(g, p, i - 1);
      }
    }
    assert IsPath(g, q) && q[0] == a && q[|q| - 1] == c;
  }

  lemma NeedIsNeeded(apps: map<string, App>, app: App, k: string)
    requires app.key in apps && apps[app.key] == app && Needed(apps, app.dependsOn, k)
    ensures NeededBy(apps, app.key, k)
  {
    var id :| id in app.dependsOn && NeededBy(apps, id, k);
    assert Edge(GraphOf(apps), app.key, id);
    if id == k {
      EdgeReaches(GraphOf(apps), app.key, id);
    } else {
      EdgeThenReaches(GraphOf(apps), app.key, id, k);
    }
  }

  /** Placing emits nothing that is not needed. */
  lemma {:induction false} PlaceOnlyNeeded(apps: map<string, App>, app: App, seen: set<string>, ordered: seq<App>)
    requires Keyed(apps) && app.key in apps && apps[app.key] == app
    ensures forall a <- Place(apps, app, seen, ordered).1 :: a in ordered || NeededBy(apps, app.key, a.key)
    decreases |apps.Keys - seen|, 1, 0
  {
    if app.key !in seen {
      SmallerSet(apps.Keys - (seen + {app.key}), apps.Keys - seen);
      assert app.key in apps.Keys - seen && app.key !in apps.Keys - (seen + {app.key});
      PlaceAllOnlyNeeded(apps, app.dependsOn, seen + {app.key}, ordered);
      forall a <- PlaceAll(apps, app.dependsOn, seen + {app.key}, ordered).1
        ensures a in ordered || NeededBy(apps, app.key, a.key)
      {
        if a !in ordered {
          NeedIsNeeded(apps, app, a.key);
        }
      }
    }
  }

  lemma {:induction false} PlaceAllOnlyNeeded(apps: map<string, App>, ids: seq<string>, seen: set<string>, ordered: seq<App>)
    requires Keyed(apps)
    ensures forall a <- PlaceAll(apps, ids, seen, ordered).1 :: a in ordered || Needed(apps, ids, a.key)
    decreases |apps.Keys - seen|, 2, |ids|
  {
    if ids != [] {
      var (s, o) := if ids[0] in apps then Place(apps, apps[ids[0]], seen, ordered) else (seen, ordered);
      if ids[0] in apps {
        PlaceOnlyNeeded(apps, apps[ids[0]], seen, ordered);
      }
      SmallerSet(apps.Keys - s, apps.Keys - seen);
      PlaceAllOnlyNeeded(apps, ids[1..], s, o);
      forall a <- PlaceAll(apps, ids[1..], s, o).1
        ensures a in ordered || Needed(apps, ids, a.key)
      {
        if a !in o {
          var id :| id in ids[1..] && NeededBy(apps, id, a.key);
          assert id in ids;
        } else if a !in ordered {
          assert ids[0] in ids && NeededBy(apps, ids[0], a.key);
          ReachedIsKnown(apps, ids[0], a.key, Place(apps, apps[ids[0]], seen, ordered).1, a, seen, ordered);
        }
      }
    }
  }

  /** What is emitted is known. */
  lemma ReachedIsKnown(apps: map<string, App>, id: string, k: string, o: seq<App>, a: App, seen: set<string>, ordered: seq<App>)
    requires Keyed(apps) && id in apps && o == Place(apps, apps[id], seen, ordered).1 && a in o && a !in ordered && a.key == k
    ensures k in apps
  {
    PlaceKnown(apps, apps[id], seen, ordered);
  }

  lemma {:induction false} PlaceKnown(apps: map<string, App>, app: App, seen: set<string>, ordered: seq<App>)
    requires Keyed(apps) && app.key in apps && apps[app.key] == app
    ensures ordered <= Place(apps, app, seen, ordered).1
    ensures forall a <- Place(apps, app, seen, ordered).1 :: a in ordered || a.key in apps
    decreases |apps.Keys - seen|, 1, 0
  {
    if app.key !in seen {
      SmallerSet(apps.Keys - (seen + {app.key}), apps.Keys - seen);
      assert app.key in apps.Keys - seen && app.key !in apps.Keys - (seen + {app.key});
      PlaceAllKnown(apps, app.dependsOn, seen + {app.key}, ordered);
    }
  }

  lemma {:induction false} PlaceAllKnown(apps: map<string, App>, ids: seq<string>, seen: set<string>, ordered: seq<App>)
    requires Keyed(apps)
    ensures ordered <= PlaceAll(apps, ids, seen, ordered).1
    ensures forall a <- PlaceAll(apps, ids, seen, ordered).1 :: a in ordered || a.key in apps
    decreases |apps.Keys - seen|, 2, |ids|
  {
    if ids != [] {
      var (s, o) := if ids[0] in apps then Place(apps, apps[ids[0]], seen, ordered) else (seen, ordered);
      if ids[0] in apps {
        PlaceKnown(apps, apps[ids[0]], seen, ordered);
      }
      SmallerSet(apps.Keys - s, apps.Keys - seen);
      PlaceAllKnown(apps, ids[1..], s, o);
    }
  }

  lemma {:induction false} PlaceAllSplit(apps: map<string, App>, ids: seq<string>, k: nat, seen: set<string>, ordered: seq<App>)
    requires Keyed(apps) && k <= |ids|
    ensures var (s, o) := PlaceAll(apps, ids[..k], seen, ordered);
            PlaceAll(apps, ids, seen, ordered) == PlaceAll(apps, ids[k..], s, o)
    decreases |ids|
  {
    if k == 0 {
      assert ids[..0] == [] && ids[0..] == ids;
    } else {
      var (s, o) := if ids[0] in apps then Place(apps, apps[ids[0]], seen, ordered) else (seen, ordered);
      PlaceAllSplit(apps, ids[1..], k - 1, s, o);
      assert ids[..k][1..] == ids[1..][..k - 1] && ids[..k][0] == ids[0] && ids[1..][k - 1..] == ids[k..];
    }
  }

  lemma {:induction false} PlaceEachSplit(apps: map<string, App>, rest: seq<App>, k: nat, seen: set<string>, ordered: seq<App>)
    requires Keyed(apps) && (forall a <- rest :: a.key in apps) && k <= |rest|
    ensures (forall a <- rest[..k] :: a.key in apps) && (forall a <- rest[k..] :: a.key in apps)
    ensures var (s, o) := PlaceEach(apps, rest[..k], seen, ordered);
            PlaceEach(apps, rest, seen, ordered) == PlaceEach(apps, rest[k..], s, o)
    decreases |rest|
  {
    assert forall a <- rest[..k] :: a in rest;
    assert forall a <- rest[k..] :: a in rest;
    if k == 0 {
      assert rest[..0] == [] && rest[0..] == rest;
    } else {
      assert rest[0] in rest && forall a <- rest[1..] :: a in rest;
      var (s, o) := Place(apps, rest[0], seen, ordered);
      PlaceEachSplit(apps, rest[1..], k - 1, s, o);
      assert rest[..k][1..] == rest[1..][..k - 1] && rest[..k][0] == rest[0] && rest[1..][k - 1..] == rest[k..];
    }
  }

  lemma {:induction false} PlaceEachGrows(apps: map<string, App>, rest: seq<App>, seen: set<string>, ordered: seq<App>)
    requires Keyed(apps) && forall a <- rest :: a.key in apps && apps[a.key] == a
    ensures ordered <= PlaceEach(apps, rest, seen, ordered).1
    ensures forall a <- PlaceEach(apps, rest, seen, ordered).1 :: a in ordered || Needed(apps, KeySeq(rest), a.key)
    decreases |rest|
  {
    if rest != [] {
      assert rest[0] in rest && forall a <- rest[1..] :: a in rest;
      var (s, o) := Place(apps, rest[0], seen, ordered);
      PlaceKnown(apps, rest[0], seen, ordered);
      PlaceOnlyNeeded(apps, rest[0], seen, ordered);
      PlaceEachGrows(apps, rest[1..], s, o);
      var keys := KeySeq(rest);
      assert keys[0] in keys && keys[1..] == KeySeq(rest[1..]);
      forall a <- PlaceEach(apps, rest[1..], s, o).1
        ensures a in ordered || Needed(apps, keys, a.key)
      {
        if a !in o {
          var id :| id in keys[1..] && NeededBy(apps, id, a.key);
          assert id in keys;
        }
      }
    }
  }

  /** What an emitted app needs is emitted. */
  lemma EmittedIsClosed(apps: map<string, App>, ordered: seq<App>, ids: seq<string>, k: string)
    requires Sorted(apps, ordered) && Needed(apps, ids, k) && Emitted(apps, ids, ordered)
    ensures k in Keys(ordered)
  {
    var id :| id in ids && NeededBy(apps, id, k);
    KeyIsListed(ordered, id);
    if id != k {
      NeedsComeFirst(GraphOf(apps), KeySeq(ordered), id, k);
      var i :| 0 <= i < |ordered| && KeySeq(ordered)[i] == k;
      assert ordered[i] in ordered;
    }
  }

  lemma AppsAreThemselves(apps: seq<App>)
    requires UniqueKeys(apps)
    ensures forall a <- apps :: a.key in AppsByKey(apps) && AppsByKey(apps)[a.key] == a
  {
    forall a <- apps
      ensures a.key in AppsByKey(apps) && AppsByKey(apps)[a.key] == a
    {
      var i :| 0 <= i < |apps| && apps[i] == a;
      KeyNamesApp(apps, i);
    }
  }

  /** What the first apps of a definition have emitted. */
  function FirstEmitted(apps: seq<App>, r: nat): seq<App>
    requires UniqueKeys(apps) && r <= |apps|
  {
    AppsAreThemselves(apps);
    assert forall a <- apps[..r] :: a in apps;
    PlaceEach(AppsByKey(apps), apps[..r], {}, []).1
  }

  lemma FirstAppsGo(apps: seq<App>, r: nat)
    requires UniqueKeys(apps) && r <= |apps|
    ensures FirstEmitted(apps, r) <= AppOrder(apps)
  {
    var m := AppsByKey(apps);
    AppsAreThemselves(apps);
    assert forall a <- apps[..r] :: a in apps;
    assert forall a <- apps[r..] :: a in apps;
    PlaceEachSplit(m, apps, r, {}, []);
    var (s, o) := PlaceEach(m, apps[..r], {}, []);
    PlaceEachGrows(m, apps[r..], s, o);
  }

  lemma FirstAppsSound(apps: seq<App>, r: nat)
    requires UniqueKeys(apps) && !HasCycle(GraphOf(AppsByKey(apps))) && r <= |apps|
    ensures var m := AppsByKey(apps);
            && (forall a <- apps[..r] :: a.key in m)
            && Consistent(m, PlaceEach(m, apps[..r], {}, []).0, FirstEmitted(apps, r), [])
            && Sorted(m, FirstEmitted(apps, r))
            && Keys(apps[..r]) <= Keys(FirstEmitted(apps, r))
  {
    AppsAreThemselves(apps);
    assert forall a <- apps[..r] :: a in apps;
    PlaceEachConsistent(AppsByKey(apps), apps[..r], {}, []);
  }

  /** After its first apps a definition has emitted them and all they need, and nothing else. */
  lemma FirstAppsEmit(apps: seq<App>, r: nat, k: string)
    requires UniqueKeys(apps) && !HasCycle(GraphOf(AppsByKey(apps))) && r <= |apps|
    ensures k in Keys(FirstEmitted(apps, r)) <==> Needed(AppsByKey(apps), KeySeq(apps[..r]), k)
  {
    if k in Keys(FirstEmitted(apps, r)) {
      FirstAppsOnly(apps, r, k);
    }
    if Needed(AppsByKey(apps), KeySeq(apps[..r]), k) {
      FirstAppsSound(apps, r);
      AllAreEmitted(AppsByKey(apps), apps[..r], FirstEmitted(apps, r), k);
    }
  }

  lemma AllAreEmitted(apps: map<string, App>, first: seq<App>, ordered: seq<App>, k: string)
    requires Sorted(apps, ordered) && Keys(first) <= Keys(ordered) && Needed(apps, KeySeq(first), k)
    ensures k in Keys(ordered)
  {
    var keys := KeySeq(first);
    forall b <- keys
      ensures b in Keys(ordered)
    {
      var i :| 0 <= i < |keys| && keys[i] == b;
      assert first[i] in first;
    }
    EmittedIsClosed(apps, ordered, keys, k);
  }

  lemma FirstAppsOnly(apps: seq<App>, r: nat, k: string)
    requires UniqueKeys(apps) && r <= |apps| && k in Keys(FirstEmitted(apps, r))
    ensures Needed(AppsByKey(apps), KeySeq(apps[..r]), k)
  {
    AppsAreThemselves(apps);
    assert forall a <- apps[..r] :: a in apps;
    PlaceEachGrows(AppsByKey(apps), apps[..r], {}, []);
  }

  /** Apps are served in the order of the definition: whatever the first apps are or need comes before
      everything else. */
  lemma FirstComeFirstServed(apps: seq<App>, r: nat, i: nat, j: nat)
    requires UniqueKeys(apps) && !HasCycle(GraphOf(AppsByKey(apps))) && r <= |apps|
    requires i < |AppOrder(apps)| && j < |AppOrder(apps)|
    requires Needed(AppsByKey(apps), KeySeq(apps[..r]), AppOrder(apps)[i].key)
    requires !Needed(AppsByKey(apps), KeySeq(apps[..r]), AppOrder(apps)[j].key)
    ensures i < j
  {
    FirstAppsEmit(apps, r, AppOrder(apps)[i].key);
    FirstAppsEmit(apps, r, AppOrder(apps)[j].key);
    FirstAppsGo(apps, r);
    OrderConsistent(apps);
    PrefixFirst(AppOrder(apps), FirstEmitted(apps, r), i, j);
  }

  lemma PrefixFirst(ordered: seq<App>, prefix: seq<App>, i: nat, j: nat)
    requires UniqueKeys(ordered) && prefix <= ordered && i < |ordered| && j < |ordered|
    requires ordered[i].key in Keys(prefix) && ordered[j].key !in Keys(prefix)
    ensures i < j
  {
    var a :| a in prefix && a.key == ordered[i].key;
    var h :| 0 <= h < |prefix| && prefix[h] == a;
    assert ordered[h].key == ordered[i].key;
    assert h == i;
    assert forall g | 0 <= g < |prefix| :: prefix[g] in prefix && ordered[g].key in Keys(prefix);
  }

  /** And within an app whose turn it is, so are its dependencies: whatever the first of them are or need
      comes before the rest of what it needs. */
  lemma DependenciesByTurns(apps: seq<App>, r: nat, k: nat, i: nat, j: nat)
    requires UniqueKeys(apps) && !HasCycle(GraphOf(AppsByKey(apps))) && r < |apps| && k <= |apps[r].dependsOn|
    requires i < |AppOrder(apps)| && j < |AppOrder(apps)|
    requires !Needed(AppsByKey(apps), KeySeq(apps[..r]), apps[r].key)
    requires Needed(AppsByKey(apps), apps[r].dependsOn[..k], AppOrder(apps)[i].key)
    requires !Needed(AppsByKey(apps), apps[r].dependsOn[..k], AppOrder(apps)[j].key)
    requires !Needed(AppsByKey(apps), KeySeq(apps[..r]), AppOrder(apps)[j].key)
    ensures i < j
  {
    var m := AppsByKey(apps);
    AppsAreThemselves(apps);
    var app := apps[r];
    assert app in apps;
    FirstAppsEmit(apps, r, app.key);
    FirstAppsEmit(apps, r, AppOrder(apps)[j].key);
    FirstAppsSound(apps, r);
    var (s, o) := PlaceEach(m, apps[..r], {}, []);
    FirstNeedsEmit(m, app, k, s, o);
    var q := PlaceAll(m, app.dependsOn[..k], s + {app.key}, o).1;
    TurnIsPrefix(apps, r, k);
    EmittedIsClosed(m, q, app.dependsOn[..k], AppOrder(apps)[i].key);
    forall a <- q
      ensures a.key != AppOrder(apps)[j].key
    {
      assert a in o || Needed(m, app.dependsOn[..k], a.key);
    }
    OrderConsistent(apps);
    PrefixFirst(AppOrder(apps), q, i, j);
  }

  lemma FirstNeedsEmit(apps: map<string, App>, app: App, k: nat, seen: set<string>, ordered: seq<App>)
    requires Keyed(apps) && app.key in apps && apps[app.key] == app && k <= |app.dependsOn|
    requires Consistent(apps, seen, ordered, []) && Sorted(apps, ordered) && !HasCycle(GraphOf(apps)) && app.key !in Keys(ordered)
    ensures var q := PlaceAll(apps, app.dependsOn[..k], seen + {app.key}, ordered).1;
            && Sorted(apps, q) && Emitted(apps, app.dependsOn[..k], q)
            && forall a <- q :: a in ordered || Needed(apps, app.dependsOn[..k], a.key)
  {
    var ids := app.dependsOn[..k];
    assert Needs(GraphOf(apps), app.key) == app.dependsOn;
    assert forall b <- ids :: b in app.dependsOn;
    assert Elements([app.key]) == {app.key} && Elements([]) == {};
    assert Consistent(apps, seen + {app.key}, ordered, [app.key]);
    PlaceAllSorted(apps, ids, seen + {app.key}, ordered, [app.key]);
    PlaceAllOnlyNeeded(apps, ids, seen + {app.key}, ordered);
  }

  lemma TurnIsPrefix(apps: seq<App>, r: nat, k: nat)
    requires UniqueKeys(apps) && r < |apps| && k <= |apps[r].dependsOn|
    requires forall a <- apps[..r] :: a.key in AppsByKey(apps)
    requires apps[r].key !in PlaceEach(AppsByKey(apps), apps[..r], {}, []).0
    ensures var m := AppsByKey(apps);
            var (s, o) := PlaceEach(m, apps[..r], {}, []);
            PlaceAll(m, apps[r].dependsOn[..k], s + {apps[r].key}, o).1 <= AppOrder(apps)
  {
    var m := AppsByKey(apps);
    AppsAreThemselves(apps);
    var app := apps[r];
    assert forall a <- apps[r..] :: a in apps;
    assert forall a <- apps[r + 1..] :: a in apps;
    var (s, o) := PlaceEach(m, apps[..r], {}, []);
    PlaceEachSplit(m, apps, r, {}, []);
    assert apps[r..][0] == app && apps[r..][1..] == apps[r + 1..];
    var (s1, o1) := PlaceAll(m, app.dependsOn[..k], s + {app.key}, o);
    PlaceAllSplit(m, app.dependsOn, k, s + {app.key}, o);
    PlaceAllKnown(m, app.dependsOn[k..], s1, o1);
    var (s2, o2) := Place(m, app, s, o);
    assert o1 <= o2;
    PlaceEachGrows(m, apps[r + 1..], s2, o2);
  }

  // Stability

  lemma {:induction false} NothingToPlace(apps: map<string, App>, ids: seq<string>, seen: set<string>, ordered: seq<App>)
    requires Keyed(apps) && forall b <- ids :: b in apps ==> b in seen
    ensures PlaceAll(apps, ids, seen, ordered) == (seen, ordered)
    decreases |ids|
  {
    if ids != [] {
      assert ids[0] in ids && forall b <- ids[1..] :: b in ids;
      NothingToPlace(apps, ids[1..], seen, ordered);
    }
  }

  lemma KeysOfPrefix(apps: seq<App>, i: nat)
    requires i < |apps|
    ensures Keys(apps[..i + 1]) == Keys(apps[..i]) + {apps[i].key}
  {
  }

  lemma PlaceReady(apps: map<string, App>, app: App, seen: set<string>, ordered: seq<App>)
    requires Keyed(apps) && app.key in apps && app.key !in seen
    requires forall b <- app.dependsOn :: b in apps ==> b in seen
    ensures Place(apps, app, seen, ordered) == (seen + {app.key}, ordered + [app])
  {
    NothingToPlace(apps, app.dependsOn, seen + {app.key}, ordered);
  }

  /** What app i needs, of the known apps, is among the apps before it. */
  predicate Ready(apps: map<string, App>, list: seq<App>, i: nat)
    requires i < |list|
  {
    forall b <- list[i].dependsOn :: b in apps ==> b in Keys(list[..i])
  }

  lemma NeedsSeen(apps: seq<App>, i: nat)
    requires UniqueKeys(apps) && Sorted(AppsByKey(apps), apps) && i < |apps|
    ensures Ready(AppsByKey(apps), apps, i)
  {
    var g := GraphOf(AppsByKey(apps));
    KeyNamesApp(apps, i);
    assert NeedsListed(g, KeySeq(apps), i);
    forall b <- apps[i].dependsOn | b in AppsByKey(apps)
      ensures b in Keys(apps[..i])
    {
      assert b in Needs(g, apps[i].key) && b in g;
      var j :| 0 <= j < i && KeySeq(apps)[..i][j] == b;
      assert apps[..i][j].key == b && apps[..i][j] in apps[..i];
    }
  }

  lemma KeyIsNew(apps: seq<App>, i: nat)
    requires UniqueKeys(apps) && i < |apps|
    ensures apps[i].key !in Keys(apps[..i])
  {
  }

  lemma {:induction false} ReadyStays(apps: map<string, App>, list: seq<App>, i: nat)
    requires Keyed(apps) && UniqueKeys(list) && (forall a <- list :: a.key in apps) && i <= |list|
    requires forall j | 0 <= j < |list| :: Ready(apps, list, j)
    ensures PlaceEach(apps, list[i..], Keys(list[..i]), list[..i]).1 == list
    decreases |list| - i
  {
    if i == |list| {
      assert list[i..] == [] && list[..i] == list;
    } else {
      assert Ready(apps, list, i);
      KeyIsNew(list, i);
      ReadyStays(apps, list, i + 1);
      PlaceEachReady(apps, list, i);
    }
  }

  lemma PlaceEachReady(apps: map<string, App>, list: seq<App>, i: nat)
    requires Keyed(apps) && i < |list| && (forall a <- list :: a.key in apps) && list[i].key !in Keys(list[..i])
    requires Ready(apps, list, i)
    ensures PlaceEach(apps, list[i..], Keys(list[..i]), list[..i]) == PlaceEach(apps, list[i + 1..], Keys(list[..i + 1]), list[..i + 1])
  {
    PlaceReady(apps, list[i], Keys(list[..i]), list[..i]);
    KeysOfPrefix(list, i);
    assert list[..i + 1] == list[..i] + [list[i]];
    assert list[i..][0] == list[i] && list[i..][1..] == list[i + 1..];
  }

  /** A definition that lists dependencies first already is left as it is. */
  lemma OrderIsStable(apps: seq<App>)
    requires UniqueKeys(apps) && Sorted(AppsByKey(apps), apps)
    ensures AppOrder(apps) == apps
  {
    var m := AppsByKey(apps);
    forall i | 0 <= i < |apps|
      ensures Ready(m, apps, i)
    {
      NeedsSeen(apps, i);
    }
    ReadyStays(m, apps, 0);
    assert apps[0..] == apps && apps[..0] == [] && Keys([]) == {};
  }

  /** Ordering twice is ordering once. */
  lemma OrderIsIdempotent(apps: seq<App>)
    requires UniqueKeys(apps) && !HasCycle(GraphOf(AppsByKey(apps)))
    ensures AppOrder(AppOrder(apps)) == AppOrder(apps)
  {
    OrderConsistent(apps);
    SameApps(apps, AppOrder(apps));
    OrderIsStable(AppOrder(apps));
  }

  lemma SameApps(apps: seq<App>, ordered: seq<App>)
    requires Consistent(AppsByKey(apps), AppsByKey(apps).Keys, ordered, [])
    ensures AppsByKey(ordered) == AppsByKey(apps)
  {
  }

  // ---------------------------------------------------------------------------------------------
  // The ordering as written
  // ---------------------------------------------------------------------------------------------

  class AppOrdering {
    const definition: seq<App>
    const apps: map<string, App>
    var ordered: seq<App>
    var seen: set<string>

    constructor (definition: seq<App>)
      ensures this.definition == definition && apps == AppsByKey(definition) && ordered == [] && seen == {}
    {
      this.definition, apps := definition, AppsByKey(definition);
      ordered, seen := [], {};
    }

    method VisitApp(app: App)
      requires Keyed(apps) && app.key in apps
      modifies this
      ensures (seen, ordered) == Place(apps, app, old(seen), old(ordered))
      decreases |apps.Keys - seen|
    {
      if app.key in seen {
        return;
      }
      SmallerSet(apps.Keys - (seen + {app.key}), apps.Keys - seen);
      assert app.key in apps.Keys - seen && app.key !in apps.Keys - (seen + {app.key});
      seen := seen + {app.key};
      var ids := app.dependsOn;
      ghost var total := PlaceAll(apps, ids, seen, ordered);
      assert ids[0..] == ids;
      for i := 0 to |ids|
        invariant old(seen) + {app.key} <= seen
        invariant PlaceAll(apps, ids[i..], seen, ordered) == total
      {
        assert ids[i..][0] == ids[i] && ids[i..][1..] == ids[i + 1..];
        if ids[i] in apps {
          SmallerSet(apps.Keys - seen, apps.Keys - (old(seen) + {app.key}));
          VisitApp(apps[ids[i]]);
        }
      }
      ordered := ordered + [app];
    }

    method Order() returns (result: seq<App>)
      requires apps == AppsByKey(definition) && ordered == [] && seen == {}
      modifies this
      ensures result == AppOrder(definition)
      ensures UniqueKeys(definition) ==> multiset(result) == multiset(definition)
    {
      assert definition[0..] == definition;
      for i := 0 to |definition|
        invariant PlaceEach(apps, definition[i..], seen, ordered).1 == AppOrder(definition)
      {
        assert definition[i..][0] == definition[i] && definition[i..][1..] == definition[i + 1..];
        VisitApp(definition[i]);
      }
      result := ordered;
      if UniqueKeys(definition) {
        OrderIsPermutation(definition);
      }
    }
  }
}
