/** The refinement step of the platform definition schema: it collects issues, and a definition is
    accepted when there are none. */
module AppPlatformValidation {
  import opened Basics
  import opened DependencyGraph
  import opened AppPlatform

  datatype Resource = Resource(app: string, resource: string)
  datatype Binding = Binding(from: Resource, to: Resource)
  datatype Definition = Definition(apps: seq<App>, bindings: seq<Binding>, home: string, navigation: seq<string>)

  datatype Issue =
    | DuplicateKey | DuplicateTarget | HomeNotRequired | HomeDisabled | HomeNotInNavigation
    | DuplicateNavigation | UnknownNavigation | DuplicateDependency | UnknownDependency
    | DependsOnDisabled | DependsOnOptional | DependencyCycle
    | UnknownBindingApp | SelfBinding | BindingWithoutDependency | MultipleProviders

  // ---------------------------------------------------------------------------------------------
  // What is accepted
  // ---------------------------------------------------------------------------------------------

  predicate DependencyOk(apps: map<string, App>, app: App, dependency: string) {
    && dependency in apps
    && (app.enabled ==> apps[dependency].enabled)
    && (app.required ==> apps[dependency].required)
  }

  ghost predicate AppOk(apps: map<string, App>, app: App) {
    NoDuplicates(app.dependsOn) && forall b <- app.dependsOn :: DependencyOk(apps, app, b)
  }

  predicate BindingOk(apps: map<string, App>, b: Binding) {
    && b.from.app in apps && b.to.app in apps
    && b.from.app != b.to.app
    && b.from.app in apps[b.to.app].dependsOn
  }

  function Refs(apps: seq<App>): seq<AppRef> {
    seq(|apps|, i requires 0 <= i < |apps| => apps[i].appRef)
  }

  function Consumers(bindings: seq<Binding>): seq<Resource> {
    seq(|bindings|, i requires 0 <= i < |bindings| => bindings[i].to)
  }

  ghost predicate NavigationOk(d: Definition) {
    && d.home in d.navigation
    && NoDuplicates(d.navigation)
    && forall k <- d.navigation :: k in AppsByKey(d.apps)
  }

  ghost predicate Accepted(d: Definition) {
    var apps := AppsByKey(d.apps);
    && UniqueKeys(d.apps)
    && NoDuplicates(Refs(d.apps))
    && d.home in apps && apps[d.home].required && apps[d.home].enabled
    && NavigationOk(d)
    && (forall a <- d.apps :: AppOk(apps, a))
    && !HasCycle(GraphOf(apps))
    && (forall b <- d.bindings :: BindingOk(apps, b))
    && NoDuplicates(Consumers(d.bindings))
  }

  // ---------------------------------------------------------------------------------------------
  // Consequences for a whole definition
  // ---------------------------------------------------------------------------------------------

  ghost predicate LocalChecks(apps: map<string, App>) {
    forall k, b | k in apps && b in apps[k].dependsOn :: DependencyOk(apps, apps[k], b)
  }

  lemma AcceptedChecks(d: Definition)
    requires Accepted(d)
    ensures LocalChecks(AppsByKey(d.apps))
  {
  }

  lemma {:induction false} ClosureAlong(apps: map<string, App>, p: seq<string>, i: nat)
    requires LocalChecks(apps) && IsPath(GraphOf(apps), p) && p[0] in apps && i < |p|
    ensures p[i] in apps
    ensures (apps[p[0]].required ==> apps[p[i]].required) && (apps[p[0]].enabled ==> apps[p[i]].enabled)
    decreases i
  {
    if i != 0 {
      ClosureAlong(apps, p, i - 1);
      assert Step(GraphOf(apps), p, i - 1);
      assert DependencyOk(apps, apps[p[i - 1]], p[i]);
    }
  }

  /** The local checks close up: whatever an app needs, directly or not, is there, is required if the
      app is, and is enabled if the app is. For home, which is both, so is all it needs. */
  lemma ClosureFromLocalChecks(d: Definition)
    requires Accepted(d)
    ensures var apps := AppsByKey(d.apps);
            forall a, b | a in apps && Reaches(GraphOf(apps), a, b) ::
              && b in apps
              && (apps[a].required || a == d.home ==> apps[b].required)
              && (apps[a].enabled || a == d.home ==> apps[b].enabled)
  {
    AcceptedChecks(d);
    var apps := AppsByKey(d.apps);
    forall a, b | a in apps && Reaches(GraphOf(apps), a, b)
      ensures b in apps && (apps[a].required ==> apps[b].required) && (apps[a].enabled ==> apps[b].enabled)
    {
      ClosureReaches(apps, a, b);
    }
  }

  lemma ClosureReaches(apps: map<string, App>, a: string, b: string)
    requires LocalChecks(apps) && a in apps && Reaches(GraphOf(apps), a, b)
    ensures b in apps && (apps[a].required ==> apps[b].required) && (apps[a].enabled ==> apps[b].enabled)
  {
    var p :| 2 <= |p| && IsPath(GraphOf(apps), p) && p[0] == a && p[|p| - 1] == b;
    ClosureAlong(apps, p, |p| - 1);
  }

  /** Each consumer resource has one provider, and the app that provides it is set up before the app that
      consumes it. */
  lemma ProvidersComeFirst(d: Definition)
    requires Accepted(d)
    ensures forall i, j | 0 <= i < |d.bindings| && 0 <= j < |d.bindings| && d.bindings[i].to == d.bindings[j].to :: i == j
    ensures var keys := KeySeq(AppOrder(d.apps));
            forall b <- d.bindings ::
              b.from.app in keys && b.to.app in keys && Rank(keys, b.from.app) < Rank(keys, b.to.app)
  {
    forall i, j | 0 <= i < |d.bindings| && 0 <= j < |d.bindings| && d.bindings[i].to == d.bindings[j].to
      ensures i == j
    {
      assert Consumers(d.bindings)[i] == Consumers(d.bindings)[j];
    }
    forall b <- d.bindings
      ensures var keys := KeySeq(AppOrder(d.apps));
              b.from.app in keys && b.to.app in keys && Rank(keys, b.from.app) < Rank(keys, b.to.app)
    {
      assert BindingOk(AppsByKey(d.apps), b);
      BoundAppsInOrder(d.apps, b);
    }
  }

  lemma BoundAppsInOrder(apps: seq<App>, b: Binding)
    requires UniqueKeys(apps) && !HasCycle(GraphOf(AppsByKey(apps))) && BindingOk(AppsByKey(apps), b)
    ensures var keys := KeySeq(AppOrder(apps));
            b.from.app in keys && b.to.app in keys && Rank(keys, b.from.app) < Rank(keys, b.to.app)
  {
    OrderConsistent(apps);
    KeyIsListed(AppOrder(apps), b.to.app);
    StepDescends(GraphOf(AppsByKey(apps)), KeySeq(AppOrder(apps)), b.to.app, b.from.app);
  }

  // ---------------------------------------------------------------------------------------------
  // The checks as written
  // ---------------------------------------------------------------------------------------------

  predicate IsKey(s: string) {
    && 1 <= |s| <= 80
    && 'a' <= s[0] <= 'z'
    && forall c <- s :: 'a' <= c <= 'z' || '0' <= c <= '9' || c == '_' || c == '-'
  }

  function TargetName(r: Resource): string {
    r.app + ":" + r.resource
  }

  lemma ColonAt(r: Resource, k: nat)
    requires IsKey(r.app) && k <= |r.app|
    ensures TargetName(r)[k] == ':' <==> k == |r.app|
  {
    assert k < |r.app| ==> r.app[k] in r.app;
  }

  /** Keys hold no colon, so the joined name of a consumer resource is its own. */
  lemma TargetNameIsInjective(r: Resource, s: Resource)
    requires IsKey(r.app) && IsKey(s.app)
    ensures TargetName(r) == TargetName(s) <==> r == s
  {
    if TargetName(r) == TargetName(s) {
      var n := if |r.app| <= |s.app| then |r.app| else |s.app|;
      ColonAt(r, n);
      ColonAt(s, n);
      assert r.app == TargetName(r)[..n] && r.resource == TargetName(r)[n + 1..];
      assert s.app == TargetName(s)[..n] && s.resource == TargetName(s)[n + 1..];
    }
  }

  lemma Deepen(g: Graph, path: seq<string>, id: string)
    requires id in Names(g) && id !in path
    ensures Unvisited(g, path + [id]) < Unvisited(g, path) && Elements(Needs(g, id)) <= Names(g)
    ensures Elements(path + [id]) == Elements(path) + {id} && Elements(path) + {id} - {id} == Elements(path)
  {
    PathShrinks(g, path, id);
    NeedsAreNames(g, id);
  }

  lemma PushPath(path: seq<string>, id: string)
    ensures Elements(path + [id]) == Elements(path) + {id}
  {
  }

  lemma PopPath(path: seq<string>, id: string)
    requires id !in path
    ensures Elements(path + [id]) - {id} == Elements(path)
  {
  }

  lemma CyclesAdd(before: set<Issue>, found: bool, next: bool)
    ensures before + Cycles(found) + Cycles(next) == before + Cycles(found || next)
  {
  }

  lemma SearchStep(g: Graph, path: seq<string>, ids: seq<string>, i: nat, done: seq<string>)
    requires i < |ids| && Elements(ids) <= Names(g)
    ensures ids[i] in Names(g) && Elements(ids[i..]) <= Names(g) && Elements(ids[i + 1..]) <= Names(g)
    ensures var (first, cycle) := Visit(g, path, ids[i], done);
            var (rest, cycles) := VisitAll(g, path, ids[i + 1..], first);
            VisitAll(g, path, ids[i..], done) == (rest, cycle || cycles)
  {
    assert ids[i] in Elements(ids) && Elements(ids[i..]) <= Elements(ids) && Elements(ids[i + 1..]) <= Elements(ids);
    assert ids[i] == ids[i..][0] && ids[i..][1..] == ids[i + 1..];
  }

  // The issues of a definition, rule by rule

  function Raised(issues: seq<Issue>): set<Issue> {
    set k | k in issues
  }

  function Cycles(found: bool): set<Issue> {
    if found then {DependencyCycle} else {}
  }

  ghost function AppIssues(d: Definition): set<Issue> {
    (if forall i, j | 0 <= i < j < |d.apps| :: d.apps[i].key != d.apps[j].key then {} else {DuplicateKey})
    + if |set a <- d.apps :: a.appRef| == |set a <- d.apps :: a.key| then {} else {DuplicateTarget}
  }

  ghost function HomeIssues(apps: map<string, App>, d: Definition): set<Issue> {
    (if d.home in apps && apps[d.home].required then {} else {HomeNotRequired})
    + (if d.home in apps && apps[d.home].enabled then {} else {HomeDisabled})
    + NavigationIssues(apps, d)
  }

  ghost function NavigationIssues(apps: map<string, App>, d: Definition): set<Issue> {
    (if d.home in d.navigation then {} else {HomeNotInNavigation})
    + (if NoDuplicates(d.navigation) then {} else {DuplicateNavigation})
    + UnknownIssues(apps, d.navigation)
  }

  ghost function UnknownIssues(apps: map<string, App>, navigation: seq<string>): set<Issue> {
    if forall i | 0 <= i < |navigation| :: navigation[i] in apps then {} else {UnknownNavigation}
  }

  ghost function DependencyIssues(apps: map<string, App>, app: App): set<Issue> {
    (if NoDuplicates(app.dependsOn) then {} else {DuplicateDependency}) + NeedsIssues(apps, app, app.dependsOn)
  }

  ghost function NeedsIssues(apps: map<string, App>, app: App, needs: seq<string>): set<Issue> {
    (if forall i | 0 <= i < |needs| :: needs[i] in apps then {} else {UnknownDependency})
    + (if app.enabled && exists i | 0 <= i < |needs| :: !(needs[i] in apps && apps[needs[i]].enabled) then {DependsOnDisabled} else {})
    + if app.required && exists i | 0 <= i < |needs| :: !(needs[i] in apps && apps[needs[i]].required) then {DependsOnOptional} else {}
  }

  function NeedIssues(apps: map<string, App>, app: App, dependency: string): set<Issue> {
    (if dependency in apps then {} else {UnknownDependency})
    + (if app.enabled && !(dependency in apps && apps[dependency].enabled) then {DependsOnDisabled} else {})
    + if app.required && !(dependency in apps && apps[dependency].required) then {DependsOnOptional} else {}
  }

  ghost function AllDependencyIssues(apps: map<string, App>, list: seq<App>): set<Issue> {
    if list == [] then {}
    else AllDependencyIssues(apps, list[..|list| - 1]) + DependencyIssues(apps, list[|list| - 1])
  }

  ghost function BindingIssues(apps: map<string, App>, b: Binding): set<Issue> {
    (if b.from.app in apps && b.to.app in apps then {} else {UnknownBindingApp})
    + (if b.from.app == b.to.app then {SelfBinding} else {})
    + if b.to.app in apps && b.from.app in apps[b.to.app].dependsOn then {} else {BindingWithoutDependency}
  }

  ghost function AllBindingIssues(apps: map<string, App>, bindings: seq<Binding>): set<Issue> {
    (if NoDuplicates(Consumers(bindings)) then {} else {MultipleProviders}) + EachBindingIssues(apps, bindings)
  }

  ghost function EachBindingIssues(apps: map<string, App>, bindings: seq<Binding>): set<Issue> {
    if bindings == [] then {}
    else EachBindingIssues(apps, bindings[..|bindings| - 1]) + BindingIssues(apps, bindings[|bindings| - 1])
  }

  /** All issues of a definition: each is there exactly if its rule is broken. */
  ghost function Issues(d: Definition): set<Issue> {
    var apps := AppsByKey(d.apps);
    AppIssues(d) + HomeIssues(apps, d) + AllDependencyIssues(apps, d.apps) + Cycles(HasCycle(GraphOf(apps)))
    + AllBindingIssues(apps, d.bindings)
  }

  lemma {:induction false} DependencyIssuesOf(apps: map<string, App>, list: seq<App>, k: Issue)
    ensures k in AllDependencyIssues(apps, list) <==> exists a <- list :: k in DependencyIssues(apps, a)
  {
    if list != [] {
      DependencyIssuesOf(apps, list[..|list| - 1], k);
      assert list == list[..|list| - 1] + [list[|list| - 1]];
    }
  }

  lemma {:induction false} BindingIssuesOf(apps: map<string, App>, bindings: seq<Binding>, k: Issue)
    ensures k in EachBindingIssues(apps, bindings) <==> exists b <- bindings :: k in BindingIssues(apps, b)
  {
    if bindings != [] {
      BindingIssuesOf(apps, bindings[..|bindings| - 1], k);
      assert bindings == bindings[..|bindings| - 1] + [bindings[|bindings| - 1]];
    }
  }

  lemma AppIssuesAre(d: Definition)
    ensures AppIssues(d) == {} <==> UniqueKeys(d.apps) && NoDuplicates(Refs(d.apps))
  {
    var keys, refs := KeySeq(d.apps), Refs(d.apps);
    SetSize(keys);
    SetSize(refs);
    KeysAndRefs(d.apps);
    assert NoDuplicates(keys) <==> UniqueKeys(d.apps);
  }

  lemma KeysAndRefs(apps: seq<App>)
    ensures (set k | k in KeySeq(apps)) == set a <- apps :: a.key
    ensures (set r | r in Refs(apps)) == set a <- apps :: a.appRef
  {
    var keys, refs := KeySeq(apps), Refs(apps);
    forall i | 0 <= i < |apps|
      ensures apps[i].key in keys && apps[i].appRef in refs && apps[i] in apps
    {
      assert keys[i] == apps[i].key && refs[i] == apps[i].appRef;
    }
  }

  lemma AppIssuesBySize(d: Definition)
    ensures AppIssues(d)
         == (if |set k | k in KeySeq(d.apps)| == |KeySeq(d.apps)| then {} else {DuplicateKey})
            + if |set r | r in Refs(d.apps)| == |set k | k in KeySeq(d.apps)| then {} else {DuplicateTarget}
  {
    var keys := KeySeq(d.apps);
    SetSize(keys);
    KeysAndRefs(d.apps);
    assert NoDuplicates(keys) <==> forall i, j | 0 <= i < j < |d.apps| :: d.apps[i].key != d.apps[j].key;
  }

  lemma DependencyIssuesAre(apps: map<string, App>, app: App)
    ensures DependencyIssues(apps, app) == {} <==> AppOk(apps, app)
  {
    var needs := app.dependsOn;
    if AppOk(apps, app) {
      forall i | 0 <= i < |needs|
        ensures DependencyOk(apps, app, needs[i])
      {
        assert needs[i] in needs;
      }
    }
    if DependencyIssues(apps, app) == {} {
      assert DuplicateDependency !in DependencyIssues(apps, app);
      assert UnknownDependency !in NeedsIssues(apps, app, needs);
      assert DependsOnDisabled !in NeedsIssues(apps, app, needs);
      assert DependsOnOptional !in NeedsIssues(apps, app, needs);
    }
  }

  lemma BindingIssuesAre(apps: map<string, App>, b: Binding)
    ensures BindingIssues(apps, b) == {} <==> BindingOk(apps, b)
  {
    assert UnknownBindingApp in BindingIssues(apps, b) <==> !(b.from.app in apps && b.to.app in apps);
    assert SelfBinding in BindingIssues(apps, b) <==> b.from.app == b.to.app;
    assert BindingWithoutDependency in BindingIssues(apps, b) <==>
           !(b.to.app in apps && b.from.app in apps[b.to.app].dependsOn);
  }

  lemma NavigationIssuesAre(apps: map<string, App>, d: Definition)
    requires apps == AppsByKey(d.apps)
    ensures NavigationIssues(apps, d) == {} <==> NavigationOk(d)
  {
    assert (forall i | 0 <= i < |d.navigation| :: d.navigation[i] in apps) <==> forall k <- d.navigation :: k in apps;
    assert HomeNotInNavigation in NavigationIssues(apps, d) <==> d.home !in d.navigation;
    assert DuplicateNavigation in NavigationIssues(apps, d) <==> !NoDuplicates(d.navigation);
    assert UnknownNavigation in NavigationIssues(apps, d) <==> UnknownIssues(apps, d.navigation) != {};
  }

  lemma HomeIssuesAre(apps: map<string, App>, d: Definition)
    requires apps == AppsByKey(d.apps)
    ensures HomeIssues(apps, d) == {} <==> d.home in apps && apps[d.home].required && apps[d.home].enabled && NavigationOk(d)
  {
    NavigationIssuesAre(apps, d);
    assert HomeNotRequired in HomeIssues(apps, d) || (d.home in apps && apps[d.home].required);
    assert HomeDisabled in HomeIssues(apps, d) || (d.home in apps && apps[d.home].enabled);
    assert NavigationIssues(apps, d) <= HomeIssues(apps, d);
  }

  lemma AllDependencyIssuesAre(apps: map<string, App>, list: seq<App>)
    ensures AllDependencyIssues(apps, list) == {} <==> forall a <- list :: AppOk(apps, a)
  {
    if AllDependencyIssues(apps, list) == {} {
      forall a <- list
        ensures AppOk(apps, a)
      {
        if k :| k in DependencyIssues(apps, a) {
          DependencyIssuesOf(apps, list, k);
        }
        DependencyIssuesAre(apps, a);
      }
    }
    if k :| k in AllDependencyIssues(apps, list) {
      DependencyIssuesOf(apps, list, k);
      var a :| a in list && k in DependencyIssues(apps, a);
      DependencyIssuesAre(apps, a);
    }
  }

  lemma AllBindingIssuesAre(apps: map<string, App>, bindings: seq<Binding>)
    ensures AllBindingIssues(apps, bindings) == {} <==>
            (forall b <- bindings :: BindingOk(apps, b)) && NoDuplicates(Consumers(bindings))
  {
    assert EachBindingIssues(apps, bindings) <= AllBindingIssues(apps, bindings);
    assert !NoDuplicates(Consumers(bindings)) ==> MultipleProviders in AllBindingIssues(apps, bindings);
    if EachBindingIssues(apps, bindings) == {} {
      forall b <- bindings
        ensures BindingOk(apps, b)
      {
        if k :| k in BindingIssues(apps, b) {
          BindingIssuesOf(apps, bindings, k);
        }
        BindingIssuesAre(apps, b);
      }
    }
    if k :| k in EachBindingIssues(apps, bindings) {
      BindingIssuesOf(apps, bindings, k);
      var b :| b in bindings && k in BindingIssues(apps, b);
      BindingIssuesAre(apps, b);
    }
  }

  /** A definition has no issue exactly if it is accepted. */
  lemma NoIssuesIsAccepted(d: Definition)
    ensures Issues(d) == {} <==> Accepted(d)
  {
    var apps := AppsByKey(d.apps);
    AppIssuesAre(d);
    HomeIssuesAre(apps, d);
    AllDependencyIssuesAre(apps, d.apps);
    AllBindingIssuesAre(apps, d.bindings);
    assert AppIssues(d) <= Issues(d) && HomeIssues(apps, d) <= Issues(d) && AllDependencyIssues(apps, d.apps) <= Issues(d);
    assert Cycles(HasCycle(GraphOf(apps))) <= Issues(d) && AllBindingIssues(apps, d.bindings) <= Issues(d);
    assert HasCycle(GraphOf(apps)) <==> DependencyCycle in Cycles(HasCycle(GraphOf(apps)));
  }

  class DefinitionCheck {
    const definition: Definition
    const apps: map<string, App>
    var issues: seq<Issue>
    var active: set<string>
    var complete: set<string>
    ghost var path: seq<string>
    ghost var done: seq<string>

    constructor (definition: Definition)
      ensures this.definition == definition && apps == AppsByKey(definition.apps)
      ensures issues == [] && active == complete == {} && path == done == []
    {
      this.definition, apps := definition, AppsByKey(definition.apps);
      issues, active, complete, path, done := [], {}, {}, [], [];
    }

    method Fail(issue: Issue)
      modifies `issues
      ensures issues == old(issues) + [issue]
      ensures Raised(issues) == old(Raised(issues)) + {issue}
    {
      issues := issues + [issue];
    }

    ghost predicate Searching()
      reads this
    {
      active == Elements(path) && complete == Elements(done)
    }

    method VisitKey(id: string)
      requires Searching() && id in Names(GraphOf(apps))
      modifies this
      ensures Searching() && path == old(path)
      ensures done == Visit(GraphOf(apps), path, id, old(done)).0
      ensures Raised(issues) == old(Raised(issues)) + Cycles(Visit(GraphOf(apps), path, id, old(done)).1)
      decreases Unvisited(GraphOf(apps), path), 1, 1
    {
      if id in active {
        Fail(DependencyCycle);
        return;
      }
      if id in complete {
        return;
      }
      VisitNew(id);
    }

    method VisitNew(id: string)
      requires Searching() && id in Names(GraphOf(apps)) && id !in path && id !in done
      modifies this
      ensures Searching() && path == old(path)
      ensures Elements(Needs(GraphOf(apps), id)) <= Names(GraphOf(apps))
      ensures var (completed, cycle) := VisitAll(GraphOf(apps), path + [id], Needs(GraphOf(apps), id), old(done));
              done == completed + [id] && Raised(issues) == old(Raised(issues)) + Cycles(cycle)
      decreases Unvisited(GraphOf(apps), path), 1, 0
    {
      var graph := GraphOf(apps);
      ghost var above := path;
      Deepen(graph, path, id);
      active, path := active + {id}, path + [id];
      VisitKeys(Needs(graph, id));
      PopPath(above, id);
      PushPath(done, id);
      active, complete := active - {id}, complete + {id};
      path, done := above, done + [id];
    }

    method VisitKeys(ids: seq<string>)
      requires Searching() && Elements(ids) <= Names(GraphOf(apps))
      modifies this
      ensures Searching() && path == old(path)
      ensures done == VisitAll(GraphOf(apps), path, ids, old(done)).0
      ensures Raised(issues) == old(Raised(issues)) + Cycles(VisitAll(GraphOf(apps), path, ids, old(done)).1)
      decreases Unvisited(GraphOf(apps), path), 2
    {
      ghost var total := VisitAll(GraphOf(apps), path, ids, done);
      ghost var found := false;
      assert ids[0..] == ids;
      for i := 0 to |ids|
        invariant Searching() && path == old(path) && Elements(ids) <= Names(GraphOf(apps))
        invariant Elements(ids[i..]) <= Names(GraphOf(apps))
        invariant var (completed, cycle) := VisitAll(GraphOf(apps), path, ids[i..], done); total == (completed, found || cycle)
        invariant Raised(issues) == old(Raised(issues)) + Cycles(found)
      {
        SearchStep(GraphOf(apps), path, ids, i, done);
        ghost var next := Visit(GraphOf(apps), path, ids[i], done).1;
        VisitKey(ids[i]);
        CyclesAdd(old(Raised(issues)), found, next);
        found := found || next;
      }
    }

    // Each check raises exactly the issues of its rules.

    method CheckApps()
      modifies `issues
      ensures Raised(issues) == old(Raised(issues)) + AppIssues(definition)
    {
      var keys := KeySeq(definition.apps);
      var targets := Refs(definition.apps);
      AppIssuesBySize(definition);
      var distinct := set k | k in keys;
      if |distinct| != |keys| {
        Fail(DuplicateKey);
      }
      if |set t | t in targets| != |distinct| {
        Fail(DuplicateTarget);
      }
    }

    method CheckHome()
      modifies `issues
      ensures Raised(issues) == old(Raised(issues)) + HomeIssues(apps, definition)
    {
      var home := definition.home;
      if !(home in apps && apps[home].required) {
        Fail(HomeNotRequired);
      }
      if !(home in apps && apps[home].enabled) {
        Fail(HomeDisabled);
      }
      CheckNavigation();
    }

    method CheckNavigation()
      modifies `issues
      ensures Raised(issues) == old(Raised(issues)) + NavigationIssues(apps, definition)
    {
      var home, navigation := definition.home, definition.navigation;
      if home !in navigation {
        Fail(HomeNotInNavigation);
      }
      SetSize(navigation);
      if |set k | k in navigation| != |navigation| {
        Fail(DuplicateNavigation);
      }
      ghost var before := Raised(issues);
      for i := 0 to |navigation|
        invariant Raised(issues) == before + UnknownIssues(apps, navigation[..i])
      {
        assert navigation[..i + 1] == navigation[..i] + [navigation[i]];
        if navigation[i] !in apps {
          Fail(UnknownNavigation);
        }
      }
      assert navigation[..|navigation|] == navigation;
    }

    method CheckApp(app: App)
      modifies `issues
      ensures Raised(issues) == old(Raised(issues)) + DependencyIssues(apps, app)
    {
      var needs := app.dependsOn;
      SetSize(needs);
      if |set b | b in needs| != |needs| {
        Fail(DuplicateDependency);
      }
      ghost var before := Raised(issues);
      for i := 0 to |needs|
        invariant Raised(issues) == before + NeedsIssues(apps, app, needs[..i])
      {
        NeedsStep(apps, app, needs, i);
        CheckNeed(app, needs[i]);
      }
      assert needs[..|needs|] == needs;
    }

    method CheckNeed(app: App, dependency: string)
      modifies `issues
      ensures Raised(issues) == old(Raised(issues)) + NeedIssues(apps, app, dependency)
    {
      if dependency !in apps {
        Fail(UnknownDependency);
      }
      if app.enabled && !(dependency in apps && apps[dependency].enabled) {
        Fail(DependsOnDisabled);
      }
      if app.required && !(dependency in apps && apps[dependency].required) {
        Fail(DependsOnOptional);
      }
    }

    method CheckDependencies()
      modifies `issues
      ensures Raised(issues) == old(Raised(issues)) + AllDependencyIssues(apps, definition.apps)
    {
      var list := definition.apps;
      ghost var before := Raised(issues);
      for i := 0 to |list|
        invariant Raised(issues) == before + AllDependencyIssues(apps, list[..i])
      {
        assert list[..i + 1][..i] == list[..i];
        CheckApp(list[i]);
      }
      assert list[..|list|] == list;
    }

    /** The cycle check reports if and only if there is a cycle. */
    method CheckCycles()
      requires apps == AppsByKey(definition.apps) && active == complete == {} && path == done == []
      modifies this
      ensures Raised(issues) == old(Raised(issues)) + Cycles(HasCycle(GraphOf(apps)))
    {
      var keys := KeySeq(definition.apps);
      assert Elements(keys) == GraphOf(apps).Keys;
      CycleCheckIsExact(GraphOf(apps), keys);
      VisitKeys(keys);
    }

    method CheckBinding(binding: Binding, consumers: set<string>)
      modifies `issues
      ensures Raised(issues) == old(Raised(issues)) + BindingIssues(apps, binding)
                                + if TargetName(binding.to) in consumers then {MultipleProviders} else {}
    {
      if binding.from.app !in apps || binding.to.app !in apps {
        Fail(UnknownBindingApp);
      }
      if binding.from.app == binding.to.app {
        Fail(SelfBinding);
      }
      if !(binding.to.app in apps && binding.from.app in apps[binding.to.app].dependsOn) {
        Fail(BindingWithoutDependency);
      }
      if TargetName(binding.to) in consumers {
        Fail(MultipleProviders);
      }
    }

    method CheckBindings()
      requires forall b <- definition.bindings :: IsKey(b.to.app)
      modifies `issues
      ensures Raised(issues) == old(Raised(issues)) + AllBindingIssues(apps, definition.bindings)
    {
      var bindings := definition.bindings;
      var targets := Consumers(bindings);
      var consumers := {};
      ghost var before := Raised(issues);
      for i := 0 to |bindings|
        invariant consumers == set r | r in targets[..i] :: TargetName(r)
        invariant Raised(issues) == before + AllBindingIssues(apps, bindings[..i])
      {
        CheckBinding(bindings[i], consumers);
        NewTarget(bindings, i);
        BindingsStep(apps, bindings, i, TargetName(bindings[i].to) in consumers);
        consumers := consumers + {TargetName(bindings[i].to)};
      }
      assert bindings[..|bindings|] == bindings;
    }

    /** The whole step: the issues raised are exactly those of the rules that are broken, so none exactly
        for the definitions described by Accepted. The schema has checked the form of the keys before. */
    method Validate()
      requires apps == AppsByKey(definition.apps)
      requires issues == [] && active == complete == {} && path == done == []
      requires forall b <- definition.bindings :: IsKey(b.to.app)
      modifies this
      ensures Raised(issues) == Issues(definition)
      ensures issues == [] <==> Accepted(definition)
    {
      CheckAll();
      NoIssuesIsAccepted(definition);
      assert issues != [] ==> issues[0] in Raised(issues);
    }

    method CheckAll()
      requires apps == AppsByKey(definition.apps) && active == complete == {} && path == done == []
      requires forall b <- definition.bindings :: IsKey(b.to.app)
      modifies this
      ensures Raised(issues) == old(Raised(issues)) + Issues(definition)
    {
      ghost var a, h := AppIssues(definition), HomeIssues(apps, definition);
      ghost var n, c := AllDependencyIssues(apps, definition.apps), Cycles(HasCycle(GraphOf(apps)));
      ghost var before := Raised(issues);
      CheckApps();
      CheckHome();
      CheckDependencies();
      CheckCycles();
      CheckBindings();
      Regroup(before, a, h, n, c, AllBindingIssues(apps, definition.bindings));
    }
  }

  lemma Regroup<T>(before: set<T>, a: set<T>, b: set<T>, c: set<T>, d: set<T>, e: set<T>)
    ensures before + a + b + c + d + e == before + (a + b + c + d + e)
  {
  }

  lemma NeedsStep(apps: map<string, App>, app: App, needs: seq<string>, i: nat)
    requires i < |needs|
    ensures NeedsIssues(apps, app, needs[..i + 1])
         == NeedsIssues(apps, app, needs[..i]) + NeedIssues(apps, app, needs[i])
  {
    var more, front := needs[..i + 1], needs[..i];
    assert more == front + [needs[i]];
    assert forall j | 0 <= j < i :: more[j] == front[j];
    assert more[i] == needs[i];
  }

  lemma BindingsStep(apps: map<string, App>, bindings: seq<Binding>, i: nat, provided: bool)
    requires i < |bindings|
    requires NoDuplicates(Consumers(bindings)[..i + 1]) <==> NoDuplicates(Consumers(bindings)[..i]) && !provided
    ensures AllBindingIssues(apps, bindings[..i + 1])
         == AllBindingIssues(apps, bindings[..i]) + BindingIssues(apps, bindings[i])
            + if provided then {MultipleProviders} else {}
  {
    assert bindings[..i + 1][..i] == bindings[..i];
    assert Consumers(bindings[..i]) == Consumers(bindings)[..i] && Consumers(bindings[..i + 1]) == Consumers(bindings)[..i + 1];
  }

  lemma NewTarget(bindings: seq<Binding>, i: nat)
    requires i < |bindings| && forall b <- bindings :: IsKey(b.to.app)
    ensures var targets := Consumers(bindings);
            var before := set r | r in targets[..i] :: TargetName(r);
            && NoDuplicates(targets[..i + 1]) == (NoDuplicates(targets[..i]) && TargetName(bindings[i].to) !in before)
            && (set r | r in targets[..i + 1] :: TargetName(r)) == before + {TargetName(bindings[i].to)}
  {
    var targets := Consumers(bindings);
    assert targets[..i + 1] == targets[..i] + [targets[i]];
    forall j | 0 <= j < i
      ensures TargetName(targets[j]) == TargetName(targets[i]) <==> targets[j] == targets[i]
    {
      assert bindings[j] in bindings && bindings[i] in bindings;
      TargetNameIsInjective(targets[j], targets[i]);
    }
  }
}
