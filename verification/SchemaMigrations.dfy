/** The schema migration loader: the scan of the packaged assets, the sort, the identity check, and the
    dependency and phase check. */
module SchemaMigrations {
  import opened Basics
  import opened MigrationTime
  import StableSort
  import G = DependencyGraph

  datatype Phase = BeforeSync | AfterSync

  datatype Declaration = Declaration(dependsOn: seq<string>, phase: Phase)

  /** What a directory lists. The contents of a file are kept as what the reader makes of them: the
      declaration of a migration, none if the file is not readable, not accepted SQL or declares
      something else; and whether its check is there and accepted. A directory holds the component
      name its component.json gives, none if there is no such name. */
  datatype Node =
    | File(name: string, declaration: Option<Declaration>, check: bool)
    | Directory(name: string, component: Option<string>, entries: seq<Node>)
    | Link(name: string)

  datatype Migration = Migration(id: string, name: string, phase: Phase, baseline: bool)

  datatype Result<+T, +E> = Ok(value: T) | Err(error: E)

  datatype Failure = SymbolicLink | Component | FileName | Asset | Timestamp | Identity | Dependency(id: string)

  /** A migration found, with the prefix of its file and what it depends on. */
  datatype Item = Item(prefix: string, migration: Migration, dependsOn: seq<string>)

  // ---------------------------------------------------------------------------------------------
  // File names
  // ---------------------------------------------------------------------------------------------

  predicate LineBreak(c: char) {
    c in "\n\r\U{2028}\U{2029}"
  }

  /** Fourteen digits, a dash, anything on one line, and the ending. */
  predicate IsSqlName(name: string) {
    && |name| >= 19 && Digits(name[..14]) && name[14] == '-' && name[|name| - 4..] == ".sql"
    && forall i | 15 <= i < |name| - 4 :: !LineBreak(name[i])
  }

  predicate Lower(c: char) {
    'a' <= c <= 'z'
  }

  predicate ValidName(name: string) {
    && IsSqlName(name) && |name| > 19 && Lower(name[15])
    && forall i | 15 <= i < |name| - 4 :: Lower(name[i]) || Digit(name[i]) || name[i] == '-'
  }

  function DeclarationOf(e: Node): Option<Declaration> {
    if e.File? then e.declaration else None
  }

  predicate ValidTimestamp(name: string)
    requires IsSqlName(name)
  {
    Accepts(FieldsOf(name[..14]))
  }

  // ---------------------------------------------------------------------------------------------
  // What a directory holds, and what is wrong with it
  // ---------------------------------------------------------------------------------------------

  predicate HasSql(entries: seq<Node>) {
    exists e <- entries :: IsSqlName(e.name)
  }

  predicate HasLink(entries: seq<Node>) {
    exists e <- entries :: e.Link?
  }

  function FileFaults(e: Node): set<Failure> {
    if !IsSqlName(e.name) then {}
    else
      (if ValidName(e.name) then {} else {FileName})
      + (if DeclarationOf(e).Some? && e.check then {} else {Asset})
      + (if ValidTimestamp(e.name) then {} else {Timestamp})
  }

  function FilesFaults(entries: seq<Node>): set<Failure> {
    if entries == [] then {} else FilesFaults(entries[..|entries| - 1]) + FileFaults(entries[|entries| - 1])
  }

  predicate Scanned(e: Node) {
    e.Directory? && e.name != "checks"
  }

  /** Everything wrong with a directory and with those in it. */
  function Faults(directory: Node): set<Failure>
    requires directory.Directory?
    decreases directory, 0
  {
    (if HasLink(directory.entries) then {SymbolicLink} else {})
    + (if HasSql(directory.entries) && directory.component.None? then {Component} else {})
    + FilesFaults(directory.entries) + BelowFaults(directory.entries)
  }

  function BelowFaults(entries: seq<Node>): set<Failure>
    decreases entries
  {
    if entries == [] then {}
    else
      var e := entries[|entries| - 1];
      BelowFaults(entries[..|entries| - 1]) + if Scanned(e) then Faults(e) else {}
  }

  function ItemOf(e: Node, component: string, baseline: seq<string>): Item
    requires FileFaults(e) == {} && IsSqlName(e.name)
  {
    assert Asset !in FileFaults(e);
    var id := component + "." + e.name[..|e.name| - 4];
    var prefix := e.name[..14];
    var time := Parse(FieldsOf(prefix)).value;
    Item(prefix, Migration(id, NameOf(id, time), e.declaration.value.phase, id in baseline), e.declaration.value.dependsOn)
  }

  function FileItems(entries: seq<Node>, component: string, baseline: seq<string>): seq<Item>
    requires FilesFaults(entries) == {}
  {
    if entries == [] then []
    else
      var e := entries[|entries| - 1];
      FileItems(entries[..|entries| - 1], component, baseline)
      + if IsSqlName(e.name) then [ItemOf(e, component, baseline)] else []
  }

  /** The migrations of a directory, its own before those of the directories in it. */
  function Items(directory: Node, baseline: seq<string>): seq<Item>
    requires directory.Directory? && Faults(directory) == {}
    decreases directory, 0
  {
    (if HasSql(directory.entries) then FileItems(directory.entries, directory.component.value, baseline) else [])
    + BelowItems(directory.entries, baseline)
  }

  function BelowItems(entries: seq<Node>, baseline: seq<string>): seq<Item>
    requires BelowFaults(entries) == {}
    decreases entries
  {
    if entries == [] then []
    else
      var e := entries[|entries| - 1];
      BelowItems(entries[..|entries| - 1], baseline) + if Scanned(e) then Items(e, baseline) else []
  }

  function MigrationsOf(items: seq<Item>): (ms: seq<Migration>)
    ensures |ms| == |items| && forall i | 0 <= i < |ms| :: ms[i] == items[i].migration
  {
    seq(|items|, i requires 0 <= i < |items| => items[i].migration)
  }

  /** The dependencies map after setting an entry for each item. */
  function WithAll(dependencies: map<string, seq<string>>, items: seq<Item>): map<string, seq<string>> {
    if items == [] then dependencies
    else
      var item := items[|items| - 1];
      WithAll(dependencies, items[..|items| - 1])[item.migration.id := item.dependsOn]
  }

  lemma {:induction false} WithAllAppend(dependencies: map<string, seq<string>>, a: seq<Item>, b: seq<Item>)
    ensures WithAll(dependencies, a + b) == WithAll(WithAll(dependencies, a), b)
  {
    if b == [] {
      assert a + b == a;
    } else {
      WithAllAppend(dependencies, a, b[..|b| - 1]);
      assert (a + b)[..|a + b| - 1] == a + b[..|b| - 1];
    }
  }

  /** What taking in some items does to the list and the map. */
  ghost predicate Took(ms: seq<Migration>, deps: map<string, seq<string>>, items: seq<Item>,
                       ms': seq<Migration>, deps': map<string, seq<string>>) {
    ms' == ms + MigrationsOf(items) && deps' == WithAll(deps, items)
  }

  lemma MigrationsAppend(a: seq<Item>, b: seq<Item>)
    ensures MigrationsOf(a + b) == MigrationsOf(a) + MigrationsOf(b)
  {
  }

  lemma Regroup<T>(x: seq<T>, y: seq<T>, z: seq<T>)
    ensures (x + y) + z == x + (y + z)
  {
  }

  lemma TookBoth(ms: seq<Migration>, deps: map<string, seq<string>>, a: seq<Item>,
                 ms': seq<Migration>, deps': map<string, seq<string>>, b: seq<Item>,
                 ms'': seq<Migration>, deps'': map<string, seq<string>>)
    requires Took(ms, deps, a, ms', deps') && Took(ms', deps', b, ms'', deps'')
    ensures Took(ms, deps, a + b, ms'', deps'')
  {
    WithAllAppend(deps, a, b);
    MigrationsAppend(a, b);
    Regroup(ms, MigrationsOf(a), MigrationsOf(b));
  }

  lemma TookOne(ms: seq<Migration>, deps: map<string, seq<string>>, item: Item)
    ensures Took(ms, deps, [item], ms + [item.migration], deps[item.migration.id := item.dependsOn])
  {
  }

  lemma FilesUnfold(entries: seq<Node>, k: nat)
    requires k < |entries|
    ensures FilesFaults(entries[..k + 1]) == FilesFaults(entries[..k]) + FileFaults(entries[k])
  {
    assert entries[..k + 1][..k] == entries[..k];
  }

  lemma FilesStep(entries: seq<Node>, k: nat)
    requires k < |entries|
    ensures FilesFaults(entries[..k + 1]) == FilesFaults(entries[..k]) + FileFaults(entries[k])
    ensures FilesFaults(entries[..k + 1]) <= FilesFaults(entries)
  {
    FilesUnfold(entries, k);
    FaultsAreFound(entries, k + 1);
  }

  lemma FileItemsStep(entries: seq<Node>, k: nat, component: string, baseline: seq<string>)
    requires k < |entries| && FilesFaults(entries[..k]) == {} && FileFaults(entries[k]) == {}
    ensures FilesFaults(entries[..k + 1]) == {}
    ensures FileItems(entries[..k + 1], component, baseline)
         == var items := FileItems(entries[..k], component, baseline);
            if IsSqlName(entries[k].name) then items + [ItemOf(entries[k], component, baseline)] else items
  {
    FilesStep(entries, k);
    assert entries[..k + 1][..k] == entries[..k];
  }

  lemma TookFile(ms: seq<Migration>, deps: map<string, seq<string>>, entries: seq<Node>, k: nat,
                 component: string, baseline: seq<string>,
                 ms': seq<Migration>, deps': map<string, seq<string>>,
                 ms'': seq<Migration>, deps'': map<string, seq<string>>)
    requires k < |entries| && FilesFaults(entries[..k]) == {} && FileFaults(entries[k]) == {} && IsSqlName(entries[k].name)
    requires Took(ms, deps, FileItems(entries[..k], component, baseline), ms', deps')
    requires Took(ms', deps', [ItemOf(entries[k], component, baseline)], ms'', deps'')
    ensures FilesFaults(entries[..k + 1]) == {}
    ensures Took(ms, deps, FileItems(entries[..k + 1], component, baseline), ms'', deps'')
  {
    TookBoth(ms, deps, FileItems(entries[..k], component, baseline), ms', deps',
             [ItemOf(entries[k], component, baseline)], ms'', deps'');
    FileItemsStep(entries, k, component, baseline);
  }

  lemma BelowStep(entries: seq<Node>, k: nat)
    requires k < |entries|
    ensures BelowFaults(entries[..k + 1])
         == BelowFaults(entries[..k]) + if Scanned(entries[k]) then Faults(entries[k]) else {}
    ensures BelowFaults(entries[..k + 1]) <= BelowFaults(entries)
  {
    assert entries[..k + 1][..k] == entries[..k];
    FaultsAreFound(entries, k + 1);
  }

  lemma BelowItemsStep(entries: seq<Node>, k: nat, baseline: seq<string>)
    requires k < |entries| && BelowFaults(entries[..k]) == {} && (Scanned(entries[k]) ==> Faults(entries[k]) == {})
    ensures BelowFaults(entries[..k + 1]) == {}
    ensures BelowItems(entries[..k + 1], baseline)
         == var items := BelowItems(entries[..k], baseline);
            if Scanned(entries[k]) then items + Items(entries[k], baseline) else items
  {
    BelowStep(entries, k);
    assert entries[..k + 1][..k] == entries[..k];
  }

  lemma TookBelow(ms: seq<Migration>, deps: map<string, seq<string>>, entries: seq<Node>, k: nat, baseline: seq<string>,
                  ms': seq<Migration>, deps': map<string, seq<string>>,
                  ms'': seq<Migration>, deps'': map<string, seq<string>>)
    requires k < |entries| && BelowFaults(entries[..k]) == {} && Scanned(entries[k]) && Faults(entries[k]) == {}
    requires Took(ms, deps, BelowItems(entries[..k], baseline), ms', deps')
    requires Took(ms', deps', Items(entries[k], baseline), ms'', deps'')
    ensures BelowFaults(entries[..k + 1]) == {}
    ensures Took(ms, deps, BelowItems(entries[..k + 1], baseline), ms'', deps'')
  {
    TookBoth(ms, deps, BelowItems(entries[..k], baseline), ms', deps', Items(entries[k], baseline), ms'', deps'');
    BelowItemsStep(entries, k, baseline);
  }

  lemma {:induction false} FaultsAreFound(entries: seq<Node>, k: nat)
    requires k <= |entries|
    ensures FilesFaults(entries[..k]) <= FilesFaults(entries) && BelowFaults(entries[..k]) <= BelowFaults(entries)
    decreases |entries|
  {
    if k < |entries| {
      FaultsAreFound(entries[..|entries| - 1], k);
      assert entries[..|entries| - 1][..k] == entries[..k];
    } else {
      assert entries[..k] == entries;
    }
  }

  // ---------------------------------------------------------------------------------------------
  // The order, and the checks over it
  // ---------------------------------------------------------------------------------------------

  /** The comparison of the sort. A difference that is not a number counts as none, and ids are then
      compared by their place in the collation order. */
  predicate Earlier(a: Migration, b: Migration, rank: string -> int) {
    var x, y := SortKey(a.name), SortKey(b.name);
    if x.Some? && y.Some? && x.value != y.value then x.value < y.value else rank(a.id) < rank(b.id)
  }

  function Comparison(rank: string -> int): (Migration, Migration) -> bool {
    (a, b) => Earlier(a, b, rank)
  }

  /** What the language promises of the sorted array: the same migrations, and stably sorted if the
      comparison is consistent. */
  ghost predicate SortedFrom(ms: seq<Migration>, r: seq<Migration>, rank: string -> int) {
    && multiset(r) == multiset(ms)
    && (StableSort.Consistent(ms, Comparison(rank)) ==> StableSort.StablySorted(ms, r, Comparison(rank)))
  }

  /** Any sort the language may have. */
  ghost predicate IsSort(sort: seq<Migration> -> seq<Migration>, rank: string -> int) {
    forall ms :: SortedFrom(ms, sort(ms), rank)
  }

  /** One such sort. */
  function InOrder(ms: seq<Migration>, rank: string -> int): seq<Migration> {
    StableSort.Sort(ms, Comparison(rank))
  }

  function Ids(ms: seq<Migration>): (ids: seq<string>)
    ensures |ids| == |ms| && forall i | 0 <= i < |ms| :: ids[i] == ms[i].id
  {
    seq(|ms|, i requires 0 <= i < |ms| => ms[i].id)
  }

  predicate IdentityHolds(ms: seq<Migration>, baseline: seq<string>) {
    NoDuplicates(Ids(ms)) && forall id <- baseline :: id in Ids(ms)
  }

  /** One dependency of the migration at i is earlier in the array and not in a later phase. */
  predicate PlacedBefore(ms: seq<Migration>, i: nat, id: string)
    requires i < |ms|
  {
    exists j | 0 <= j < i :: ms[j].id == id && !(ms[i].phase.BeforeSync? && ms[j].phase.AfterSync?)
  }

  predicate Placed(ms: seq<Migration>, g: G.Graph, i: nat)
    requires i < |ms|
  {
    forall id <- G.Needs(g, ms[i].id) :: PlacedBefore(ms, i, id)
  }

  predicate AllPlaced(ms: seq<Migration>, g: G.Graph) {
    forall i | 0 <= i < |ms| :: Placed(ms, g, i)
  }

  predicate Checked(ms: seq<Migration>, g: G.Graph, baseline: seq<string>) {
    IdentityHolds(ms, baseline) && AllPlaced(ms, g)
  }

  /** Why a bundle is refused. */
  ghost predicate Refused(ms: seq<Migration>, g: G.Graph, baseline: seq<string>, failure: Failure) {
    if IdentityHolds(ms, baseline) then FirstMisplaced(ms, g, failure) else failure == Identity
  }

  class MigrationLoader {
    const baseline: seq<string>
    const sort: seq<Migration> -> seq<Migration>
    var migrations: seq<Migration>
    var dependencies: map<string, seq<string>>

    constructor (baseline: seq<string>, sort: seq<Migration> -> seq<Migration>)
      ensures this.baseline == baseline && this.sort == sort
      ensures migrations == [] && dependencies == map[]
    {
      this.baseline, this.sort := baseline, sort;
      migrations, dependencies := [], map[];
    }

    method ScanFile(e: Node, component: string) returns (failure: Option<Failure>)
      requires IsSqlName(e.name)
      modifies this
      ensures failure.None? <==> FileFaults(e) == {}
      ensures failure.Some? ==> failure.value in FileFaults(e)
      ensures failure.None? ==>
                Took(old(migrations), old(dependencies), [ItemOf(e, component, baseline)], migrations, dependencies)
    {
      if !ValidName(e.name) {
        return Some(FileName);
      }
      if DeclarationOf(e).None? {
        return Some(Asset);
      }
      var id := component + "." + e.name[..|e.name| - 4];
      var fields := FieldsOf(e.name[..14]);
      var time := Parse(fields);
      if time.None? || Written(time.value) != fields {
        return Some(Timestamp);
      }
      if !e.check {
        return Some(Asset);
      }
      migrations := migrations + [Migration(id, NameOf(id, time.value), e.declaration.value.phase, id in baseline)];
      dependencies := dependencies[id := e.declaration.value.dependsOn];
      failure := None;
      TookOne(old(migrations), old(dependencies), ItemOf(e, component, baseline));
    }

    method ScanFiles(entries: seq<Node>, component: string) returns (failure: Option<Failure>)
      modifies this
      ensures failure.None? <==> FilesFaults(entries) == {}
      ensures failure.Some? ==> failure.value in FilesFaults(entries)
      ensures failure.None? ==>
                Took(old(migrations), old(dependencies), FileItems(entries, component, baseline), migrations, dependencies)
    {
      failure := None;
      var k := 0;
      while k < |entries|
        invariant 0 <= k <= |entries| && failure.None?
        invariant FilesFaults(entries[..k]) == {}
        invariant Took(old(migrations), old(dependencies), FileItems(entries[..k], component, baseline), migrations, dependencies)
      {
        FilesStep(entries, k);
        if IsSqlName(entries[k].name) {
          ghost var ms, deps := migrations, dependencies;
          failure := ScanFile(entries[k], component);
          if failure.Some? {
            return;
          }
          TookFile(old(migrations), old(dependencies), entries, k, component, baseline, ms, deps, migrations, dependencies);
        } else {
          FileItemsStep(entries, k, component, baseline);
        }
        k := k + 1;
      }
      assert entries[..k] == entries;
    }

    method Scan(directory: Node) returns (failure: Option<Failure>)
      requires directory.Directory?
      modifies this
      ensures failure.None? <==> Faults(directory) == {}
      ensures failure.Some? ==> failure.value in Faults(directory)
      ensures failure.None? ==>
                Took(old(migrations), old(dependencies), Items(directory, baseline), migrations, dependencies)
      decreases directory, 0
    {
      var entries := directory.entries;
      if HasLink(entries) {
        return Some(SymbolicLink);
      }
      ghost var own: seq<Item> := [];
      if HasSql(entries) {
        if directory.component.None? {
          return Some(Component);
        }
        failure := ScanFiles(entries, directory.component.value);
        if failure.Some? {
          return;
        }
        own := FileItems(entries, directory.component.value, baseline);
      } else {
        NoSqlNoFaults(entries);
      }
      ghost var ms, deps := migrations, dependencies;
      failure := ScanBelow(entries);
      if failure.None? {
        TookBoth(old(migrations), old(dependencies), own, ms, deps, BelowItems(entries, baseline), migrations, dependencies);
      }
    }

    method ScanBelow(entries: seq<Node>) returns (failure: Option<Failure>)
      modifies this
      ensures failure.None? <==> BelowFaults(entries) == {}
      ensures failure.Some? ==> failure.value in BelowFaults(entries)
      ensures failure.None? ==>
                Took(old(migrations), old(dependencies), BelowItems(entries, baseline), migrations, dependencies)
      decreases entries
    {
      failure := None;
      var k := 0;
      while k < |entries|
        invariant 0 <= k <= |entries| && failure.None?
        invariant BelowFaults(entries[..k]) == {}
        invariant Took(old(migrations), old(dependencies), BelowItems(entries[..k], baseline), migrations, dependencies)
      {
        BelowStep(entries, k);
        if Scanned(entries[k]) {
          ghost var ms, deps := migrations, dependencies;
          failure := Scan(entries[k]);
          if failure.Some? {
            return;
          }
          TookBelow(old(migrations), old(dependencies), entries, k, baseline, ms, deps, migrations, dependencies);
        } else {
          BelowItemsStep(entries, k, baseline);
        }
        k := k + 1;
      }
      assert entries[..k] == entries;
    }

    method ScanRoots(core: Node, ai: Node) returns (failure: Option<Failure>)
      requires core.Directory? && ai.Directory? && migrations == [] && dependencies == map[]
      modifies this
      ensures failure.None? <==> Faults(core) == {} && Faults(ai) == {}
      ensures failure.Some? ==> failure.value in Faults(core) + Faults(ai)
      ensures failure.None? ==>
                migrations == MigrationsOf(AllItems(core, ai, baseline))
                && dependencies == WithAll(map[], AllItems(core, ai, baseline))
    {
      failure := Scan(core);
      if failure.Some? {
        return;
      }
      ghost var ms, deps := migrations, dependencies;
      failure := Scan(ai);
      if failure.None? {
        TookBoth([], map[], Items(core, baseline), ms, deps, Items(ai, baseline), migrations, dependencies);
      }
    }

    method SortAndCheck() returns (failure: Option<Failure>)
      modifies this`migrations
      ensures migrations == sort(old(migrations))
      ensures failure.None? <==> Checked(migrations, dependencies, baseline)
      ensures failure.Some? ==> Refused(migrations, dependencies, baseline, failure.value)
    {
      migrations := sort(migrations);
      failure := CheckIdentity();
      if failure.None? {
        failure := CheckDependencies();
      }
    }

    method CheckIdentity() returns (failure: Option<Failure>)
      ensures failure == if IdentityHolds(migrations, baseline) then None else Some(Identity)
    {
      var ids := Ids(migrations);
      CountOfIds(ids);
      if |G.Elements(ids)| != |ids| || exists id <- baseline :: id !in ids {
        return Some(Identity);
      }
      failure := None;
    }

    /** The first migration with a dependency out of place is reported. */
    method CheckDependencies() returns (failure: Option<Failure>)
      requires NoDuplicates(Ids(migrations))
      ensures failure.None? <==> AllPlaced(migrations, dependencies)
      ensures failure.Some? ==> FirstMisplaced(migrations, dependencies, failure.value)
    {
      var ids := Ids(migrations);
      var i := 0;
      while i < |migrations|
        invariant 0 <= i <= |migrations|
        invariant forall k | 0 <= k < i :: Placed(migrations, dependencies, k)
      {
        var needs := if ids[i] in dependencies then dependencies[ids[i]] else [];
        var n := 0;
        while n < |needs|
          invariant 0 <= n <= |needs|
          invariant forall k | 0 <= k < n :: PlacedBefore(migrations, i, needs[k])
        {
          var j := IndexOf(ids, needs[n]);
          if j < 0 || j >= IndexOf(ids, ids[i])
             || (migrations[i].phase == BeforeSync && migrations[j].phase != BeforeSync) {
            assert !PlacedBefore(migrations, i, needs[n]);
            assert needs[n] in G.Needs(dependencies, ids[i]);
            assert !Placed(migrations, dependencies, i);
            return Some(Dependency(ids[i]));
          }
          n := n + 1;
        }
        i := i + 1;
      }
      failure := None;
    }
  }

  /** Place of the first occurrence, or -1. */
  function IndexOf(ids: seq<string>, id: string): (r: int)
    ensures -1 <= r < |ids|
    ensures r == -1 <==> id !in ids
    ensures r >= 0 ==> ids[r] == id && id !in ids[..r]
  {
    if ids == [] then -1
    else
      assert ids == ids[..|ids| - 1] + [ids[|ids| - 1]];
      var r := IndexOf(ids[..|ids| - 1], id);
      if r >= 0 then assert ids[..|ids| - 1][..r] == ids[..r]; r
      else if ids[|ids| - 1] == id then |ids| - 1 else -1
  }

  ghost predicate FirstMisplaced(ms: seq<Migration>, g: G.Graph, failure: Failure) {
    exists i | 0 <= i < |ms| ::
      && failure == Dependency(ms[i].id) && !Placed(ms, g, i)
      && forall k | 0 <= k < i :: Placed(ms, g, k)
  }

  lemma CountOfIds(ids: seq<string>)
    ensures |G.Elements(ids)| == |ids| <==> NoDuplicates(ids)
  {
    SetSize(ids);
    assert G.Elements(ids) == set x | x in ids;
  }

  /** The migrations of both roots. */
  function AllItems(core: Node, ai: Node, baseline: seq<string>): seq<Item>
    requires core.Directory? && ai.Directory? && Faults(core) == {} && Faults(ai) == {}
  {
    Items(core, baseline) + Items(ai, baseline)
  }

  /** The loader: a bundle exactly if nothing is wrong with the assets and the sorted migrations pass,
      whatever sort the language has. Where the sort key shows every time value, that is decided by the
      prefixes, ids and phases alone. */
  method LoadSchemaMigrations(core: Node, ai: Node, baseline: seq<string>,
                              sort: seq<Migration> -> seq<Migration>, ghost rank: string -> int)
    returns (r: Result<seq<Migration>, Failure>)
    requires core.Directory? && ai.Directory? && IsSort(sort, rank)
    ensures r.Ok? <==>
            && Faults(core) == {} && Faults(ai) == {}
            && var items := AllItems(core, ai, baseline);
               Checked(sort(MigrationsOf(items)), WithAll(map[], items), baseline)
    ensures r.Ok? ==> r.value == sort(MigrationsOf(AllItems(core, ai, baseline)))
    ensures r.Err? && r.error !in Faults(core) + Faults(ai) ==>
              && Faults(core) == {} && Faults(ai) == {}
              && var items := AllItems(core, ai, baseline);
                 Refused(sort(MigrationsOf(items)), WithAll(map[], items), baseline, r.error)
    ensures Faults(core) == {} && Faults(ai) == {} && AllShown(AllItems(core, ai, baseline))
            && TellsApart(AllItems(core, ai, baseline), rank) ==>
              var items := AllItems(core, ai, baseline);
              r.Ok? <==> IdentityHolds(MigrationsOf(items), baseline) && NeedsAreEarlier(items, rank)
  {
    LoadedByPrefixExactly(core, ai, baseline, sort, rank);
    var loader := new MigrationLoader(baseline, sort);
    var failure := loader.ScanRoots(core, ai);
    if failure.Some? {
      return Err(failure.value);
    }
    failure := loader.SortAndCheck();
    if failure.Some? {
      return Err(failure.value);
    }
    r := Ok(loader.migrations);
  }

  lemma {:induction false} NoSqlNoFaults(entries: seq<Node>)
    requires !HasSql(entries)
    ensures FilesFaults(entries) == {}
  {
    if entries != [] {
      var front := entries[..|entries| - 1];
      assert !HasSql(front) by {
        forall e <- front
          ensures !IsSqlName(e.name)
        {
          assert e in entries;
        }
      }
      assert entries[|entries| - 1] in entries;
      NoSqlNoFaults(front);
    }
  }

  // ---------------------------------------------------------------------------------------------
  // Running a bundle: the before-sync migrations in array order, then the after-sync ones
  // ---------------------------------------------------------------------------------------------

  function InPhase(ms: seq<Migration>, phase: Phase): seq<Migration> {
    if ms == [] then []
    else InPhase(ms[..|ms| - 1], phase) + if ms[|ms| - 1].phase == phase then [ms[|ms| - 1]] else []
  }

  function RunOrder(ms: seq<Migration>): seq<Migration> {
    InPhase(ms, BeforeSync) + InPhase(ms, AfterSync)
  }

  lemma InPhaseAppend(ms: seq<Migration>, m: Migration, phase: Phase)
    ensures multiset(InPhase(ms + [m], phase)) == multiset(InPhase(ms, phase)) + if m.phase == phase then multiset{m} else multiset{}
  {
  }

  lemma OneMore(b: multiset<Migration>, a: multiset<Migration>, all: multiset<Migration>, m: Migration)
    requires b + a == all
    ensures (b + multiset{m}) + a == all + multiset{m}
    ensures b + (a + multiset{m}) == all + multiset{m}
    ensures b + multiset{} == b && a + multiset{} == a
  {
  }

  lemma InPhaseKeepsOneMore(ms: seq<Migration>, m: Migration)
    requires multiset(InPhase(ms, BeforeSync)) + multiset(InPhase(ms, AfterSync)) == multiset(ms)
    ensures multiset(InPhase(ms + [m], BeforeSync)) + multiset(InPhase(ms + [m], AfterSync)) == multiset(ms + [m])
  {
    InPhaseAppend(ms, m, BeforeSync);
    InPhaseAppend(ms, m, AfterSync);
    OneMore(multiset(InPhase(ms, BeforeSync)), multiset(InPhase(ms, AfterSync)), multiset(ms), m);
    assert multiset(ms + [m]) == multiset(ms) + multiset{m};
  }

  lemma {:induction false} InPhaseKeepsAll(ms: seq<Migration>)
    ensures multiset(InPhase(ms, BeforeSync)) + multiset(InPhase(ms, AfterSync)) == multiset(ms)
    decreases |ms|
  {
    if ms != [] {
      var front, m := ms[..|ms| - 1], ms[|ms| - 1];
      assert ms == front + [m];
      InPhaseKeepsAll(front);
      InPhaseKeepsOneMore(front, m);
    }
  }

  /** A migration of the phase comes right after those of the phase that precede it in the array. */
  lemma {:induction false} InPhaseAt(ms: seq<Migration>, phase: Phase, i: nat)
    requires i < |ms| && ms[i].phase == phase
    ensures var k := |InPhase(ms[..i], phase)|;
            k < |InPhase(ms, phase)| && InPhase(ms, phase)[k] == ms[i] && InPhase(ms, phase)[..k] == InPhase(ms[..i], phase)
    decreases |ms|
  {
    var front := ms[..|ms| - 1];
    if i < |front| {
      InPhaseAt(front, phase, i);
      assert front[..i] == ms[..i];
    }
  }

  /** Every place of the phase is that of some migration. */
  lemma {:induction false} InPhaseFrom(ms: seq<Migration>, phase: Phase, k: nat) returns (i: nat)
    requires k < |InPhase(ms, phase)|
    ensures i < |ms| && ms[i].phase == phase && ms[i] == InPhase(ms, phase)[k] && k == |InPhase(ms[..i], phase)|
    decreases |ms|
  {
    var front := ms[..|ms| - 1];
    if k < |InPhase(front, phase)| {
      i := InPhaseFrom(front, phase, k);
      assert front[..i] == ms[..i];
    } else {
      i := |front|;
    }
  }

  predicate Known(g: G.Graph) {
    forall a <- g.Keys :: forall b <- g[a] :: b in g
  }

  lemma InPhaseHas(ms: seq<Migration>, phase: Phase, j: nat)
    requires j < |ms| && ms[j].phase == phase
    ensures ms[j].id in Ids(InPhase(ms, phase))
  {
    InPhaseAt(ms, phase, j);
    assert Ids(InPhase(ms, phase))[|InPhase(ms[..j], phase)|] == ms[j].id;
  }

  lemma BeforeSyncListed(ms: seq<Migration>, g: G.Graph, r: nat)
    requires AllPlaced(ms, g) && r < |InPhase(ms, BeforeSync)|
    ensures G.NeedsListed(g, Ids(RunOrder(ms)), r)
  {
    var i := InPhaseFrom(ms, BeforeSync, r);
    InPhaseAt(ms, BeforeSync, i);
    assert Placed(ms, g, i);
    forall b <- G.Needs(g, ms[i].id)
      ensures b in Ids(RunOrder(ms))[..r]
    {
      assert PlacedBefore(ms, i, b);
      var j :| 0 <= j < i && ms[j].id == b && ms[j].phase == BeforeSync;
      InPhaseHas(ms[..i], BeforeSync, j);
      assert Ids(RunOrder(ms))[..r] == Ids(InPhase(ms[..i], BeforeSync));
    }
  }

  lemma AfterSyncListed(ms: seq<Migration>, g: G.Graph, k: nat)
    requires AllPlaced(ms, g) && k < |InPhase(ms, AfterSync)|
    ensures G.NeedsListed(g, Ids(RunOrder(ms)), |InPhase(ms, BeforeSync)| + k)
  {
    var i := InPhaseFrom(ms, AfterSync, k);
    InPhaseAt(ms, AfterSync, i);
    assert Placed(ms, g, i);
    var first := Ids(InPhase(ms, BeforeSync));
    forall b <- G.Needs(g, ms[i].id)
      ensures b in Ids(RunOrder(ms))[..|first| + k]
    {
      assert Ids(RunOrder(ms))[..|first| + k] == first + Ids(InPhase(ms[..i], AfterSync));
      assert PlacedBefore(ms, i, b);
      var j :| 0 <= j < i && ms[j].id == b;
      if ms[j].phase == BeforeSync {
        InPhaseHas(ms, BeforeSync, j);
      } else {
        InPhaseHas(ms[..i], AfterSync, j);
      }
    }
  }

  lemma PlacedIsListed(ms: seq<Migration>, g: G.Graph)
    requires AllPlaced(ms, g) && g.Keys == G.Elements(Ids(ms))
    ensures Known(g) && G.DependenciesFirst(g, Ids(ms)) && G.DependenciesFirst(g, Ids(RunOrder(ms)))
  {
    var ids := Ids(ms);
    forall i | 0 <= i < |ids|
      ensures G.NeedsListed(g, ids, i)
    {
      assert Placed(ms, g, i);
      forall b <- G.Needs(g, ids[i])
        ensures b in ids[..i]
      {
        assert PlacedBefore(ms, i, b);
        var j :| 0 <= j < i && ms[j].id == b;
        assert ids[..i][j] == b;
      }
    }
    forall a <- g.Keys, b <- g[a]
      ensures b in g
    {
      var i :| 0 <= i < |ids| && ids[i] == a;
      assert Placed(ms, g, i) && PlacedBefore(ms, i, b);
      var j :| 0 <= j < i && ms[j].id == b;
      assert ids[j] == b;
    }
    forall r | 0 <= r < |Ids(RunOrder(ms))|
      ensures G.NeedsListed(g, Ids(RunOrder(ms)), r)
    {
      if r < |InPhase(ms, BeforeSync)| {
        BeforeSyncListed(ms, g, r);
      } else {
        AfterSyncListed(ms, g, r - |InPhase(ms, BeforeSync)|);
      }
    }
  }

  lemma ListedIsPlaced(ms: seq<Migration>, g: G.Graph, i: nat, b: string)
    requires NoDuplicates(Ids(ms)) && i < |ms| && b in G.Needs(g, ms[i].id) && b in g
    requires G.DependenciesFirst(g, Ids(ms)) && G.DependenciesFirst(g, Ids(RunOrder(ms)))
    ensures PlacedBefore(ms, i, b)
  {
    assert G.NeedsListed(g, Ids(ms), i);
    var j :| 0 <= j < i && Ids(ms)[..i][j] == b;
    assert Ids(ms)[j] == b;
    if ms[i].phase == BeforeSync {
      InPhaseAt(ms, BeforeSync, i);
      var earlier := InPhase(ms[..i], BeforeSync);
      assert G.NeedsListed(g, Ids(RunOrder(ms)), |earlier|);
      assert Ids(RunOrder(ms))[..|earlier|] == Ids(earlier);
      var k :| 0 <= k < |earlier| && Ids(earlier)[k] == b;
      var h := InPhaseFrom(ms[..i], BeforeSync, k);
      assert Ids(ms)[h] == b;
    }
  }

  /** The dependency check passes exactly when every dependency is in the bundle and comes first both in
      the array and in the run. */
  lemma CheckIsRunOrderExactly(ms: seq<Migration>, g: G.Graph)
    requires NoDuplicates(Ids(ms)) && g.Keys == G.Elements(Ids(ms))
    ensures AllPlaced(ms, g) <==>
            Known(g) && G.DependenciesFirst(g, Ids(ms)) && G.DependenciesFirst(g, Ids(RunOrder(ms)))
  {
    if AllPlaced(ms, g) {
      PlacedIsListed(ms, g);
    } else if Known(g) && G.DependenciesFirst(g, Ids(ms)) && G.DependenciesFirst(g, Ids(RunOrder(ms))) {
      forall i | 0 <= i < |ms|
        ensures Placed(ms, g, i)
      {
        assert Ids(ms)[i] in g;
        forall b <- G.Needs(g, ms[i].id)
          ensures PlacedBefore(ms, i, b)
        {
          ListedIsPlaced(ms, g, i, b);
        }
      }
    }
  }

  lemma {:induction false} PathStaysKnown(g: G.Graph, p: seq<string>, k: nat)
    requires Known(g) && G.IsPath(g, p) && p[0] in g && k < |p|
    ensures p[k] in g
  {
    if k != 0 {
      PathStaysKnown(g, p, k - 1);
      assert G.Step(g, p, k - 1);
    }
  }

  lemma DistinctFront(ids: seq<string>, n: nat)
    requires NoDuplicates(ids) && n <= |ids|
    ensures NoDuplicates(ids[..n])
  {
  }

  lemma IdsFront(items: seq<Item>)
    requires items != []
    ensures Ids(MigrationsOf(items)) == Ids(MigrationsOf(items[..|items| - 1])) + [items[|items| - 1].migration.id]
  {
  }

  lemma {:induction false} WithAllKeys(g: map<string, seq<string>>, items: seq<Item>)
    ensures WithAll(g, items).Keys == g.Keys + G.Elements(Ids(MigrationsOf(items)))
  {
    if items != [] {
      WithAllKeys(g, items[..|items| - 1]);
      IdsFront(items);
    }
  }

  lemma {:induction false} WithAllValue(g: map<string, seq<string>>, items: seq<Item>, i: nat)
    requires i < |items| && NoDuplicates(Ids(MigrationsOf(items)))
    ensures items[i].migration.id in WithAll(g, items) && WithAll(g, items)[items[i].migration.id] == items[i].dependsOn
  {
    var ids := Ids(MigrationsOf(items));
    if i < |items| - 1 {
      IdsFront(items);
      assert Ids(MigrationsOf(items[..|items| - 1])) == ids[..|items| - 1];
      DistinctFront(ids, |items| - 1);
      WithAllValue(g, items[..|items| - 1], i);
      assert ids[i] != ids[|items| - 1];
    }
  }

  lemma WithAllSets(items: seq<Item>)
    ensures WithAll(map[], items).Keys == G.Elements(Ids(MigrationsOf(items)))
    ensures NoDuplicates(Ids(MigrationsOf(items))) ==>
              forall i | 0 <= i < |items| :: G.Needs(WithAll(map[], items), items[i].migration.id) == items[i].dependsOn
  {
    WithAllKeys(map[], items);
    if NoDuplicates(Ids(MigrationsOf(items))) {
      forall i | 0 <= i < |items|
        ensures G.Needs(WithAll(map[], items), items[i].migration.id) == items[i].dependsOn
      {
        WithAllValue(map[], items, i);
      }
    }
  }

  /** Two arrays of the same migrations hold the same ids. */
  lemma SameIds(a: seq<Migration>, b: seq<Migration>)
    requires multiset(a) == multiset(b)
    ensures |a| == |b| && G.Elements(Ids(a)) == G.Elements(Ids(b))
  {
    assert |multiset(a)| == |multiset(b)|;
    IdsAmong(a, b);
    IdsAmong(b, a);
  }

  lemma IdsAmong(a: seq<Migration>, b: seq<Migration>)
    requires multiset(a) == multiset(b)
    ensures G.Elements(Ids(a)) <= G.Elements(Ids(b))
  {
    forall id | id in G.Elements(Ids(a))
      ensures id in G.Elements(Ids(b))
    {
      var i :| 0 <= i < |a| && Ids(a)[i] == id;
      assert a[i] in multiset(b);
      var j :| 0 <= j < |b| && b[j] == a[i];
      assert Ids(b)[j] == id;
    }
  }

  lemma SortKeepsIds(items: seq<Item>, rank: string -> int)
    ensures var ms := InOrder(MigrationsOf(items), rank);
            multiset(ms) == multiset(MigrationsOf(items)) && |ms| == |items|
            && G.Elements(Ids(ms)) == G.Elements(Ids(MigrationsOf(items)))
  {
    var all := MigrationsOf(items);
    StableSort.SortKeepsAll(all, Comparison(rank));
    SameIds(InOrder(all, rank), all);
  }

  lemma CheckedIsListed(ms: seq<Migration>, items: seq<Item>, baseline: seq<string>)
    requires multiset(ms) == multiset(MigrationsOf(items)) && Checked(ms, WithAll(map[], items), baseline)
    ensures var g := WithAll(map[], items);
            && g.Keys == G.Elements(Ids(ms)) && Known(g)
            && G.DependenciesFirst(g, Ids(ms)) && G.DependenciesFirst(g, Ids(RunOrder(ms)))
  {
    SameIds(ms, MigrationsOf(items));
    WithAllSets(items);
    CheckIsRunOrderExactly(ms, WithAll(map[], items));
  }

  lemma RunNeedsFirst(ms: seq<Migration>, g: G.Graph, a: string, b: string)
    requires g.Keys == G.Elements(Ids(ms)) && Known(g) && G.DependenciesFirst(g, Ids(RunOrder(ms)))
    requires a in g && G.Reaches(g, a, b)
    ensures var run := Ids(RunOrder(ms)); a in run && b in run && G.Rank(run, b) < G.Rank(run, a)
  {
    var p :| 2 <= |p| && G.IsPath(g, p) && p[0] == a && p[|p| - 1] == b;
    PathStaysKnown(g, p, |p| - 1);
    RunHas(ms, a);
    G.NeedsComeFirst(g, Ids(RunOrder(ms)), a, b);
  }

  /** Running an accepted bundle runs every migration once, and after everything it needs, directly or
      not; so nothing needs itself. This holds of any array of the migrations that passes the checks,
      however they were sorted. */
  lemma AcceptedRunsInOrder(ms: seq<Migration>, items: seq<Item>, baseline: seq<string>)
    requires multiset(ms) == multiset(MigrationsOf(items)) && Checked(ms, WithAll(map[], items), baseline)
    ensures var g := WithAll(map[], items);
            && multiset(RunOrder(ms)) == multiset(MigrationsOf(items))
            && !G.HasCycle(g)
            && forall a, b | a in g && G.Reaches(g, a, b) ::
                  var run := Ids(RunOrder(ms));
                  a in run && b in run && G.Rank(run, b) < G.Rank(run, a)
  {
    var g := WithAll(map[], items);
    InPhaseKeepsAll(ms);
    CheckedIsListed(ms, items, baseline);
    G.DependenciesFirstIsAcyclic(g, Ids(ms));
    forall a, b | a in g && G.Reaches(g, a, b)
      ensures var run := Ids(RunOrder(ms)); a in run && b in run && G.Rank(run, b) < G.Rank(run, a)
    {
      RunNeedsFirst(ms, g, a, b);
    }
  }

  lemma RunHas(ms: seq<Migration>, a: string)
    requires a in Ids(ms)
    ensures a in Ids(RunOrder(ms))
  {
    var i :| 0 <= i < |ms| && Ids(ms)[i] == a;
    InPhaseHas(ms, ms[i].phase, i);
    assert Ids(RunOrder(ms)) == Ids(InPhase(ms, BeforeSync)) + Ids(InPhase(ms, AfterSync));
  }

  // ---------------------------------------------------------------------------------------------
  // What the sort sorts by
  // ---------------------------------------------------------------------------------------------

  predicate Keyed(ms: seq<Migration>) {
    forall m <- ms :: SortKey(m.name).Some?
  }

  /** With a key for every migration the comparison is consistent, and any stable sort gives this
      array. */
  lemma KeyedSortIsDetermined(ms: seq<Migration>, rank: string -> int, r: seq<Migration>)
    requires Keyed(ms)
    ensures StableSort.Consistent(ms, Comparison(rank))
    ensures StableSort.StablySorted(ms, r, Comparison(rank)) <==> r == InOrder(ms, rank)
  {
    StableSort.StableSortIsUnique(ms, r, Comparison(rank));
  }

  /** Whatever sort the language has, then, it gives this array. */
  lemma KeyedSortIsInOrder(ms: seq<Migration>, r: seq<Migration>, rank: string -> int)
    requires Keyed(ms) && SortedFrom(ms, r, rank)
    ensures r == InOrder(ms, rank)
  {
    KeyedSortIsDetermined(ms, rank, r);
  }

  lemma InsertionIsSort(rank: string -> int)
    ensures IsSort(ms => InOrder(ms, rank), rank)
  {
    forall ms: seq<Migration>
      ensures SortedFrom(ms, InOrder(ms, rank), rank)
    {
      StableSort.SortKeepsAll(ms, Comparison(rank));
      if StableSort.Consistent(ms, Comparison(rank)) {
        StableSort.SortIsStablySorted(ms, Comparison(rank));
      }
    }
  }

  /** Without keys it need not be: a migration of 2000 between two others by id closes a circle. */
  lemma UnkeyedComparisonIsCircular(a: Migration, b: Migration, c: Migration, rank: string -> int)
    requires rank(a.id) < rank(b.id) < rank(c.id)
    requires SortKey(a.name).Some? && SortKey(b.name).None? && SortKey(c.name).Some?
    requires SortKey(c.name).value < SortKey(a.name).value
    ensures Earlier(a, b, rank) && Earlier(b, c, rank) && Earlier(c, a, rank)
  {
  }

  /** An item the scan makes. */
  ghost predicate Made(x: Item) {
    && IsPrefix(x.prefix) && Civil(FieldsOf(x.prefix)) && x.migration.id != ""
    && x.migration.name == NameOf(x.migration.id, TimeValue(FieldsOf(x.prefix)))
  }

  ghost predicate InRange(x: Item) {
    Made(x) && Shown(TimeValue(FieldsOf(x.prefix)))
  }

  /** Order of the file prefixes as text, then of the ids. */
  predicate PrefixEarlier(x: Item, y: Item, rank: string -> int) {
    TextBefore(x.prefix, y.prefix) || (x.prefix == y.prefix && rank(x.migration.id) < rank(y.migration.id))
  }

  lemma ItemKey(x: Item)
    requires InRange(x)
    ensures SortKey(x.migration.name) == Key(TimeValue(FieldsOf(x.prefix))) && SortKey(x.migration.name).Some?
  {
    SortKeyIs(x.migration.id, TimeValue(FieldsOf(x.prefix)));
  }

  lemma EarlierIsByPrefix(x: Item, y: Item, rank: string -> int)
    requires InRange(x) && InRange(y)
    ensures SortKey(x.migration.name).Some?
    ensures Earlier(x.migration, y.migration, rank) <==> PrefixEarlier(x, y, rank)
  {
    ItemKey(x);
    ItemKey(y);
    KeysOrderAsPrefixes(x.prefix, y.prefix);
  }

  lemma FileItemsAreMade(entries: seq<Node>, component: string, baseline: seq<string>)
    requires FilesFaults(entries) == {}
    ensures forall x <- FileItems(entries, component, baseline) :: Made(x)
  {
  }

  lemma {:induction false} ItemsAreMade(directory: Node, baseline: seq<string>)
    requires directory.Directory? && Faults(directory) == {}
    ensures forall x <- Items(directory, baseline) :: Made(x)
    decreases directory, 0
  {
    if HasSql(directory.entries) {
      FileItemsAreMade(directory.entries, directory.component.value, baseline);
    }
    BelowItemsAreMade(directory.entries, baseline);
  }

  lemma {:induction false} BelowItemsAreMade(entries: seq<Node>, baseline: seq<string>)
    requires BelowFaults(entries) == {}
    ensures forall x <- BelowItems(entries, baseline) :: Made(x)
    decreases entries
  {
    if entries != [] {
      BelowItemsAreMade(entries[..|entries| - 1], baseline);
      var e := entries[|entries| - 1];
      if Scanned(e) {
        ItemsAreMade(e, baseline);
      }
    }
  }

  /** The collation order tells the ids apart. */
  ghost predicate TellsApart(items: seq<Item>, rank: string -> int) {
    forall x <- items, y <- items :: rank(x.migration.id) == rank(y.migration.id) ==> x.migration.id == y.migration.id
  }

  /** Each dependency has an earlier prefix and is not in a later phase. */
  ghost predicate NeedsAreEarlier(items: seq<Item>, rank: string -> int) {
    forall x <- items :: forall id <- x.dependsOn :: HasEarlier(items, x, id, rank)
  }

  ghost predicate HasEarlier(items: seq<Item>, x: Item, id: string, rank: string -> int) {
    exists y <- items ::
      && y.migration.id == id && PrefixEarlier(y, x, rank)
      && !(x.migration.phase.BeforeSync? && y.migration.phase.AfterSync?)
  }

  lemma SortedItem(items: seq<Item>, rank: string -> int, i: nat) returns (x: Item)
    requires i < |items| && NoDuplicates(Ids(MigrationsOf(items)))
    ensures |InOrder(MigrationsOf(items), rank)| == |items|
    ensures x in items && x.migration == InOrder(MigrationsOf(items), rank)[i]
    ensures G.Needs(WithAll(map[], items), x.migration.id) == x.dependsOn
  {
    SortKeepsIds(items, rank);
    StableSort.SortKeepsAll(MigrationsOf(items), Comparison(rank));
    var m := InOrder(MigrationsOf(items), rank)[i];
    assert m in MigrationsOf(items);
    var k :| 0 <= k < |items| && MigrationsOf(items)[k] == m;
    x := items[k];
    WithAllSets(items);
    assert Ids(MigrationsOf(items))[k] == m.id;
  }

  lemma SortedPlace(items: seq<Item>, rank: string -> int, x: Item) returns (i: nat)
    requires x in items
    ensures var ms := InOrder(MigrationsOf(items), rank); i < |ms| && ms[i] == x.migration
  {
    var k :| 0 <= k < |items| && items[k] == x;
    StableSort.SortKeepsAll(MigrationsOf(items), Comparison(rank));
    assert MigrationsOf(items)[k] == x.migration;
    assert x.migration in InOrder(MigrationsOf(items), rank);
    i :| 0 <= i < |InOrder(MigrationsOf(items), rank)| && InOrder(MigrationsOf(items), rank)[i] == x.migration;
  }

  lemma ItemsAreKeyed(items: seq<Item>, rank: string -> int)
    requires forall z <- items :: InRange(z)
    ensures Keyed(MigrationsOf(items))
  {
    var all := MigrationsOf(items);
    forall m <- all
      ensures SortKey(m.name).Some?
    {
      var k :| 0 <= k < |all| && all[k] == m;
      EarlierIsByPrefix(items[k], items[k], rank);
    }
  }

  lemma KeyedSortIsSorted(ms: seq<Migration>, rank: string -> int, i: nat, j: nat)
    requires Keyed(ms)
    requires i < j < |InOrder(ms, rank)|
    ensures !Earlier(InOrder(ms, rank)[j], InOrder(ms, rank)[i], rank)
  {
    KeyedSortIsDetermined(ms, rank, InOrder(ms, rank));
    assert !Comparison(rank)(InOrder(ms, rank)[j], InOrder(ms, rank)[i]);
  }

  lemma PlacesFollowComparison(ms: seq<Migration>, rank: string -> int, i: nat, j: nat)
    requires Keyed(ms) && i < |InOrder(ms, rank)| && j < |InOrder(ms, rank)|
    requires i != j ==> rank(InOrder(ms, rank)[i].id) != rank(InOrder(ms, rank)[j].id)
    ensures j < i <==> Earlier(InOrder(ms, rank)[j], InOrder(ms, rank)[i], rank)
  {
    if j < i {
      KeyedSortIsSorted(ms, rank, j, i);
      Trichotomy(InOrder(ms, rank)[i], InOrder(ms, rank)[j], rank);
    } else if i < j {
      KeyedSortIsSorted(ms, rank, i, j);
    }
  }

  /** Places in the array follow the prefixes. */
  lemma PlacesFollowPrefixes(items: seq<Item>, rank: string -> int, x: Item, i: nat, y: Item, j: nat)
    requires (forall z <- items :: InRange(z)) && TellsApart(items, rank)
    requires var ms := InOrder(MigrationsOf(items), rank);
             NoDuplicates(Ids(ms)) && i < |ms| && j < |ms| && x in items && y in items && ms[i] == x.migration && ms[j] == y.migration
    ensures j < i <==> PrefixEarlier(y, x, rank)
  {
    ItemsAreKeyed(items, rank);
    EarlierIsByPrefix(y, x, rank);
    var ids := Ids(InOrder(MigrationsOf(items), rank));
    assert i < j ==> ids[i] != ids[j];
    assert j < i ==> ids[j] != ids[i];
    PlacesFollowComparison(MigrationsOf(items), rank, i, j);
  }

  lemma Trichotomy(a: Migration, b: Migration, rank: string -> int)
    requires rank(a.id) != rank(b.id)
    ensures Earlier(a, b, rank) || Earlier(b, a, rank)
  {
  }

  lemma PlacedHasPrefix(items: seq<Item>, rank: string -> int, x: Item, i: nat, id: string)
    requires (forall z <- items :: InRange(z)) && TellsApart(items, rank) && NoDuplicates(Ids(MigrationsOf(items)))
    requires var ms := InOrder(MigrationsOf(items), rank);
             NoDuplicates(Ids(ms)) && i < |ms| && x in items && ms[i] == x.migration && PlacedBefore(ms, i, id)
    ensures HasEarlier(items, x, id, rank)
  {
    var ms := InOrder(MigrationsOf(items), rank);
    SortKeepsIds(items, rank);
    var j :| 0 <= j < i && ms[j].id == id && !(ms[i].phase.BeforeSync? && ms[j].phase.AfterSync?);
    var y := SortedItem(items, rank, j);
    PlacesFollowPrefixes(items, rank, x, i, y, j);
  }

  lemma PrefixIsPlaced(items: seq<Item>, rank: string -> int, x: Item, i: nat, id: string)
    requires (forall z <- items :: InRange(z)) && TellsApart(items, rank)
    requires var ms := InOrder(MigrationsOf(items), rank);
             NoDuplicates(Ids(ms)) && i < |ms| && x in items && ms[i] == x.migration
    requires HasEarlier(items, x, id, rank)
    ensures PlacedBefore(InOrder(MigrationsOf(items), rank), i, id)
  {
    var y :| y in items && y.migration.id == id && PrefixEarlier(y, x, rank)
             && !(x.migration.phase.BeforeSync? && y.migration.phase.AfterSync?);
    var j := SortedPlace(items, rank, y);
    PlacesFollowPrefixes(items, rank, x, i, y, j);
  }

  lemma DistinctByCount(a: seq<Migration>, b: seq<Migration>)
    requires |a| == |b| && G.Elements(Ids(a)) == G.Elements(Ids(b))
    ensures NoDuplicates(Ids(a)) <==> NoDuplicates(Ids(b))
  {
    CountOfIds(Ids(a));
    CountOfIds(Ids(b));
  }

  /** Within the range of thirteen digits a bundle is accepted exactly when ids are distinct, the
      baseline is there, and every dependency is there with an earlier prefix and in no later phase. */
  lemma AcceptedByPrefixExactly(items: seq<Item>, baseline: seq<string>, ms: seq<Migration>, rank: string -> int)
    requires (forall z <- items :: InRange(z)) && TellsApart(items, rank) && SortedFrom(MigrationsOf(items), ms, rank)
    ensures Checked(ms, WithAll(map[], items), baseline) <==>
            IdentityHolds(MigrationsOf(items), baseline) && NeedsAreEarlier(items, rank)
  {
    ItemsAreKeyed(items, rank);
    KeyedSortIsInOrder(MigrationsOf(items), ms, rank);
    SameIds(ms, MigrationsOf(items));
    DistinctByCount(ms, MigrationsOf(items));
    SameIdentity(ms, MigrationsOf(items), baseline);
    if IdentityHolds(ms, baseline) {
      PlacedByPrefixExactly(items, rank);
    }
  }

  lemma PlacedByPrefixExactly(items: seq<Item>, rank: string -> int)
    requires (forall z <- items :: InRange(z)) && TellsApart(items, rank) && NoDuplicates(Ids(MigrationsOf(items)))
    requires NoDuplicates(Ids(InOrder(MigrationsOf(items), rank)))
    ensures AllPlaced(InOrder(MigrationsOf(items), rank), WithAll(map[], items)) <==> NeedsAreEarlier(items, rank)
  {
    var ms := InOrder(MigrationsOf(items), rank);
    var g := WithAll(map[], items);
    SortKeepsIds(items, rank);
    if NeedsAreEarlier(items, rank) {
      forall i | 0 <= i < |ms|
        ensures Placed(ms, g, i)
      {
        var x := SortedItem(items, rank, i);
        forall id <- G.Needs(g, ms[i].id)
          ensures PlacedBefore(ms, i, id)
        {
          PrefixIsPlaced(items, rank, x, i, id);
        }
      }
    }
    if AllPlaced(ms, g) {
      forall x <- items, id <- x.dependsOn
        ensures HasEarlier(items, x, id, rank)
      {
        ItemIsPlaced(items, rank, x, id);
      }
    }
  }

  /** Every time value is one the sort key shows in full. */
  ghost predicate AllShown(items: seq<Item>) {
    forall x <- items :: IsPrefix(x.prefix) && Civil(FieldsOf(x.prefix)) && Shown(TimeValue(FieldsOf(x.prefix)))
  }

  /** The same for what the loader finds. */
  lemma LoadedByPrefixExactly(core: Node, ai: Node, baseline: seq<string>,
                              sort: seq<Migration> -> seq<Migration>, rank: string -> int)
    requires core.Directory? && ai.Directory? && IsSort(sort, rank)
    ensures Faults(core) == {} && Faults(ai) == {} && AllShown(AllItems(core, ai, baseline))
            && TellsApart(AllItems(core, ai, baseline), rank) ==>
              var items := AllItems(core, ai, baseline);
              Checked(sort(MigrationsOf(items)), WithAll(map[], items), baseline)
              <==> IdentityHolds(MigrationsOf(items), baseline) && NeedsAreEarlier(items, rank)
  {
    if Faults(core) == {} && Faults(ai) == {} {
      var items := AllItems(core, ai, baseline);
      ItemsAreMade(core, baseline);
      ItemsAreMade(ai, baseline);
      if AllShown(items) && TellsApart(items, rank) {
        assert forall z <- items :: InRange(z);
        assert SortedFrom(MigrationsOf(items), sort(MigrationsOf(items)), rank);
        AcceptedByPrefixExactly(items, baseline, sort(MigrationsOf(items)), rank);
      }
    }
  }

  lemma SameIdentity(a: seq<Migration>, b: seq<Migration>, baseline: seq<string>)
    requires NoDuplicates(Ids(a)) <==> NoDuplicates(Ids(b))
    requires G.Elements(Ids(a)) == G.Elements(Ids(b))
    ensures IdentityHolds(a, baseline) <==> IdentityHolds(b, baseline)
  {
    forall id <- baseline
      ensures id in Ids(a) <==> id in Ids(b)
    {
      assert id in Ids(a) <==> id in G.Elements(Ids(a));
      assert id in Ids(b) <==> id in G.Elements(Ids(b));
    }
  }

  lemma ItemIsPlaced(items: seq<Item>, rank: string -> int, x: Item, id: string)
    requires (forall z <- items :: InRange(z)) && TellsApart(items, rank) && NoDuplicates(Ids(MigrationsOf(items)))
    requires NoDuplicates(Ids(InOrder(MigrationsOf(items), rank)))
    requires AllPlaced(InOrder(MigrationsOf(items), rank), WithAll(map[], items))
    requires x in items && id in x.dependsOn
    ensures HasEarlier(items, x, id, rank)
  {
    var ms := InOrder(MigrationsOf(items), rank);
    var g := WithAll(map[], items);
    var i := SortedPlace(items, rank, x);
    WithAllSets(items);
    var k :| 0 <= k < |items| && items[k] == x;
    assert Ids(MigrationsOf(items))[k] == x.migration.id;
    assert Placed(ms, g, i);
    assert id in G.Needs(g, ms[i].id);
    PlacedHasPrefix(items, rank, x, i, id);
  }

  // ---------------------------------------------------------------------------------------------
  // What is found and what is refused, in terms of the assets
  // ---------------------------------------------------------------------------------------------

  predicate Word(r: string) {
    && r != "" && 'a' <= r[0] <= 'z'
    && forall i | 0 <= i < |r| :: 'a' <= r[i] <= 'z' || '0' <= r[i] <= '9' || r[i] == '-'
  }

  predicate OneLine(r: string) {
    forall i | 0 <= i < |r| :: r[i] != '\n' && r[i] != '\r' && r[i] != '\U{2028}' && r[i] != '\U{2029}'
  }

  /** Which names are taken for migrations, and which of these are valid. */
  lemma NamesByParts(p: string, r: string)
    requires |p| == 14
    ensures IsSqlName(p + "-" + r + ".sql") <==> Digits(p) && OneLine(r)
    ensures ValidName(p + "-" + r + ".sql") <==> Digits(p) && Word(r)
  {
    var name := p + "-" + r + ".sql";
    assert name[..14] == p && name[14] == '-' && name[|name| - 4..] == ".sql";
    assert forall i | 0 <= i < |r| :: name[15 + i] == r[i];
    assert forall i | 15 <= i < |name| - 4 :: name[i] == r[i - 15];
    if Digits(p) && Word(r) {
      assert forall i | 15 <= i < |name| - 4 :: Lower(name[i]) || Digit(name[i]) || name[i] == '-';
    }
    if ValidName(name) {
      assert r[0] == name[15];
    }
  }

  lemma NamesHaveParts(name: string)
    requires IsSqlName(name)
    ensures name == name[..14] + "-" + name[15..|name| - 4] + ".sql"
  {
  }

  /** A file taken for a migration is valid, readable, declares something and has its check; its prefix is
      a date and time there is. */
  predicate SoundFile(e: Node) {
    IsSqlName(e.name) ==>
      ValidName(e.name) && e.File? && e.declaration.Some? && e.check && Civil(FieldsOf(e.name[..14]))
  }

  /** No links, a component name where there are migrations, sound files, and the same below, except in
      directories of checks. */
  predicate SoundDirectory(directory: Node)
    requires directory.Directory?
    decreases directory
  {
    var entries := directory.entries;
    && (forall e <- entries :: !e.Link?)
    && ((exists e <- entries :: IsSqlName(e.name)) ==> directory.component.Some?)
    && (forall e <- entries :: SoundFile(e))
    && forall e <- entries :: e.Directory? && e.name != "checks" ==> SoundDirectory(e)
  }

  lemma {:induction false} FilesAreSound(entries: seq<Node>)
    ensures FilesFaults(entries) == {} <==> forall e <- entries :: SoundFile(e)
  {
    if entries != [] {
      var front, e := entries[..|entries| - 1], entries[|entries| - 1];
      FilesAreSound(front);
      assert entries == front + [e];
      FileIsSound(e);
    }
  }

  lemma FileIsSound(e: Node)
    ensures FileFaults(e) == {} <==> SoundFile(e)
  {
    FileFaultsAre(e, FileName);
    FileFaultsAre(e, Timestamp);
    FileFaultsAre(e, Asset);
    assert forall f <- FileFaults(e) :: f in {FileName, Timestamp, Asset};
  }

  /** The loader finds nothing wrong exactly with a sound directory. */
  lemma {:induction false} FaultlessIsSound(directory: Node)
    requires directory.Directory?
    ensures Faults(directory) == {} <==> SoundDirectory(directory)
    decreases directory, 1
  {
    FilesAreSound(directory.entries);
    BelowIsSound(directory, directory.entries);
    assert SymbolicLink in Faults(directory) || !HasLink(directory.entries);
    assert Component in Faults(directory) || !(HasSql(directory.entries) && directory.component.None?);
  }

  lemma {:induction false} BelowIsSound(directory: Node, entries: seq<Node>)
    requires directory.Directory? && forall e <- entries :: e in directory.entries
    ensures BelowFaults(entries) == {} <==> forall e <- entries :: e.Directory? && e.name != "checks" ==> SoundDirectory(e)
    decreases directory, 0, |entries|
  {
    if entries != [] {
      var front, e := entries[..|entries| - 1], entries[|entries| - 1];
      assert entries == front + [e];
      BelowIsSound(directory, front);
      assert e in directory.entries;
      if Scanned(e) {
        FaultlessIsSound(e);
      }
    }
  }

  /** Which fault a file can be refused with. */
  lemma FileFaultsAre(e: Node, f: Failure)
    ensures f in FileFaults(e) <==>
            IsSqlName(e.name)
            && ((f == FileName && !ValidName(e.name)) || (f == Timestamp && !Civil(FieldsOf(e.name[..14])))
                || (f == Asset && !(e.File? && e.declaration.Some? && e.check)))
  {
    if IsSqlName(e.name) {
      AcceptsExactlyCivil(FieldsOf(e.name[..14]));
    }
  }

  /** And a directory: for a link, for migrations without a component name, for one of its files, or for a
      directory in it that is not one of checks. */
  lemma FaultsAre(directory: Node, f: Failure)
    requires directory.Directory?
    ensures f in Faults(directory) <==>
            || (f == SymbolicLink && exists e <- directory.entries :: e.Link?)
            || (f == Component && directory.component.None? && exists e <- directory.entries :: IsSqlName(e.name))
            || (exists e <- directory.entries :: f in FileFaults(e))
            || (exists e <- directory.entries :: e.Directory? && e.name != "checks" && f in Faults(e))
  {
    FaultsOfEntries(directory.entries, f);
  }

  lemma {:induction false} FaultsOfEntries(entries: seq<Node>, f: Failure)
    ensures f in FilesFaults(entries) <==> exists e <- entries :: f in FileFaults(e)
    ensures f in BelowFaults(entries) <==> exists e <- entries :: Scanned(e) && f in Faults(e)
  {
    if entries != [] {
      FaultsOfEntries(entries[..|entries| - 1], f);
      assert entries == entries[..|entries| - 1] + [entries[|entries| - 1]];
    }
  }

  /** What is kept of a file: its id from component and name, its name from id and time, the phase and
      dependencies it declares, and whether the baseline lists it. */
  predicate MadeFrom(x: Item, e: Node, component: string, baseline: seq<string>) {
    && IsSqlName(e.name) && e.File? && e.declaration.Some? && Civil(FieldsOf(e.name[..14]))
    && x.prefix == e.name[..14] && x.dependsOn == e.declaration.value.dependsOn
    && x.migration.id == component + "." + e.name[..|e.name| - 4]
    && x.migration.name == x.migration.id + "_" + TimeText(TimeValue(FieldsOf(x.prefix)))
    && x.migration.phase == e.declaration.value.phase
    && (x.migration.baseline <==> x.migration.id in baseline)
  }

  /** How many files of a directory and those below make an item. */
  function Occurs(directory: Node, x: Item, baseline: seq<string>): nat
    requires directory.Directory?
    decreases directory, 0
  {
    OccursIn(directory.entries, directory.component, x, baseline)
  }

  function OccursIn(entries: seq<Node>, component: Option<string>, x: Item, baseline: seq<string>): nat
    decreases entries
  {
    if entries == [] then 0
    else
      var e := entries[|entries| - 1];
      OccursIn(entries[..|entries| - 1], component, x, baseline)
      + (if component.Some? && MadeFrom(x, e, component.value, baseline) then 1 else 0)
      + if e.Directory? && e.name != "checks" then Occurs(e, x, baseline) else 0
  }

  lemma OneItem(e: Node, component: string, baseline: seq<string>, x: Item)
    requires FileFaults(e) == {} && IsSqlName(e.name)
    ensures ItemOf(e, component, baseline) == x <==> MadeFrom(x, e, component, baseline)
  {
    FileIsSound(e);
    assert Parse(FieldsOf(e.name[..14])).value == TimeValue(FieldsOf(e.name[..14]));
  }

  lemma OneMoreItem(items: seq<Item>, item: Item, x: Item)
    ensures multiset(items + [item])[x] == multiset(items)[x] + if item == x then 1 else 0
  {
  }

  lemma MoreItems(a: seq<Item>, b: seq<Item>, x: Item)
    ensures multiset(a + b)[x] == multiset(a)[x] + multiset(b)[x]
  {
  }

  /** How many of the files listed make an item. */
  function Files(entries: seq<Node>, component: string, x: Item, baseline: seq<string>): nat {
    if entries == [] then 0
    else
      Files(entries[..|entries| - 1], component, x, baseline)
      + if MadeFrom(x, entries[|entries| - 1], component, baseline) then 1 else 0
  }

  function Below(entries: seq<Node>, x: Item, baseline: seq<string>): nat
    decreases entries
  {
    if entries == [] then 0
    else
      var e := entries[|entries| - 1];
      Below(entries[..|entries| - 1], x, baseline) + if e.Directory? && e.name != "checks" then Occurs(e, x, baseline) else 0
  }

  lemma {:induction false} OccursByKind(entries: seq<Node>, component: Option<string>, x: Item, baseline: seq<string>)
    ensures OccursIn(entries, component, x, baseline)
         == (if component.Some? then Files(entries, component.value, x, baseline) else 0) + Below(entries, x, baseline)
  {
    if entries != [] {
      OccursByKind(entries[..|entries| - 1], component, x, baseline);
    }
  }

  lemma {:induction false} FileItemsCount(entries: seq<Node>, component: string, baseline: seq<string>, x: Item)
    requires FilesFaults(entries) == {}
    ensures multiset(FileItems(entries, component, baseline))[x] == Files(entries, component, x, baseline)
  {
    if entries != [] {
      var front, e := entries[..|entries| - 1], entries[|entries| - 1];
      FileItemsCount(front, component, baseline, x);
      if IsSqlName(e.name) {
        OneItem(e, component, baseline, x);
        OneMoreItem(FileItems(front, component, baseline), ItemOf(e, component, baseline), x);
      } else {
        assert FileItems(entries, component, baseline) == FileItems(front, component, baseline);
      }
    }
  }

  /** The loader finds each migration as often as there are files that make it. */
  lemma {:induction false} ItemsAreFound(directory: Node, baseline: seq<string>, x: Item)
    requires directory.Directory? && Faults(directory) == {}
    ensures multiset(Items(directory, baseline))[x] == Occurs(directory, x, baseline)
    decreases directory, 1
  {
    var entries, component := directory.entries, directory.component;
    OccursByKind(entries, component, x, baseline);
    BelowItemsCount(directory, entries, baseline, x);
    var own := if HasSql(entries) then FileItems(entries, component.value, baseline) else [];
    MoreItems(own, BelowItems(entries, baseline), x);
    if HasSql(entries) {
      FileItemsCount(entries, component.value, baseline, x);
    } else if component.Some? {
      NoSqlNoFiles(entries, component.value, x, baseline);
    }
  }

  lemma {:induction false} NoSqlNoFiles(entries: seq<Node>, component: string, x: Item, baseline: seq<string>)
    requires !HasSql(entries)
    ensures Files(entries, component, x, baseline) == 0
  {
    if entries != [] {
      var front, e := entries[..|entries| - 1], entries[|entries| - 1];
      assert entries == front + [e];
      assert e in entries && forall f <- front :: f in entries;
      NoSqlNoFiles(front, component, x, baseline);
    }
  }

  lemma {:induction false} BelowItemsCount(directory: Node, entries: seq<Node>, baseline: seq<string>, x: Item)
    requires directory.Directory? && (forall e <- entries :: e in directory.entries) && BelowFaults(entries) == {}
    ensures multiset(BelowItems(entries, baseline))[x] == Below(entries, x, baseline)
    decreases directory, 0, |entries|
  {
    if entries != [] {
      var front, e := entries[..|entries| - 1], entries[|entries| - 1];
      assert entries == front + [e];
      BelowItemsCount(directory, front, baseline, x);
      assert e in directory.entries;
      if Scanned(e) {
        ItemsAreFound(e, baseline, x);
        MoreItems(BelowItems(front, baseline), Items(e, baseline), x);
      } else {
        assert BelowItems(entries, baseline) == BelowItems(front, baseline);
      }
    }
  }

  /** What the checks over the sorted array demand: no id twice, every baseline id there, and every
      dependency of every migration earlier in the array and not in a later phase. */
  lemma CheckedMeans(ms: seq<Migration>, items: seq<Item>, baseline: seq<string>)
    requires multiset(ms) == multiset(MigrationsOf(items))
    ensures Checked(ms, WithAll(map[], items), baseline) <==>
            && (forall i, j | 0 <= i < j < |ms| :: ms[i].id != ms[j].id)
            && (forall id <- baseline :: exists m <- ms :: m.id == id)
            && forall x <- items, id <- x.dependsOn :: HasPlace(ms, x.migration, id)
  {
    var g := WithAll(map[], items);
    assert NoDuplicates(Ids(ms)) <==> forall i, j | 0 <= i < j < |ms| :: ms[i].id != ms[j].id by {
      assert forall i | 0 <= i < |ms| :: Ids(ms)[i] == ms[i].id;
    }
    forall id: string
      ensures id in Ids(ms) <==> exists m <- ms :: m.id == id
    {
      if id in Ids(ms) {
        var i :| 0 <= i < |ms| && Ids(ms)[i] == id;
        assert ms[i] in ms;
      }
      if m :| m in ms && m.id == id {
        var i :| 0 <= i < |ms| && ms[i] == m;
        assert Ids(ms)[i] == id;
      }
    }
    if NoDuplicates(Ids(ms)) {
      SameIds(ms, MigrationsOf(items));
      DistinctByCount(ms, MigrationsOf(items));
      PlacesMean(ms, items);
    }
  }

  /** m stands behind a migration of this id that is not in a later phase. */
  predicate HasPlace(ms: seq<Migration>, m: Migration, id: string) {
    exists i | 0 <= i < |ms| :: ms[i] == m && exists j | 0 <= j < i :: ms[j].id == id && !(m.phase == BeforeSync && ms[j].phase == AfterSync)
  }

  lemma PlacesMean(ms: seq<Migration>, items: seq<Item>)
    requires multiset(ms) == multiset(MigrationsOf(items))
    requires NoDuplicates(Ids(ms)) && NoDuplicates(Ids(MigrationsOf(items)))
    ensures AllPlaced(ms, WithAll(map[], items)) <==> forall x <- items, id <- x.dependsOn :: HasPlace(ms, x.migration, id)
  {
    if AllPlaced(ms, WithAll(map[], items)) {
      forall x <- items, id <- x.dependsOn
        ensures HasPlace(ms, x.migration, id)
      {
        PlacedHasPlace(ms, items, x, id);
      }
    }
    if forall x <- items, id <- x.dependsOn :: HasPlace(ms, x.migration, id) {
      forall i | 0 <= i < |ms|
        ensures Placed(ms, WithAll(map[], items), i)
      {
        PlacesArePlaced(ms, items, i);
      }
    }
  }

  lemma PlacedHasPlace(ms: seq<Migration>, items: seq<Item>, x: Item, id: string)
    requires multiset(ms) == multiset(MigrationsOf(items)) && NoDuplicates(Ids(MigrationsOf(items)))
    requires AllPlaced(ms, WithAll(map[], items)) && x in items && id in x.dependsOn
    ensures HasPlace(ms, x.migration, id)
  {
    WithAllSets(items);
    var k :| 0 <= k < |items| && items[k] == x;
    assert MigrationsOf(items)[k] == x.migration;
    assert x.migration in multiset(ms);
    var i :| 0 <= i < |ms| && ms[i] == x.migration;
    assert Placed(ms, WithAll(map[], items), i) && id in G.Needs(WithAll(map[], items), ms[i].id);
    assert PlacedBefore(ms, i, id);
  }

  lemma PlacesArePlaced(ms: seq<Migration>, items: seq<Item>, i: nat)
    requires multiset(ms) == multiset(MigrationsOf(items)) && i < |ms|
    requires NoDuplicates(Ids(ms)) && NoDuplicates(Ids(MigrationsOf(items)))
    requires forall x <- items, id <- x.dependsOn :: HasPlace(ms, x.migration, id)
    ensures Placed(ms, WithAll(map[], items), i)
  {
    WithAllSets(items);
    assert ms[i] in multiset(MigrationsOf(items));
    var k :| 0 <= k < |items| && MigrationsOf(items)[k] == ms[i];
    assert items[k] in items && G.Needs(WithAll(map[], items), ms[i].id) == items[k].dependsOn;
    forall id <- items[k].dependsOn
      ensures PlacedBefore(ms, i, id)
    {
      assert HasPlace(ms, items[k].migration, id);
      var h :| 0 <= h < |ms| && ms[h] == ms[i]
               && exists j | 0 <= j < h :: ms[j].id == id && !(ms[i].phase == BeforeSync && ms[j].phase == AfterSync);
      assert Ids(ms)[h] == Ids(ms)[i];
      assert h == i;
    }
  }
}
