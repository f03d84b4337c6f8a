/** The assistant list of the desktop client: rows placed under pinned, a section of the sidebar, their
    business area, or none. */
module AssistantList {
  import opened Basics
  import StableSort

  datatype Area = Area(id: string, name: string)

  /** A moment as the data gives it: absent, not a date, or milliseconds. */
  datatype Moment = Absent | NotADate | At(time: int)

  datatype Row = Row(bot: string, area: Option<Area>, pinned: bool, sectionId: Option<string>, latest: Moment, created: Moment)

  datatype Section = Section(id: string, name: string)

  datatype Kind = Pinned | Custom | Domain | Unassigned

  datatype Group = Group(kind: Kind, id: string, name: string, rows: seq<Row>)

  /** Where a row belongs: the kind and the id of its group. */
  datatype Home = Home(kind: Kind, id: string)

  predicate InSection(row: Row, s: Section) {
    row.sectionId == Some(s.id)
  }

  predicate InSomeSection(row: Row, sections: seq<Section>) {
    exists s <- sections :: InSection(row, s)
  }

  predicate Automatic(row: Row, sections: seq<Section>) {
    !row.pinned && !InSomeSection(row, sections)
  }

  function HomeOf(row: Row, sections: seq<Section>): Home {
    if row.pinned then Home(Pinned, "pinned")
    else if InSomeSection(row, sections) then Home(Custom, row.sectionId.value)
    else if row.area.Some? then Home(Domain, "domain:" + row.area.value.id)
    else Home(Unassigned, "")
  }

  function GroupHome(g: Group): Home {
    Home(g.kind, g.id)
  }

  /** The rows of one home, in their order. */
  function Of(rows: seq<Row>, sections: seq<Section>, home: Home): (r: seq<Row>)
    ensures forall x <- r :: x in rows && HomeOf(x, sections) == home
  {
    if rows == [] then []
    else
      var last := rows[|rows| - 1];
      Of(rows[..|rows| - 1], sections, home) + if HomeOf(last, sections) == home then [last] else []
  }

  lemma OfAppend(rows: seq<Row>, row: Row, sections: seq<Section>, home: Home)
    ensures Of(rows + [row], sections, home)
         == var r := Of(rows, sections, home); if HomeOf(row, sections) == home then r + [row] else r
  {
  }

  lemma {:induction false} OfHas(rows: seq<Row>, sections: seq<Section>, row: Row)
    requires row in rows
    ensures row in Of(rows, sections, HomeOf(row, sections))
  {
    var front, last := rows[..|rows| - 1], rows[|rows| - 1];
    assert rows == front + [last];
    if row in front {
      OfHas(front, sections, row);
    }
  }

  // ---------------------------------------------------------------------------------------------
  // The groups
  // ---------------------------------------------------------------------------------------------

  function DomainId(area: Area): string {
    "domain:" + area.id
  }

  predicate Listed(areas: seq<Area>, id: string) {
    exists a <- areas :: a.id == id
  }

  /** The areas of the automatic rows, each id as it first appears. */
  function Areas(rows: seq<Row>, sections: seq<Section>): seq<Area> {
    if rows == [] then []
    else
      var areas, last := Areas(rows[..|rows| - 1], sections), rows[|rows| - 1];
      if Automatic(last, sections) && last.area.Some? && !Listed(areas, last.area.value.id)
      then areas + [last.area.value] else areas
  }

  function DomainGroup(area: Area, rows: seq<Row>, sections: seq<Section>): Group {
    Group(Domain, DomainId(area), area.name, Of(rows, sections, Home(Domain, DomainId(area))))
  }

  function DomainGroups(areas: seq<Area>, rows: seq<Row>, sections: seq<Section>): (gs: seq<Group>)
    ensures |gs| == |areas| && forall i | 0 <= i < |gs| :: gs[i] == DomainGroup(areas[i], rows, sections)
  {
    seq(|areas|, i requires 0 <= i < |areas| => DomainGroup(areas[i], rows, sections))
  }

  function SectionGroup(s: Section, rows: seq<Row>, sections: seq<Section>): Group {
    Group(Custom, s.id, s.name, Of(rows, sections, Home(Custom, s.id)))
  }

  function SectionGroups(some: seq<Section>, rows: seq<Row>, sections: seq<Section>): (gs: seq<Group>)
    ensures |gs| == |some| && forall i | 0 <= i < |gs| :: gs[i] == SectionGroup(some[i], rows, sections)
  {
    seq(|some|, i requires 0 <= i < |some| => SectionGroup(some[i], rows, sections))
  }

  /** Domain groups by name, then by id, in the collation order. */
  function ByName(rank: string -> int): (Group, Group) -> bool {
    (a: Group, b: Group) => rank(a.name) < rank(b.name) || (rank(a.name) == rank(b.name) && rank(a.id) < rank(b.id))
  }

  function NonEmpty(groups: seq<Group>): seq<Group> {
    if groups == [] then []
    else
      var last := groups[|groups| - 1];
      NonEmpty(groups[..|groups| - 1]) + if last.rows != [] then [last] else []
  }

  lemma NonEmptyAppend(groups: seq<Group>, g: Group)
    ensures NonEmpty(groups + [g]) == if g.rows != [] then NonEmpty(groups) + [g] else NonEmpty(groups)
  {
  }

  function AllGroups(rows: seq<Row>, sections: seq<Section>, rank: string -> int): seq<Group> {
    [Group(Pinned, "pinned", "Pinned assistants", Of(rows, sections, Home(Pinned, "pinned")))]
    + SectionGroups(sections, rows, sections)
    + StableSort.Sort(DomainGroups(Areas(rows, sections), rows, sections), ByName(rank))
    + [Group(Unassigned, "", "Unassigned", Of(rows, sections, Home(Unassigned, "")))]
  }

  function Groups(rows: seq<Row>, sections: seq<Section>, rank: string -> int): seq<Group> {
    NonEmpty(AllGroups(rows, sections, rank))
  }

  // ---------------------------------------------------------------------------------------------
  // The function of the client
  // ---------------------------------------------------------------------------------------------

  function Where(rows: seq<Row>, p: Row -> bool): seq<Row> {
    if rows == [] then []
    else Where(rows[..|rows| - 1], p) + if p(rows[|rows| - 1]) then [rows[|rows| - 1]] else []
  }

  function AutomaticRows(rows: seq<Row>, sections: seq<Section>): seq<Row> {
    Where(rows, (row: Row) => Automatic(row, sections))
  }

  lemma {:induction false} WhereIsOf(rows: seq<Row>, p: Row -> bool, sections: seq<Section>, home: Home)
    requires forall row <- rows :: p(row) <==> HomeOf(row, sections) == home
    ensures Where(rows, p) == Of(rows, sections, home)
  {
    if rows != [] {
      var front := rows[..|rows| - 1];
      assert forall row <- front :: row in rows;
      assert rows[|rows| - 1] in rows;
      WhereIsOf(front, p, sections, home);
    }
  }

  lemma AutomaticAppend(rows: seq<Row>, row: Row, sections: seq<Section>)
    ensures AutomaticRows(rows + [row], sections)
         == var r := AutomaticRows(rows, sections); if Automatic(row, sections) then r + [row] else r
  {
  }

  lemma AreasAppend(rows: seq<Row>, row: Row, sections: seq<Section>)
    ensures Areas(rows + [row], sections)
         == var areas := Areas(rows, sections);
            if Automatic(row, sections) && row.area.Some? && !Listed(areas, row.area.value.id)
            then areas + [row.area.value] else areas
  {
  }

  lemma {:induction false} AutomaticKeeps(rows: seq<Row>, sections: seq<Section>, home: Home)
    requires home.kind in {Domain, Unassigned}
    ensures Of(AutomaticRows(rows, sections), sections, home) == Of(rows, sections, home)
    ensures Areas(AutomaticRows(rows, sections), sections) == Areas(rows, sections)
    ensures forall row <- AutomaticRows(rows, sections) :: Automatic(row, sections)
  {
    if rows != [] {
      var front, last := rows[..|rows| - 1], rows[|rows| - 1];
      AutomaticKeeps(front, sections, home);
      assert rows == front + [last];
      AutomaticAppend(front, last, sections);
      OfAppend(front, last, sections, home);
      AreasAppend(front, last, sections);
      if Automatic(last, sections) {
        OfAppend(AutomaticRows(front, sections), last, sections, home);
        AreasAppend(AutomaticRows(front, sections), last, sections);
      }
    }
  }

  /** The group of an area among those made so far, or -1: the lookup of the map by area id. */
  function FindDomain(domains: seq<Group>, id: string): (k: int)
    ensures -1 <= k < |domains|
    ensures k >= 0 ==> domains[k].id == id
    ensures k == -1 ==> forall g <- domains :: g.id != id
  {
    if domains == [] then -1
    else if domains[|domains| - 1].id == id then |domains| - 1
    else FindDomain(domains[..|domains| - 1], id)
  }

  lemma DomainIdsDiffer(a: string, b: string)
    ensures "domain:" + a == "domain:" + b <==> a == b
  {
    assert ("domain:" + a)[7..] == a && ("domain:" + b)[7..] == b;
  }

  ghost predicate DistinctAreas(areas: seq<Area>) {
    forall i, j | 0 <= i < j < |areas| :: areas[i].id != areas[j].id
  }

  lemma {:induction false} AreasAreDistinct(rows: seq<Row>, sections: seq<Section>)
    ensures DistinctAreas(Areas(rows, sections))
  {
    if rows != [] {
      AreasAreDistinct(rows[..|rows| - 1], sections);
    }
  }

  lemma {:induction false} AreaIsListed(rows: seq<Row>, sections: seq<Section>, row: Row)
    requires row in rows && Automatic(row, sections) && row.area.Some?
    ensures Listed(Areas(rows, sections), row.area.value.id)
  {
    var front, last := rows[..|rows| - 1], rows[|rows| - 1];
    assert rows == front + [last];
    var areas := Areas(front, sections);
    if row in front {
      AreaIsListed(front, sections, row);
      var a :| a in areas && a.id == row.area.value.id;
      assert a in Areas(rows, sections);
    } else if !Listed(areas, row.area.value.id) {
      assert row.area.value in Areas(rows, sections);
    }
  }

  lemma UnlistedIsEmpty(rows: seq<Row>, sections: seq<Section>, area: Area)
    requires !Listed(Areas(rows, sections), area.id)
    ensures Of(rows, sections, Home(Domain, DomainId(area))) == []
  {
    var r := Of(rows, sections, Home(Domain, DomainId(area)));
    if r != [] {
      var row := r[0];
      assert row in r;
      assert HomeOf(row, sections) == Home(Domain, DomainId(area));
      DomainIdsDiffer(row.area.value.id, area.id);
      AreaIsListed(rows, sections, row);
    }
  }

  /** A row of a listed area joins the group of that area and no other. */
  lemma JoinDomain(rows: seq<Row>, sections: seq<Section>, row: Row, k: nat)
    requires Automatic(row, sections) && row.area.Some?
    requires k < |Areas(rows, sections)| && Areas(rows, sections)[k].id == row.area.value.id
    ensures var gs := DomainGroups(Areas(rows, sections), rows, sections);
            DomainGroups(Areas(rows + [row], sections), rows + [row], sections) == gs[k := gs[k].(rows := gs[k].rows + [row])]
  {
    var areas := Areas(rows, sections);
    assert (rows + [row])[..|rows|] == rows;
    assert areas[k] in areas;
    assert Areas(rows + [row], sections) == areas;
    AreasAreDistinct(rows, sections);
    forall i | 0 <= i < |areas|
      ensures DomainGroup(areas[i], rows + [row], sections)
           == if i == k then DomainGroup(areas[i], rows, sections).(rows := DomainGroup(areas[i], rows, sections).rows + [row])
              else DomainGroup(areas[i], rows, sections)
    {
      OfAppend(rows, row, sections, Home(Domain, DomainId(areas[i])));
      DomainIdsDiffer(areas[i].id, row.area.value.id);
    }
  }

  lemma OtherDomain(rows: seq<Row>, sections: seq<Section>, row: Row, area: Area)
    requires Automatic(row, sections) && row.area.Some? && area.id != row.area.value.id
    ensures DomainGroup(area, rows + [row], sections) == DomainGroup(area, rows, sections)
  {
    OfAppend(rows, row, sections, Home(Domain, DomainId(area)));
    DomainIdsDiffer(area.id, row.area.value.id);
  }

  lemma FirstOfDomain(rows: seq<Row>, sections: seq<Section>, row: Row)
    requires Automatic(row, sections) && row.area.Some? && !Listed(Areas(rows, sections), row.area.value.id)
    ensures var area := row.area.value; DomainGroup(area, rows + [row], sections) == Group(Domain, DomainId(area), area.name, [row])
  {
    UnlistedIsEmpty(rows, sections, row.area.value);
    OfAppend(rows, row, sections, Home(Domain, DomainId(row.area.value)));
  }

  lemma NewDomain(rows: seq<Row>, sections: seq<Section>, row: Row)
    requires Automatic(row, sections) && row.area.Some? && !Listed(Areas(rows, sections), row.area.value.id)
    ensures DomainGroups(Areas(rows + [row], sections), rows + [row], sections)
         == DomainGroups(Areas(rows, sections), rows, sections)
            + [Group(Domain, DomainId(row.area.value), row.area.value.name, [row])]
  {
    var areas := Areas(rows, sections);
    AreasAppend(rows, row, sections);
    forall i | 0 <= i < |areas|
      ensures DomainGroup(areas[i], rows + [row], sections) == DomainGroup(areas[i], rows, sections)
    {
      assert areas[i] in areas;
      OtherDomain(rows, sections, row, areas[i]);
    }
    FirstOfDomain(rows, sections, row);
  }

  lemma NoArea(rows: seq<Row>, sections: seq<Section>, row: Row)
    requires Automatic(row, sections) && row.area.None?
    ensures DomainGroups(Areas(rows + [row], sections), rows + [row], sections) == DomainGroups(Areas(rows, sections), rows, sections)
  {
    var areas := Areas(rows, sections);
    assert (rows + [row])[..|rows|] == rows;
    forall i | 0 <= i < |areas|
      ensures DomainGroup(areas[i], rows + [row], sections) == DomainGroup(areas[i], rows, sections)
    {
      OfAppend(rows, row, sections, Home(Domain, DomainId(areas[i])));
    }
  }

  lemma FoundIsListed(areas: seq<Area>, rows: seq<Row>, sections: seq<Section>, area: Area)
    ensures var k := FindDomain(DomainGroups(areas, rows, sections), DomainId(area));
            if Listed(areas, area.id) then k >= 0 && areas[k].id == area.id else k == -1
  {
    var gs := DomainGroups(areas, rows, sections);
    var k := FindDomain(gs, DomainId(area));
    if Listed(areas, area.id) {
      var i :| 0 <= i < |areas| && areas[i].id == area.id;
      assert gs[i] in gs && gs[i].id == DomainId(area);
    }
    if k >= 0 {
      DomainIdsDiffer(areas[k].id, area.id);
      assert areas[k] in areas;
    }
  }

  /** Rows taken in so far, by area and without one. */
  ghost predicate Grouped(rows: seq<Row>, sections: seq<Section>, domains: seq<Group>, unassigned: seq<Row>) {
    && domains == DomainGroups(Areas(rows, sections), rows, sections)
    && unassigned == Of(rows, sections, Home(Unassigned, ""))
  }

  lemma GroupedJoin(rows: seq<Row>, sections: seq<Section>, domains: seq<Group>, unassigned: seq<Row>, row: Row, k: nat)
    requires Grouped(rows, sections, domains, unassigned) && Automatic(row, sections) && row.area.Some?
    requires k == FindDomain(domains, DomainId(row.area.value))
    ensures Grouped(rows + [row], sections, domains[k := domains[k].(rows := domains[k].rows + [row])], unassigned)
  {
    FoundIsListed(Areas(rows, sections), rows, sections, row.area.value);
    JoinDomain(rows, sections, row, k);
    OfAppend(rows, row, sections, Home(Unassigned, ""));
  }

  lemma GroupedNew(rows: seq<Row>, sections: seq<Section>, domains: seq<Group>, unassigned: seq<Row>, row: Row)
    requires Grouped(rows, sections, domains, unassigned) && Automatic(row, sections) && row.area.Some?
    requires FindDomain(domains, DomainId(row.area.value)) < 0
    ensures Grouped(rows + [row], sections,
                    domains + [Group(Domain, DomainId(row.area.value), row.area.value.name, [row])], unassigned)
  {
    FoundIsListed(Areas(rows, sections), rows, sections, row.area.value);
    NewDomain(rows, sections, row);
    OfAppend(rows, row, sections, Home(Unassigned, ""));
  }

  lemma GroupedWithout(rows: seq<Row>, sections: seq<Section>, domains: seq<Group>, unassigned: seq<Row>, row: Row)
    requires Grouped(rows, sections, domains, unassigned) && Automatic(row, sections) && row.area.None?
    ensures Grouped(rows + [row], sections, domains, unassigned + [row])
  {
    NoArea(rows, sections, row);
    OfAppend(rows, row, sections, Home(Unassigned, ""));
  }

  /** The automatic rows by business area, and those without one. */
  method ByArea(automatic: seq<Row>, ghost sections: seq<Section>) returns (domains: seq<Group>, unassigned: seq<Row>)
    requires forall row <- automatic :: Automatic(row, sections)
    ensures domains == DomainGroups(Areas(automatic, sections), automatic, sections)
    ensures unassigned == Of(automatic, sections, Home(Unassigned, ""))
  {
    domains, unassigned := [], [];
    var n := 0;
    while n < |automatic|
      invariant 0 <= n <= |automatic|
      invariant Grouped(automatic[..n], sections, domains, unassigned)
    {
      var row := automatic[n];
      ghost var before := automatic[..n];
      assert automatic[..n + 1] == before + [row];
      if row.area.Some? {
        var area := row.area.value;
        var k := FindDomain(domains, DomainId(area));
        if k >= 0 {
          GroupedJoin(before, sections, domains, unassigned, row, k);
          domains := domains[k := domains[k].(rows := domains[k].rows + [row])];
        } else {
          GroupedNew(before, sections, domains, unassigned, row);
          domains := domains + [Group(Domain, DomainId(area), area.name, [row])];
        }
      } else {
        GroupedWithout(before, sections, domains, unassigned, row);
        unassigned := unassigned + [row];
      }
      n := n + 1;
    }
    assert automatic[..n] == automatic;
  }

  lemma DomainsOfAutomatic(rows: seq<Row>, sections: seq<Section>)
    ensures var automatic := AutomaticRows(rows, sections);
            DomainGroups(Areas(automatic, sections), automatic, sections) == DomainGroups(Areas(rows, sections), rows, sections)
  {
    var automatic := AutomaticRows(rows, sections);
    AutomaticKeeps(rows, sections, Home(Unassigned, ""));
    var areas := Areas(rows, sections);
    forall i | 0 <= i < |areas|
      ensures DomainGroup(areas[i], automatic, sections) == DomainGroup(areas[i], rows, sections)
    {
      AutomaticKeeps(rows, sections, Home(Domain, DomainId(areas[i])));
    }
  }

  predicate IsPinned(row: Row) {
    row.pinned
  }

  function RowsOfSection(rows: seq<Row>, s: Section): seq<Row> {
    Where(rows, ListedUnder(s))
  }

  function ListedUnder(s: Section): Row -> bool {
    (row: Row) => !row.pinned && InSection(row, s)
  }

  lemma SectionRows(rows: seq<Row>, sections: seq<Section>, s: Section)
    requires s in sections
    ensures RowsOfSection(rows, s) == Of(rows, sections, Home(Custom, s.id))
  {
  }

  /** The groups shown: what the loop and the filters make is what the homes say. */
  method AssistantGroups(rows: seq<Row>, sections: seq<Section>, rank: string -> int) returns (groups: seq<Group>)
    ensures groups == Groups(rows, sections, rank)
  {
    var automatic := AutomaticRows(rows, sections);
    AutomaticKeeps(rows, sections, Home(Unassigned, ""));
    var domains, unassigned := ByArea(automatic, sections);
    DomainsOfAutomatic(rows, sections);
    WhereIsOf(rows, IsPinned, sections, Home(Pinned, "pinned"));
    var custom := seq(|sections|, i requires 0 <= i < |sections| =>
                        Group(Custom, sections[i].id, sections[i].name, RowsOfSection(rows, sections[i])));
    forall i | 0 <= i < |sections|
      ensures custom[i] == SectionGroup(sections[i], rows, sections)
    {
      SectionRows(rows, sections, sections[i]);
    }
    assert custom == SectionGroups(sections, rows, sections);
    groups := NonEmpty([Group(Pinned, "pinned", "Pinned assistants", Where(rows, IsPinned))]
                       + custom
                       + StableSort.Sort(domains, ByName(rank))
                       + [Group(Unassigned, "", "Unassigned", unassigned)]);
  }

  // ---------------------------------------------------------------------------------------------
  // Where every row is shown
  // ---------------------------------------------------------------------------------------------

  /** How many groups have a home. */
  function CountHome(groups: seq<Group>, home: Home): nat {
    if groups == [] then 0
    else CountHome(groups[..|groups| - 1], home) + if GroupHome(groups[|groups| - 1]) == home then 1 else 0
  }

  lemma {:induction false} CountConcat(a: seq<Group>, b: seq<Group>, home: Home)
    ensures CountHome(a + b, home) == CountHome(a, home) + CountHome(b, home)
  {
    if b == [] {
      assert a + b == a;
    } else {
      assert (a + b)[..|a + b| - 1] == a + b[..|b| - 1];
      CountConcat(a, b[..|b| - 1], home);
    }
  }

  lemma {:induction false} CountInsert(s: seq<Group>, g: Group, before: (Group, Group) -> bool, home: Home)
    ensures CountHome(StableSort.Insert(s, g, before), home) == CountHome(s, home) + if GroupHome(g) == home then 1 else 0
  {
    if s == [] || !before(g, s[|s| - 1]) {
      assert (s + [g])[..|s|] == s;
    } else {
      var front, last := s[..|s| - 1], s[|s| - 1];
      CountInsert(front, g, before, home);
      var r := StableSort.Insert(front, g, before);
      assert (r + [last])[..|r|] == r;
    }
  }

  lemma {:induction false} CountSort(s: seq<Group>, before: (Group, Group) -> bool, home: Home)
    ensures CountHome(StableSort.Sort(s, before), home) == CountHome(s, home)
  {
    if s != [] {
      CountSort(s[..|s| - 1], before, home);
      CountInsert(StableSort.Sort(s[..|s| - 1], before), s[|s| - 1], before, home);
    }
  }

  function SectionCount(some: seq<Section>, id: string): nat {
    if some == [] then 0 else SectionCount(some[..|some| - 1], id) + if some[|some| - 1].id == id then 1 else 0
  }

  lemma {:induction false} CountSections(some: seq<Section>, rows: seq<Row>, sections: seq<Section>, home: Home)
    ensures CountHome(SectionGroups(some, rows, sections), home) == if home.kind.Custom? then SectionCount(some, home.id) else 0
  {
    if some != [] {
      CountSections(some[..|some| - 1], rows, sections, home);
      var gs := SectionGroups(some, rows, sections);
      assert gs[..|gs| - 1] == SectionGroups(some[..|some| - 1], rows, sections);
    }
  }

  predicate IsDomainHome(areas: seq<Area>, home: Home) {
    home.kind.Domain? && exists a <- areas :: home.id == DomainId(a)
  }

  lemma {:induction false} CountDomains(areas: seq<Area>, rows: seq<Row>, sections: seq<Section>, home: Home)
    requires DistinctAreas(areas)
    ensures CountHome(DomainGroups(areas, rows, sections), home) == if IsDomainHome(areas, home) then 1 else 0
  {
    if areas != [] {
      var front, last := areas[..|areas| - 1], areas[|areas| - 1];
      assert areas == front + [last];
      CountDomains(front, rows, sections, home);
      var gs := DomainGroups(areas, rows, sections);
      assert gs[..|gs| - 1] == DomainGroups(front, rows, sections);
      assert IsDomainHome(areas, home) <==> IsDomainHome(front, home) || (home.kind.Domain? && home.id == DomainId(last));
      if IsDomainHome(front, home) && home.id == DomainId(last) {
        var i :| 0 <= i < |front| && home.id == DomainId(front[i]);
        assert areas[i] == front[i];
        DomainIdsDiffer(front[i].id, last.id);
      }
    }
  }

  lemma CountAll(rows: seq<Row>, sections: seq<Section>, rank: string -> int, home: Home)
    ensures CountHome(AllGroups(rows, sections, rank), home)
         == match home.kind
            case Pinned => if home.id == "pinned" then 1 else 0
            case Custom => SectionCount(sections, home.id)
            case Domain => if IsDomainHome(Areas(rows, sections), home) then 1 else 0
            case Unassigned => if home.id == "" then 1 else 0
  {
    var pinned := [Group(Pinned, "pinned", "Pinned assistants", Of(rows, sections, Home(Pinned, "pinned")))];
    var custom := SectionGroups(sections, rows, sections);
    var domains := DomainGroups(Areas(rows, sections), rows, sections);
    var unassigned := [Group(Unassigned, "", "Unassigned", Of(rows, sections, Home(Unassigned, "")))];
    var sorted := StableSort.Sort(domains, ByName(rank));
    CountOne(pinned[0], home);
    CountOne(unassigned[0], home);
    CountConcat(pinned + custom + sorted, unassigned, home);
    CountConcat(pinned + custom, sorted, home);
    CountConcat(pinned, custom, home);
    CountSections(sections, rows, sections, home);
    AreasAreDistinct(rows, sections);
    CountSort(domains, ByName(rank), home);
    CountDomains(Areas(rows, sections), rows, sections, home);
  }

  lemma CountOne(g: Group, home: Home)
    ensures CountHome([g], home) == if GroupHome(g) == home then 1 else 0
  {
  }

  /** How often the groups show a row. */
  function Times(groups: seq<Group>, x: Row): nat {
    if groups == [] then 0 else Times(groups[..|groups| - 1], x) + multiset(groups[|groups| - 1].rows)[x]
  }

  /** Each group holds the rows of its home. */
  ghost predicate HoldsHomes(groups: seq<Group>, rows: seq<Row>, sections: seq<Section>) {
    forall i | 0 <= i < |groups| :: groups[i].rows == Of(rows, sections, GroupHome(groups[i]))
  }

  lemma {:induction false} OfCount(rows: seq<Row>, sections: seq<Section>, home: Home, x: Row)
    ensures multiset(Of(rows, sections, home))[x] == if HomeOf(x, sections) == home then multiset(rows)[x] else 0
  {
    if rows != [] {
      var front, last := rows[..|rows| - 1], rows[|rows| - 1];
      OfCount(front, sections, home, x);
      assert rows == front + [last];
      OfAppend(front, last, sections, home);
    }
  }

  lemma TimesAppend(groups: seq<Group>, g: Group, x: Row)
    ensures Times(groups + [g], x) == Times(groups, x) + multiset(g.rows)[x]
  {
  }

  lemma HomeAppend(groups: seq<Group>, g: Group, home: Home)
    ensures CountHome(groups + [g], home) == CountHome(groups, home) + if GroupHome(g) == home then 1 else 0
  {
  }

  lemma OneMoreTime(c: nat, n: nat, b: bool)
    ensures c * n + (if b then c else 0) == c * (n + if b then 1 else 0)
  {
  }

  lemma {:induction false} TimesCount(groups: seq<Group>, rows: seq<Row>, sections: seq<Section>, x: Row)
    requires HoldsHomes(groups, rows, sections)
    ensures Times(groups, x) == multiset(rows)[x] * CountHome(groups, HomeOf(x, sections))
  {
    if groups != [] {
      var front, last := groups[..|groups| - 1], groups[|groups| - 1];
      assert groups == front + [last];
      TimesCount(front, rows, sections, x);
      assert last.rows == Of(rows, sections, GroupHome(last));
      TimesAppend(front, last, x);
      HomeAppend(front, last, HomeOf(x, sections));
      OfCount(rows, sections, GroupHome(last), x);
      OneMoreTime(multiset(rows)[x], CountHome(front, HomeOf(x, sections)), GroupHome(last) == HomeOf(x, sections));
    }
  }

  lemma {:induction false} NonEmptyTimes(groups: seq<Group>, x: Row)
    ensures Times(NonEmpty(groups), x) == Times(groups, x)
  {
    if groups != [] {
      var front, last := groups[..|groups| - 1], groups[|groups| - 1];
      NonEmptyTimes(front, x);
      assert groups == front + [last];
      TimesAppend(front, last, x);
      NonEmptyAppend(front, last);
      TimesAppend(NonEmpty(front), last, x);
    }
  }

  lemma AllHoldHomes(rows: seq<Row>, sections: seq<Section>, rank: string -> int)
    ensures HoldsHomes(AllGroups(rows, sections, rank), rows, sections)
  {
    var domains := DomainGroups(Areas(rows, sections), rows, sections);
    StableSort.SortKeepsAll(domains, ByName(rank));
    var groups := AllGroups(rows, sections, rank);
    forall i | 0 <= i < |groups|
      ensures groups[i].rows == Of(rows, sections, GroupHome(groups[i]))
    {
      var g := groups[i];
      assert g in domains || g in SectionGroups(sections, rows, sections) || g.kind in {Pinned, Unassigned};
    }
  }

  /** How often a row is shown: once, unless its section is listed several times. */
  function Shown(x: Row, sections: seq<Section>): nat {
    if !x.pinned && InSomeSection(x, sections) then SectionCount(sections, x.sectionId.value) else 1
  }

  lemma HomeCount(rows: seq<Row>, sections: seq<Section>, rank: string -> int, x: Row)
    requires x in rows
    ensures CountHome(AllGroups(rows, sections, rank), HomeOf(x, sections)) == Shown(x, sections)
  {
    CountAll(rows, sections, rank, HomeOf(x, sections));
    if HomeOf(x, sections).kind.Domain? {
      AreaIsListed(rows, sections, x);
      var a :| a in Areas(rows, sections) && a.id == x.area.value.id;
      assert HomeOf(x, sections).id == DomainId(a);
    }
  }

  lemma RowsShown(rows: seq<Row>, sections: seq<Section>, rank: string -> int, x: Row)
    ensures Times(Groups(rows, sections, rank), x) == multiset(rows)[x] * Shown(x, sections)
  {
    AllHoldHomes(rows, sections, rank);
    TimesCount(AllGroups(rows, sections, rank), rows, sections, x);
    NonEmptyTimes(AllGroups(rows, sections, rank), x);
    if x in rows {
      HomeCount(rows, sections, rank, x);
    }
  }

  /** The groups show every row as often as it is there if and only if no row is in a section listed
      twice. */
  lemma RowsAreConservedExactly(rows: seq<Row>, sections: seq<Section>, rank: string -> int)
    ensures (forall x: Row :: Times(Groups(rows, sections, rank), x) == multiset(rows)[x])
       <==> forall x <- rows :: Shown(x, sections) == 1
  {
    var groups := Groups(rows, sections, rank);
    if forall x <- rows :: Shown(x, sections) == 1 {
      forall x: Row
        ensures Times(groups, x) == multiset(rows)[x]
      {
        RowsShown(rows, sections, rank, x);
        assert x in multiset(rows) ==> x in rows;
      }
    }
    if forall x: Row :: Times(groups, x) == multiset(rows)[x] {
      forall x <- rows
        ensures Shown(x, sections) == 1
      {
        RowsShown(rows, sections, rank, x);
        assert Times(groups, x) == multiset(rows)[x];
        OnceOnly(multiset(rows)[x], Shown(x, sections));
      }
    }
  }

  lemma OnceOnly(c: nat, n: nat)
    requires c > 0 && c == c * n
    ensures n == 1
  {
  }

  // ---------------------------------------------------------------------------------------------
  // The groups shown, with distinct section ids that are not those of the built-in groups
  // ---------------------------------------------------------------------------------------------

  predicate ProperSections(sections: seq<Section>) {
    && (forall i, j | 0 <= i < j < |sections| :: sections[i].id != sections[j].id)
    && forall i | 0 <= i < |sections| :: sections[i].id != "" && sections[i].id != "pinned"
  }

  function Place(kind: Kind): nat {
    match kind case Pinned => 0 case Custom => 1 case Domain => 2 case Unassigned => 3
  }

  /** Only the built-in groups have the built-in ids. */
  predicate WellNamed(home: Home) {
    (home.kind.Pinned? <==> home.id == "pinned") && (home.kind.Unassigned? <==> home.id == "")
  }

  ghost predicate Ordered(groups: seq<Group>) {
    forall i, j | 0 <= i < j < |groups| :: Place(groups[i].kind) <= Place(groups[j].kind)
  }

  ghost predicate DistinctHomes(groups: seq<Group>) {
    forall i, j | 0 <= i < j < |groups| :: GroupHome(groups[i]) != GroupHome(groups[j])
  }

  ghost predicate HasHome(groups: seq<Group>, home: Home) {
    exists i | 0 <= i < |groups| :: GroupHome(groups[i]) == home
  }

  ghost predicate NamesHold(groups: seq<Group>) {
    forall i | 0 <= i < |groups| :: WellNamed(GroupHome(groups[i]))
  }

  /** What holds of names whatever the section ids: only custom groups can have a built-in id too. */
  predicate NamedByKind(home: Home) {
    match home.kind
    case Pinned => home.id == "pinned"
    case Custom => true
    case Domain => home.id != "" && home.id[0] == 'd'
    case Unassigned => home.id == ""
  }

  ghost predicate KindsHold(groups: seq<Group>) {
    forall i | 0 <= i < |groups| :: NamedByKind(GroupHome(groups[i]))
  }

  ghost predicate NoneEmpty(groups: seq<Group>) {
    forall i | 0 <= i < |groups| :: groups[i].rows != []
  }

  lemma {:induction false} NonEmptyFrom(groups: seq<Group>, k: nat) returns (i: nat)
    requires k < |NonEmpty(groups)|
    ensures i < |groups| && groups[i] == NonEmpty(groups)[k] && groups[i].rows != []
    ensures forall h | 0 <= h < k :: NonEmpty(groups)[h] in groups[..i]
    decreases |groups|
  {
    var front, last := groups[..|groups| - 1], groups[|groups| - 1];
    if k < |NonEmpty(front)| {
      i := NonEmptyFrom(front, k);
      assert front[..i] == groups[..i];
    } else {
      i := |front|;
      NonEmptyIsPart(front);
      assert groups[..i] == front;
    }
  }

  lemma {:induction false} NonEmptyIsPart(groups: seq<Group>)
    ensures forall g <- NonEmpty(groups) :: g in groups
  {
    if groups != [] {
      NonEmptyIsPart(groups[..|groups| - 1]);
    }
  }

  /** What leaving the empty groups out keeps. */
  lemma NonEmptyKeeps(groups: seq<Group>, rows: seq<Row>, sections: seq<Section>)
    requires Ordered(groups) && KindsHold(groups) && HoldsHomes(groups, rows, sections)
    ensures var r := NonEmpty(groups);
            Ordered(r) && KindsHold(r) && HoldsHomes(r, rows, sections) && NoneEmpty(r) && (NamesHold(groups) ==> NamesHold(r))
  {
    var r := NonEmpty(groups);
    forall k | 0 <= k < |r|
      ensures NamedByKind(GroupHome(r[k])) && (NamesHold(groups) ==> WellNamed(GroupHome(r[k])))
      ensures r[k].rows == Of(rows, sections, GroupHome(r[k])) && r[k].rows != []
    {
      var i := NonEmptyFrom(groups, k);
    }
    forall h, k | 0 <= h < k < |r|
      ensures Place(r[h].kind) <= Place(r[k].kind)
    {
      var i := NonEmptyFrom(groups, k);
      assert r[h] in groups[..i];
      var j :| 0 <= j < i && groups[..i][j] == r[h];
      assert groups[j] == r[h];
    }
  }

  lemma {:induction false} NonEmptyHas(groups: seq<Group>, i: nat)
    requires i < |groups| && groups[i].rows != []
    ensures HasHome(NonEmpty(groups), GroupHome(groups[i]))
    decreases |groups|
  {
    var front, last := groups[..|groups| - 1], groups[|groups| - 1];
    var r := NonEmpty(front);
    if i < |front| {
      NonEmptyHas(front, i);
      var k :| 0 <= k < |r| && GroupHome(r[k]) == GroupHome(groups[i]);
      assert NonEmpty(groups)[k] == r[k];
    } else {
      assert NonEmpty(groups)[|r|] == last;
    }
  }

  lemma {:induction false} NonEmptyCount(groups: seq<Group>, home: Home)
    ensures CountHome(NonEmpty(groups), home) <= CountHome(groups, home)
  {
    if groups != [] {
      var front, last := groups[..|groups| - 1], groups[|groups| - 1];
      NonEmptyCount(front, home);
      NonEmptyAppend(front, last);
      assert groups == front + [last];
      HomeAppend(NonEmpty(front), last, home);
    }
  }

  lemma {:induction false} CountIsPositive(groups: seq<Group>, home: Home)
    ensures CountHome(groups, home) > 0 <==> HasHome(groups, home)
  {
    if groups != [] {
      var front, last := groups[..|groups| - 1], groups[|groups| - 1];
      CountIsPositive(front, home);
      if HasHome(front, home) {
        var i :| 0 <= i < |front| && GroupHome(front[i]) == home;
        assert GroupHome(groups[i]) == home;
      }
      if HasHome(groups, home) && GroupHome(last) != home {
        var i :| 0 <= i < |groups| && GroupHome(groups[i]) == home;
        assert front[i] == groups[i];
      }
    }
  }

  lemma {:induction false} CountOfTwo(groups: seq<Group>, i: nat, j: nat)
    requires i < j < |groups| && GroupHome(groups[i]) == GroupHome(groups[j])
    ensures CountHome(groups, GroupHome(groups[i])) >= 2
    decreases |groups|
  {
    var front, last := groups[..|groups| - 1], groups[|groups| - 1];
    assert groups == front + [last];
    HomeAppend(front, last, GroupHome(groups[i]));
    if j < |front| {
      CountOfTwo(front, i, j);
    } else {
      CountIsPositive(front, GroupHome(groups[i]));
      assert GroupHome(front[i]) == GroupHome(groups[i]);
    }
  }

  lemma {:induction false} SectionIsCounted(sections: seq<Section>, s: Section)
    requires s in sections
    ensures SectionCount(sections, s.id) > 0
  {
    var front, last := sections[..|sections| - 1], sections[|sections| - 1];
    assert sections == front + [last];
    if s in front {
      SectionIsCounted(front, s);
    }
  }

  lemma {:induction false} OtherSections(sections: seq<Section>, id: string)
    requires forall i | 0 <= i < |sections| :: sections[i].id != id
    ensures SectionCount(sections, id) == 0
  {
    if sections != [] {
      OtherSections(sections[..|sections| - 1], id);
    }
  }

  lemma {:induction false} SectionsAreCountedOnce(sections: seq<Section>, id: string)
    requires ProperSections(sections)
    ensures SectionCount(sections, id) <= 1
  {
    if sections != [] {
      var front, last := sections[..|sections| - 1], sections[|sections| - 1];
      SectionsAreCountedOnce(front, id);
      if last.id == id {
        OtherSections(front, id);
      }
    }
  }

  lemma AllKinds(rows: seq<Row>, sections: seq<Section>, rank: string -> int, i: nat)
    requires i < |AllGroups(rows, sections, rank)|
    ensures var g, n := AllGroups(rows, sections, rank)[i], |sections|;
            NamedByKind(GroupHome(g)) && (ProperSections(sections) ==> WellNamed(GroupHome(g)))
            && g.kind == if i == 0 then Pinned else if i <= n then Custom
                         else if i < |AllGroups(rows, sections, rank)| - 1 then Domain else Unassigned
  {
    var domains := DomainGroups(Areas(rows, sections), rows, sections);
    var sorted := StableSort.Sort(domains, ByName(rank));
    StableSort.SortKeepsAll(domains, ByName(rank));
    var all := AllGroups(rows, sections, rank);
    if 0 < i <= |sections| {
      assert all[i] == SectionGroups(sections, rows, sections)[i - 1];
    } else if |sections| < i < |all| - 1 {
      assert all[i] == sorted[i - 1 - |sections|];
      assert all[i] in sorted;
      assert all[i] in domains;
      var k :| 0 <= k < |domains| && domains[k] == all[i];
      assert DomainId(Areas(rows, sections)[k])[0] == 'd';
    }
  }

  lemma AllIsOrdered(rows: seq<Row>, sections: seq<Section>, rank: string -> int)
    ensures Ordered(AllGroups(rows, sections, rank)) && KindsHold(AllGroups(rows, sections, rank))
    ensures ProperSections(sections) ==> NamesHold(AllGroups(rows, sections, rank))
  {
    var all := AllGroups(rows, sections, rank);
    forall i, j | 0 <= i < j < |all|
      ensures Place(all[i].kind) <= Place(all[j].kind)
    {
      AllKinds(rows, sections, rank, i);
      AllKinds(rows, sections, rank, j);
    }
    forall i | 0 <= i < |all|
      ensures NamedByKind(GroupHome(all[i])) && (ProperSections(sections) ==> WellNamed(GroupHome(all[i])))
    {
      AllKinds(rows, sections, rank, i);
    }
  }

  /** The groups shown, whatever the section ids. */
  lemma GroupsHold(rows: seq<Row>, sections: seq<Section>, rank: string -> int)
    ensures var groups := Groups(rows, sections, rank);
            && Ordered(groups) && KindsHold(groups) && NoneEmpty(groups) && HoldsHomes(groups, rows, sections)
            && (ProperSections(sections) ==> NamesHold(groups))
  {
    AllIsOrdered(rows, sections, rank);
    AllHoldHomes(rows, sections, rank);
    NonEmptyKeeps(AllGroups(rows, sections, rank), rows, sections);
  }

  lemma GroupsAreDistinct(rows: seq<Row>, sections: seq<Section>, rank: string -> int)
    requires ProperSections(sections)
    ensures DistinctHomes(Groups(rows, sections, rank))
  {
    var groups := Groups(rows, sections, rank);
    forall i, j | 0 <= i < j < |groups|
      ensures GroupHome(groups[i]) != GroupHome(groups[j])
    {
      var home := GroupHome(groups[i]);
      NonEmptyCount(AllGroups(rows, sections, rank), home);
      CountAll(rows, sections, rank, home);
      SectionsAreCountedOnce(sections, home.id);
      if GroupHome(groups[j]) == home {
        CountOfTwo(groups, i, j);
      }
    }
  }

  lemma RowHasGroup(rows: seq<Row>, sections: seq<Section>, rank: string -> int, x: Row)
    requires x in rows
    ensures HasHome(Groups(rows, sections, rank), HomeOf(x, sections))
  {
    var all := AllGroups(rows, sections, rank);
    var home := HomeOf(x, sections);
    HomeCount(rows, sections, rank, x);
    if home.kind.Custom? {
      var s :| s in sections && InSection(x, s);
      SectionIsCounted(sections, s);
    }
    CountIsPositive(all, home);
    var i :| 0 <= i < |all| && GroupHome(all[i]) == home;
    AllHoldHomes(rows, sections, rank);
    OfHas(rows, sections, x);
    NonEmptyHas(all, i);
  }

  /** The groups shown are in the order of their kinds, none empty, each the rows of its home in their
      order, and every row has exactly one. */
  lemma GroupsPartition(rows: seq<Row>, sections: seq<Section>, rank: string -> int)
    requires ProperSections(sections)
    ensures var groups := Groups(rows, sections, rank);
            && Ordered(groups) && NamesHold(groups) && NoneEmpty(groups) && DistinctHomes(groups)
            && HoldsHomes(groups, rows, sections)
            && forall x <- rows :: HasHome(groups, HomeOf(x, sections))
  {
    GroupsHold(rows, sections, rank);
    GroupsAreDistinct(rows, sections, rank);
    forall x <- rows
      ensures HasHome(Groups(rows, sections, rank), HomeOf(x, sections))
    {
      RowHasGroup(rows, sections, rank, x);
    }
  }

  /** Area groups follow each other by name, then by id. */
  ghost predicate AreasByName(groups: seq<Group>, rank: string -> int) {
    forall i, j | 0 <= i < j < |groups| && groups[i].kind.Domain? && groups[j].kind.Domain? ::
      || rank(groups[i].name) < rank(groups[j].name)
      || (rank(groups[i].name) == rank(groups[j].name) && rank(groups[i].id) <= rank(groups[j].id))
  }

  lemma AllAreByName(rows: seq<Row>, sections: seq<Section>, rank: string -> int)
    ensures AreasByName(AllGroups(rows, sections, rank), rank)
  {
    var domains := DomainGroups(Areas(rows, sections), rows, sections);
    var sorted := StableSort.Sort(domains, ByName(rank));
    StableSort.SortSorts(domains, ByName(rank));
    var all := AllGroups(rows, sections, rank);
    var n := |sections|;
    forall i | 0 < i <= n
      ensures all[i].kind.Custom?
    {
      assert all[i] == SectionGroups(sections, rows, sections)[i - 1];
    }
    assert forall i | n < i < |all| - 1 :: all[i] == sorted[i - 1 - n];
    forall i, j | 0 <= i < j < |all| && all[i].kind.Domain? && all[j].kind.Domain?
      ensures !ByName(rank)(all[j], all[i])
    {
      assert all[i] == sorted[i - 1 - n] && all[j] == sorted[j - 1 - n];
    }
  }

  lemma GroupsAreByName(rows: seq<Row>, sections: seq<Section>, rank: string -> int)
    ensures AreasByName(Groups(rows, sections, rank), rank)
  {
    AllAreByName(rows, sections, rank);
    var all, r := AllGroups(rows, sections, rank), Groups(rows, sections, rank);
    forall h, k | 0 <= h < k < |r| && r[h].kind.Domain? && r[k].kind.Domain?
      ensures !ByName(rank)(r[k], r[h])
    {
      var i := NonEmptyFrom(all, k);
      assert r[h] in all[..i];
      var j :| 0 <= j < i && all[..i][j] == r[h];
      assert all[j] == r[h];
    }
  }

  // ---------------------------------------------------------------------------------------------
  // What a group is, in terms of its rows
  // ---------------------------------------------------------------------------------------------

  /** Neither pinned nor in a section there is. */
  predicate Unplaced(row: Row, sections: seq<Section>) {
    !row.pinned && forall s <- sections :: row.sectionId != Some(s.id)
  }

  predicate BelongsTo(row: Row, sections: seq<Section>, home: Home) {
    match home.kind
    case Pinned => row.pinned
    case Custom => !row.pinned && row.sectionId == Some(home.id)
    case Domain => Unplaced(row, sections) && row.area.Some? && home.id == "domain:" + row.area.value.id
    case Unassigned => Unplaced(row, sections) && row.area.None?
  }

  /** A built-in group; a section of the sidebar; or an area, as it first occurs among the rows that are
      not placed. */
  ghost predicate WellLabelled(home: Home, name: string, rows: seq<Row>, sections: seq<Section>) {
    match home.kind
    case Pinned => home.id == "pinned" && name == "Pinned assistants"
    case Custom => exists s <- sections :: home.id == s.id && name == s.name
    case Domain => exists i | 0 <= i < |rows| :: FirstOfArea(rows, sections, i, home.id, name)
    case Unassigned => home.id == "" && name == "Unassigned"
  }

  predicate FirstOfArea(rows: seq<Row>, sections: seq<Section>, i: nat, id: string, name: string)
    requires i < |rows|
  {
    && Unplaced(rows[i], sections) && rows[i].area.Some?
    && id == "domain:" + rows[i].area.value.id && name == rows[i].area.value.name
    && forall j | 0 <= j < i && Unplaced(rows[j], sections) && rows[j].area.Some? ::
         rows[j].area.value.id != rows[i].area.value.id
  }

  lemma {:induction false} AreaIsFirst(rows: seq<Row>, sections: seq<Section>, a: Area) returns (i: nat)
    requires a in Areas(rows, sections)
    ensures i < |rows| && Unplaced(rows[i], sections) && rows[i].area == Some(a)
    ensures forall j | 0 <= j < i && Unplaced(rows[j], sections) && rows[j].area.Some? :: rows[j].area.value.id != a.id
  {
    var front, last := rows[..|rows| - 1], rows[|rows| - 1];
    if a in Areas(front, sections) {
      i := AreaIsFirst(front, sections, a);
    } else {
      i := |front|;
      assert !Listed(Areas(front, sections), a.id);
      forall j | 0 <= j < i && Unplaced(rows[j], sections) && rows[j].area.Some?
        ensures rows[j].area.value.id != a.id
      {
        assert front[j] == rows[j] && rows[j] in front;
        AreaIsListed(front, sections, rows[j]);
      }
    }
  }

  lemma GroupFrom(rows: seq<Row>, sections: seq<Section>, rank: string -> int, k: nat) returns (i: nat)
    requires k < |Groups(rows, sections, rank)|
    ensures i < |AllGroups(rows, sections, rank)| && AllGroups(rows, sections, rank)[i] == Groups(rows, sections, rank)[k]
  {
    i := NonEmptyFrom(AllGroups(rows, sections, rank), k);
  }

  lemma DomainFrom(rows: seq<Row>, sections: seq<Section>, rank: string -> int, g: Group) returns (a: Area)
    requires g in StableSort.Sort(DomainGroups(Areas(rows, sections), rows, sections), ByName(rank))
    ensures a in Areas(rows, sections) && g == DomainGroup(a, rows, sections)
  {
    var areas := Areas(rows, sections);
    var domains := DomainGroups(areas, rows, sections);
    StableSort.SortKeepsAll(domains, ByName(rank));
    var k :| 0 <= k < |domains| && domains[k] == g;
    a := areas[k];
  }

  lemma GroupIsWellLabelled(rows: seq<Row>, sections: seq<Section>, rank: string -> int, k: nat)
    requires k < |Groups(rows, sections, rank)|
    ensures var g := Groups(rows, sections, rank)[k]; WellLabelled(GroupHome(g), g.name, rows, sections)
  {
    var g := Groups(rows, sections, rank)[k];
    var i := GroupFrom(rows, sections, rank, k);
    AllKinds(rows, sections, rank, i);
    var all, n := AllGroups(rows, sections, rank), |sections|;
    if 0 < i <= n {
      assert all[i] == SectionGroups(sections, rows, sections)[i - 1] == SectionGroup(sections[i - 1], rows, sections);
      assert sections[i - 1] in sections;
    } else if n < i < |all| - 1 {
      var sorted := StableSort.Sort(DomainGroups(Areas(rows, sections), rows, sections), ByName(rank));
      assert all[i] == sorted[i - 1 - n];
      var a := DomainFrom(rows, sections, rank, g);
      var j := AreaIsFirst(rows, sections, a);
      assert FirstOfArea(rows, sections, j, g.id, g.name);
    }
  }

  /** Every group shown holds each row that belongs to it, as often as it is there, and no other. */
  lemma GroupRowsAre(rows: seq<Row>, sections: seq<Section>, rank: string -> int, k: nat, x: Row)
    requires k < |Groups(rows, sections, rank)|
    ensures var g := Groups(rows, sections, rank)[k];
            multiset(g.rows)[x] == if BelongsTo(x, sections, GroupHome(g)) then multiset(rows)[x] else 0
  {
    var g := Groups(rows, sections, rank)[k];
    GroupsHold(rows, sections, rank);
    GroupIsWellLabelled(rows, sections, rank, k);
    OfCount(rows, sections, GroupHome(g), x);
    HomeIsBelonging(x, sections, rows, GroupHome(g), g.name);
  }

  lemma HomeIsBelonging(x: Row, sections: seq<Section>, rows: seq<Row>, home: Home, name: string)
    requires WellLabelled(home, name, rows, sections)
    ensures HomeOf(x, sections) == home <==> BelongsTo(x, sections, home)
  {
    assert InSomeSection(x, sections) <==> exists s <- sections :: x.sectionId == Some(s.id);
    if home.kind.Custom? {
      var s :| s in sections && home.id == s.id;
      assert x.sectionId == Some(home.id) ==> InSection(x, s);
    }
  }

  /** The rows of a group are in the order they are given in. */
  lemma {:induction false} OfKeepsOrder(rows: seq<Row>, sections: seq<Section>, home: Home) returns (places: seq<nat>)
    ensures |places| == |Of(rows, sections, home)|
    ensures forall i | 0 <= i < |places| :: places[i] < |rows| && rows[places[i]] == Of(rows, sections, home)[i]
    ensures forall i, j | 0 <= i < j < |places| :: places[i] < places[j]
  {
    places := [];
    if rows != [] {
      var front, last := rows[..|rows| - 1], rows[|rows| - 1];
      places := OfKeepsOrder(front, sections, home);
      if HomeOf(last, sections) == home {
        places := places + [|front|];
      }
    }
  }

  lemma GroupKeepsOrder(rows: seq<Row>, sections: seq<Section>, rank: string -> int, k: nat) returns (places: seq<nat>)
    requires k < |Groups(rows, sections, rank)|
    ensures var g := Groups(rows, sections, rank)[k];
            && |places| == |g.rows|
            && (forall i | 0 <= i < |places| :: places[i] < |rows| && rows[places[i]] == g.rows[i])
            && forall i, j | 0 <= i < j < |places| :: places[i] < places[j]
  {
    GroupsHold(rows, sections, rank);
    places := OfKeepsOrder(rows, sections, GroupHome(Groups(rows, sections, rank)[k]));
  }

  /** Pinned first, then sections, then areas, then the rest. */
  lemma GroupsAreListed(rows: seq<Row>, sections: seq<Section>, rank: string -> int, h: nat, k: nat)
    requires ProperSections(sections) && h < k < |Groups(rows, sections, rank)|
    ensures var a, b := Groups(rows, sections, rank)[h].kind, Groups(rows, sections, rank)[k].kind;
            b != Pinned && a != Unassigned && (a == Domain ==> b in {Domain, Unassigned})
  {
    GroupsHold(rows, sections, rank);
    GroupsAreDistinct(rows, sections, rank);
    var a, b := GroupHome(Groups(rows, sections, rank)[h]), GroupHome(Groups(rows, sections, rank)[k]);
    assert a != b && NamedByKind(a) && NamedByKind(b) && Place(a.kind) <= Place(b.kind);
  }

  /** Sections are in the order of the sidebar, whatever their ids. */
  lemma SectionsAreListed(rows: seq<Row>, sections: seq<Section>, rank: string -> int, h: nat, k: nat) returns (i: nat, j: nat)
    requires h < k < |Groups(rows, sections, rank)|
    requires Groups(rows, sections, rank)[h].kind == Groups(rows, sections, rank)[k].kind == Custom
    ensures i < j < |sections|
    ensures sections[i].id == Groups(rows, sections, rank)[h].id && sections[j].id == Groups(rows, sections, rank)[k].id
  {
    var all, groups := AllGroups(rows, sections, rank), Groups(rows, sections, rank);
    j := NonEmptyFrom(all, k);
    assert groups[h] in all[..j];
    i :| 0 <= i < j && all[..j][i] == groups[h];
    i := CustomFrom(rows, sections, rank, i);
    j := CustomFrom(rows, sections, rank, j);
  }

  lemma CustomFrom(rows: seq<Row>, sections: seq<Section>, rank: string -> int, i: nat) returns (s: nat)
    requires i < |AllGroups(rows, sections, rank)| && AllGroups(rows, sections, rank)[i].kind == Custom
    ensures s < |sections| && s + 1 == i && sections[s].id == AllGroups(rows, sections, rank)[i].id
  {
    AllKinds(rows, sections, rank, i);
    s := i - 1;
    assert AllGroups(rows, sections, rank)[i] == SectionGroups(sections, rows, sections)[s];
  }
}
