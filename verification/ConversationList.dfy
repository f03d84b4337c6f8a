/** The conversation list: group chats join the pinned and the unassigned group of the assistant list,
    and every group is sorted with the most recent activity first. */
module ConversationList {
  import opened Basics
  import StableSort
  import A = AssistantList

  datatype Chat = Chat(id: string, isGroup: bool, archived: bool, pinned: bool, title: string, lastMessage: string, updated: A.Moment)

  datatype Row = Private(assistant: A.Row) | GroupChat(chat: Chat)

  datatype Section = Section(kind: A.Kind, id: string, name: string, rows: seq<Row>)

  const PINNED := A.Home(A.Pinned, "pinned")
  const UNASSIGNED := A.Home(A.Unassigned, "")

  // ---------------------------------------------------------------------------------------------
  // Recency
  // ---------------------------------------------------------------------------------------------

  function TimeOf(m: A.Moment): int {
    if m.At? then m.time else 0
  }

  /** The creation of an assistant counts only if it has no latest conversation. */
  function ActivityAt(row: Row): int {
    match row
    case GroupChat(chat) => TimeOf(chat.updated)
    case Private(a) => TimeOf(if a.latest == A.Absent then a.created else a.latest)
  }

  predicate MoreRecent(a: Row, b: Row) {
    ActivityAt(b) - ActivityAt(a) < 0
  }

  function RecentFirst(rows: seq<Row>): seq<Row> {
    StableSort.Sort(rows, MoreRecent)
  }

  function Sorted(sections: seq<Section>): (r: seq<Section>)
    ensures |r| == |sections|
    ensures forall i | 0 <= i < |r| :: r[i] == sections[i].(rows := RecentFirst(sections[i].rows))
  {
    seq(|sections|, i requires 0 <= i < |sections| => sections[i].(rows := RecentFirst(sections[i].rows)))
  }

  lemma RecencyIsConsistent(rows: seq<Row>)
    ensures StableSort.Consistent(rows, MoreRecent)
  {
  }

  /** The date a row is listed by: a chat's last update, and an assistant's latest conversation, or its
      creation if it has none. */
  function Moment(row: Row): A.Moment {
    match row
    case GroupChat(chat) => chat.updated
    case Private(a) => match a.latest case Absent => a.created case _ => a.latest
  }

  /** An absent or unreadable date counts as 0. */
  predicate AtOrAfter(a: A.Moment, b: A.Moment) {
    (match a case At(t) => t case _ => 0) >= match b case At(t) => t case _ => 0
  }

  /** The rows of the same date, in their order. */
  function SameDates(rows: seq<Row>, moment: A.Moment): seq<Row> {
    if rows == [] then []
    else
      var front, last := SameDates(rows[..|rows| - 1], moment), rows[|rows| - 1];
      if AtOrAfter(Moment(last), moment) && AtOrAfter(moment, Moment(last)) then front + [last] else front
  }

  /** No row is dated after a row above it. */
  predicate Descending(rows: seq<Row>) {
    forall i, j | 0 <= i < j < |rows| :: AtOrAfter(Moment(rows[i]), Moment(rows[j]))
  }

  lemma {:induction false} SameDatesTie(rows: seq<Row>, row: Row)
    ensures SameDates(rows, Moment(row)) == StableSort.Tied(rows, row, MoreRecent)
  {
    if rows != [] {
      SameDatesTie(rows[..|rows| - 1], row);
    }
  }

  /** Sorting lists the latest dates first and leaves rows of the same date in their order. */
  lemma RecentFirstMeans(rows: seq<Row>)
    ensures multiset(RecentFirst(rows)) == multiset(rows) && Descending(RecentFirst(rows))
    ensures forall row <- rows :: SameDates(RecentFirst(rows), Moment(row)) == SameDates(rows, Moment(row))
  {
    RecencyIsConsistent(rows);
    StableSort.SortSorts(rows, MoreRecent);
    StableSort.SortKeepsAll(rows, MoreRecent);
    forall row <- rows
      ensures SameDates(RecentFirst(rows), Moment(row)) == SameDates(rows, Moment(row))
    {
      StableSort.SortIsStable(rows, MoreRecent, rows, row);
      SameDatesTie(rows, row);
      SameDatesTie(RecentFirst(rows), row);
    }
    SortedDescends(RecentFirst(rows));
  }

  lemma SortedDescends(rows: seq<Row>)
    requires StableSort.Sorted(rows, MoreRecent)
    ensures Descending(rows)
  {
    forall i, j | 0 <= i < j < |rows|
      ensures AtOrAfter(Moment(rows[i]), Moment(rows[j]))
    {
      assert !MoreRecent(rows[j], rows[i]);
    }
  }

  // ---------------------------------------------------------------------------------------------
  // Which chats are shown, and where
  // ---------------------------------------------------------------------------------------------

  predicate Includes(text: string, part: string) {
    exists i | 0 <= i <= |text| :: part <= text[i..]
  }

  predicate Matches(chat: Chat, query: string, lower: string -> string, archived: bool) {
    chat.isGroup && chat.archived == archived && Includes(lower(chat.title + " " + chat.lastMessage), lower(query))
  }

  function Matching(chats: seq<Chat>, query: string, lower: string -> string, archived: bool): seq<Row> {
    if chats == [] then []
    else
      var last := chats[|chats| - 1];
      Matching(chats[..|chats| - 1], query, lower, archived)
      + if Matches(last, query, lower, archived) then [GroupChat(last)] else []
  }

  function Privates(rows: seq<A.Row>): (r: seq<Row>)
    ensures |r| == |rows| && forall i | 0 <= i < |r| :: r[i] == Private(rows[i])
  {
    seq(|rows|, i requires 0 <= i < |rows| => Private(rows[i]))
  }

  function SectionOf(g: A.Group): Section {
    Section(g.kind, g.id, g.name, Privates(g.rows))
  }

  function SectionsOf(groups: seq<A.Group>): (r: seq<Section>)
    ensures |r| == |groups| && forall i | 0 <= i < |r| :: r[i] == SectionOf(groups[i])
  {
    seq(|groups|, i requires 0 <= i < |groups| => SectionOf(groups[i]))
  }

  function Find(sections: seq<Section>, id: string): (k: int)
    ensures -1 <= k < |sections|
    ensures k >= 0 ==> sections[k].id == id && forall i | 0 <= i < k :: sections[i].id != id
    ensures k == -1 ==> forall i | 0 <= i < |sections| :: sections[i].id != id
  {
    if sections == [] then -1
    else
      var k := Find(sections[..|sections| - 1], id);
      if k >= 0 then k else if sections[|sections| - 1].id == id then |sections| - 1 else -1
  }

  function ChatHome(chat: Chat, archived: bool): A.Home {
    if chat.pinned && !archived then A.Home(A.Pinned, "pinned") else A.Home(A.Unassigned, "")
  }

  /** Where a row belongs. */
  function HomeOf(row: Row, custom: seq<A.Section>, archived: bool): A.Home {
    match row
    case Private(a) => A.HomeOf(a, custom)
    case GroupChat(chat) => ChatHome(chat, archived)
  }

  function NewSection(home: A.Home, row: Row): Section {
    Section(home.kind, home.id, if home.kind.Pinned? then "Pinned assistants" else "Unassigned", [row])
  }

  /** A chat joins the first section with the id of its home, or a new one at the end of the list that
      the home has. */
  function Add(sections: seq<Section>, row: Row, home: A.Home): seq<Section> {
    var k := Find(sections, home.id);
    if k >= 0 then sections[k := sections[k].(rows := sections[k].rows + [row])]
    else if home.kind.Pinned? then [NewSection(home, row)] + sections
    else sections + [NewSection(home, row)]
  }

  function AddAll(sections: seq<Section>, rows: seq<Row>, custom: seq<A.Section>, archived: bool): seq<Section> {
    if rows == [] then sections
    else
      var last := rows[|rows| - 1];
      Add(AddAll(sections, rows[..|rows| - 1], custom, archived), last, HomeOf(last, custom, archived))
  }

  lemma AddAllAppend(sections: seq<Section>, rows: seq<Row>, row: Row, custom: seq<A.Section>, archived: bool)
    ensures AddAll(sections, rows + [row], custom, archived)
         == Add(AddAll(sections, rows, custom, archived), row, HomeOf(row, custom, archived))
  {
  }

  lemma MatchingStep(chats: seq<Chat>, n: nat, query: string, lower: string -> string, archived: bool)
    requires n < |chats|
    ensures Matching(chats[..n + 1], query, lower, archived)
         == var m := Matching(chats[..n], query, lower, archived);
            if Matches(chats[n], query, lower, archived) then m + [GroupChat(chats[n])] else m
  {
    assert chats[..n + 1][..n] == chats[..n];
  }

  lemma {:induction false} MatchingAreChats(chats: seq<Chat>, query: string, lower: string -> string, archived: bool)
    ensures forall row <- Matching(chats, query, lower, archived) :: row.GroupChat?
  {
    if chats != [] {
      MatchingAreChats(chats[..|chats| - 1], query, lower, archived);
    }
  }

  /** What the list starts from. */
  function Start(rows: seq<A.Row>, custom: seq<A.Section>, rank: string -> int, archived: bool): seq<Section> {
    if archived then [] else SectionsOf(A.Groups(rows, custom, rank))
  }

  lemma SortedIsDescending(sections: seq<Section>)
    ensures forall k | 0 <= k < |sections| :: Descending(Sorted(sections)[k].rows)
  {
    forall k | 0 <= k < |sections|
      ensures Descending(Sorted(sections)[k].rows)
    {
      RecentFirstMeans(sections[k].rows);
    }
  }

  method AddChat(before: seq<Section>, chat: Chat, archived: bool) returns (sections: seq<Section>)
    ensures sections == Add(before, GroupChat(chat), ChatHome(chat, archived))
    ensures forall x: Row :: Times(sections, x) == Times(before, x) + if x == GroupChat(chat) then 1 else 0
    ensures var k := Find(sections, ChatHome(chat, archived).id);
            k >= 0 && sections[k].rows != [] && sections[k].rows[|sections[k].rows| - 1] == GroupChat(chat)
  {
    AddIsSeen(before, GroupChat(chat), ChatHome(chat, archived));
    sections := before;
    var id := if chat.pinned && !archived then "pinned" else "";
    var k := Find(sections, id);
    if k < 0 {
      var section := Section(if id != "" then A.Pinned else A.Unassigned, id,
                             if id != "" then "Pinned assistants" else "Unassigned", [GroupChat(chat)]);
      sections := if id != "" then [section] + sections else sections + [section];
    } else {
      sections := sections[k := sections[k].(rows := sections[k].rows + [GroupChat(chat)])];
    }
  }

  /** The list of the client. */
  method ConversationGroups(rows: seq<A.Row>, chats: seq<Chat>, custom: seq<A.Section>, query: string, archived: bool,
                            rank: string -> int, lower: string -> string)
    returns (sections: seq<Section>)
    ensures sections == Sorted(AddAll(Start(rows, custom, rank, archived), Matching(chats, query, lower, archived), custom, archived))
    ensures forall k | 0 <= k < |sections| :: Descending(sections[k].rows)
  {
    sections := [];
    if !archived {
      var groups := A.AssistantGroups(rows, custom, rank);
      sections := SectionsOf(groups);
    }
    var n := 0;
    while n < |chats|
      invariant 0 <= n <= |chats|
      invariant sections
             == AddAll(Start(rows, custom, rank, archived), Matching(chats[..n], query, lower, archived), custom, archived)
    {
      var chat := chats[n];
      MatchingStep(chats, n, query, lower, archived);
      if Matches(chat, query, lower, archived) {
        AddAllAppend(Start(rows, custom, rank, archived), Matching(chats[..n], query, lower, archived), GroupChat(chat),
                     custom, archived);
        sections := AddChat(sections, chat, archived);
      }
      n := n + 1;
    }
    assert chats[..n] == chats;
    SortedIsDescending(sections);
    sections := Sorted(sections);
  }

  // ---------------------------------------------------------------------------------------------
  // Every row is shown as often as the groups show it
  // ---------------------------------------------------------------------------------------------

  function Times(sections: seq<Section>, x: Row): nat {
    if sections == [] then 0 else Times(sections[..|sections| - 1], x) + multiset(sections[|sections| - 1].rows)[x]
  }

  lemma {:induction false} TimesConcat(a: seq<Section>, b: seq<Section>, x: Row)
    ensures Times(a + b, x) == Times(a, x) + Times(b, x)
  {
    if b == [] {
      assert a + b == a;
    } else {
      assert (a + b)[..|a + b| - 1] == a + b[..|b| - 1];
      TimesConcat(a, b[..|b| - 1], x);
    }
  }

  lemma TimesOne(s: Section, x: Row)
    ensures Times([s], x) == multiset(s.rows)[x]
  {
  }

  lemma TimesAt(sections: seq<Section>, k: nat, x: Row)
    requires k < |sections|
    ensures Times(sections, x) == Times(sections[..k], x) + multiset(sections[k].rows)[x] + Times(sections[k + 1..], x)
  {
    assert sections == sections[..k] + ([sections[k]] + sections[k + 1..]);
    TimesConcat(sections[..k], [sections[k]] + sections[k + 1..], x);
    TimesConcat([sections[k]], sections[k + 1..], x);
    TimesOne(sections[k], x);
  }

  lemma AddShows(sections: seq<Section>, row: Row, home: A.Home, x: Row)
    ensures Times(Add(sections, row, home), x) == Times(sections, x) + if row == x then 1 else 0
  {
    var k := Find(sections, home.id);
    var after := Add(sections, row, home);
    TimesOne(NewSection(home, row), x);
    if k >= 0 {
      TimesAt(sections, k, x);
      TimesAt(after, k, x);
      assert after[..k] == sections[..k] && after[k + 1..] == sections[k + 1..];
    } else if home.kind.Pinned? {
      TimesConcat([NewSection(home, row)], sections, x);
    } else {
      TimesConcat(sections, [NewSection(home, row)], x);
    }
  }

  /** A row added is the last of the first section with the id of its home; every other row is shown as
      often as before. */
  lemma AddIsSeen(sections: seq<Section>, row: Row, home: A.Home)
    ensures forall x: Row :: Times(Add(sections, row, home), x) == Times(sections, x) + if x == row then 1 else 0
    ensures var after := Add(sections, row, home);
            var k := Find(after, home.id);
            k >= 0 && after[k].rows != [] && after[k].rows[|after[k].rows| - 1] == row
  {
    forall x: Row
      ensures Times(Add(sections, row, home), x) == Times(sections, x) + if x == row then 1 else 0
    {
      AddShows(sections, row, home, x);
    }
    var after := Add(sections, row, home);
    if Find(sections, home.id) >= 0 {
      FindByIds(sections, after, home.id);
    } else if home.kind.Pinned? {
      FindBehind(NewSection(home, row), sections, home.id);
    } else {
      FindBefore(sections, NewSection(home, row), home.id);
    }
  }

  lemma {:induction false} AddAllShows(sections: seq<Section>, rows: seq<Row>, custom: seq<A.Section>, archived: bool, x: Row)
    ensures Times(AddAll(sections, rows, custom, archived), x) == Times(sections, x) + multiset(rows)[x]
  {
    if rows != [] {
      var front, last := rows[..|rows| - 1], rows[|rows| - 1];
      assert rows == front + [last];
      AddAllShows(sections, front, custom, archived, x);
      AddAllAppend(sections, front, last, custom, archived);
      AddShows(AddAll(sections, front, custom, archived), last, HomeOf(last, custom, archived), x);
    }
  }

  lemma {:induction false} SortedShows(sections: seq<Section>, x: Row)
    ensures Times(Sorted(sections), x) == Times(sections, x)
  {
    if sections != [] {
      var front, last := sections[..|sections| - 1], sections[|sections| - 1];
      SortedShows(front, x);
      var r := Sorted(sections);
      assert r[..|r| - 1] == Sorted(front);
      StableSort.SortKeepsAll(last.rows, MoreRecent);
    }
  }

  lemma {:induction false} PrivatesCount(rows: seq<A.Row>, x: Row)
    ensures multiset(Privates(rows))[x] == if x.Private? then multiset(rows)[x.assistant] else 0
  {
    if rows != [] {
      var front, last := rows[..|rows| - 1], rows[|rows| - 1];
      PrivatesCount(front, x);
      assert rows == front + [last] && Privates(rows) == Privates(front) + [Private(last)];
    }
  }

  lemma {:induction false} SectionsShow(groups: seq<A.Group>, x: Row)
    ensures Times(SectionsOf(groups), x) == if x.Private? then A.Times(groups, x.assistant) else 0
  {
    if groups != [] {
      var front, last := groups[..|groups| - 1], groups[|groups| - 1];
      SectionsShow(front, x);
      var r := SectionsOf(groups);
      assert r[..|r| - 1] == SectionsOf(front);
      PrivatesCount(last.rows, x);
    }
  }

  /** The rows the list is about: the assistants, unless archived, and the matching group chats. */
  function AllRows(rows: seq<A.Row>, matching: seq<Row>, archived: bool): seq<Row> {
    if archived then matching else Privates(rows) + matching
  }

  function Shown(x: Row, custom: seq<A.Section>): nat {
    if x.Private? then A.Shown(x.assistant, custom) else 1
  }

  /** Whatever the section ids, a chat is shown once and an assistant as often as the groups list it. */
  lemma RowsShown(rows: seq<A.Row>, matching: seq<Row>, custom: seq<A.Section>, rank: string -> int, archived: bool, x: Row)
    requires forall row <- matching :: row.GroupChat?
    ensures Times(Sorted(AddAll(Start(rows, custom, rank, archived), matching, custom, archived)), x)
         == multiset(AllRows(rows, matching, archived))[x] * Shown(x, custom)
  {
    var start := Start(rows, custom, rank, archived);
    SortedShows(AddAll(start, matching, custom, archived), x);
    AddAllShows(start, matching, custom, archived, x);
    StartShows(rows, custom, rank, archived, x);
    if x.Private? {
      assert x !in matching;
    }
    if !archived {
      PrivatesCount(rows, x);
    }
  }

  lemma StartShows(rows: seq<A.Row>, custom: seq<A.Section>, rank: string -> int, archived: bool, x: Row)
    ensures Times(Start(rows, custom, rank, archived), x)
         == if x.Private? && !archived then multiset(rows)[x.assistant] * A.Shown(x.assistant, custom) else 0
  {
    if !archived {
      SectionsShow(A.Groups(rows, custom, rank), x);
      if x.Private? {
        A.RowsShown(rows, custom, rank, x.assistant);
      }
    }
  }

  // ---------------------------------------------------------------------------------------------
  // Every row is shown where it belongs
  // ---------------------------------------------------------------------------------------------

  function SectionHome(s: Section): A.Home {
    A.Home(s.kind, s.id)
  }

  function Of(rows: seq<Row>, custom: seq<A.Section>, archived: bool, home: A.Home): seq<Row> {
    if rows == [] then []
    else
      var last := rows[|rows| - 1];
      Of(rows[..|rows| - 1], custom, archived, home) + if HomeOf(last, custom, archived) == home then [last] else []
  }

  lemma OfAppend(rows: seq<Row>, row: Row, custom: seq<A.Section>, archived: bool, home: A.Home)
    ensures Of(rows + [row], custom, archived, home)
         == var r := Of(rows, custom, archived, home); if HomeOf(row, custom, archived) == home then r + [row] else r
  {
  }

  lemma PrivatesAppend(rows: seq<A.Row>, row: A.Row)
    ensures Privates(rows + [row]) == Privates(rows) + [Private(row)]
  {
  }

  lemma {:induction false} PrivatesOf(rows: seq<A.Row>, custom: seq<A.Section>, archived: bool, home: A.Home)
    ensures Of(Privates(rows), custom, archived, home) == Privates(A.Of(rows, custom, home))
  {
    if rows != [] {
      var front, last := rows[..|rows| - 1], rows[|rows| - 1];
      assert rows == front + [last];
      PrivatesOf(front, custom, archived, home);
      PrivatesAppend(front, last);
      OfAppend(Privates(front), Private(last), custom, archived, home);
      A.OfAppend(front, last, custom, home);
      PrivatesAppend(A.Of(front, custom, home), last);
    }
  }

  ghost predicate HasHome(sections: seq<Section>, home: A.Home) {
    exists i | 0 <= i < |sections| :: SectionHome(sections[i]) == home
  }

  /** One section of a layout. */
  ghost predicate Holds(s: Section, all: seq<Row>, custom: seq<A.Section>, archived: bool) {
    s.rows == Of(all, custom, archived, SectionHome(s)) && s.rows != [] && A.WellNamed(SectionHome(s))
  }

  ghost predicate AllHold(sections: seq<Section>, all: seq<Row>, custom: seq<A.Section>, archived: bool) {
    forall i | 0 <= i < |sections| :: Holds(sections[i], all, custom, archived)
  }

  ghost predicate DistinctHomes(sections: seq<Section>) {
    forall i, j | 0 <= i < j < |sections| :: SectionHome(sections[i]) != SectionHome(sections[j])
  }

  ghost predicate Ordered(sections: seq<Section>) {
    forall i, j | 0 <= i < j < |sections| :: A.Place(sections[i].kind) <= A.Place(sections[j].kind)
  }

  ghost predicate Covers(sections: seq<Section>, all: seq<Row>, custom: seq<A.Section>, archived: bool) {
    forall row <- all :: HasHome(sections, HomeOf(row, custom, archived))
  }

  /** Sections of distinct homes in the order of their kinds, none empty, each holding the rows of its
      home in their order, and one for every row. */
  ghost predicate Layout(sections: seq<Section>, all: seq<Row>, custom: seq<A.Section>, archived: bool) {
    && AllHold(sections, all, custom, archived) && DistinctHomes(sections) && Ordered(sections)
    && Covers(sections, all, custom, archived)
  }

  lemma GroupsHold(groups: seq<A.Group>, rows: seq<A.Row>, custom: seq<A.Section>, archived: bool)
    requires A.HoldsHomes(groups, rows, custom) && A.NamesHold(groups) && A.NoneEmpty(groups)
    ensures AllHold(SectionsOf(groups), Privates(rows), custom, archived)
  {
    var sections := SectionsOf(groups);
    forall i | 0 <= i < |sections|
      ensures Holds(sections[i], Privates(rows), custom, archived)
    {
      PrivatesOf(rows, custom, archived, A.GroupHome(groups[i]));
      assert A.WellNamed(A.GroupHome(groups[i]));
    }
  }

  lemma GroupsCover(groups: seq<A.Group>, rows: seq<A.Row>, custom: seq<A.Section>, archived: bool)
    requires forall x <- rows :: A.HasHome(groups, A.HomeOf(x, custom))
    ensures Covers(SectionsOf(groups), Privates(rows), custom, archived)
  {
    var sections := SectionsOf(groups);
    forall row <- Privates(rows)
      ensures HasHome(sections, HomeOf(row, custom, archived))
    {
      var k :| 0 <= k < |rows| && Privates(rows)[k] == row;
      assert A.HasHome(groups, A.HomeOf(rows[k], custom));
      var i :| 0 <= i < |groups| && A.GroupHome(groups[i]) == A.HomeOf(rows[k], custom);
      assert SectionHome(sections[i]) == HomeOf(row, custom, archived);
    }
  }

  lemma StartIsLaidOut(rows: seq<A.Row>, custom: seq<A.Section>, rank: string -> int, archived: bool)
    requires A.ProperSections(custom)
    ensures Layout(Start(rows, custom, rank, archived), AllRows(rows, [], archived), custom, archived)
  {
    if !archived {
      var groups := A.Groups(rows, custom, rank);
      var sections := SectionsOf(groups);
      assert AllRows(rows, [], archived) == Privates(rows);
      A.GroupsPartition(rows, custom, rank);
      GroupsHold(groups, rows, custom, archived);
      GroupsCover(groups, rows, custom, archived);
      forall i, j | 0 <= i < j < |sections|
        ensures SectionHome(sections[i]) != SectionHome(sections[j])
      {
        assert A.GroupHome(groups[i]) != A.GroupHome(groups[j]);
      }
    }
  }

  /** A home without a section has no rows. */
  lemma {:induction false} UncoveredIsEmpty(all: seq<Row>, custom: seq<A.Section>, archived: bool, home: A.Home)
    requires forall row <- all :: HomeOf(row, custom, archived) != home
    ensures Of(all, custom, archived, home) == []
  {
    if all != [] {
      var front := all[..|all| - 1];
      assert all == front + [all[|all| - 1]];
      UncoveredIsEmpty(front, custom, archived, home);
    }
  }

  lemma AddHolds(sections: seq<Section>, all: seq<Row>, custom: seq<A.Section>, archived: bool, row: Row)
    requires Layout(sections, all, custom, archived) && row.GroupChat?
    ensures AllHold(Add(sections, row, HomeOf(row, custom, archived)), all + [row], custom, archived)
  {
    var home := HomeOf(row, custom, archived);
    var k := Find(sections, home.id);
    var after := Add(sections, row, home);
    forall i | 0 <= i < |sections|
      ensures i != k ==> Holds(sections[i], all + [row], custom, archived)
      ensures i == k ==> Holds(sections[i].(rows := sections[i].rows + [row]), all + [row], custom, archived)
    {
      assert Holds(sections[i], all, custom, archived);
      OfAppend(all, row, custom, archived, SectionHome(sections[i]));
      if i == k {
        assert SectionHome(sections[i]) == home;
      } else {
        AtMostOne(sections, home, k, i);
      }
    }
    if k < 0 {
      forall r <- all
        ensures HomeOf(r, custom, archived) != home
      {
        assert HasHome(sections, HomeOf(r, custom, archived));
      }
      UncoveredIsEmpty(all, custom, archived, home);
      OfAppend(all, row, custom, archived, home);
      assert Holds(NewSection(home, row), all + [row], custom, archived);
    }
  }

  /** Only the section found has the home. */
  lemma AtMostOne(sections: seq<Section>, home: A.Home, k: int, i: nat)
    requires DistinctHomes(sections) && i < |sections| && i != k
    requires k == Find(sections, home.id) && (k >= 0 ==> SectionHome(sections[k]) == home)
    ensures SectionHome(sections[i]) != home
  {
  }

  lemma AddIsDistinct(sections: seq<Section>, all: seq<Row>, custom: seq<A.Section>, archived: bool, row: Row)
    requires Layout(sections, all, custom, archived) && row.GroupChat?
    ensures DistinctHomes(Add(sections, row, HomeOf(row, custom, archived)))
  {
  }

  lemma AddIsOrdered(sections: seq<Section>, all: seq<Row>, custom: seq<A.Section>, archived: bool, row: Row)
    requires Layout(sections, all, custom, archived) && row.GroupChat?
    ensures Ordered(Add(sections, row, HomeOf(row, custom, archived)))
  {
  }

  lemma AddCovers(sections: seq<Section>, all: seq<Row>, custom: seq<A.Section>, archived: bool, row: Row)
    requires Layout(sections, all, custom, archived) && row.GroupChat?
    ensures Covers(Add(sections, row, HomeOf(row, custom, archived)), all + [row], custom, archived)
  {
    var home := HomeOf(row, custom, archived);
    var k := Find(sections, home.id);
    var after := Add(sections, row, home);
    var d := if k < 0 && home.kind.Pinned? then 1 else 0;
    forall i | 0 <= i < |sections|
      ensures i + d < |after| && SectionHome(after[i + d]) == SectionHome(sections[i])
    {
    }
    forall r <- all + [row]
      ensures HasHome(after, HomeOf(r, custom, archived))
    {
      if r == row {
        var i := if k >= 0 then k else if home.kind.Pinned? then 0 else |sections|;
        if k >= 0 {
          assert Holds(sections[k], all, custom, archived);
        }
        assert SectionHome(after[i]) == home;
      } else {
        assert r in all;
        var i :| 0 <= i < |sections| && SectionHome(sections[i]) == HomeOf(r, custom, archived);
        assert SectionHome(after[i + d]) == HomeOf(r, custom, archived);
      }
    }
  }

  lemma {:induction false} AddAllIsLaidOut(sections: seq<Section>, all: seq<Row>, rows: seq<Row>,
                                           custom: seq<A.Section>, archived: bool)
    requires Layout(sections, all, custom, archived) && forall row <- rows :: row.GroupChat?
    ensures Layout(AddAll(sections, rows, custom, archived), all + rows, custom, archived)
  {
    if rows == [] {
      assert all + rows == all;
    } else {
      var front, last := rows[..|rows| - 1], rows[|rows| - 1];
      assert rows == front + [last];
      AddAllIsLaidOut(sections, all, front, custom, archived);
      AddAllAppend(sections, front, last, custom, archived);
      var before := AddAll(sections, front, custom, archived);
      AddHolds(before, all + front, custom, archived, last);
      AddIsDistinct(before, all + front, custom, archived, last);
      AddIsOrdered(before, all + front, custom, archived, last);
      AddCovers(before, all + front, custom, archived, last);
      assert all + rows == all + front + [last];
    }
  }

  /** One section shown: the rows of its home, the latest dates first, those of one date in their order. */
  ghost predicate Shows(s: Section, all: seq<Row>, custom: seq<A.Section>, archived: bool) {
    var members := Of(all, custom, archived, SectionHome(s));
    && s.rows != [] && multiset(s.rows) == multiset(members) && Descending(s.rows)
    && forall row <- members :: SameDates(s.rows, Moment(row)) == SameDates(members, Moment(row))
  }

  /** With distinct section ids other than the built-in ones, the list is one section for each home that
      has rows, in the order of the kinds, each a stable sort of the rows of its home. */
  lemma EveryRowIsInItsSection(rows: seq<A.Row>, chats: seq<Chat>, custom: seq<A.Section>, query: string, archived: bool,
                               rank: string -> int, lower: string -> string)
    requires A.ProperSections(custom)
    ensures var matching := Matching(chats, query, lower, archived);
            var all := AllRows(rows, matching, archived);
            var sections := Sorted(AddAll(Start(rows, custom, rank, archived), matching, custom, archived));
            && (forall i | 0 <= i < |sections| :: Shows(sections[i], all, custom, archived))
            && DistinctHomes(sections) && Ordered(sections) && Covers(sections, all, custom, archived)
  {
    var matching := Matching(chats, query, lower, archived);
    MatchingAreChats(chats, query, lower, archived);
    StartIsLaidOut(rows, custom, rank, archived);
    var start := Start(rows, custom, rank, archived);
    AddAllIsLaidOut(start, AllRows(rows, [], archived), matching, custom, archived);
    var all := AllRows(rows, matching, archived);
    assert AllRows(rows, [], archived) + matching == all;
    SortedKeepsLayout(AddAll(start, matching, custom, archived), all, custom, archived);
  }

  lemma SortedKeepsLayout(laid: seq<Section>, all: seq<Row>, custom: seq<A.Section>, archived: bool)
    requires Layout(laid, all, custom, archived)
    ensures var sections := Sorted(laid);
            && (forall i | 0 <= i < |sections| :: Shows(sections[i], all, custom, archived))
            && DistinctHomes(sections) && Ordered(sections) && Covers(sections, all, custom, archived)
  {
    var sections := Sorted(laid);
    forall i | 0 <= i < |laid|
      ensures SectionHome(sections[i]) == SectionHome(laid[i]) && Shows(sections[i], all, custom, archived)
    {
      assert Holds(laid[i], all, custom, archived);
      RecentFirstMeans(laid[i].rows);
      StableSort.SortKeepsAll(laid[i].rows, MoreRecent);
    }
    forall row <- all
      ensures HasHome(sections, HomeOf(row, custom, archived))
    {
      assert HasHome(laid, HomeOf(row, custom, archived));
      var i :| 0 <= i < |laid| && SectionHome(laid[i]) == HomeOf(row, custom, archived);
      assert SectionHome(sections[i]) == HomeOf(row, custom, archived);
    }
  }

  // ---------------------------------------------------------------------------------------------
  // Which rows, in terms of their fields
  // ---------------------------------------------------------------------------------------------

  predicate HoldsAt(text: string, part: string, i: nat) {
    i + |part| <= |text| && text[i..i + |part|] == part
  }

  /** A chat of this list: a group chat, archived or not as asked, whose title and last message, joined by
      a space, hold the query in lower case. */
  ghost predicate IsListed(chat: Chat, query: string, lower: string -> string, archived: bool) {
    && chat.isGroup && (chat.archived <==> archived)
    && exists i: nat :: HoldsAt(lower(chat.title + " " + chat.lastMessage), lower(query), i)
  }

  lemma MatchesIsListed(chat: Chat, query: string, lower: string -> string, archived: bool)
    ensures Matches(chat, query, lower, archived) <==> IsListed(chat, query, lower, archived)
  {
    var text, part := lower(chat.title + " " + chat.lastMessage), lower(query);
    if Includes(text, part) {
      var i :| 0 <= i <= |text| && part <= text[i..];
      assert text[i..][..|part|] == text[i..i + |part|];
      assert HoldsAt(text, part, i);
    }
    if i: nat :| HoldsAt(text, part, i) {
      assert text[i..i + |part|] == text[i..][..|part|];
      assert part <= text[i..];
    }
  }

  lemma MatchingAppend(chats: seq<Chat>, chat: Chat, query: string, lower: string -> string, archived: bool)
    ensures Matching(chats + [chat], query, lower, archived)
         == var m := Matching(chats, query, lower, archived);
            if IsListed(chat, query, lower, archived) then m + [GroupChat(chat)] else m
  {
    MatchesIsListed(chat, query, lower, archived);
    assert (chats + [chat])[..|chats|] == chats;
  }

  /** The chats that match are listed, each as often as it is there. */
  lemma {:induction false} MatchingMeans(chats: seq<Chat>, query: string, lower: string -> string, archived: bool, chat: Chat)
    ensures multiset(Matching(chats, query, lower, archived))[GroupChat(chat)]
         == if IsListed(chat, query, lower, archived) then multiset(chats)[chat] else 0
  {
    if chats != [] {
      var front, last := chats[..|chats| - 1], chats[|chats| - 1];
      MatchingMeans(front, query, lower, archived, chat);
      assert chats == front + [last];
      MatchingAppend(front, last, query, lower, archived);
      OneMoreRow(Matching(front, query, lower, archived), GroupChat(last), GroupChat(chat));
    }
  }

  /** And they are in the order they are given in. */
  lemma {:induction false} MatchingKeepsOrder(chats: seq<Chat>, query: string, lower: string -> string, archived: bool)
    returns (places: seq<nat>)
    ensures var m := Matching(chats, query, lower, archived);
            |places| == |m| && forall i | 0 <= i < |places| :: places[i] < |chats| && GroupChat(chats[places[i]]) == m[i]
    ensures forall i, j | 0 <= i < j < |places| :: places[i] < places[j]
  {
    places := [];
    if chats != [] {
      var front, last := chats[..|chats| - 1], chats[|chats| - 1];
      places := MatchingKeepsOrder(front, query, lower, archived);
      assert chats == front + [last];
      MatchingAppend(front, last, query, lower, archived);
      if IsListed(last, query, lower, archived) {
        places := places + [|front|];
      }
    }
  }

  lemma OneMoreRow(rows: seq<Row>, row: Row, x: Row)
    ensures multiset(rows + [row])[x] == multiset(rows)[x] + if row == x then 1 else 0
  {
  }

  /** Which rows a section is for. */
  predicate IsFor(s: Section, row: Row, custom: seq<A.Section>, archived: bool) {
    match row
    case Private(a) => A.BelongsTo(a, custom, SectionHome(s))
    case GroupChat(chat) => s.kind == if chat.pinned && !archived then A.Pinned else A.Unassigned
  }

  ghost predicate WellLabelled(s: Section, rows: seq<A.Row>, custom: seq<A.Section>) {
    A.WellLabelled(SectionHome(s), s.name, rows, custom)
  }

  lemma AddKeepsLabels(sections: seq<Section>, row: Row, home: A.Home, rows: seq<A.Row>, custom: seq<A.Section>)
    requires home in {PINNED, UNASSIGNED}
    requires forall i | 0 <= i < |sections| :: WellLabelled(sections[i], rows, custom)
    ensures var after := Add(sections, row, home);
            forall i | 0 <= i < |after| :: WellLabelled(after[i], rows, custom)
  {
    var after := Add(sections, row, home);
    assert WellLabelled(NewSection(home, row), rows, custom);
    var k := Find(sections, home.id);
    forall i | 0 <= i < |after|
      ensures WellLabelled(after[i], rows, custom)
    {
      if k >= 0 {
        assert WellLabelled(sections[i], rows, custom);
      }
    }
  }

  lemma {:induction false} AddAllKeepsLabels(sections: seq<Section>, more: seq<Row>, rows: seq<A.Row>,
                                             custom: seq<A.Section>, archived: bool)
    requires forall row <- more :: row.GroupChat?
    requires forall i | 0 <= i < |sections| :: WellLabelled(sections[i], rows, custom)
    ensures var after := AddAll(sections, more, custom, archived);
            forall i | 0 <= i < |after| :: WellLabelled(after[i], rows, custom)
  {
    if more != [] {
      var front, last := more[..|more| - 1], more[|more| - 1];
      assert more == front + [last];
      assert last in more && last.GroupChat?;
      AddAllKeepsLabels(sections, front, rows, custom, archived);
      AddAllAppend(sections, front, last, custom, archived);
      AddKeepsLabels(AddAll(sections, front, custom, archived), last, HomeOf(last, custom, archived), rows, custom);
    }
  }

  lemma {:induction false} OfCount(all: seq<Row>, custom: seq<A.Section>, archived: bool, home: A.Home, x: Row)
    ensures multiset(Of(all, custom, archived, home))[x] == if HomeOf(x, custom, archived) == home then multiset(all)[x] else 0
  {
    if all != [] {
      var front, last := all[..|all| - 1], all[|all| - 1];
      OfCount(front, custom, archived, home, x);
      assert all == front + [last];
      OfAppend(front, last, custom, archived, home);
      OneMoreRow(front, last, x);
      OneMoreRow(Of(front, custom, archived, home), last, x);
    }
  }

  lemma IsForItsHome(s: Section, x: Row, rows: seq<A.Row>, custom: seq<A.Section>, archived: bool)
    requires WellLabelled(s, rows, custom)
    ensures HomeOf(x, custom, archived) == SectionHome(s) <==> IsFor(s, x, custom, archived)
  {
    if x.Private? {
      A.HomeIsBelonging(x.assistant, custom, rows, SectionHome(s), s.name);
    }
  }

  /** With distinct section ids other than the built-in ones, every section shown has the name of its kind,
      its section or its area, and holds exactly the rows it is for: assistants by pin, section and area,
      and chats by pin alone. */
  lemma SectionsHoldTheirRows(rows: seq<A.Row>, chats: seq<Chat>, custom: seq<A.Section>, query: string, archived: bool,
                              rank: string -> int, lower: string -> string, k: nat, x: Row)
    requires A.ProperSections(custom)
    requires k < |AddAll(Start(rows, custom, rank, archived), Matching(chats, query, lower, archived), custom, archived)|
    ensures var matching := Matching(chats, query, lower, archived);
            var s := Sorted(AddAll(Start(rows, custom, rank, archived), matching, custom, archived))[k];
            && WellLabelled(s, rows, custom)
            && multiset(s.rows)[x] == if IsFor(s, x, custom, archived) then multiset(AllRows(rows, matching, archived))[x] else 0
  {
    var matching := Matching(chats, query, lower, archived);
    var laid := AddAll(Start(rows, custom, rank, archived), matching, custom, archived);
    MatchingAreChats(chats, query, lower, archived);
    LabelsHold(rows, matching, custom, archived, rank);
    EveryRowIsInItsSection(rows, chats, custom, query, archived, rank, lower);
    var all := AllRows(rows, matching, archived);
    var s := Sorted(laid)[k];
    assert WellLabelled(laid[k], rows, custom);
    assert Shows(s, all, custom, archived);
    OfCount(all, custom, archived, SectionHome(s), x);
    IsForItsHome(s, x, rows, custom, archived);
  }

  lemma LabelsHold(rows: seq<A.Row>, matching: seq<Row>, custom: seq<A.Section>, archived: bool, rank: string -> int)
    requires forall row <- matching :: row.GroupChat?
    ensures var laid := AddAll(Start(rows, custom, rank, archived), matching, custom, archived);
            forall i | 0 <= i < |laid| :: WellLabelled(laid[i], rows, custom)
  {
    var start := Start(rows, custom, rank, archived);
    if !archived {
      forall i | 0 <= i < |start|
        ensures WellLabelled(start[i], rows, custom)
      {
        A.GroupIsWellLabelled(rows, custom, rank, i);
      }
    }
    AddAllKeepsLabels(start, matching, rows, custom, archived);
  }

  // ---------------------------------------------------------------------------------------------
  // Chats are in the built-in groups, except where a custom section has a built-in id
  // ---------------------------------------------------------------------------------------------

  /** The kind of the section a chat of this home joins. */
  function Target(sections: seq<Section>, home: A.Home): A.Kind {
    var k := Find(sections, home.id);
    if k >= 0 then sections[k].kind else home.kind
  }

  /** Every chat listed is in a section with the id of its home and the kind chats of that home join. */
  ghost predicate ChatsAt(sections: seq<Section>, archived: bool, pinned: A.Kind, unassigned: A.Kind) {
    forall i | 0 <= i < |sections| :: ChatsJoined(sections[i], archived, pinned, unassigned)
  }

  ghost predicate ChatsJoined(s: Section, archived: bool, pinned: A.Kind, unassigned: A.Kind) {
    forall row <- s.rows :: row.GroupChat? ==>
      var home := ChatHome(row.chat, archived);
      s.id == home.id && s.kind == if home == PINNED then pinned else unassigned
  }

  lemma FindByIds(sections: seq<Section>, others: seq<Section>, id: string)
    requires |sections| == |others| && forall i | 0 <= i < |sections| :: sections[i].id == others[i].id
    ensures Find(sections, id) == Find(others, id)
  {
  }

  lemma FindBehind(s: Section, sections: seq<Section>, id: string)
    ensures Find([s] + sections, id)
         == var k := Find(sections, id); if s.id == id then 0 else if k >= 0 then k + 1 else -1
  {
    var all, k := [s] + sections, Find(sections, id);
    var h := Find(all, id);
    assert all[0] == s;
    assert forall i | 1 <= i < |all| :: all[i] == sections[i - 1];
    if k >= 0 {
      assert all[k + 1].id == id;
    }
  }

  lemma FindBefore(sections: seq<Section>, s: Section, id: string)
    ensures Find(sections + [s], id)
         == var k := Find(sections, id); if k >= 0 then k else if s.id == id then |sections| else -1
  {
    var all := sections + [s];
    assert all[..|sections|] == sections;
  }

  lemma AddKeepsTarget(sections: seq<Section>, row: Row, home: A.Home, other: A.Home)
    requires home in {PINNED, UNASSIGNED} && other in {PINNED, UNASSIGNED}
    ensures Target(Add(sections, row, home), other) == Target(sections, other)
  {
    if Find(sections, home.id) >= 0 {
      FindByIds(sections, Add(sections, row, home), other.id);
    } else if home.kind.Pinned? {
      TargetBehind(NewSection(home, row), sections, other);
    } else {
      TargetBefore(sections, NewSection(home, row), other);
    }
  }

  lemma TargetBehind(s: Section, sections: seq<Section>, home: A.Home)
    requires s.id == home.id ==> Find(sections, home.id) < 0 && s.kind == home.kind
    ensures Target([s] + sections, home) == Target(sections, home)
  {
    FindBehind(s, sections, home.id);
  }

  lemma TargetBefore(sections: seq<Section>, s: Section, home: A.Home)
    requires s.id == home.id ==> Find(sections, home.id) < 0 && s.kind == home.kind
    ensures Target(sections + [s], home) == Target(sections, home)
  {
    FindBefore(sections, s, home.id);
  }

  lemma AddKeepsChats(sections: seq<Section>, row: Row, archived: bool)
    requires row.GroupChat?
    requires ChatsAt(sections, archived, Target(sections, PINNED), Target(sections, UNASSIGNED))
    ensures var after := Add(sections, row, ChatHome(row.chat, archived));
            ChatsAt(after, archived, Target(sections, PINNED), Target(sections, UNASSIGNED))
  {
    var home := ChatHome(row.chat, archived);
    var after := Add(sections, row, home);
    var k := Find(sections, home.id);
    var d := if k < 0 && home == PINNED then 1 else 0;
    forall i | 0 <= i < |after|
      ensures ChatsJoined(after[i], archived, Target(sections, PINNED), Target(sections, UNASSIGNED))
    {
      if 0 <= i - d < |sections| {
        assert ChatsJoined(sections[i - d], archived, Target(sections, PINNED), Target(sections, UNASSIGNED));
      }
    }
  }

  lemma {:induction false} AddAllKeepsChats(sections: seq<Section>, rows: seq<Row>, custom: seq<A.Section>, archived: bool)
    requires forall row <- rows :: row.GroupChat?
    requires ChatsAt(sections, archived, Target(sections, PINNED), Target(sections, UNASSIGNED))
    ensures var after := AddAll(sections, rows, custom, archived);
            && ChatsAt(after, archived, Target(sections, PINNED), Target(sections, UNASSIGNED))
            && Target(after, PINNED) == Target(sections, PINNED) && Target(after, UNASSIGNED) == Target(sections, UNASSIGNED)
  {
    if rows != [] {
      var front, last := rows[..|rows| - 1], rows[|rows| - 1];
      assert rows == front + [last];
      AddAllKeepsChats(sections, front, custom, archived);
      AddAllAppend(sections, front, last, custom, archived);
      var before := AddAll(sections, front, custom, archived);
      AddKeepsChats(before, last, archived);
      AddKeepsTarget(before, last, ChatHome(last.chat, archived), PINNED);
      AddKeepsTarget(before, last, ChatHome(last.chat, archived), UNASSIGNED);
    }
  }

  /** Some assistant is shown in a custom section of this id. */
  predicate InCustom(rows: seq<A.Row>, custom: seq<A.Section>, id: string) {
    exists a <- rows :: A.HomeOf(a, custom) == A.Home(A.Custom, id)
  }

  predicate SomePinned(rows: seq<A.Row>) {
    exists a <- rows :: a.pinned
  }

  /** A group shown has a row of its home. */
  lemma GroupHasRow(rows: seq<A.Row>, custom: seq<A.Section>, rank: string -> int, k: nat)
    requires k < |A.Groups(rows, custom, rank)|
    ensures exists a <- rows :: A.HomeOf(a, custom) == A.GroupHome(A.Groups(rows, custom, rank)[k])
  {
    A.GroupsHold(rows, custom, rank);
    var g := A.Groups(rows, custom, rank)[k];
    assert g.rows[0] in g.rows && g.rows == A.Of(rows, custom, A.GroupHome(g));
  }

  lemma FoundIsFirst(sections: seq<Section>, id: string, i: nat)
    requires i < |sections| && sections[i].id == id
    ensures 0 <= Find(sections, id) <= i
  {
  }

  /** What is found under an id is a group with a row, and no group is before it. */
  lemma FoundGroup(rows: seq<A.Row>, custom: seq<A.Section>, rank: string -> int, id: string)
    ensures var groups := A.Groups(rows, custom, rank);
            var k := Find(SectionsOf(groups), id);
            && (k >= 0 ==>
                  && groups[k].id == id && A.NamedByKind(A.GroupHome(groups[k]))
                  && exists a <- rows :: A.HomeOf(a, custom) == A.GroupHome(groups[k]))
            && forall a <- rows :: A.HomeOf(a, custom).id == id ==>
                 k >= 0 && A.Place(groups[k].kind) <= A.Place(A.HomeOf(a, custom).kind)
  {
    var groups := A.Groups(rows, custom, rank);
    var sections := SectionsOf(groups);
    A.GroupsHold(rows, custom, rank);
    var k := Find(sections, id);
    if k >= 0 {
      assert A.NamedByKind(A.GroupHome(groups[k]));
      GroupHasRow(rows, custom, rank, k);
    }
    forall a <- rows | A.HomeOf(a, custom).id == id
      ensures k >= 0 && A.Place(groups[k].kind) <= A.Place(A.HomeOf(a, custom).kind)
    {
      A.RowHasGroup(rows, custom, rank, a);
      var i :| 0 <= i < |groups| && A.GroupHome(groups[i]) == A.HomeOf(a, custom);
      FoundIsFirst(sections, id, i);
      assert k < i ==> A.Place(groups[k].kind) <= A.Place(groups[i].kind);
    }
  }

  lemma PinnedTarget(rows: seq<A.Row>, custom: seq<A.Section>, rank: string -> int)
    ensures Target(SectionsOf(A.Groups(rows, custom, rank)), PINNED) == A.Pinned
       <==> SomePinned(rows) || !InCustom(rows, custom, "pinned")
  {
    FoundGroup(rows, custom, rank, "pinned");
    assert forall a <- rows :: a.pinned ==> A.HomeOf(a, custom) == PINNED;
    assert forall a <- rows :: A.HomeOf(a, custom).kind == A.Pinned ==> a.pinned;
  }

  lemma UnassignedTarget(rows: seq<A.Row>, custom: seq<A.Section>, rank: string -> int)
    ensures Target(SectionsOf(A.Groups(rows, custom, rank)), UNASSIGNED) == A.Unassigned <==> !InCustom(rows, custom, "")
  {
    FoundGroup(rows, custom, rank, "");
  }

  /** A row is listed in a section of this home, and in no other. */
  ghost predicate InPlace(sections: seq<Section>, row: Row, home: A.Home) {
    && (exists i | 0 <= i < |sections| :: row in sections[i].rows)
    && forall i | 0 <= i < |sections| :: row in sections[i].rows ==> SectionHome(sections[i]) == home
  }

  lemma {:induction false} TimesPositive(sections: seq<Section>, x: Row)
    requires Times(sections, x) > 0
    ensures exists i | 0 <= i < |sections| :: x in sections[i].rows
  {
    var front, last := sections[..|sections| - 1], sections[|sections| - 1];
    if Times(front, x) > 0 {
      TimesPositive(front, x);
      var i :| 0 <= i < |front| && x in front[i].rows;
      assert x in sections[i].rows;
    } else {
      assert x in multiset(last.rows);
      assert x in sections[|sections| - 1].rows;
    }
  }

  lemma SortedKeepsPlace(sections: seq<Section>, row: Row, home: A.Home)
    ensures InPlace(Sorted(sections), row, home) <==> InPlace(sections, row, home)
  {
    var sorted := Sorted(sections);
    forall i | 0 <= i < |sections|
      ensures SectionHome(sorted[i]) == SectionHome(sections[i]) && (row in sorted[i].rows <==> row in sections[i].rows)
    {
      StableSort.SortKeepsAll(sections[i].rows, MoreRecent);
    }
  }

  /** A listed chat is in its place exactly if chats of its home join a section of its kind. */
  lemma PlacedByTarget(sections: seq<Section>, row: Row, archived: bool, pinned: A.Kind, unassigned: A.Kind)
    requires row.GroupChat? && ChatsAt(sections, archived, pinned, unassigned) && Times(sections, row) > 0
    ensures var home := ChatHome(row.chat, archived);
            InPlace(sections, row, home) <==> (if home == PINNED then pinned else unassigned) == home.kind
  {
    TimesPositive(sections, row);
    var i :| 0 <= i < |sections| && row in sections[i].rows;
    assert ChatsJoined(sections[i], archived, pinned, unassigned);
    forall j | 0 <= j < |sections| && row in sections[j].rows
      ensures SectionHome(sections[j]) == SectionHome(sections[i])
    {
      assert ChatsJoined(sections[j], archived, pinned, unassigned);
    }
  }

  /** What decides whether a chat is in its built-in group. */
  predicate Reserved(rows: seq<A.Row>, custom: seq<A.Section>, chat: Chat, archived: bool) {
    !archived && if chat.pinned then !SomePinned(rows) && InCustom(rows, custom, "pinned") else InCustom(rows, custom, "")
  }

  lemma StartHasNoChats(rows: seq<A.Row>, custom: seq<A.Section>, rank: string -> int, archived: bool)
    ensures var start := Start(rows, custom, rank, archived);
            ChatsAt(start, archived, Target(start, PINNED), Target(start, UNASSIGNED))
  {
    var start := Start(rows, custom, rank, archived);
    forall i | 0 <= i < |start|
      ensures forall row <- start[i].rows :: row.Private?
    {
    }
  }

  /** A matching chat is in its built-in group, and nowhere else, if and only if no custom section with
      that group's id shows an assistant, or, for a pinned chat, some assistant is pinned. */
  lemma ChatIsInPlaceExactly(rows: seq<A.Row>, chats: seq<Chat>, custom: seq<A.Section>, query: string, archived: bool,
                             rank: string -> int, lower: string -> string, chat: Chat)
    requires GroupChat(chat) in Matching(chats, query, lower, archived)
    ensures var matching := Matching(chats, query, lower, archived);
            var sections := Sorted(AddAll(Start(rows, custom, rank, archived), matching, custom, archived));
            InPlace(sections, GroupChat(chat), ChatHome(chat, archived)) <==> !Reserved(rows, custom, chat, archived)
  {
    var matching := Matching(chats, query, lower, archived);
    var start := Start(rows, custom, rank, archived);
    var added := AddAll(start, matching, custom, archived);
    MatchingAreChats(chats, query, lower, archived);
    StartHasNoChats(rows, custom, rank, archived);
    AddAllKeepsChats(start, matching, custom, archived);
    AddAllShows(start, matching, custom, archived, GroupChat(chat));
    PlacedByTarget(added, GroupChat(chat), archived, Target(start, PINNED), Target(start, UNASSIGNED));
    SortedKeepsPlace(added, GroupChat(chat), ChatHome(chat, archived));
    if !archived {
      PinnedTarget(rows, custom, rank);
      UnassignedTarget(rows, custom, rank);
    }
  }

  /** So in active mode every matching chat is in its built-in group if and only if no assistant is shown
      in a section with the empty id, or no matching chat is unpinned; and likewise for 'pinned', unless
      some assistant is pinned. */
  lemma ChatsAreInPlaceExactly(rows: seq<A.Row>, chats: seq<Chat>, custom: seq<A.Section>, query: string,
                               rank: string -> int, lower: string -> string)
    ensures var matching := Matching(chats, query, lower, false);
            var sections := Sorted(AddAll(Start(rows, custom, rank, false), matching, custom, false));
            (forall row <- matching :: InPlace(sections, row, HomeOf(row, custom, false)))
            <==> && ((forall row <- matching :: row.GroupChat? && row.chat.pinned) || !InCustom(rows, custom, ""))
                 && ((forall row <- matching :: row.GroupChat? && !row.chat.pinned) || SomePinned(rows)
                     || !InCustom(rows, custom, "pinned"))
  {
    var matching := Matching(chats, query, lower, false);
    MatchingAreChats(chats, query, lower, false);
    var sections := Sorted(AddAll(Start(rows, custom, rank, false), matching, custom, false));
    forall row <- matching
      ensures row.GroupChat?
      ensures InPlace(sections, row, HomeOf(row, custom, false)) <==> !Reserved(rows, custom, row.chat, false)
    {
      ChatIsInPlaceExactly(rows, chats, custom, query, false, rank, lower, row.chat);
    }
  }

  /** For instance: a section with a built-in id that shows one assistant takes in a chat meant for the
      built-in group. */
  lemma ReservedIdTakesChats(chat: Chat, a: A.Row, rank: string -> int)
    requires !a.pinned && a.sectionId == Some(if chat.pinned then "pinned" else "")
    ensures var custom := [A.Section(a.sectionId.value, "Mine")];
            var sections := AddAll(Start([a], custom, rank, false), [GroupChat(chat)], custom, false);
            sections == [Section(A.Custom, a.sectionId.value, "Mine", [Private(a), GroupChat(chat)])]
  {
    var id := a.sectionId.value;
    var custom := [A.Section(id, "Mine")];
    assert A.InSection(a, custom[0]);
    var group := A.Group(A.Custom, id, "Mine", [a]);
    assert A.Groups([a], custom, rank) == [group] by {
      OneRowGroups(a, custom[0], rank);
    }
    var section := Section(A.Custom, id, "Mine", [Private(a)]);
    assert Privates([a]) == [Private(a)];
    assert SectionsOf([group])[0] == section;
    assert SectionsOf([group]) == [section];
    assert Find([section], id) == 0;
    var row := GroupChat(chat);
    assert Start([a], custom, rank, false) == [section];
    AddAllAppend([section], [], row, custom, false);
    assert [] + [row] == [row];
    assert [Private(a)] + [row] == [Private(a), row];
    assert Add([section], row, ChatHome(chat, false)) == [section.(rows := [Private(a), row])];
  }

  lemma OneRowGroups(a: A.Row, s: A.Section, rank: string -> int)
    requires !a.pinned && A.InSection(a, s)
    ensures A.Groups([a], [s], rank) == [A.Group(A.Custom, s.id, s.name, [a])]
  {
    var home := A.HomeOf(a, [s]);
    assert s in [s];
    assert home == A.Home(A.Custom, s.id);
    forall h: A.Home
      ensures A.Of([a], [s], h) == if h == home then [a] else []
    {
      A.OfAppend([], a, [s], h);
      assert [] + [a] == [a];
    }
    A.AreasAppend([], a, [s]);
    assert [] + [a] == [a];
    assert A.Areas([a], [s]) == [];
    assert A.DomainGroups([], [a], [s]) == [];
    assert A.SectionGroups([s], [a], [s]) == [A.SectionGroup(s, [a], [s])];
    var pinned := A.Group(A.Pinned, "pinned", "Pinned assistants", []);
    var group := A.Group(A.Custom, s.id, s.name, [a]);
    var unassigned := A.Group(A.Unassigned, "", "Unassigned", []);
    assert A.AllGroups([a], [s], rank) == [] + [pinned] + [group] + [unassigned];
    A.NonEmptyAppend([], pinned);
    A.NonEmptyAppend([] + [pinned], group);
    A.NonEmptyAppend([] + [pinned] + [group], unassigned);
  }
}
