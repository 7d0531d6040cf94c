// How the Commitments view orders and groups its rows (src/commitmentGroups.ts).
module Commitments {
  import opened Wrappers
  import opened StableSort

  // A text by its place in the locale's order; only that order matters here.
  type Text = int

  // RFC 3339 instants in UTC: lexical order is time order.
  type Instant = int

  datatype Direction = Mine | Theirs | Unassigned

  // The states the arrangement tells apart.
  datatype State = Open | NeedsReview | Snoozed

  datatype Tier = Fresh | Aging | Stale

  // A due date the row's line carries: none, one that is not YYYY-MM-DD, or a day.
  datatype Due = NoDue | Unreadable | On(day: int)

  datatype Item = Item(overdue: bool, due: Due, text: Text)

  datatype Source = Source(note: string, title: string)

  datatype Row = Row(
    id: string,
    direction: Direction,
    state: State,
    snoozeLapsed: bool,
    tier: Tier,
    item: Option<Item>,
    cachedText: Text,
    source: Option<Source>,
    created: Instant,
    lastMention: Instant,
    lastCheck: Option<Instant>)

  datatype Group = Group(direction: Direction, heading: string, rows: seq<Row>)

  datatype Arranged = Arranged(groups: seq<Group>, snoozed: seq<Row>, settled: seq<Row>)

  function DueOf(row: Row): Due {
    if row.item.Some? then row.item.value.due else NoDue
  }

  function TextOf(row: Row): Text {
    if row.item.Some? then row.item.value.text else row.cachedText
  }

  predicate Dated(row: Row) {
    DueOf(row).On?
  }

  function AgingAnchor(row: Row): Instant {
    if row.lastCheck.Some? && row.lastCheck.value > row.lastMention then row.lastCheck.value else row.lastMention
  }

  function SortRank(row: Row): nat {
    if row.state.NeedsReview? then 0
    else if row.item.Some? && row.item.value.overdue then 1
    else if !DueOf(row).NoDue? then 2
    else if row.tier.Stale? then 3
    else if row.tier.Aging? then 4
    else 5
  }

  function Compare(a: Row, b: Row): int {
    if SortRank(a) != SortRank(b) then SortRank(a) - SortRank(b)
    else if Dated(a) && Dated(b) && DueOf(a).day != DueOf(b).day then DueOf(a).day - DueOf(b).day
    else if !Dated(a) && !Dated(b) && AgingAnchor(a) != AgingAnchor(b) then
      if AgingAnchor(a) < AgingAnchor(b) then -1 else 1
    else TextOf(a) - TextOf(b)
  }

  predicate Before(a: Row, b: Row) {
    Compare(a, b) < 0
  }

  // Asking the other way round gives the opposite answer.
  lemma CompareIsSymmetric(a: Row, b: Row)
    ensures Before(a, b) <==> Compare(b, a) > 0
    ensures Ties(Before, a, b) <==> Compare(a, b) == 0
  {
  }

  // ----- when compare is an order -----------------------------------------------

  // Two rows of one kind that their dates (or, undated, their anchors) put in
  // order, whatever their texts say.
  predicate Ahead(a: Row, b: Row) {
    && SortRank(a) == SortRank(b)
    && Dated(a) == Dated(b)
    && (if Dated(a) then DueOf(a).day < DueOf(b).day else AgingAnchor(a) < AgingAnchor(b))
  }

  // A row of the other kind, compared by text alone, that stands between the two
  // against that order.
  predicate Crosses(a: Row, b: Row, other: Row) {
    && Ahead(a, b)
    && SortRank(other) == SortRank(a)
    && Dated(other) != Dated(a)
    && TextOf(b) <= TextOf(other) <= TextOf(a)
  }

  ghost predicate Uncrossed(rows: seq<Row>) {
    forall a, b, other :: a in rows && b in rows && other in rows ==> !Crosses(a, b, other)
  }

  lemma CrossingBreaksTheOrder(a: Row, b: Row, other: Row)
    requires Crosses(a, b, other)
    ensures Before(a, b) && !Before(a, other) && !Before(other, b)
  {
  }

  // Every other failure is a crossing in disguise.
  lemma OrderFailsOnlyByCrossing(a: Row, b: Row, c: Row)
    requires Before(a, b) && !Before(a, c) && !Before(c, b)
    ensures Crosses(a, b, c) || Crosses(c, a, b) || Crosses(b, c, a)
  {
    assert SortRank(a) <= SortRank(b) && SortRank(c) <= SortRank(a) && SortRank(b) <= SortRank(c);
  }

  // compare is a consistent order on a list of rows exactly when no row stands
  // across two of the other kind in its rank.
  lemma CompareIsAnOrderIff(rows: seq<Row>)
    ensures StrictWeak(Before, rows) <==> Uncrossed(rows)
  {
    if Uncrossed(rows) {
      forall a, b, c | a in rows && b in rows && c in rows && Before(a, b) && !Before(a, c) && !Before(c, b)
        ensures false
      {
        OrderFailsOnlyByCrossing(a, b, c);
      }
    }
    if a, b, other :| a in rows && b in rows && other in rows && Crosses(a, b, other) {
      CrossingBreaksTheOrder(a, b, other);
    }
  }

  // In particular where each rank holds one kind of row; from rank 3 on there is
  // only one.
  lemma OneKindPerRankIsAnOrder(rows: seq<Row>)
    requires forall a, b :: a in rows && b in rows && SortRank(a) == SortRank(b) < 3 ==> Dated(a) == Dated(b)
    ensures StrictWeak(Before, rows)
  {
    CompareIsAnOrderIff(rows);
  }

  function AskingRow(due: Due, text: Text): Row {
    Row("", Mine, NeedsReview, false, Fresh, Some(Item(false, due, text)), 0, None, 0, 0, None)
  }

  // Three rows that ask for review, two dated and one not, each before the next.
  lemma NeedsReviewRowsCanCycle()
    ensures var a, b, c := AskingRow(On(1), 3), AskingRow(On(2), 1), AskingRow(NoDue, 2);
            Before(a, b) && Before(b, c) && Before(c, a)
  {
  }

  // No arrangement of a cycle is in order.
  lemma ACycleCannotBeSorted(rows: seq<Row>, a: Row, b: Row, c: Row)
    requires a in rows && b in rows && c in rows
    requires Before(a, b) && Before(b, c) && Before(c, a)
    ensures !SortedBy(Before, rows)
  {
    var i :| 0 <= i < |rows| && rows[i] == a;
    var j :| 0 <= j < |rows| && rows[j] == b;
    var k :| 0 <= k < |rows| && rows[k] == c;

  }

  // ----- the arrangement -----------------------------------------------------------

  // On the shelf until its day comes.
  predicate OnShelf(row: Row) {
    row.state.Snoozed? && !row.snoozeLapsed
  }

  function Live(entries: seq<Row>): seq<Row> {
    if entries == [] then []
    else Live(entries[..|entries| - 1])
         + (if OnShelf(entries[|entries| - 1]) then [] else [entries[|entries| - 1]])
  }

  function Shelf(entries: seq<Row>): seq<Row> {
    if entries == [] then []
    else Shelf(entries[..|entries| - 1])
         + (if OnShelf(entries[|entries| - 1]) then [entries[|entries| - 1]] else [])
  }

  function Going(direction: Direction, rows: seq<Row>): seq<Row> {
    if rows == [] then []
    else Going(direction, rows[..|rows| - 1])
         + (if rows[|rows| - 1].direction == direction then [rows[|rows| - 1]] else [])
  }

  function Heading(direction: Direction): string {
    match direction
    case Mine => "Mine"
    case Theirs => "Waiting on them"
    case Unassigned => "Unassigned"
  }

  // The direction's group, unless it is empty.
  function GroupOf(direction: Direction, live: seq<Row>): seq<Group> {
    var rows := Sort(Before, Going(direction, live));
    if rows == [] then [] else [Group(direction, Heading(direction), rows)]
  }

  const GROUP_ORDER := [Mine, Theirs, Unassigned]

  function GroupsOf(directions: seq<Direction>, live: seq<Row>): seq<Group> {
    if directions == [] then [] else GroupOf(directions[0], live) + GroupsOf(directions[1..], live)
  }

  function Groups(entries: seq<Row>): seq<Group> {
    GroupsOf(GROUP_ORDER, Live(entries))
  }

  method ArrangeCommitments(entries: seq<Row>, settled: seq<Row>) returns (arranged: Arranged)
    ensures arranged == Arranged(Groups(entries), Shelf(entries), settled)
  {
    var live, snoozed := [], [];
    for i := 0 to |entries|
      invariant live == Live(entries[..i])
      invariant snoozed == Shelf(entries[..i])
    {
      assert entries[..i + 1][..i] == entries[..i];
      if OnShelf(entries[i]) {
        snoozed := snoozed + [entries[i]];
      } else {
        live := live + [entries[i]];
      }
    }
    assert entries[..|entries|] == entries;
    arranged := Arranged(GroupsOf(GROUP_ORDER, live), snoozed, settled);
  }

  function AllRows(groups: seq<Group>): seq<Row> {
    if groups == [] then [] else groups[0].rows + AllRows(groups[1..])
  }

  lemma OneMore<T>(s: seq<T>, x: T)
    ensures multiset(s + [x]) == multiset(s) + multiset{x}
    ensures multiset(s + []) == multiset(s)
  {
    assert s + [] == s;
  }

  lemma ARowIsLiveOrShelved(front: seq<Row>, last: Row)
    ensures Live(front + [last]) == if OnShelf(last) then Live(front) else Live(front) + [last]
    ensures Shelf(front + [last]) == if OnShelf(last) then Shelf(front) + [last] else Shelf(front)
  {
    assert (front + [last])[..|front|] == front;
    assert Live(front) + [] == Live(front) && Shelf(front) + [] == Shelf(front);
  }

  lemma {:induction false} ShelfAndLive(entries: seq<Row>)
    ensures multiset(Live(entries)) + multiset(Shelf(entries)) == multiset(entries)
  {
    if entries != [] {
      var front, last := entries[..|entries| - 1], entries[|entries| - 1];
      assert entries == front + [last];
      calc {
        multiset(entries);
        { OneMore(front, last); }
        multiset(front) + multiset{last};
        { ShelfAndLive(front); }
        multiset(Live(front)) + multiset(Shelf(front)) + multiset{last};
        { ARowIsLiveOrShelved(front, last); OneMore(Live(front), last); OneMore(Shelf(front), last); }
        multiset(Live(entries)) + multiset(Shelf(entries));
      }
    }
  }

  lemma {:induction false} LiveMembers(entries: seq<Row>)
    ensures forall row :: row in Live(entries) <==> row in entries && !OnShelf(row)
  {
    if entries != [] {
      LiveMembers(entries[..|entries| - 1]);
    }
  }

  lemma {:induction false} GoingMembers(direction: Direction, rows: seq<Row>)
    ensures forall row :: row in Going(direction, rows) <==> row in rows && row.direction == direction
  {
    if rows != [] {
      GoingMembers(direction, rows[..|rows| - 1]);
    }
  }

  lemma {:induction false} GoingCounts(direction: Direction, rows: seq<Row>, row: Row)
    ensures multiset(Going(direction, rows))[row] == if row.direction == direction then multiset(rows)[row] else 0
  {
    if rows != [] {
      var front, last := rows[..|rows| - 1], rows[|rows| - 1];
      GoingCounts(direction, front, row);
      assert rows == front + [last];
      OneMore(front, last);
      OneMore(Going(direction, front), last);
    }
  }

  lemma ByDirection(rows: seq<Row>)
    ensures multiset(Going(Mine, rows)) + (multiset(Going(Theirs, rows)) + multiset(Going(Unassigned, rows)))
         == multiset(rows)
  {
    forall row: Row
      ensures multiset(rows)[row] == multiset(Going(Mine, rows))[row]
                                     + (multiset(Going(Theirs, rows))[row] + multiset(Going(Unassigned, rows))[row])
    {
      GoingCounts(Mine, rows, row);
      GoingCounts(Theirs, rows, row);
      GoingCounts(Unassigned, rows, row);
    }
  }

  lemma OneGroupFirst(direction: Direction, live: seq<Row>, rest: seq<Group>)
    ensures multiset(AllRows(GroupOf(direction, live) + rest))
         == multiset(Going(direction, live)) + multiset(AllRows(rest))
  {
    var rows := Sort(Before, Going(direction, live));
    if rows == [] {
      assert GroupOf(direction, live) + rest == rest;
    } else {
      assert (GroupOf(direction, live) + rest)[1..] == rest;
      assert multiset(rows + AllRows(rest)) == multiset(rows) + multiset(AllRows(rest));
    }
  }

  lemma OneDirectionFirst(directions: seq<Direction>, live: seq<Row>)
    requires directions != []
    ensures multiset(AllRows(GroupsOf(directions, live)))
         == multiset(Going(directions[0], live)) + multiset(AllRows(GroupsOf(directions[1..], live)))
  {
    OneGroupFirst(directions[0], live, GroupsOf(directions[1..], live));
  }

  lemma GroupsBag(live: seq<Row>)
    ensures multiset(AllRows(GroupsOf(GROUP_ORDER, live)))
         == multiset(Going(Mine, live)) + (multiset(Going(Theirs, live)) + multiset(Going(Unassigned, live)))
  {
    OneDirectionFirst(GROUP_ORDER, live);
    OneDirectionFirst([Theirs, Unassigned], live);
    OneDirectionFirst([Unassigned], live);
    assert GROUP_ORDER[1..] == [Theirs, Unassigned];
    assert [Theirs, Unassigned][1..] == [Unassigned];
    assert [Unassigned][1..] == [];
    assert multiset(AllRows(GroupsOf([], live))) == multiset{};
  }

  // Nothing is lost or repeated: the groups and the shelf are a permutation of
  // the entries.
  lemma TheArrangementPermutes(entries: seq<Row>)
    ensures multiset(AllRows(Groups(entries))) + multiset(Shelf(entries)) == multiset(entries)
  {
    ShelfAndLive(entries);
    ByDirection(Live(entries));
    GroupsBag(Live(entries));
  }

  predicate Fits(group: Group, live: seq<Row>) {
    && group.rows != []
    && group.rows == Sort(Before, Going(group.direction, live))
    && group.heading == Heading(group.direction)
  }

  function Place(direction: Direction): nat {
    match direction
    case Mine => 0
    case Theirs => 1
    case Unassigned => 2
  }

  lemma {:induction false} GroupsFit(directions: seq<Direction>, live: seq<Row>)
    ensures forall g :: g in GroupsOf(directions, live) ==> Fits(g, live) && g.direction in directions
  {
    if directions != [] {
      GroupsFit(directions[1..], live);
      AGroupFits(directions[0], live);
      assert forall g :: g in GroupsOf(directions, live) <==>
               g in GroupOf(directions[0], live) || g in GroupsOf(directions[1..], live);
    }
  }

  lemma AGroupFits(direction: Direction, live: seq<Row>)
    ensures forall g :: g in GroupOf(direction, live) ==> Fits(g, live) && g.direction == direction
  {
  }

  predicate InPlace(groups: seq<Group>) {
    forall i, j :: 0 <= i < j < |groups| ==> Place(groups[i].direction) < Place(groups[j].direction)
  }

  lemma OneInPlace(head: seq<Group>, direction: Direction, rest: seq<Group>)
    requires |head| <= 1 && forall g :: g in head ==> g.direction == direction
    requires InPlace(rest) && forall g :: g in rest ==> Place(direction) < Place(g.direction)
    ensures InPlace(head + rest)
  {
    assert forall i :: 0 <= i < |rest| ==> rest[i] in rest;
  }

  lemma {:induction false} GroupsFollowTheOrder(directions: seq<Direction>, live: seq<Row>)
    requires forall i, j :: 0 <= i < j < |directions| ==> Place(directions[i]) < Place(directions[j])
    ensures InPlace(GroupsOf(directions, live))
  {
    if directions != [] {
      var rest := GroupsOf(directions[1..], live);
      GroupsFollowTheOrder(directions[1..], live);
      GroupsFit(directions[1..], live);
      OneInPlace(GroupOf(directions[0], live), directions[0], rest);
    }
  }

  // The groups come mine first, none of them empty, each holding the live rows
  // of its own direction under its own heading.
  lemma EachGroupIsItsDirection(entries: seq<Row>)
    ensures forall g :: g in Groups(entries) ==> Fits(g, Live(entries))
    ensures forall g :: g in Groups(entries) ==>
              g.rows != [] && g.heading == match g.direction
                                           case Mine => "Mine"
                                           case Theirs => "Waiting on them"
                                           case Unassigned => "Unassigned"
    ensures InPlace(Groups(entries))
  {
    GroupsFit(GROUP_ORDER, Live(entries));
    GroupsFollowTheOrder(GROUP_ORDER, Live(entries));
  }

  lemma {:induction false} GroupsCover(directions: seq<Direction>, live: seq<Row>, direction: Direction)
    requires direction in directions && Going(direction, live) != []
    ensures exists g :: g in GroupsOf(directions, live) && g.direction == direction && Fits(g, live)
  {
    if directions[0] == direction {
      var group := GroupOf(direction, live)[0];
      assert GroupsOf(directions, live)[0] == group;
    } else {
      GroupsCover(directions[1..], live, direction);
      var g :| g in GroupsOf(directions[1..], live) && g.direction == direction && Fits(g, live);
      assert g in GroupsOf(directions, live);
    }
  }

  // The shelf and the live rows keep the order the entries came in, and so do the
  // rows of one direction among the live ones.
  lemma {:induction false} SplittingKeepsOrder(entries: seq<Row>)
    ensures Picks(Live(entries), entries) && Picks(Shelf(entries), entries)
  {
    if entries != [] {
      var front, last := entries[..|entries| - 1], entries[|entries| - 1];
      SplittingKeepsOrder(front);
      ARowIsLiveOrShelved(front, last);
      assert entries == front + [last];
      PickOneMore(Live(front), front, last);
      PickOneMore(Shelf(front), front, last);
    }
  }

  lemma {:induction false} GoingKeepsOrder(direction: Direction, rows: seq<Row>)
    ensures Picks(Going(direction, rows), rows)
  {
    if rows != [] {
      var front, last := rows[..|rows| - 1], rows[|rows| - 1];
      GoingKeepsOrder(direction, front);
      assert rows == front + [last] && Going(direction, front) + [] == Going(direction, front);
      PickOneMore(Going(direction, front), front, last);
    }
  }

  // A row is on the shelf exactly when it is an entry snoozed until a day that has
  // not come.
  lemma {:induction false} TheShelfHoldsARowIff(entries: seq<Row>, row: Row)
    ensures row in Shelf(entries) <==> row in entries && row.state == Snoozed && !row.snoozeLapsed
  {
    if entries != [] {
      TheShelfHoldsARowIff(entries[..|entries| - 1], row);
    }
  }

  // A row is in a group of its own direction exactly when it is an entry that is
  // not on the shelf, so a lapsed snooze is back among the live ones.
  lemma AGroupHoldsARowIff(entries: seq<Row>, row: Row)
    ensures (exists g :: g in Groups(entries) && g.direction == row.direction && row in g.rows)
            <==> row in entries && (row.state != Snoozed || row.snoozeLapsed)
  {
    var live := Live(entries);
    var rows := Going(row.direction, live);
    LiveMembers(entries);
    GoingMembers(row.direction, live);
    SameValues(Sort(Before, rows), rows);
    EachGroupIsItsDirection(entries);
    if row in rows {
      GroupsCover(GROUP_ORDER, live, row.direction);
    }
  }

  // Where no row crosses two others of its own group, the group comes out in
  // order and is the only stable arrangement of its rows.
  lemma GroupsComeOutSorted(entries: seq<Row>, i: nat, other: seq<Row>)
    requires i < |Groups(entries)| && Uncrossed(Going(Groups(entries)[i].direction, Live(entries)))
    ensures var group := Groups(entries)[i];
            && SortedBy(Before, group.rows)
            && var rows := Going(group.direction, Live(entries));
               (multiset(other) == multiset(rows) && SortedBy(Before, other) && SameTies(Before, rows, other)
                ==> other == group.rows)
  {
    EachGroupIsItsDirection(entries);
    assert Groups(entries)[i] in Groups(entries);
    var rows := Going(Groups(entries)[i].direction, Live(entries));
    CompareIsAnOrderIff(rows);
    SortSorts(Before, rows, rows);
    if multiset(other) == multiset(rows) && SortedBy(Before, other) && SameTies(Before, rows, other) {
      StableSortIsUnique(Before, rows, other);
    }
  }

  // ----- the order of the rows of a group ---------------------------------------------

  predicate Asks(row: Row) {
    row.state == NeedsReview
  }

  predicate IsOverdue(row: Row) {
    row.item.Some? && row.item.value.overdue
  }

  predicate HasDate(row: Row) {
    row.item.Some? && row.item.value.due != NoDue
  }

  // b comes no earlier than a by kind: rows that ask lead, then overdue rows, then
  // dated ones, then the undated by tier.
  predicate KindsInOrder(a: Row, b: Row) {
    && (Asks(b) ==> Asks(a))
    && (IsOverdue(b) ==> Asks(a) || IsOverdue(a))
    && (HasDate(b) ==> Asks(a) || IsOverdue(a) || HasDate(a))
    && (b.tier == Stale ==> Asks(a) || IsOverdue(a) || HasDate(a) || a.tier == Stale)
    && (b.tier == Aging ==> Asks(a) || IsOverdue(a) || HasDate(a) || a.tier != Fresh)
  }

  predicate SameKind(a: Row, b: Row) {
    && Asks(a) == Asks(b)
    && (Asks(a)
        || (IsOverdue(a) == IsOverdue(b)
            && (IsOverdue(a) || (HasDate(a) == HasDate(b) && (HasDate(a) || a.tier == b.tier)))))
  }

  predicate HasDay(row: Row, day: int) {
    row.item.Some? && row.item.value.due == On(day)
  }

  ghost predicate HasNoDay(row: Row) {
    forall day :: !HasDay(row, day)
  }

  // What a row was last heard of: its latest mention or check.
  predicate LastHeard(row: Row, at: Instant) {
    && row.lastMention <= at && (row.lastCheck.Some? ==> row.lastCheck.value <= at)
    && (at == row.lastMention || row.lastCheck == Some(at))
  }

  predicate ShowsText(row: Row, text: Text) {
    text == match row.item case Some(item) => item.text case None => row.cachedText
  }

  lemma RanksFollowTheKinds(a: Row, b: Row)
    ensures SortRank(a) <= SortRank(b) <==> KindsInOrder(a, b)
    ensures SortRank(a) == SortRank(b) <==> SameKind(a, b)
  {
  }

  // Where no row of a group crosses two others of it, the kinds come in order:
  // needs review, overdue, dated, stale, aging, fresh. Within a kind days come
  // soonest first, rows without a day quietest first, and ties by text.
  lemma TheKindsComeInOrder(entries: seq<Row>, n: nat, i: nat, j: nat)
    requires n < |Groups(entries)| && Uncrossed(Going(Groups(entries)[n].direction, Live(entries)))
    requires i < j < |Groups(entries)[n].rows|
    ensures var a, b := Groups(entries)[n].rows[i], Groups(entries)[n].rows[j];
            && KindsInOrder(a, b)
            && (SameKind(a, b) ==>
                  && (forall x, y :: HasDay(a, x) && HasDay(b, y) ==> x <= y)
                  && (HasNoDay(a) && HasNoDay(b) ==>
                        forall x, y :: LastHeard(a, x) && LastHeard(b, y) ==> x <= y)
                  && (forall s, t :: ShowsText(a, s) && ShowsText(b, t) && TiedButForText(a, b) ==> s <= t))
  {
    GroupsComeOutSorted(entries, n, []);
    var a, b := Groups(entries)[n].rows[i], Groups(entries)[n].rows[j];
    assert !Before(b, a);
    RanksFollowTheKinds(a, b);
    NotBeforeMeans(a, b);
  }

  // Same day, or same last word without days, or a day on one side only.
  ghost predicate TiedButForText(a: Row, b: Row) {
    || (exists day :: HasDay(a, day) && HasDay(b, day))
    || (HasNoDay(a) && HasNoDay(b) && exists at :: LastHeard(a, at) && LastHeard(b, at))
    || HasNoDay(a) != HasNoDay(b)
  }

  lemma DaysOf(row: Row)
    ensures Dated(row) <==> !HasNoDay(row)
    ensures Dated(row) ==> HasDay(row, DueOf(row).day)
    ensures LastHeard(row, AgingAnchor(row)) && ShowsText(row, TextOf(row))
    ensures forall at :: LastHeard(row, at) ==> at == AgingAnchor(row)
  {
    if Dated(row) {
      assert HasDay(row, DueOf(row).day);
    }
  }

  lemma NotBeforeMeans(a: Row, b: Row)
    requires !Before(b, a)
    ensures SortRank(a) <= SortRank(b)
    ensures SameKind(a, b) ==>
              && (forall x, y :: HasDay(a, x) && HasDay(b, y) ==> x <= y)
              && (HasNoDay(a) && HasNoDay(b) ==> forall x, y :: LastHeard(a, x) && LastHeard(b, y) ==> x <= y)
              && (forall s, t :: ShowsText(a, s) && ShowsText(b, t) && TiedButForText(a, b) ==> s <= t)
  {
    DaysOf(a);
    DaysOf(b);
    RanksFollowTheKinds(a, b);
  }
}
