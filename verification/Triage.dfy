// The triage strip: which newly enrolled commitments it offers, and how far the
// last-seen marker may move once some are reviewed (src/commitmentGroups.ts).
module Triage {
  import opened Wrappers
  import opened StableSort
  import opened Commitments

  type Id = string

  type Note = string

  datatype BatchRow = BatchRow(id: Id, created: Instant)

  datatype Label = Other | Titled(title: string, day: Instant)

  datatype TriageGroup = TriageGroup(note: Note, heading: Label, rows: seq<Row>)

  predicate Earlier(a: BatchRow, b: BatchRow) {
    a.created < b.created
  }

  // Reviewed in the strip, or settled elsewhere while it was open.
  predicate Dealt(row: BatchRow, reviewed: set<Id>, active: set<Id>) {
    row.id in reviewed || row.id !in active
  }

  // How many rows are dealt with before the first that is not.
  function DealtPrefix(rows: seq<BatchRow>, reviewed: set<Id>, active: set<Id>): (n: nat)
    ensures n <= |rows|
    ensures forall i :: 0 <= i < n ==> Dealt(rows[i], reviewed, active)
    ensures n < |rows| ==> !Dealt(rows[n], reviewed, active)
  {
    if rows == [] || !Dealt(rows[0], reviewed, active) then 0
    else 1 + DealtPrefix(rows[1..], reviewed, active)
  }

  function LastDealt(ordered: seq<BatchRow>, reviewed: set<Id>, active: set<Id>): Option<Instant> {
    var n := DealtPrefix(ordered, reviewed, active);
    if n == 0 then None else Some(ordered[n - 1].created)
  }

  function Watermark(batch: seq<BatchRow>, reviewed: set<Id>, active: set<Id>): Option<Instant> {
    LastDealt(Sort(Earlier, batch), reviewed, active)
  }

  method TriageWatermark(batch: seq<BatchRow>, reviewed: set<Id>, active: set<Id>) returns (watermark: Option<Instant>)
    ensures watermark == Watermark(batch, reviewed, active)
  {
    var ordered := Sort(Earlier, batch);
    watermark := None;
    ghost var n := DealtPrefix(ordered, reviewed, active);
    var i := 0;
    while i < |ordered|
      invariant 0 <= i <= n
      invariant watermark == if i == 0 then None else Some(ordered[i - 1].created)
    {
      var row := ordered[i];
      if row.id !in reviewed && row.id in active {
        break;
      }
      watermark := Some(row.created);
      i := i + 1;
    }
  }

  // ----- what the watermark promises -----------------------------------------------

  ghost predicate InOrder(rows: seq<BatchRow>) {
    forall i, j :: 0 <= i < j < |rows| ==> rows[i].created <= rows[j].created
  }

  lemma OrderedBatch(batch: seq<BatchRow>)
    ensures StrictWeak(Earlier, batch) && InOrder(Sort(Earlier, batch))
    ensures forall row :: row in Sort(Earlier, batch) <==> row in batch
  {
    SortSorts(Earlier, batch, batch);
    SameValues(Sort(Earlier, batch), batch);
  }

  ghost predicate Outstanding(row: BatchRow, batch: seq<BatchRow>, reviewed: set<Id>, active: set<Id>) {
    row in batch && row.id !in reviewed && row.id in active
  }

  // Everything strictly below the marker is dealt with, ties or not.
  lemma BelowTheWatermarkIsDealt(batch: seq<BatchRow>, reviewed: set<Id>, active: set<Id>, row: BatchRow)
    requires Watermark(batch, reviewed, active).Some?
    requires row in batch && row.created < Watermark(batch, reviewed, active).value
    ensures row.id in reviewed || row.id !in active
  {
    OrderedBatch(batch);
  }

  // No instant of the batch with everything up to it dealt with lies above the
  // marker.
  lemma WatermarkIsTheGreatest(batch: seq<BatchRow>, reviewed: set<Id>, active: set<Id>, row: BatchRow)
    requires row in batch
    requires forall other :: other in batch && other.created <= row.created ==>
               other.id in reviewed || other.id !in active
    ensures Watermark(batch, reviewed, active).Some? && row.created <= Watermark(batch, reviewed, active).value
  {
    OrderedBatch(batch);
    var ordered := Sort(Earlier, batch);
    var k :| 0 <= k < |ordered| && ordered[k] == row;
    forall i | 0 <= i <= k ensures Dealt(ordered[i], reviewed, active) {
      assert ordered[i] in batch;
    }
    PrefixCovers(ordered, reviewed, active, k);
  }

  lemma PrefixCovers(rows: seq<BatchRow>, reviewed: set<Id>, active: set<Id>, k: nat)
    requires k < |rows| && forall i :: 0 <= i <= k ==> Dealt(rows[i], reviewed, active)
    requires InOrder(rows)
    ensures AtMost(Some(rows[k].created), LastDealt(rows, reviewed, active))
  {
    assert k < DealtPrefix(rows, reviewed, active);
  }

  predicate AtMost(a: Option<Instant>, b: Option<Instant>) {
    a.None? || (b.Some? && a.value <= b.value)
  }

  // Reviewing or settling more never moves it back.
  lemma WatermarkIsMonotone(batch: seq<BatchRow>, reviewed: set<Id>, active: set<Id>, more: set<Id>, fewer: set<Id>)
    requires reviewed <= more && fewer <= active
    ensures AtMost(Watermark(batch, reviewed, active), Watermark(batch, more, fewer))
  {
    OrderedBatch(batch);
    var ordered := Sort(Earlier, batch);
    var n := DealtPrefix(ordered, reviewed, active);
    if n > 0 {
      forall i | 0 <= i < n ensures Dealt(ordered[i], more, fewer) {
        assert Dealt(ordered[i], reviewed, active);
      }
      PrefixCovers(ordered, more, fewer, n - 1);
    }
  }

  // The first row of the batch enrolled at an instant.
  function FirstAt(instant: Instant, batch: seq<BatchRow>): Option<BatchRow> {
    if batch == [] then None
    else if batch[0].created == instant then Some(batch[0])
    else FirstAt(instant, batch[1..])
  }

  lemma {:induction false} FirstAtIsFirstTied(row: BatchRow, batch: seq<BatchRow>)
    ensures var tied := TiedWith(Earlier, row, batch);
            FirstAt(row.created, batch) == if tied == [] then None else Some(tied[0])
  {
    if batch != [] {
      FirstAtIsFirstTied(row, batch[1..]);
    }
  }

  lemma {:induction false} FirstAtInOrder(ordered: seq<BatchRow>, n: nat)
    requires n < |ordered| && InOrder(ordered)
    requires n > 0 ==> ordered[n - 1].created < ordered[n].created
    ensures FirstAt(ordered[n].created, ordered) == Some(ordered[n])
  {
    if n > 0 {
      FirstAtInOrder(ordered[1..], n - 1);
    }
  }

  lemma {:induction false} FirstAtInFront(ordered: seq<BatchRow>, n: nat)
    requires 0 < n < |ordered| && ordered[n - 1].created == ordered[n].created
    ensures exists i :: 0 <= i < n && FirstAt(ordered[n].created, ordered) == Some(ordered[i])
  {
    if ordered[0].created != ordered[n].created {
      FirstAtInFront(ordered[1..], n - 1);
    }
  }

  // Sorting does not change which row is the first of its instant.
  lemma FirstAtSurvivesSorting(batch: seq<BatchRow>, row: BatchRow)
    requires row in batch
    ensures FirstAt(row.created, Sort(Earlier, batch)) == FirstAt(row.created, batch)
  {
    SortIsStable(Earlier, batch, batch, row);
    FirstAtIsFirstTied(row, batch);
    FirstAtIsFirstTied(row, Sort(Earlier, batch));
  }

  // The row is outstanding, none is outstanding at an earlier instant, and the
  // batch's first row of its instant is dealt with.
  ghost predicate TieHides(row: BatchRow, batch: seq<BatchRow>, reviewed: set<Id>, active: set<Id>) {
    && Outstanding(row, batch, reviewed, active)
    && (forall other :: Outstanding(other, batch, reviewed, active) ==> row.created <= other.created)
    && FirstAt(row.created, batch).Some?
    && var first := FirstAt(row.created, batch).value; first.id in reviewed || first.id !in active
  }

  // In the sorted batch: an outstanding row is covered exactly when it shares the
  // first outstanding row's instant and a dealt row of that instant comes first.
  lemma CoveredInOrder(ordered: seq<BatchRow>, reviewed: set<Id>, active: set<Id>, k: nat)
    requires InOrder(ordered) && k < |ordered| && !Dealt(ordered[k], reviewed, active)
    ensures DealtPrefix(ordered, reviewed, active) <= k
    ensures var first := FirstAt(ordered[k].created, ordered);
            AtMost(Some(ordered[k].created), LastDealt(ordered, reviewed, active))
            <==> (ordered[DealtPrefix(ordered, reviewed, active)].created == ordered[k].created
                  && first.Some? && Dealt(first.value, reviewed, active))
  {
    var n := DealtPrefix(ordered, reviewed, active);
    if n > 0 && ordered[n - 1].created == ordered[n].created {
      FirstAtInFront(ordered, n);
    } else {
      FirstAtInOrder(ordered, n);
    }
  }

  lemma EarliestOutstanding(ordered: seq<BatchRow>, batch: seq<BatchRow>, reviewed: set<Id>, active: set<Id>, k: nat)
    requires InOrder(ordered) && DealtPrefix(ordered, reviewed, active) <= k < |ordered|
    requires forall row :: row in ordered <==> row in batch
    ensures ordered[DealtPrefix(ordered, reviewed, active)].created == ordered[k].created
            <==> (forall other :: Outstanding(other, batch, reviewed, active) ==> ordered[k].created <= other.created)
  {
    var n := DealtPrefix(ordered, reviewed, active);
    assert ordered[n] in ordered;
    assert Outstanding(ordered[n], batch, reviewed, active);
    forall other | Outstanding(other, batch, reviewed, active) ensures ordered[n].created <= other.created {
      var i :| 0 <= i < |ordered| && ordered[i] == other;
    }
  }

  // The marker covers a row nobody dealt with exactly when that row ties with a
  // dealt one that comes first at the earliest outstanding instant.
  lemma WatermarkHidesIff(batch: seq<BatchRow>, reviewed: set<Id>, active: set<Id>, row: BatchRow)
    requires Outstanding(row, batch, reviewed, active)
    ensures AtMost(Some(row.created), Watermark(batch, reviewed, active))
            <==> TieHides(row, batch, reviewed, active)
  {
    OrderedBatch(batch);
    var ordered := Sort(Earlier, batch);
    var k :| 0 <= k < |ordered| && ordered[k] == row;
    CoveredInOrder(ordered, reviewed, active, k);
    EarliestOutstanding(ordered, batch, reviewed, active, k);
    FirstAtSurvivesSorting(batch, row);
  }

  // With distinct instants the marker never covers an outstanding row.
  lemma DistinctInstantsHideNothing(batch: seq<BatchRow>, reviewed: set<Id>, active: set<Id>, row: BatchRow)
    requires Outstanding(row, batch, reviewed, active)
    requires forall other :: other in batch && other.created == row.created ==> other == row
    ensures !AtMost(Some(row.created), Watermark(batch, reviewed, active))
  {
    WatermarkHidesIff(batch, reviewed, active, row);
    FirstAtIsAMember(row.created, batch);
  }

  lemma {:induction false} FirstAtIsAMember(instant: Instant, batch: seq<BatchRow>)
    ensures FirstAt(instant, batch).Some? ==>
              FirstAt(instant, batch).value in batch && FirstAt(instant, batch).value.created == instant
  {
    if batch != [] {
      FirstAtIsAMember(instant, batch[1..]);
    }
  }

  // ----- the strip -----------------------------------------------------------------

  function NoteOf(row: Row): Note {
    if row.source.Some? then row.source.value.note else ""
  }

  function LabelOf(row: Row): Label {
    if row.source.None? || row.source.value.title == "" then Other
    else Titled(row.source.value.title, row.lastMention)
  }

  function Newer(entries: seq<Row>, seen: Instant): seq<Row> {
    if entries == [] then []
    else Newer(entries[..|entries| - 1], seen)
         + (if entries[|entries| - 1].created <= seen then [] else [entries[|entries| - 1]])
  }

  function FromNote(note: Note, rows: seq<Row>): seq<Row> {
    if rows == [] then []
    else FromNote(note, rows[..|rows| - 1]) + (if NoteOf(rows[|rows| - 1]) == note then [rows[|rows| - 1]] else [])
  }

  // The notes in the order they first appear.
  function Notes(rows: seq<Row>): seq<Note> {
    if rows == [] then []
    else
      var front := Notes(rows[..|rows| - 1]);
      if NoteOf(rows[|rows| - 1]) in front then front else front + [NoteOf(rows[|rows| - 1])]
  }

  predicate EarlierRow(a: Row, b: Row) {
    a.created < b.created
  }

  function FirstInstant(group: TriageGroup): Instant {
    if group.rows == [] then 0 else group.rows[0].created
  }

  predicate EarlierGroup(a: TriageGroup, b: TriageGroup) {
    FirstInstant(a) < FirstInstant(b)
  }

  // The rows of one note, labelled by the first of them.
  ghost predicate Gathers(group: TriageGroup, note: Note, rows: seq<Row>) {
    && group.note == note
    && group.rows == FromNote(note, rows)
    && group.rows != []
    && group.heading == LabelOf(group.rows[0])
  }

  // The same with the rows put in order.
  function GroupFor(note: Note, rows: seq<Row>): TriageGroup {
    var own := FromNote(note, rows);
    TriageGroup(note, if own == [] then Other else LabelOf(own[0]), Sort(EarlierRow, own))
  }

  function GroupsFor(notes: seq<Note>, rows: seq<Row>): seq<TriageGroup> {
    seq(|notes|, i requires 0 <= i < |notes| => GroupFor(notes[i], rows))
  }

  // An unknown last look offers nothing.
  function Strip(entries: seq<Row>, lastSeen: Option<Instant>): seq<TriageGroup> {
    if lastSeen.None? then []
    else
      var rows := Newer(entries, lastSeen.value);
      Sort(EarlierGroup, GroupsFor(Notes(rows), rows))
  }

  ghost predicate Gathered(groups: seq<TriageGroup>, rows: seq<Row>) {
    && |groups| == |Notes(rows)|
    && forall g :: 0 <= g < |groups| ==> Gathers(groups[g], Notes(rows)[g], rows)
  }

  ghost predicate Indexes(at: map<Note, nat>, notes: seq<Note>) {
    && (forall note :: note in at <==> note in notes)
    && (forall note :: note in at ==> at[note] < |notes| && notes[at[note]] == note)
  }

  lemma RowOfASeenNote(groups: seq<TriageGroup>, row: Row, rows: seq<Row>, g: nat)
    requires Gathered(groups, rows) && g < |groups| && Notes(rows)[g] == NoteOf(row)
    ensures Notes(rows + [row]) == Notes(rows)
    ensures Gathered(groups[g := groups[g].(rows := groups[g].rows + [row])], rows + [row])
  {
    assert (rows + [row])[..|rows|] == rows;
    assert Notes(rows)[g] in Notes(rows);
    NotesAreDistinct(rows);
  }

  lemma RowOfANewNote(groups: seq<TriageGroup>, row: Row, rows: seq<Row>)
    requires Gathered(groups, rows) && NoteOf(row) !in Notes(rows)
    ensures Notes(rows + [row]) == Notes(rows) + [NoteOf(row)]
    ensures Gathered(groups + [TriageGroup(NoteOf(row), LabelOf(row), [row])], rows + [row])
  {
    assert (rows + [row])[..|rows|] == rows;
    NothingFromUnseenNotes(NoteOf(row), rows);
  }

  method GatherRow(groups: seq<TriageGroup>, at: map<Note, nat>, row: Row, ghost rows: seq<Row>)
    returns (groups': seq<TriageGroup>, at': map<Note, nat>)
    requires Gathered(groups, rows) && Indexes(at, Notes(rows))
    ensures Gathered(groups', rows + [row]) && Indexes(at', Notes(rows + [row]))
  {
    var note := NoteOf(row);
    if note in at {
      var g := at[note];
      RowOfASeenNote(groups, row, rows, g);
      groups', at' := groups[g := groups[g].(rows := groups[g].rows + [row])], at;
    } else {
      RowOfANewNote(groups, row, rows);
      groups' := groups + [TriageGroup(note, LabelOf(row), [row])];
      at' := at[note := |groups|];
    }
  }

  lemma {:induction false} NotesAreDistinct(rows: seq<Row>)
    ensures forall i, j :: 0 <= i < j < |Notes(rows)| ==> Notes(rows)[i] != Notes(rows)[j]
  {
    if rows != [] {
      NotesAreDistinct(rows[..|rows| - 1]);
    }
  }

  lemma NewerNext(entries: seq<Row>, seen: Instant, i: nat)
    requires i < |entries|
    ensures Newer(entries[..i + 1], seen)
         == if entries[i].created <= seen then Newer(entries[..i], seen) else Newer(entries[..i], seen) + [entries[i]]
  {
    assert entries[..i + 1][..i] == entries[..i];
  }

  method Gather(entries: seq<Row>, seen: Instant) returns (groups: seq<TriageGroup>)
    ensures Gathered(groups, Newer(entries, seen))
  {
    groups := [];
    var at := map[];
    for i := 0 to |entries|
      invariant Gathered(groups, Newer(entries[..i], seen))
      invariant Indexes(at, Notes(Newer(entries[..i], seen)))
    {
      NewerNext(entries, seen, i);
      if entries[i].created <= seen {
        continue;
      }
      groups, at := GatherRow(groups, at, entries[i], Newer(entries[..i], seen));
    }
    assert entries[..|entries|] == entries;
  }

  lemma OneInOrder(group: TriageGroup, note: Note, rows: seq<Row>)
    requires Gathers(group, note, rows)
    ensures group.(rows := Sort(EarlierRow, group.rows)) == GroupFor(note, rows)
  {
  }

  method PutInOrder(groups: seq<TriageGroup>, ghost rows: seq<Row>) returns (ordered: seq<TriageGroup>)
    requires Gathered(groups, rows)
    ensures ordered == GroupsFor(Notes(rows), rows)
  {
    ordered := [];
    for g := 0 to |groups|
      invariant |ordered| == g
      invariant forall j :: 0 <= j < g ==> ordered[j] == GroupFor(Notes(rows)[j], rows)
    {
      OneInOrder(groups[g], Notes(rows)[g], rows);
      ordered := ordered + [groups[g].(rows := Sort(EarlierRow, groups[g].rows))];
    }
  }

  method ArrangeTriage(entries: seq<Row>, lastSeen: Option<Instant>) returns (strip: seq<TriageGroup>)
    ensures strip == Strip(entries, lastSeen)
  {
    if lastSeen.None? {
      return [];
    }
    var groups := Gather(entries, lastSeen.value);
    var ordered := PutInOrder(groups, Newer(entries, lastSeen.value));
    strip := Sort(EarlierGroup, ordered);
  }

  lemma {:induction false} NothingFromUnseenNotes(note: Note, rows: seq<Row>)
    ensures FromNote(note, rows) == [] <==> note !in Notes(rows)
  {
    if rows != [] {
      NothingFromUnseenNotes(note, rows[..|rows| - 1]);
    }
  }

  lemma {:induction false} FromNoteMembers(note: Note, rows: seq<Row>)
    ensures forall row :: row in FromNote(note, rows) <==> row in rows && NoteOf(row) == note
  {
    if rows != [] {
      FromNoteMembers(note, rows[..|rows| - 1]);
    }
  }

  lemma {:induction false} NewerMembers(entries: seq<Row>, seen: Instant)
    ensures forall row :: row in Newer(entries, seen) <==> row in entries && row.created > seen
  {
    if entries != [] {
      NewerMembers(entries[..|entries| - 1], seen);
    }
  }

  lemma StripGroups(entries: seq<Row>, seen: Instant, group: TriageGroup)
    ensures var rows := Newer(entries, seen);
            group in Strip(entries, Some(seen)) <==> group.note in Notes(rows) && group == GroupFor(group.note, rows)
  {
    var rows := Newer(entries, seen);
    var groups := GroupsFor(Notes(rows), rows);
    SameValues(Strip(entries, Some(seen)), groups);
    if group in groups {
      var i :| 0 <= i < |groups| && groups[i] == group;
      assert Notes(rows)[i] in Notes(rows);
    } else if group.note in Notes(rows) {
      var i :| 0 <= i < |Notes(rows)| && Notes(rows)[i] == group.note;
      assert groups[i] in groups;
    }
  }

  // The strip offers a row, under its own note, exactly when the last look is known
  // and the row is an entry enrolled after it.
  lemma StripOffersIff(entries: seq<Row>, lastSeen: Option<Instant>, row: Row)
    ensures (exists g :: g in Strip(entries, lastSeen) && row in g.rows)
            <==> lastSeen.Some? && row in entries && row.created > lastSeen.value
    ensures forall g :: g in Strip(entries, lastSeen) && row in g.rows ==>
              g.note == match row.source case Some(source) => source.note case None => ""
  {
    if lastSeen.Some? {
      SeenStripOffersIff(entries, lastSeen.value, row);
    }
  }

  lemma SeenStripOffersIff(entries: seq<Row>, seen: Instant, row: Row)
    ensures (exists g :: g in Strip(entries, Some(seen)) && row in g.rows) <==> row in entries && row.created > seen
    ensures forall g :: g in Strip(entries, Some(seen)) && row in g.rows ==>
              g.note == match row.source case Some(source) => source.note case None => ""
  {
    var rows, note := Newer(entries, seen), NoteOf(row);
    NewerMembers(entries, seen);
    FromNoteMembers(note, rows);
    SameValues(GroupFor(note, rows).rows, FromNote(note, rows));
    NothingFromUnseenNotes(note, rows);
    StripGroups(entries, seen, GroupFor(note, rows));
    forall g | g in Strip(entries, Some(seen)) && row in g.rows ensures g.note == note {
      StripGroups(entries, seen, g);
      FromNoteMembers(g.note, rows);
      SameValues(GroupFor(g.note, rows).rows, FromNote(g.note, rows));
    }
    forall g | g in Strip(entries, Some(seen)) && g.note == note ensures g == GroupFor(note, rows) {
      StripGroups(entries, seen, g);
    }
  }

  ghost predicate Heads(row: Row, heading: Label) {
    heading == match row.source
               case Some(source) => if source.title == "" then Other else Titled(source.title, row.lastMention)
               case None => Other
  }

  // Entry i is the first that is newer than the last look and of this note.
  ghost predicate FirstNewAt(note: Note, entries: seq<Row>, seen: Instant, i: nat) {
    i < |entries| && NewOf(note, seen, entries[i]) && forall j :: 0 <= j < i ==> !NewOf(note, seen, entries[j])
  }

  predicate NewOf(note: Note, seen: Instant, row: Row) {
    row.created > seen && note == match row.source case Some(source) => source.note case None => ""
  }

  lemma NewerSnoc(front: seq<Row>, last: Row, seen: Instant)
    ensures Newer(front + [last], seen)
         == if last.created > seen then Newer(front, seen) + [last] else Newer(front, seen)
  {
    assert (front + [last])[..|front|] == front;
  }

  lemma FromNoteSnoc(note: Note, front: seq<Row>, last: Row)
    ensures FromNote(note, front + [last])
         == if NoteOf(last) == note then FromNote(note, front) + [last] else FromNote(note, front)
  {
    assert (front + [last])[..|front|] == front;
  }

  lemma OwnNext(note: Note, front: seq<Row>, last: Row, seen: Instant)
    ensures var own := FromNote(note, Newer(front, seen));
            FromNote(note, Newer(front + [last], seen)) == if NewOf(note, seen, last) then own + [last] else own
  {
    NewerSnoc(front, last, seen);
    FromNoteSnoc(note, Newer(front, seen), last);
  }

  // Entry i is where the note's own new rows begin, if it has any.
  ghost predicate OwnBeginsAt(note: Note, entries: seq<Row>, seen: Instant, own: seq<Row>, i: nat) {
    if own == [] then forall j :: 0 <= j < |entries| ==> !NewOf(note, seen, entries[j])
    else FirstNewAt(note, entries, seen, i) && entries[i] == own[0]
  }

  lemma OwnBeginsStill(note: Note, front: seq<Row>, last: Row, seen: Instant, own: seq<Row>, i: nat)
    requires OwnBeginsAt(note, front, seen, own, i)
    ensures OwnBeginsAt(note, front + [last], seen, if NewOf(note, seen, last) then own + [last] else own,
                        if own == [] then |front| else i)
  {
    assert forall j :: 0 <= j < |front| ==> (front + [last])[j] == front[j];
  }

  lemma {:induction false} FirstNewIsFirst(note: Note, entries: seq<Row>, seen: Instant) returns (i: nat)
    ensures OwnBeginsAt(note, entries, seen, FromNote(note, Newer(entries, seen)), i)
  {
    i := 0;
    if entries != [] {
      var front, last := entries[..|entries| - 1], entries[|entries| - 1];
      assert entries == front + [last];
      i := FirstNewIsFirst(note, front, seen);
      var own := FromNote(note, Newer(front, seen));
      OwnNext(note, front, last, seen);
      OwnBeginsStill(note, front, last, seen, own, i);
      i := if own == [] then |front| else i;
    }
  }

  // The groups come oldest first, and so do the rows of each; a group is headed by
  // the title and the day of the first of its new entries, in the order given.
  lemma StripIsOldestFirst(entries: seq<Row>, seen: Instant)
    ensures var strip := Strip(entries, Some(seen));
            && (forall g :: g in strip ==> g.rows != [])
            && (forall m, n :: 0 <= m < n < |strip| ==> strip[m].rows[0].created <= strip[n].rows[0].created)
            && (forall g, i, j :: g in strip && 0 <= i < j < |g.rows| ==> g.rows[i].created <= g.rows[j].created)
            && (forall g :: g in strip ==>
                  exists i :: 0 <= i < |entries|
                    && FirstNewAt(g.note, entries, seen, i) && Heads(entries[i], g.heading))
  {
    var rows := Newer(entries, seen);
    var groups := GroupsFor(Notes(rows), rows);
    SortSorts(EarlierGroup, groups, groups);
    forall g | g in Strip(entries, Some(seen))
      ensures g.rows != [] && SortedBy(EarlierRow, g.rows)
      ensures exists i :: 0 <= i < |entries| && FirstNewAt(g.note, entries, seen, i) && Heads(entries[i], g.heading)
    {
      var own := FromNote(g.note, rows);
      StripGroups(entries, seen, g);
      NothingFromUnseenNotes(g.note, rows);
      SortSorts(EarlierRow, own, own);
      var i := FirstNewIsFirst(g.note, entries, seen);
      assert Heads(entries[i], g.heading);
    }
  }

  // The new rows of a note keep the order they came in.
  lemma {:induction false} OwnKeepsOrder(note: Note, entries: seq<Row>, seen: Instant)
    ensures Picks(FromNote(note, Newer(entries, seen)), entries)
  {
    if entries != [] {
      var front, last := entries[..|entries| - 1], entries[|entries| - 1];
      assert entries == front + [last];
      OwnKeepsOrder(note, front, seen);
      OwnNext(note, front, last, seen);
      PickOneMore(FromNote(note, Newer(front, seen)), front, last);
    }
  }

  lemma {:induction false} OwnCounts(note: Note, entries: seq<Row>, seen: Instant, row: Row)
    ensures multiset(FromNote(note, Newer(entries, seen)))[row]
         == if NewOf(note, seen, row) then multiset(entries)[row] else 0
  {
    if entries != [] {
      var front, last := entries[..|entries| - 1], entries[|entries| - 1];
      assert entries == front + [last];
      OwnCounts(note, front, seen, row);
      OwnNext(note, front, last, seen);
    }
  }

  // Each group holds exactly the new entries of its note, each as often as it was
  // given.
  lemma StripKeepsEachRow(entries: seq<Row>, seen: Instant, group: TriageGroup, row: Row)
    requires group in Strip(entries, Some(seen))
    ensures multiset(group.rows)[row] == if NewOf(group.note, seen, row) then multiset(entries)[row] else 0
  {
    StripGroups(entries, seen, group);
    OwnCounts(group.note, entries, seen, row);
  }

  lemma {:induction false} DistinctMeansOnce<T>(s: seq<T>, x: T)
    requires forall i, j :: 0 <= i < j < |s| ==> s[i] != s[j]
    ensures multiset(s)[x] <= 1
  {
    if s != [] {
      var n := |s| - 1;
      DistinctMeansOnce(s[..n], x);
      assert s == s[..n] + [s[n]];
      assert x == s[n] ==> x !in s[..n];
    }
  }

  lemma TwiceMeansTwo<T>(s: seq<T>, i: nat, j: nat)
    requires i < j < |s| && s[i] == s[j]
    ensures multiset(s)[s[i]] >= 2
  {
    assert s == s[..j] + ([s[j]] + s[j + 1..]);
    assert s[i] == s[..j][i] && s[i] in s[..j];
  }

  // A note has one group.
  lemma StripHasOneGroupANote(entries: seq<Row>, seen: Instant, m: nat, n: nat)
    requires m < n < |Strip(entries, Some(seen))|
    ensures Strip(entries, Some(seen))[m].note != Strip(entries, Some(seen))[n].note
  {
    var strip, rows := Strip(entries, Some(seen)), Newer(entries, seen);
    var groups := GroupsFor(Notes(rows), rows);
    StripGroups(entries, seen, strip[m]);
    StripGroups(entries, seen, strip[n]);
    NotesAreDistinct(rows);
    DistinctMeansOnce(groups, strip[m]);
    assert multiset(strip) == multiset(groups);
    if strip[m].note == strip[n].note {
      TwiceMeansTwo(strip, m, n);
      assert false;
    }
  }

  function BatchOf(rows: seq<Row>): seq<BatchRow> {
    if rows == [] then [] else [BatchRow(rows[0].id, rows[0].created)] + BatchOf(rows[1..])
  }

  lemma {:induction false} BatchMembers(rows: seq<Row>, row: Row)
    requires row in rows
    ensures BatchRow(row.id, row.created) in BatchOf(rows)
  {
    if row != rows[0] {
      BatchMembers(rows[1..], row);
    }
  }

  // Feeding the marker back: an outstanding row of the batch drops out of the
  // next strip exactly when it ties, at the earliest outstanding instant, with a
  // dealt row that comes first.
  lemma NextStripDropsIff(rows: seq<Row>, reviewed: set<Id>, active: set<Id>, row: Row)
    requires row in rows && Watermark(BatchOf(rows), reviewed, active).Some?
    requires row.id !in reviewed && row.id in active
    ensures !(exists g :: g in Strip(rows, Watermark(BatchOf(rows), reviewed, active)) && row in g.rows)
            <==> TieHides(BatchRow(row.id, row.created), BatchOf(rows), reviewed, active)
  {
    BatchMembers(rows, row);
    WatermarkHidesIff(BatchOf(rows), reviewed, active, BatchRow(row.id, row.created));
    StripOffersIff(rows, Watermark(BatchOf(rows), reviewed, active), row);
  }

  // Two rows enrolled at one instant, the second still outstanding: the marker
  // takes both.
  lemma ATieHidesARow()
    ensures var batch := [BatchRow("a", 1), BatchRow("b", 1)];
            Watermark(batch, {"a"}, {"a", "b"}) == Some(1) && Outstanding(batch[1], batch, {"a"}, {"a", "b"})
  {
    var batch := [BatchRow("a", 1), BatchRow("b", 1)];
    assert Sort(Earlier, batch[1..][1..]) == [];
    assert Sort(Earlier, batch[1..]) == [batch[1]];
    assert Sort(Earlier, batch) == batch;
    assert DealtPrefix(batch[1..], {"a"}, {"a", "b"}) == 0;
  }
}
