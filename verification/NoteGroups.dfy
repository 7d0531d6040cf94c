// Cutting a project's notes into month runs for the browse index
// (src/noteGroups.ts).
module NoteGroups {
  import opened Wrappers

  datatype Note = Note(id: string, date: string)

  datatype Group = Group(key: string, heading: string, notes: seq<Note>)

  const MONTH_NAMES := [
    "January", "February", "March", "April", "May", "June",
    "July", "August", "September", "October", "November", "December"]

  const RECENT_LABEL := "Recent"

  function Slice(s: string, from: nat, to: nat): string
    requires from <= to
  {
    if from >= |s| then "" else s[from..if to > |s| then |s| else to]
  }

  function Month(note: Note): string {
    Slice(note.date, 0, 7)
  }

  // String comparison, code unit by code unit.
  predicate AtLeast(a: string, b: string) {
    if b == "" then true
    else if a == "" then false
    else if a[0] != b[0] then a[0] > b[0]
    else AtLeast(a[1..], b[1..])
  }

  predicate Digit(c: char) {
    '0' <= c <= '9'
  }

  function Value(c: char): nat
    requires Digit(c)
  {
    (c - '0') as nat
  }

  // What Number makes of the month's two characters, when that is a whole number:
  // one or two digits, or one with a leading plus, a trailing point, or a space
  // on either side.
  function MonthNumber(s: string): Option<nat> {
    if |s| == 1 && Digit(s[0]) then Some(Value(s[0]))
    else if |s| != 2 then None
    else if Digit(s[0]) && Digit(s[1]) then Some(10 * Value(s[0]) + Value(s[1]))
    else if Digit(s[1]) && s[0] in "+ " then Some(Value(s[1]))
    else if Digit(s[0]) && s[1] in ". " then Some(Value(s[0]))
    else None
  }

  function MonthLabel(month: string): string {
    var number := MonthNumber(Slice(month, 5, 7));
    if number.Some? && 1 <= number.value <= 12
    then MONTH_NAMES[number.value - 1] + " " + Slice(month, 0, 4)
    else month
  }

  function LabelOf(month: string, current: string): string {
    if AtLeast(month, current) then RECENT_LABEL else MonthLabel(month)
  }

  function MonthKey(month: string, current: string): string {
    if AtLeast(month, current) then "recent" else month
  }

  // A number as a template literal writes it.
  function Decimal(n: nat): (s: string)
    ensures s != "" && forall i :: 0 <= i < |s| ==> Digit(s[i])
  {
    if n < 10 then ['0' + n as char] else Decimal(n / 10) + ['0' + (n % 10) as char]
  }

  // How many of the groups carry a heading.
  function RunsOf(heading: string, groups: seq<Group>): nat {
    if groups == [] then 0
    else RunsOf(heading, groups[..|groups| - 1]) + (if groups[|groups| - 1].heading == heading then 1 else 0)
  }

  function KeyOf(base: string, previousRuns: nat): string {
    if previousRuns == 0 then base else base + "#" + Decimal(previousRuns)
  }

  function AllNotes(groups: seq<Group>): seq<Note> {
    if groups == [] then [] else AllNotes(groups[..|groups| - 1]) + groups[|groups| - 1].notes
  }

  // A run: notes of one label, keyed by its first note's month and by how many
  // runs of that label came before.
  predicate RunFits(group: Group, previousRuns: nat, current: string) {
    && group.notes != []
    && (forall i :: 0 <= i < |group.notes| ==> LabelOf(Month(group.notes[i]), current) == group.heading)
    && group.key == KeyOf(MonthKey(Month(group.notes[0]), current), previousRuns)
  }

  ghost predicate IsRun(groups: seq<Group>, g: nat, current: string)
    requires g < |groups|
  {
    RunFits(groups[g], RunsOf(groups[g].heading, groups[..g]), current)
  }

  // The notes in order, cut into maximal runs.
  ghost predicate Grouped(groups: seq<Group>, notes: seq<Note>, current: string) {
    && AllNotes(groups) == notes
    && (forall g :: 0 <= g < |groups| ==> IsRun(groups, g, current))
    && (forall g :: 0 < g < |groups| ==> groups[g - 1].heading != groups[g].heading)
  }

  ghost predicate Counts(runsSoFar: map<string, nat>, groups: seq<Group>) {
    forall heading :: RunsOf(heading, groups) == if heading in runsSoFar then runsSoFar[heading] else 0
  }

  // The groups with one more note in the last.
  function Joined(groups: seq<Group>, note: Note): seq<Group>
    requires groups != []
  {
    var n := |groups| - 1;
    groups[..n] + [groups[n].(notes := groups[n].notes + [note])]
  }

  lemma JoinedRuns(groups: seq<Group>, note: Note, heading: string)
    requires groups != []
    ensures RunsOf(heading, Joined(groups, note)) == RunsOf(heading, groups)
    ensures AllNotes(Joined(groups, note)) == AllNotes(groups) + [note]
  {
    assert Joined(groups, note)[..|groups| - 1] == groups[..|groups| - 1];
  }

  lemma ARunGrows(group: Group, previousRuns: nat, current: string, note: Note)
    requires RunFits(group, previousRuns, current) && group.heading == LabelOf(Month(note), current)
    ensures RunFits(group.(notes := group.notes + [note]), previousRuns, current)
  {
  }

  lemma JoinedRun(groups: seq<Group>, current: string, note: Note, g: nat)
    requires g < |groups| && IsRun(groups, g, current)
    requires groups[|groups| - 1].heading == LabelOf(Month(note), current)
    ensures IsRun(Joined(groups, note), g, current)
  {
    assert Joined(groups, note)[..g] == groups[..g];
    if g == |groups| - 1 {
      ARunGrows(groups[g], RunsOf(groups[g].heading, groups[..g]), current, note);
    }
  }

  lemma ANoteJoins(groups: seq<Group>, notes: seq<Note>, current: string, note: Note)
    requires Grouped(groups, notes, current) && groups != []
    requires groups[|groups| - 1].heading == LabelOf(Month(note), current)
    ensures Grouped(Joined(groups, note), notes + [note], current)
  {
    JoinedRuns(groups, note, "");
    forall g | 0 <= g < |groups| ensures IsRun(Joined(groups, note), g, current) {
      JoinedRun(groups, current, note, g);
    }
  }

  lemma CountsJoin(runsSoFar: map<string, nat>, groups: seq<Group>, note: Note)
    requires Counts(runsSoFar, groups) && groups != []
    ensures Counts(runsSoFar, Joined(groups, note))
  {
    forall heading ensures RunsOf(heading, Joined(groups, note)) == RunsOf(heading, groups) {
      JoinedRuns(groups, note, heading);
    }
  }

  lemma CountsOpen(runsSoFar: map<string, nat>, groups: seq<Group>, group: Group)
    requires Counts(runsSoFar, groups)
    ensures Counts(runsSoFar[group.heading := RunsOf(group.heading, groups) + 1], groups + [group])
  {
    assert (groups + [group])[..|groups|] == groups;
  }

  // The run a note opens after these groups.
  function OpenedBy(groups: seq<Group>, current: string, note: Note): Group {
    var heading := LabelOf(Month(note), current);
    Group(KeyOf(MonthKey(Month(note), current), RunsOf(heading, groups)), heading, [note])
  }

  lemma ARunOpens(groups: seq<Group>, notes: seq<Note>, current: string, note: Note)
    requires Grouped(groups, notes, current)
    requires groups == [] || groups[|groups| - 1].heading != LabelOf(Month(note), current)
    ensures Grouped(groups + [OpenedBy(groups, current, note)], notes + [note], current)
  {
    var longer := groups + [OpenedBy(groups, current, note)];
    assert longer[..|groups|] == groups;
    assert forall g :: 0 <= g <= |groups| ==> longer[..g] == groups[..g];
    forall g | 0 <= g < |longer| ensures IsRun(longer, g, current) {
      if g < |groups| {
        assert IsRun(groups, g, current);
      }
    }
  }

  // One note: it joins the last run or opens the next.
  method AddNote(groups: seq<Group>, runsSoFar: map<string, nat>, current: string, note: Note, ghost notes: seq<Note>)
    returns (groups': seq<Group>, runsSoFar': map<string, nat>)
    requires Grouped(groups, notes, current) && Counts(runsSoFar, groups)
    ensures Grouped(groups', notes + [note], current) && Counts(runsSoFar', groups')
  {
    var month := Month(note);
    var heading := LabelOf(month, current);
    if groups != [] && groups[|groups| - 1].heading == heading {
      ANoteJoins(groups, notes, current, note);
      CountsJoin(runsSoFar, groups, note);
      var last := groups[|groups| - 1];
      groups' := groups[..|groups| - 1] + [last.(notes := last.notes + [note])];
      assert groups' == Joined(groups, note);
      return groups', runsSoFar;
    }
    var previousRuns := if heading in runsSoFar then runsSoFar[heading] else 0;
    var group := Group(KeyOf(MonthKey(month, current), previousRuns), heading, [note]);
    assert group == OpenedBy(groups, current, note);
    ARunOpens(groups, notes, current, note);
    CountsOpen(runsSoFar, groups, group);
    return groups + [group], runsSoFar[heading := previousRuns + 1];
  }

  method GroupNotes(notes: seq<Note>, todayIso: string) returns (groups: seq<Group>)
    ensures Grouped(groups, notes, Slice(todayIso, 0, 7))
  {
    var currentMonth := Slice(todayIso, 0, 7);
    groups := [];
    var runsSoFar: map<string, nat> := map[];
    for i := 0 to |notes|
      invariant Grouped(groups, notes[..i], currentMonth)
      invariant Counts(runsSoFar, groups)
    {
      groups, runsSoFar := AddNote(groups, runsSoFar, currentMonth, notes[i], notes[..i]);
      assert notes[..i + 1] == notes[..i] + [notes[i]];
    }
    assert notes[..|notes|] == notes;
  }

  // ----- keys ----------------------------------------------------------------------

  lemma {:induction false} DecimalIsInjective(m: nat, n: nat)
    requires Decimal(m) == Decimal(n)
    ensures m == n
  {
    var s := Decimal(m);
    if m >= 10 && n >= 10 {
      assert s[..|s| - 1] == Decimal(m / 10) && s[..|s| - 1] == Decimal(n / 10);
      DecimalIsInjective(m / 10, n / 10);
    }
  }

  lemma SuffixesAgree(a: string, m: nat, b: string, n: nat)
    requires m > 0 && n > 0 && KeyOf(a, m) == KeyOf(b, n)
    ensures a == b && m == n
  {
    var x, y := Decimal(m), Decimal(n);
    var s := KeyOf(a, m);
    assert s == a + ("#" + x) && s == b + ("#" + y);
    assert s[|a|] == '#' && s[|b|] == '#';
    assert a == s[..|a|] && b == s[..|b|];
    assert x == s[|a| + 1..] && y == s[|b| + 1..];
    DecimalIsInjective(m, n);
  }

  // todayIsoDate() starts with the year.
  predicate StartsWithADigit(current: string) {
    current != "" && Digit(current[0])
  }

  lemma TheKeyFixesTheLabel(a: string, b: string, current: string)
    requires StartsWithADigit(current) && MonthKey(a, current) == MonthKey(b, current)
    ensures LabelOf(a, current) == LabelOf(b, current)
  {
    assert AtLeast("recent", current);
  }

  lemma {:induction false} RunsClimb(groups: seq<Group>, i: nat, j: nat)
    requires i < j <= |groups|
    ensures RunsOf(groups[i].heading, groups[..i]) < RunsOf(groups[i].heading, groups[..j])
    decreases j
  {
    assert groups[..j][..j - 1] == groups[..j - 1];
    if i < j - 1 {
      RunsClimb(groups, i, j - 1);
    }
  }

  // A note's label, and the month its key would start with.
  function LabelAt(notes: seq<Note>, p: nat, current: string): string
    requires p < |notes|
  {
    LabelOf(Month(notes[p]), current)
  }

  function BaseAt(notes: seq<Note>, p: nat, current: string): string
    requires p < |notes|
  {
    MonthKey(Month(notes[p]), current)
  }

  // Note p opens a run: the one before it, if any, has another label.
  predicate Opens(notes: seq<Note>, p: nat, current: string) {
    p < |notes| && (p == 0 || LabelAt(notes, p - 1, current) != LabelAt(notes, p, current))
  }

  // How many of the first n notes open a run of this label.
  function RunsBefore(notes: seq<Note>, n: nat, heading: string, current: string): nat
    requires n <= |notes|
  {
    if n == 0 then 0
    else
      RunsBefore(notes, n - 1, heading, current)
      + if Opens(notes, n - 1, current) && LabelAt(notes, n - 1, current) == heading then 1 else 0
  }

  function Earlier(notes: seq<Note>, p: nat, current: string): nat
    requires p < |notes|
  {
    RunsBefore(notes, p, LabelAt(notes, p, current), current)
  }

  // The key of a run that note p opens.
  function KeyFrom(notes: seq<Note>, p: nat, current: string): string
    requires p < |notes|
  {
    KeyOf(BaseAt(notes, p, current), Earlier(notes, p, current))
  }

  // Note p opens the first run of its label and q a later one of its own, and p's
  // month already reads as q's suffixed key.
  predicate Shadows(notes: seq<Note>, p: nat, q: nat, current: string) {
    && Opens(notes, p, current) && Opens(notes, q, current)
    && Earlier(notes, p, current) == 0
    && Earlier(notes, q, current) > 0
    && BaseAt(notes, p, current) == BaseAt(notes, q, current) + "#" + Decimal(Earlier(notes, q, current))
  }

  lemma LabelsDifferAtACut(groups: seq<Group>, notes: seq<Note>, current: string, g: nat)
    requires Grouped(groups, notes, current) && 0 < g < |groups|
    ensures 0 < Offset(groups, g) < |notes|
    ensures LabelAt(notes, Offset(groups, g) - 1, current) == groups[g - 1].heading
    ensures LabelAt(notes, Offset(groups, g), current) != groups[g - 1].heading
  {
    RunHolds(groups, notes, current, g);
    RunHolds(groups, notes, current, g - 1);
    RunEnds(groups, notes, current, g - 1);
  }

  // Each group starts at a note that opens a run.
  lemma GroupsOpen(groups: seq<Group>, notes: seq<Note>, current: string, g: nat)
    requires Grouped(groups, notes, current) && g < |groups|
    ensures Opens(notes, Offset(groups, g), current)
    ensures LabelAt(notes, Offset(groups, g), current) == groups[g].heading
    ensures groups[g].notes != [] && groups[g].notes[0] == notes[Offset(groups, g)]
  {
    RunHolds(groups, notes, current, g);
    GroupsNotes(groups, notes, g);
    if g > 0 {
      LabelsDifferAtACut(groups, notes, current, g);
    }
  }

  lemma AnOpeningCounts(notes: seq<Note>, current: string, p: nat, heading: string)
    requires Opens(notes, p, current)
    ensures RunsBefore(notes, p + 1, heading, current)
         == RunsBefore(notes, p, heading, current) + if LabelAt(notes, p, current) == heading then 1 else 0
  {
  }

  // A run counts once, at the note that opens it.
  lemma {:induction false} ARunCountsOnce(notes: seq<Note>, current: string, p: nat, n: nat, heading: string)
    requires p < n <= |notes| && Opens(notes, p, current)
    requires forall i :: p < i < n ==> !Opens(notes, i, current)
    ensures RunsBefore(notes, n, heading, current) == RunsBefore(notes, p + 1, heading, current)
  {
    if n > p + 1 {
      ARunCountsOnce(notes, current, p, n - 1, heading);
      assert !Opens(notes, n - 1, current);
    }
  }

  lemma NothingOpensWithin(groups: seq<Group>, notes: seq<Note>, current: string, g: nat, i: nat)
    requires Grouped(groups, notes, current) && g < |groups| && Offset(groups, g) < i < Offset(groups, g + 1)
    ensures i < |notes| && !Opens(notes, i, current)
  {
    RunHolds(groups, notes, current, g);
    assert LabelAt(notes, i - 1, current) == groups[g].heading && LabelAt(notes, i, current) == groups[g].heading;
  }

  lemma AGroupIsOneRun(groups: seq<Group>, notes: seq<Note>, current: string, g: nat, heading: string)
    requires Grouped(groups, notes, current) && g < |groups|
    ensures Offset(groups, g) < Offset(groups, g + 1) <= |notes|
    ensures RunsBefore(notes, Offset(groups, g + 1), heading, current)
         == RunsBefore(notes, Offset(groups, g), heading, current) + if groups[g].heading == heading then 1 else 0
  {
    RunHolds(groups, notes, current, g);
    GroupsOpen(groups, notes, current, g);
    forall i | Offset(groups, g) < i < Offset(groups, g + 1) ensures !Opens(notes, i, current) {
      NothingOpensWithin(groups, notes, current, g, i);
    }
    ARunCountsOnce(notes, current, Offset(groups, g), Offset(groups, g + 1), heading);
    AnOpeningCounts(notes, current, Offset(groups, g), heading);
  }

  lemma NextRuns(groups: seq<Group>, g: nat, heading: string)
    requires g < |groups|
    ensures RunsOf(heading, groups[..g + 1])
         == RunsOf(heading, groups[..g]) + if groups[g].heading == heading then 1 else 0
  {
    assert groups[..g + 1][..g] == groups[..g];
  }

  lemma {:induction false} RunsAgree(groups: seq<Group>, notes: seq<Note>, current: string, g: nat, heading: string)
    requires Grouped(groups, notes, current) && g <= |groups|
    ensures Offset(groups, g) <= |notes|
    ensures RunsOf(heading, groups[..g]) == RunsBefore(notes, Offset(groups, g), heading, current)
  {
    if g > 0 {
      RunsAgree(groups, notes, current, g - 1, heading);
      AGroupIsOneRun(groups, notes, current, g - 1, heading);
      NextRuns(groups, g - 1, heading);
    }
  }

  // What a number written in decimal reads as.
  function Reads(s: string): nat
    requires forall i :: 0 <= i < |s| ==> Digit(s[i])
  {
    if s == "" then 0 else 10 * Reads(s[..|s| - 1]) + Value(s[|s| - 1])
  }

  lemma {:induction false} DecimalReads(n: nat)
    ensures Reads(Decimal(n)) == n
  {
    var s := Decimal(n);
    if n >= 10 {
      DecimalReads(n / 10);
      assert s[..|s| - 1] == Decimal(n / 10);
    } else {
      assert s[..0] == "";
    }
  }

  // The key spelled out: "recent" for the leading run and the month's own text
  // otherwise, and from the second run of a label on, # and how many came before.
  lemma KeysAreSpelled(groups: seq<Group>, notes: seq<Note>, current: string, g: nat)
    requires Grouped(groups, notes, current) && g < |groups|
    ensures Offset(groups, g) < |notes|
    ensures var date := notes[Offset(groups, g)].date;
            var month := if |date| > 7 then date[..7] else date;
            var base := if AtLeast(month, current) then "recent" else month;
            var n := RunsOf(groups[g].heading, groups[..g]);
            if n == 0 then groups[g].key == base
            else exists s: string :: (forall i :: 0 <= i < |s| ==> Digit(s[i])) && Reads(s) == n
                   && groups[g].key == base + "#" + s
  {
    KeyAt(groups, notes, current, g);
    var date, n := notes[Offset(groups, g)].date, RunsOf(groups[g].heading, groups[..g]);
    assert |date| <= 7 ==> Slice(date, 0, 7) == date;
    DecimalReads(n);
  }

  // A group's key, told from the note that opens it.
  lemma KeyAt(groups: seq<Group>, notes: seq<Note>, current: string, g: nat)
    requires Grouped(groups, notes, current) && g < |groups|
    ensures var p := Offset(groups, g);
            p < |notes| && groups[g].key == KeyFrom(notes, p, current)
            && Earlier(notes, p, current) == RunsOf(groups[g].heading, groups[..g])
  {
    assert IsRun(groups, g, current);
    GroupsOpen(groups, notes, current, g);
    RunsAgree(groups, notes, current, g, groups[g].heading);
  }

  // Two groups share a key exactly when the note that opens one shadows the note
  // that opens the other.
  lemma TwoKeysCollideIff(groups: seq<Group>, notes: seq<Note>, current: string, i: nat, j: nat)
    requires Grouped(groups, notes, current) && StartsWithADigit(current)
    requires i < j < |groups|
    ensures var p, q := Offset(groups, i), Offset(groups, j);
            groups[i].key == groups[j].key <==> Shadows(notes, p, q, current) || Shadows(notes, q, p, current)
  {
    KeyAt(groups, notes, current, i);
    KeyAt(groups, notes, current, j);
    GroupsOpen(groups, notes, current, i);
    GroupsOpen(groups, notes, current, j);
    var p, q := Offset(groups, i), Offset(groups, j);
    OpeningKeysCollideIff(notes, current, p, q) by {
      if LabelAt(notes, p, current) == LabelAt(notes, q, current) {
        RunsClimb(groups, i, j);
      }
    }
  }

  lemma OpeningKeysCollideIff(notes: seq<Note>, current: string, p: nat, q: nat)
    requires StartsWithADigit(current) && Opens(notes, p, current) && Opens(notes, q, current)
    requires LabelAt(notes, p, current) == LabelAt(notes, q, current) ==>
               Earlier(notes, p, current) != Earlier(notes, q, current)
    ensures KeyFrom(notes, p, current) == KeyFrom(notes, q, current)
            <==> Shadows(notes, p, q, current) || Shadows(notes, q, p, current)
  {
    var a, m := BaseAt(notes, p, current), Earlier(notes, p, current);
    var b, n := BaseAt(notes, q, current), Earlier(notes, q, current);
    if a == b {
      TheKeyFixesTheLabel(Month(notes[p]), Month(notes[q]), current);
    }
    if m > 0 && n > 0 && KeyOf(a, m) == KeyOf(b, n) {
      SuffixesAgree(a, m, b, n);
    }
  }

  // Every opening starts a group.
  lemma {:induction false} OpeningsAreGroups(groups: seq<Group>, notes: seq<Note>, current: string, n: nat, p: nat)
      returns (g: nat)
    requires Grouped(groups, notes, current) && n <= |groups| && p < Offset(groups, n) && Opens(notes, p, current)
    ensures g < n && Offset(groups, g) == p
  {
    assert n > 0 by {
      assert groups[..0] == [];
    }
    g := n - 1;
    RunHolds(groups, notes, current, g);
    if p < Offset(groups, g) {
      g := OpeningsAreGroups(groups, notes, current, n - 1, p);
    }
  }

  // Two groups of a list share a key exactly when one of its notes shadows
  // another.
  lemma KeysCollideIff(groups: seq<Group>, notes: seq<Note>, current: string)
    requires Grouped(groups, notes, current) && StartsWithADigit(current)
    ensures (exists i, j :: 0 <= i < j < |groups| && groups[i].key == groups[j].key)
            <==> exists p: nat, q: nat :: Shadows(notes, p, q, current)
  {
    if i, j :| 0 <= i < j < |groups| && groups[i].key == groups[j].key {
      TwoKeysCollideIff(groups, notes, current, i, j);
    }
    if p: nat, q: nat :| Shadows(notes, p, q, current) {
      assert groups[..|groups|] == groups;
      var i := OpeningsAreGroups(groups, notes, current, |groups|, p);
      var j := OpeningsAreGroups(groups, notes, current, |groups|, q);
      TwoKeysCollideIff(groups, notes, current, if i < j then i else j, if i < j then j else i);
    }
  }

  // So keys are pairwise distinct unless some earlier month holds a '#', however
  // many runs a month opens.
  lemma KeysAreDistinct(groups: seq<Group>, notes: seq<Note>, current: string, i: nat, j: nat)
    requires Grouped(groups, notes, current) && StartsWithADigit(current)
    requires forall k :: 0 <= k < |notes| ==> AtLeast(Month(notes[k]), current) || '#' !in Month(notes[k])
    requires i < j < |groups|
    ensures groups[i].key != groups[j].key
  {
    TwoKeysCollideIff(groups, notes, current, i, j);
    GroupsOpen(groups, notes, current, i);
    GroupsOpen(groups, notes, current, j);
    var p, q := Offset(groups, i), Offset(groups, j);
    NoHashNoShadow(notes, p, q, current);
    NoHashNoShadow(notes, q, p, current);
  }

  lemma NoHashNoShadow(notes: seq<Note>, p: nat, q: nat, current: string)
    requires p < |notes| && (AtLeast(Month(notes[p]), current) || '#' !in Month(notes[p]))
    ensures !Shadows(notes, p, q, current)
  {
    assert '#' !in BaseAt(notes, p, current);
    assert forall s: string, t: string :: '#' in s + "#" + t;
  }

  const CLASHING := [Note("a", "1"), Note("b", "1#1"), Note("c", "1")]

  const CLASH := [Group("1", "1", [CLASHING[0]]), Group("1#1", "1#1", [CLASHING[1]]), Group("1#1", "1", [CLASHING[2]])]

  lemma ShortMonths()
    ensures forall note :: note in CLASHING ==>
              && Month(note) == note.date
              && LabelOf(note.date, "2026-07") == note.date
              && MonthKey(note.date, "2026-07") == note.date
  {
  }

  lemma OneRun()
    ensures Grouped(CLASH[..1], CLASHING[..1], "2026-07")
  {
    ShortMonths();
    assert CLASHING[0] in CLASHING;
    assert OpenedBy([], "2026-07", CLASHING[0]) == CLASH[0];
    ARunOpens([], [], "2026-07", CLASHING[0]);
    assert CLASH[..1] == [] + [CLASH[0]] && CLASHING[..1] == [] + [CLASHING[0]];
  }

  lemma TwoRuns()
    ensures Grouped(CLASH[..2], CLASHING[..2], "2026-07")
  {
    OneRun();
    ShortMonths();
    assert CLASHING[1] in CLASHING;
    assert CLASH[..1][..0] == [];
    assert RunsOf("1#1", CLASH[..1]) == 0;
    assert OpenedBy(CLASH[..1], "2026-07", CLASHING[1]) == CLASH[1];
    ARunOpens(CLASH[..1], CLASHING[..1], "2026-07", CLASHING[1]);
    assert CLASH[..2] == CLASH[..1] + [CLASH[1]] && CLASHING[..2] == CLASHING[..1] + [CLASHING[1]];
  }

  // Months the scanner lets through unchecked can clash: the second run of "1"
  // takes the key the month "1#1" already has.
  lemma AMalformedMonthRepeatsAKey()
    ensures Grouped(CLASH, CLASHING, "2026-07") && CLASH[1].key == CLASH[2].key
  {
    ShortMonths();
    TwoRuns();
    assert CLASHING[2] in CLASHING;
    assert CLASH[..2][..1] == CLASH[..1] && CLASH[..1][..0] == [];
    assert RunsOf("1", CLASH[..1]) == 1;
    assert RunsOf("1", CLASH[..2]) == 1;
    assert KeyOf("1", 1) == "1" + "#" + "1" == "1#1";
    assert Month(CLASHING[2]) == "1" && LabelOf("1", "2026-07") == "1" && MonthKey("1", "2026-07") == "1";
    assert OpenedBy(CLASH[..2], "2026-07", CLASHING[2]) == CLASH[2];
    ARunOpens(CLASH[..2], CLASHING[..2], "2026-07", CLASHING[2]);
    assert CLASH == CLASH[..2] + [CLASH[2]] && CLASHING == CLASHING[..2] + [CLASHING[2]];
  }

  // ----- labels ---------------------------------------------------------------------

  predicate WellFormed(month: string) {
    && |month| == 7
    && (forall i :: 0 <= i < 7 && i != 4 ==> Digit(month[i]))
    && month[4] == '-'
    && 1 <= 10 * Value(month[5]) + Value(month[6]) <= 12
  }

  lemma WellFormedMonthsAreNamed(month: string)
    requires WellFormed(month)
    ensures var number := 10 * Value(month[5]) + Value(month[6]);
            MonthLabel(month) == MONTH_NAMES[number - 1] + " " + month[..4]
    ensures var number := 10 * Value(month[5]) + Value(month[6]);
            MONTH_NAMES[number - 1] == match number
                                       case 1 => "January" case 2 => "February" case 3 => "March"
                                       case 4 => "April" case 5 => "May" case 6 => "June"
                                       case 7 => "July" case 8 => "August" case 9 => "September"
                                       case 10 => "October" case 11 => "November" case _ => "December"
    ensures '#' !in month
  {
    assert Slice(month, 5, 7) == [month[5], month[6]];
    assert Slice(month, 0, 4) == month[..4];
  }

  ghost predicate IsNumber(s: string, n: nat) {
    s != "" && (forall i :: 0 <= i < |s| ==> Digit(s[i])) && Reads(s) == n
  }

  // The two characters of a month are read as a number exactly where they are
  // digits, or one digit with a plus or a space before it or a point or a space
  // after it.
  lemma MonthNumberIff(s: string, n: nat)
    requires |s| <= 2
    ensures MonthNumber(s) == Some(n)
            <==> || IsNumber(s, n)
                 || (|s| == 2 && (s[0] == '+' || s[0] == ' ') && IsNumber(s[1..], n))
                 || (|s| == 2 && (s[1] == '.' || s[1] == ' ') && IsNumber(s[..1], n))
  {
    if |s| == 2 {
      assert s[..1] == [s[0]] && s[1..] == [s[1]];
      OneDigitReads(s[0]);
      OneDigitReads(s[1]);
      if Digit(s[0]) && Digit(s[1]) {
        assert Reads(s) == 10 * Reads(s[..1]) + Value(s[1]);
      }
    } else if |s| == 1 {
      assert s == [s[0]];
      OneDigitReads(s[0]);
    }
  }

  lemma OneDigitReads(c: char)
    ensures Digit(c) ==> Reads([c]) == Value(c)
  {
    assert [c][..0] == "";
  }

  lemma NamesAreDistinct(i: nat, j: nat)
    requires i < 12 && j < 12 && MONTH_NAMES[i] == MONTH_NAMES[j]
    ensures i == j
  {
    assert MONTH_NAMES[i][0] == MONTH_NAMES[j][0];
    assert |MONTH_NAMES[i]| == |MONTH_NAMES[j]|;
    assert MONTH_NAMES[i][1] == MONTH_NAMES[j][1];
    assert MONTH_NAMES[i][2] == MONTH_NAMES[j][2];
  }

  lemma NamedLabelsAgree(x: string, y: string, year: string, otherYear: string)
    requires |year| == 4 && |otherYear| == 4 && x + " " + year == y + " " + otherYear
    ensures x == y && year == otherYear
  {
    var s := x + " " + year;
    assert |x| == |s| - 5 && |y| == |s| - 5;
    assert s[..|x|] == x && s[..|x|] == y;
    assert s[|x| + 1..] == year && s[|x| + 1..] == otherYear;
  }

  // A label names one well-formed month, so a run of it holds one month's notes.
  lemma LabelsNameOneMonth(a: string, b: string)
    requires WellFormed(a) && WellFormed(b) && MonthLabel(a) == MonthLabel(b)
    ensures a == b
  {
    WellFormedMonthsAreNamed(a);
    WellFormedMonthsAreNamed(b);
    var m, n := 10 * Value(a[5]) + Value(a[6]), 10 * Value(b[5]) + Value(b[6]);
    NamedLabelsAgree(MONTH_NAMES[m - 1], MONTH_NAMES[n - 1], a[..4], b[..4]);
    NamesAreDistinct(m - 1, n - 1);
    assert a == a[..4] + ['-', a[5], a[6]] && b == b[..4] + ['-', b[5], b[6]];
  }

  function MonthIndex(month: string): nat
    requires WellFormed(month)
  {
    12 * (1000 * Value(month[0]) + 100 * Value(month[1]) + 10 * Value(month[2]) + Value(month[3]))
    + 10 * Value(month[5]) + Value(month[6])
  }

  // The month as a number without its dash, and the text order of its digits.
  lemma DigitsCompare(a: seq<nat>, b: seq<nat>)
    requires |a| == 6 && |b| == 6 && forall i :: 0 <= i < 6 ==> a[i] < 10 && b[i] < 10
    requires a[4] <= 1 && b[4] <= 1 && 10 * a[4] + a[5] <= 12 && 10 * b[4] + b[5] <= 12
    requires 1 <= 10 * a[4] + a[5] && 1 <= 10 * b[4] + b[5]
    ensures 12 * (1000 * a[0] + 100 * a[1] + 10 * a[2] + a[3]) + 10 * a[4] + a[5]
            >= 12 * (1000 * b[0] + 100 * b[1] + 10 * b[2] + b[3]) + 10 * b[4] + b[5]
            <==> Climbs(a, b, 0)
  {
    var y, z := 1000 * a[0] + 100 * a[1] + 10 * a[2] + a[3], 1000 * b[0] + 100 * b[1] + 10 * b[2] + b[3];
    YearsCompare(a, b);
    assert Climbs(a, b, 6);
    assert Climbs(a, b, 4) <==> 10 * a[4] + a[5] >= 10 * b[4] + b[5];
    assert y > z || y < z || (y == z);
  }

  // The digits from i on, compared from the left.
  predicate Climbs(a: seq<nat>, b: seq<nat>, i: nat)
    requires |a| == |b| && i <= |a|
    decreases |a| - i
  {
    i == |a| || (if a[i] != b[i] then a[i] > b[i] else Climbs(a, b, i + 1))
  }

  lemma YearsCompare(a: seq<nat>, b: seq<nat>)
    requires |a| == 6 && |b| == 6 && forall i :: 0 <= i < 6 ==> a[i] < 10 && b[i] < 10
    ensures var y, z := 1000 * a[0] + 100 * a[1] + 10 * a[2] + a[3], 1000 * b[0] + 100 * b[1] + 10 * b[2] + b[3];
            Climbs(a, b, 0) <==> y > z || (y == z && Climbs(a, b, 4))
  {
    assert Climbs(a, b, 3) <==> a[3] > b[3] || (a[3] == b[3] && Climbs(a, b, 4));
    assert Climbs(a, b, 2) <==> a[2] > b[2] || (a[2] == b[2] && Climbs(a, b, 3));
    assert Climbs(a, b, 1) <==> a[1] > b[1] || (a[1] == b[1] && Climbs(a, b, 2));
  }

  function Digits(month: string): seq<nat>
    requires WellFormed(month)
  {
    [Value(month[0]), Value(month[1]), Value(month[2]), Value(month[3]), Value(month[5]), Value(month[6])]
  }

  lemma AtLeastFrom(a: string, b: string, i: nat)
    requires i < |a| && |a| == |b|
    ensures AtLeast(a[i..], b[i..]) <==> if a[i] != b[i] then a[i] > b[i] else AtLeast(a[i + 1..], b[i + 1..])
  {
    assert a[i..][1..] == a[i + 1..] && b[i..][1..] == b[i + 1..];
  }

  lemma {:induction false} MonthsClimb(a: string, b: string, i: nat)
    requires WellFormed(a) && WellFormed(b) && i <= 7
    ensures AtLeast(a[i..], b[i..]) <==> Climbs(Digits(a), Digits(b), if i <= 4 then i else i - 1)
    decreases 7 - i
  {
    if i < 7 {
      MonthsClimb(a, b, i + 1);
      AtLeastFrom(a, b, i);
    }
  }

  // Comparing well-formed months as text compares them as months, so the leading
  // run holds exactly the notes of this month and of later ones.
  lemma RecentIff(month: string, current: string)
    requires WellFormed(month) && WellFormed(current)
    ensures LabelOf(month, current) == RECENT_LABEL <==> MonthIndex(month) >= MonthIndex(current)
  {
    assert month[0..] == month && current[0..] == current;
    MonthsClimb(month, current, 0);
    DigitsCompare(Digits(month), Digits(current));
    WellFormedMonthsAreNamed(month);
    assert |MonthLabel(month)| > |RECENT_LABEL|;
  }

  // ----- only one cut -----------------------------------------------------------------

  function Offset(groups: seq<Group>, g: nat): nat
    requires g <= |groups|
  {
    |AllNotes(groups[..g])|
  }

  lemma NextOffset(groups: seq<Group>, g: nat)
    requires g < |groups|
    ensures AllNotes(groups[..g + 1]) == AllNotes(groups[..g]) + groups[g].notes
  {
    assert groups[..g + 1][..g] == groups[..g];
  }

  lemma {:induction false} PrefixNotes(groups: seq<Group>, g: nat, h: nat)
    requires g <= h <= |groups|
    ensures AllNotes(groups[..g]) <= AllNotes(groups[..h])
    decreases h
  {
    if g < h {
      PrefixNotes(groups, g, h - 1);
      NextOffset(groups, h - 1);
    }
  }

  lemma GroupsNotes(groups: seq<Group>, notes: seq<Note>, g: nat)
    requires AllNotes(groups) == notes && g < |groups|
    ensures var from := Offset(groups, g);
            from + |groups[g].notes| == Offset(groups, g + 1) <= |notes|
            && groups[g].notes == notes[from..from + |groups[g].notes|]
  {
    NextOffset(groups, g);
    PrefixNotes(groups, g + 1, |groups|);
    assert groups[..|groups|] == groups;
    var from := Offset(groups, g);
    assert AllNotes(groups[..g + 1])[from..] == groups[g].notes;
  }

  lemma RunHolds(groups: seq<Group>, notes: seq<Note>, current: string, g: nat)
    requires Grouped(groups, notes, current) && g < |groups|
    ensures Offset(groups, g) < Offset(groups, g + 1) <= |notes|
    ensures forall i :: Offset(groups, g) <= i < Offset(groups, g + 1) ==>
              LabelOf(Month(notes[i]), current) == groups[g].heading
  {
    assert IsRun(groups, g, current);
    GroupsNotes(groups, notes, g);
    var from := Offset(groups, g);
    forall i | from <= i < Offset(groups, g + 1) ensures LabelOf(Month(notes[i]), current) == groups[g].heading {
      assert notes[i] == groups[g].notes[i - from];
      RunLabels(groups[g], RunsOf(groups[g].heading, groups[..g]), current, i - from);
    }
  }

  lemma RunLabels(group: Group, previousRuns: nat, current: string, i: nat)
    requires RunFits(group, previousRuns, current) && i < |group.notes|
    ensures LabelOf(Month(group.notes[i]), current) == group.heading
  {
  }

  lemma RunEnds(groups: seq<Group>, notes: seq<Note>, current: string, g: nat)
    requires Grouped(groups, notes, current) && g < |groups|
    ensures var end := Offset(groups, g + 1);
            end <= |notes| && (end < |notes| ==> LabelOf(Month(notes[end]), current) != groups[g].heading)
  {
    RunHolds(groups, notes, current, g);
    if g + 1 < |groups| {
      RunHolds(groups, notes, current, g + 1);
    } else {
      assert groups[..g + 1] == groups;
    }
  }

  lemma TheNextRunIsAsLong(a: seq<Group>, b: seq<Group>, notes: seq<Note>, current: string, g: nat)
    requires Grouped(a, notes, current) && Grouped(b, notes, current)
    requires g < |a| && g < |b| && a[..g] == b[..g]
    ensures a[g].heading == b[g].heading && Offset(b, g + 1) <= Offset(a, g + 1)
  {
    RunHolds(a, notes, current, g);
    RunHolds(b, notes, current, g);
    assert LabelOf(Month(notes[Offset(a, g)]), current) == a[g].heading;
    RunEnds(a, notes, current, g);
  }

  lemma TheNextRunIsTheSame(a: seq<Group>, b: seq<Group>, notes: seq<Note>, current: string, g: nat)
    requires Grouped(a, notes, current) && Grouped(b, notes, current)
    requires g < |a| && g < |b| && a[..g] == b[..g]
    ensures a[..g + 1] == b[..g + 1]
  {
    TheNextRunIsAsLong(a, b, notes, current, g);
    TheNextRunIsAsLong(b, a, notes, current, g);
    GroupsNotes(a, notes, g);
    GroupsNotes(b, notes, g);
    assert IsRun(a, g, current) && IsRun(b, g, current);
    assert a[g].notes == b[g].notes;
    assert a[..g + 1] == a[..g] + [a[g]] && b[..g + 1] == b[..g] + [b[g]];
  }

  lemma NoGroupsLeft(groups: seq<Group>, notes: seq<Note>, current: string, g: nat)
    requires Grouped(groups, notes, current) && g <= |groups|
    ensures Offset(groups, g) == |notes| <==> g == |groups|
  {
    assert groups[..|groups|] == groups;
    if g < |groups| {
      RunHolds(groups, notes, current, g);
    }
  }

  lemma {:induction false} CutsAgreeFrom(a: seq<Group>, b: seq<Group>, notes: seq<Note>, current: string, g: nat)
    requires Grouped(a, notes, current) && Grouped(b, notes, current)
    requires g <= |a| && g <= |b| && a[..g] == b[..g]
    ensures a == b
    decreases |a| - g
  {
    assert a[..|a|] == a && b[..|b|] == b;
    if g < |a| && g < |b| {
      TheNextRunIsTheSame(a, b, notes, current, g);
      CutsAgreeFrom(a, b, notes, current, g + 1);
    } else {
      NoGroupsLeft(a, notes, current, g);
      NoGroupsLeft(b, notes, current, g);
    }
  }

  // There is only one such cut of a list of notes, so Grouped says everything
  // about the result.
  lemma TheCutIsUnique(a: seq<Group>, b: seq<Group>, notes: seq<Note>, current: string)
    requires Grouped(a, notes, current) && Grouped(b, notes, current)
    ensures a == b
  {
    assert a[..0] == b[..0];
    CutsAgreeFrom(a, b, notes, current, 0);
  }
}
