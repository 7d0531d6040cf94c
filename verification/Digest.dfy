// The daily digest: checked, computed, recorded and written to a note under one
// gate, with a failure possible at every step (src-tauri/src/ledger_cmds.rs,
// StoreDigest in src-tauri/src/ledger_state.rs).
module Digest {
  import opened Wrappers

  type Instant = int

  type Day = int

  // What one digest reports: the window of days (since, date].
  datatype Report = Report(date: Day, since: Day, items: seq<string>)

  // How storing a digest can end. The payload is set before the marker is
  // advanced, and a reply that never comes does not stop the job: it is served
  // before the queue answers any later question.
  datatype Storing = Stored | ReplyLost | PayloadOnly | Refused

  // One call of daily_digest and everything outside it: the instants its clock
  // reads return and what each of its effects does.
  datatype Call = Call(
    readOk: bool,
    today: Instant,
    listOk: bool,
    items: seq<string>,
    stamp: Instant,
    storing: Storing,
    hasVault: bool,
    noteOk: bool)

  // A digest the marker was advanced for, and the instant it was stamped with.
  datatype Run = Run(report: Report, at: Instant, noted: bool)

  // The two ledger keys, and two histories: the recorded runs and the notes.
  datatype Book = Book(marker: Option<Instant>, payload: Option<Report>, runs: seq<Run>, notes: seq<Report>)

  const NEW_BOOK := Book(None, None, [], [])

  // local_day_of in a fixed zone: a later instant is never on an earlier day.
  ghost predicate Calendar(day: Instant -> Day) {
    forall a, b :: a <= b ==> day(a) <= day(b)
  }

  function Empty(today: Day): Report {
    Report(today, today, [])
  }

  // stored_digest: a payload of another day is never shown.
  function StoredReport(payload: Option<Report>, today: Day): Report {
    if payload.Some? && payload.value.date == today then payload.value else Empty(today)
  }

  // meta_advance never walks the marker back.
  function Advanced(marker: Option<Instant>, stamp: Instant): Option<Instant> {
    if marker.Some? && marker.value > stamp then marker else Some(stamp)
  }

  function Recorded(b: Book, report: Report, call: Call): Book {
    match call.storing
    case Refused => b
    case PayloadOnly => b.(payload := Some(report))
    case _ => b.(marker := Advanced(b.marker, call.stamp), payload := Some(report),
                 runs := b.runs + [Run(report, call.stamp, Notes(b, report, call))])
  }

  // The note is written only behind a recorded run with something to say.
  predicate Notes(b: Book, report: Report, call: Call) {
    b.marker.Some? && call.storing.Stored? && report.items != [] && call.hasVault && call.noteOk
  }

  // What a call computes, if it computes anything: an empty digest on the first
  // launch, otherwise a digest when the marker's day is over.
  function Computed(day: Instant -> Day, b: Book, call: Call): Option<Report> {
    if !call.readOk then None
    else if b.marker.None? then Some(Empty(day(call.today)))
    else if day(b.marker.value) >= day(call.today) || !call.listOk then None
    else Some(Report(day(call.today), day(b.marker.value), call.items))
  }

  function After(day: Instant -> Day, b: Book, call: Call): Book {
    match Computed(day, b, call)
    case None => b
    case Some(report) =>
      var recorded := Recorded(b, report, call);
      if Notes(b, report, call) then recorded.(notes := recorded.notes + [report]) else recorded
  }

  function Shown(day: Instant -> Day, b: Book, call: Call): Report {
    match Computed(day, b, call)
    case Some(report) => report
    case None =>
      if call.readOk && b.marker.Some? && day(b.marker.value) >= day(call.today)
      then StoredReport(b.payload, day(call.today))
      else Empty(day(call.today))
  }

  class DigestBook {
    var marker: Option<Instant>
    var payload: Option<Report>
    var runs: seq<Run>
    var notes: seq<Report>

    function State(): Book
      reads this
    {
      Book(marker, payload, runs, notes)
    }

    constructor ()
      ensures State() == NEW_BOOK
    {
      marker, payload, runs, notes := None, None, [], [];
    }

    method Record(report: Report, call: Call) returns (recorded: bool)
      modifies this
      ensures State() == Recorded(old(State()), report, call)
      ensures recorded <==> call.storing.Stored?
    {
      var noted := Notes(State(), report, call);
      if call.storing != Refused {
        payload := Some(report);
        if call.storing != PayloadOnly {
          runs := runs + [Run(report, call.stamp, noted)];
          marker := Advanced(marker, call.stamp);
        }
      }
      return call.storing.Stored?;
    }

    // compute_if_due, as it runs on the blocking thread under the gate
    method ComputeIfDue(day: Instant -> Day, call: Call) returns (shown: Report, written: Option<Report>)
      modifies this
      ensures State() == After(day, old(State()), call)
      ensures shown == Shown(day, old(State()), call)
      ensures written.Some? <==> notes != old(notes)
      ensures notes == old(notes) + (if written.Some? then [written.value] else [])
    {
      var today := day(call.today);
      if !call.readOk {
        return Empty(today), None;
      }
      if marker.None? {
        shown := Empty(today);
        var _ := Record(shown, call);
        return shown, None;
      }
      var baseline := day(marker.value);
      if baseline >= today {
        return StoredReport(payload, today), None;
      }
      if !call.listOk {
        return Empty(today), None;
      }
      shown := Report(today, baseline, call.items);
      var recorded := Record(shown, call);
      if recorded && shown.items != [] && call.hasVault && call.noteOk {
        notes := notes + [shown];
        return shown, Some(shown);
      }
      return shown, None;
    }
  }

  // ----- every run of calls ---------------------------------------------------------

  function Exec(day: Instant -> Day, calls: seq<Call>): Book {
    if calls == [] then NEW_BOOK
    else After(day, Exec(day, calls[..|calls| - 1]), calls[|calls| - 1])
  }

  // The second clock read of a call, the stamp, is not on a day before the first
  // one. Calls may otherwise see the clock jump in any direction.
  ghost predicate InOrder(day: Instant -> Day, calls: seq<Call>) {
    forall i :: 0 <= i < |calls| ==> day(calls[i].today) <= day(calls[i].stamp)
  }

  function NotedOf(runs: seq<Run>): seq<Report> {
    if runs == [] then []
    else NotedOf(runs[..|runs| - 1]) + (if runs[|runs| - 1].noted then [runs[|runs| - 1].report] else [])
  }

  ghost predicate RunsInv(day: Instant -> Day, runs: seq<Run>) {
    && (forall i :: 0 <= i < |runs| ==> runs[i].report.date <= day(runs[i].at))
    && (runs != [] ==> runs[0].report.since == runs[0].report.date)
    && (forall i :: 0 < i < |runs| ==> runs[i].report.since == day(runs[i - 1].at) < runs[i].report.date)
  }

  ghost predicate Inv(day: Instant -> Day, b: Book) {
    && (b.marker.None? <==> b.runs == [])
    && (b.runs != [] ==> b.marker == Some(b.runs[|b.runs| - 1].at))
    && RunsInv(day, b.runs)
    && b.notes == NotedOf(b.runs)
  }

  lemma NotedSnoc(runs: seq<Run>, run: Run)
    ensures NotedOf(runs + [run]) == NotedOf(runs) + (if run.noted then [run.report] else [])
  {
    assert (runs + [run])[..|runs|] == runs;
  }

  lemma ARunJoins(day: Instant -> Day, runs: seq<Run>, run: Run)
    requires RunsInv(day, runs) && run.report.date <= day(run.at)
    requires if runs == [] then run.report.since == run.report.date
             else run.report.since == day(runs[|runs| - 1].at) < run.report.date
    ensures RunsInv(day, runs + [run])
  {
  }

  lemma TheMarkerAdvances(day: Instant -> Day, marker: Instant, stamp: Instant)
    requires Calendar(day) && day(marker) < day(stamp)
    ensures Advanced(Some(marker), stamp) == Some(stamp)
  {
  }

  // A recorded digest's window opens on the marker's day and its stamp becomes
  // the marker.
  lemma WhatIsRecorded(day: Instant -> Day, b: Book, call: Call, run: Run)
    requires Calendar(day) && day(call.today) <= day(call.stamp)
    requires Computed(day, b, call) == Some(run.report) && (call.storing.Stored? || call.storing.ReplyLost?)
    requires run.at == call.stamp && run.noted == Notes(b, run.report, call)
    ensures run.report.date == day(call.today)
    ensures if b.marker.None? then run.report.since == run.report.date
            else run.report.since == day(b.marker.value) < run.report.date
    ensures After(day, b, call)
         == Book(Some(call.stamp), Some(run.report), b.runs + [run],
                 b.notes + (if run.noted then [run.report] else []))
  {
    if b.marker.Some? {
      TheMarkerAdvances(day, b.marker.value, call.stamp);
    }
  }

  lemma ARunKeepsInv(day: Instant -> Day, b: Book, run: Run, notes: seq<Report>)
    requires Inv(day, b) && run.report.date <= day(run.at)
    requires if b.marker.None? then run.report.since == run.report.date
             else run.report.since == day(b.marker.value) < run.report.date
    requires notes == b.notes + (if run.noted then [run.report] else [])
    ensures Inv(day, Book(Some(run.at), Some(run.report), b.runs + [run], notes))
  {
    ARunJoins(day, b.runs, run);
    NotedSnoc(b.runs, run);
  }

  lemma NothingIsRecorded(day: Instant -> Day, b: Book, call: Call)
    requires Computed(day, b, call).None? || !(call.storing.Stored? || call.storing.ReplyLost?)
    ensures var after := After(day, b, call);
            after.marker == b.marker && after.runs == b.runs && after.notes == b.notes
  {
  }

  lemma StepKeepsInv(day: Instant -> Day, b: Book, call: Call)
    requires Calendar(day) && Inv(day, b) && day(call.today) <= day(call.stamp)
    ensures Inv(day, After(day, b, call))
  {
    var computed := Computed(day, b, call);
    if computed.Some? && (call.storing.Stored? || call.storing.ReplyLost?) {
      var run := Run(computed.value, call.stamp, Notes(b, computed.value, call));
      WhatIsRecorded(day, b, call, run);
      ARunKeepsInv(day, b, run, After(day, b, call).notes);
    } else {
      NothingIsRecorded(day, b, call);
    }
  }

  lemma {:induction false} RunKeepsInv(day: Instant -> Day, calls: seq<Call>)
    requires Calendar(day) && InOrder(day, calls)
    ensures Inv(day, Exec(day, calls))
  {
    if calls != [] {
      RunKeepsInv(day, calls[..|calls| - 1]);
      StepKeepsInv(day, Exec(day, calls[..|calls| - 1]), calls[|calls| - 1]);
    }
  }

  lemma {:induction false} DatesClimb(day: Instant -> Day, runs: seq<Run>, i: nat, j: nat)
    requires RunsInv(day, runs) && i < j < |runs|
    ensures runs[i].report.date <= day(runs[i].at) <= runs[j].report.since < runs[j].report.date
  {
    if i + 1 < j {
      DatesClimb(day, runs, i, j - 1);
    }
  }

  lemma {:induction false} NotedClimb(day: Instant -> Day, runs: seq<Run>, i: nat)
    requires RunsInv(day, runs) && i < |NotedOf(runs)|
    ensures exists k :: 0 <= k < |runs| && runs[k].noted && runs[k].report == NotedOf(runs)[i]
    ensures forall j :: 0 <= j < i ==> NotedOf(runs)[j].date < NotedOf(runs)[i].date
  {
    var n := |runs| - 1;
    var front := runs[..n];
    if i < |NotedOf(front)| {
      NotedClimb(day, front, i);
    } else {
      forall j | 0 <= j < i ensures NotedOf(runs)[j].date < NotedOf(runs)[i].date {
        NotedClimb(day, front, j);
        var k :| 0 <= k < n && front[k].report == NotedOf(front)[j];
        DatesClimb(day, runs, k, n);
      }
    }
  }

  // At most one note per local day, over every caller and every failure: each
  // note's day is later than all the notes before it.
  lemma OneNotePerDay(day: Instant -> Day, calls: seq<Call>, i: nat, j: nat)
    requires Calendar(day) && InOrder(day, calls)
    requires i < j < |Exec(day, calls).notes|
    ensures Exec(day, calls).notes[i].date < Exec(day, calls).notes[j].date
  {
    RunKeepsInv(day, calls);
    NotedClimb(day, Exec(day, calls).runs, j);
  }

  // The note was written by a call that heard its digest stored.
  ghost predicate Wrote(day: Instant -> Day, calls: seq<Call>, n: nat, note: Report)
    requires n < |calls|
  {
    && Computed(day, Exec(day, calls[..n]), calls[n]) == Some(note)
    && calls[n].storing.Stored?
    && note.items != []
  }

  // Every note is a digest that said something and was known to be recorded.
  lemma {:induction false} NotesComeFromStoredRuns(day: Instant -> Day, calls: seq<Call>, i: nat)
    requires i < |Exec(day, calls).notes|
    ensures exists n :: 0 <= n < |calls| && Wrote(day, calls, n, Exec(day, calls).notes[i])
  {
    var front := calls[..|calls| - 1];
    if i < |Exec(day, front).notes| {
      NotesComeFromStoredRuns(day, front, i);
      var n :| 0 <= n < |front| && Wrote(day, front, n, Exec(day, front).notes[i]);
      assert front[..n] == calls[..n];
      assert Wrote(day, calls, n, Exec(day, calls).notes[i]);
    } else {
      assert Wrote(day, calls, |calls| - 1, Exec(day, calls).notes[i]);
    }
  }

  // ----- the windows --------------------------------------------------------------

  predicate Reports(run: Run, d: Day) {
    run.report.since < d <= run.report.date
  }

  // The run described an earlier day than the one it was stamped on, and d lies
  // between the two.
  predicate Passes(day: Instant -> Day, run: Run, d: Day) {
    run.report.date < d <= day(run.at)
  }

  // Windows never overlap: no day is reported twice.
  lemma NoDayTwice(day: Instant -> Day, calls: seq<Call>, i: nat, j: nat, d: Day)
    requires Calendar(day) && InOrder(day, calls)
    requires i < |Exec(day, calls).runs| && j < |Exec(day, calls).runs|
    requires Reports(Exec(day, calls).runs[i], d) && Reports(Exec(day, calls).runs[j], d)
    ensures i == j
  {
    RunKeepsInv(day, calls);
    var runs := Exec(day, calls).runs;
    if i < j {
      DatesClimb(day, runs, i, j);
    } else if j < i {
      DatesClimb(day, runs, j, i);
    }
  }

  lemma {:induction false} CoveredOrPassed(day: Instant -> Day, runs: seq<Run>, d: Day)
    requires RunsInv(day, runs) && runs != [] && runs[0].report.date < d <= runs[|runs| - 1].report.date
    ensures (exists i :: 0 <= i < |runs| && Reports(runs[i], d))
         || (exists i :: 0 <= i < |runs| - 1 && Passes(day, runs[i], d))
  {
    var n := |runs| - 1;
    if d <= runs[n - 1].report.date {
      CoveredOrPassed(day, runs[..n], d);
      if i :| 0 <= i < n && Reports(runs[..n][i], d) {
        assert Reports(runs[i], d);
      } else {
        var i :| 0 <= i < n - 1 && Passes(day, runs[..n][i], d);
        assert Passes(day, runs[i], d);
      }
    } else if d <= day(runs[n - 1].at) {
      assert Passes(day, runs[n - 1], d);
    } else {
      assert Reports(runs[n], d);
    }
  }

  // A day between the first and the last recorded digest goes unreported exactly
  // when a run that described an earlier day was stamped on it or after it.
  lemma ADayIsSkippedIff(day: Instant -> Day, calls: seq<Call>, d: Day)
    requires Calendar(day) && InOrder(day, calls)
    requires var runs := Exec(day, calls).runs;
             runs != [] && runs[0].report.date < d <= runs[|runs| - 1].report.date
    ensures var runs := Exec(day, calls).runs;
            (forall i :: 0 <= i < |runs| ==> !Reports(runs[i], d))
            <==> (exists i :: 0 <= i < |runs| - 1 && Passes(day, runs[i], d))
  {
    RunKeepsInv(day, calls);
    var runs := Exec(day, calls).runs;
    CoveredOrPassed(day, runs, d);
    forall i, j | 0 <= i < |runs| - 1 && Passes(day, runs[i], d) && 0 <= j < |runs|
      ensures !Reports(runs[j], d)
    {
      if j < i {
        DatesClimb(day, runs, j, i);
      } else if i < j {
        DatesClimb(day, runs, i, j);
      }
    }
  }

  // So when every run is stamped on the day it describes, the windows tile the
  // days: each one is reported by exactly one digest.
  lemma WindowsTile(day: Instant -> Day, calls: seq<Call>, d: Day)
    requires Calendar(day)
    requires forall i :: 0 <= i < |calls| ==> day(calls[i].today) == day(calls[i].stamp)
    requires var runs := Exec(day, calls).runs;
             runs != [] && runs[0].report.date < d <= runs[|runs| - 1].report.date
    ensures var runs := Exec(day, calls).runs;
            exists i :: 0 <= i < |runs| && Reports(runs[i], d)
              && forall j :: 0 <= j < |runs| && j != i ==> !Reports(runs[j], d)
  {
    var runs := Exec(day, calls).runs;
    StampedOnTheirDay(day, calls);
    ADayIsSkippedIff(day, calls, d);
    var i :| 0 <= i < |runs| && Reports(runs[i], d);
    forall j | 0 <= j < |runs| && j != i ensures !Reports(runs[j], d) {
      if Reports(runs[j], d) {
        NoDayTwice(day, calls, i, j, d);
      }
    }
  }

  lemma {:induction false} StampedOnTheirDay(day: Instant -> Day, calls: seq<Call>)
    requires forall i :: 0 <= i < |calls| ==> day(calls[i].today) == day(calls[i].stamp)
    ensures forall i :: 0 <= i < |Exec(day, calls).runs| ==>
              day(Exec(day, calls).runs[i].at) == Exec(day, calls).runs[i].report.date
  {
    if calls != [] {
      StampedOnTheirDay(day, calls[..|calls| - 1]);
    }
  }

  // ----- what the card shows ------------------------------------------------------

  lemma {:induction false} QuietForTheDay(day: Instant -> Day, b: Book, calls: seq<Call>, d: Day)
    requires b.marker.Some? && d <= day(b.marker.value)
    requires forall i :: 0 <= i < |calls| ==> day(calls[i].today) == d
    ensures Resumed(day, b, calls) == b
  {
    if calls != [] {
      QuietForTheDay(day, b, calls[..|calls| - 1], d);
    }
  }

  function Resumed(day: Instant -> Day, b: Book, calls: seq<Call>): Book {
    if calls == [] then b else After(day, Resumed(day, b, calls[..|calls| - 1]), calls[|calls| - 1])
  }

  // The book after a call and the calls that follow it.
  function Followed(day: Instant -> Day, b: Book, call: Call, between: seq<Call>): Book {
    Resumed(day, After(day, b, call), between)
  }

  // Once a day's digest is recorded, every later call that day that can read the
  // ledger shows that same digest, whatever happened in the calls between and
  // even if the recording call never heard that it had succeeded.
  lemma TheCardHoldsAllDay(day: Instant -> Day, b: Book, call: Call, between: seq<Call>, later: Call)
    requires Calendar(day) && Inv(day, b) && day(call.today) <= day(call.stamp)
    requires Computed(day, b, call).Some? && (call.storing.Stored? || call.storing.ReplyLost?)
    requires forall i :: 0 <= i < |between| ==> day(between[i].today) == day(call.today)
    requires later.readOk && day(later.today) == day(call.today)
    ensures Shown(day, Followed(day, b, call, between), later) == Shown(day, b, call)
    ensures After(day, Followed(day, b, call, between), later) == Followed(day, b, call, between)
  {
    StepKeepsInv(day, b, call);
    QuietForTheDay(day, After(day, b, call), between, day(call.today));
  }

  // Call k can read the ledger, finds its day due or the device new, and gets as
  // far as storing a payload.
  predicate StoresAt(day: Instant -> Day, calls: seq<Call>, k: nat) {
    k < |calls| && calls[k].readOk && !calls[k].storing.Refused?
    && var marker := Exec(day, calls[..k]).marker;
       marker.None? || (calls[k].listOk && day(marker.value) < day(calls[k].today))
  }

  // What it found to report: nothing on a new device.
  function ItemsAt(day: Instant -> Day, calls: seq<Call>, k: nat): seq<string>
    requires k < |calls|
  {
    if Exec(day, calls[..k]).marker.None? then [] else calls[k].items
  }

  ghost predicate LatestStore(day: Instant -> Day, calls: seq<Call>, k: nat, n: nat) {
    k < n <= |calls| && StoresAt(day, calls, k) && forall j :: k < j < n ==> !StoresAt(day, calls, j)
  }

  lemma OneCallStores(day: Instant -> Day, calls: seq<Call>, n: nat)
    requires n < |calls|
    ensures var b, after := Exec(day, calls[..n]), Exec(day, calls[..n + 1]);
            if StoresAt(day, calls, n)
            then after.payload.Some? && after.payload.value.date == day(calls[n].today)
                 && after.payload.value.items == ItemsAt(day, calls, n)
            else after.payload == b.payload
  {
    assert calls[..n + 1][..n] == calls[..n];
  }

  // The payload in the ledger is the one of the latest call that stored any.
  lemma {:induction false} ThePayloadIsTheLatest(day: Instant -> Day, calls: seq<Call>, n: nat) returns (k: nat)
    requires n <= |calls|
    ensures var payload := Exec(day, calls[..n]).payload;
            if payload.None? then forall j :: 0 <= j < n ==> !StoresAt(day, calls, j)
            else LatestStore(day, calls, k, n)
                 && payload.value.date == day(calls[k].today) && payload.value.items == ItemsAt(day, calls, k)
  {
    k := 0;
    if n > 0 {
      OneCallStores(day, calls, n - 1);
      k := ThePayloadIsTheLatest(day, calls, n - 1);
      if StoresAt(day, calls, n - 1) {
        k := n - 1;
      }
    }
  }

  predicate ComputesNow(day: Instant -> Day, b: Book, call: Call) {
    call.readOk && call.listOk && b.marker.Some? && day(b.marker.value) < day(call.today)
  }

  predicate ReadsTheCard(day: Instant -> Day, b: Book, call: Call) {
    call.readOk && b.marker.Some? && day(b.marker.value) >= day(call.today)
  }

  // Call k stored the latest payload, and on the day of this call.
  ghost predicate StoredToday(day: Instant -> Day, calls: seq<Call>, k: nat, call: Call) {
    LatestStore(day, calls, k, |calls|) && day(calls[k].today) == day(call.today)
  }

  lemma StoredTodayIff(day: Instant -> Day, calls: seq<Call>, call: Call)
    ensures var payload := Exec(day, calls).payload;
            && (payload.Some? && payload.value.date == day(call.today)
                <==> exists k: nat :: StoredToday(day, calls, k, call))
            && forall k: nat :: StoredToday(day, calls, k, call) ==> payload.value.items == ItemsAt(day, calls, k)
  {
    assert calls[..|calls|] == calls;
    var latest := ThePayloadIsTheLatest(day, calls, |calls|);
    forall k: nat | LatestStore(day, calls, k, |calls|)
      ensures Exec(day, calls).payload.Some? && k == latest
    {
    }
    if Exec(day, calls).payload.Some? && Exec(day, calls).payload.value.date == day(call.today) {
      assert StoredToday(day, calls, latest, call);
    }
  }

  // Whatever came before, the card is of the call's own day, never an earlier
  // one's. It lists what the call computed; or, where the marker's day is not
  // over, what the latest stored payload lists if a call of this same day stored
  // it; and nothing otherwise.
  lemma TheCardIsOfItsDay(day: Instant -> Day, calls: seq<Call>, call: Call)
    ensures var b := Exec(day, calls);
            && Shown(day, b, call).date == day(call.today)
            && (ComputesNow(day, b, call) ==> Shown(day, b, call).items == call.items)
            && (forall k: nat :: ReadsTheCard(day, b, call) && StoredToday(day, calls, k, call) ==>
                  Shown(day, b, call).items == ItemsAt(day, calls, k))
            && (!ComputesNow(day, b, call)
                && !(ReadsTheCard(day, b, call) && exists k: nat :: StoredToday(day, calls, k, call)) ==>
                  Shown(day, b, call).items == [])
  {
    StoredTodayIff(day, calls, call);
  }

  // Call k is stored down to its marker, heard or not.
  predicate AdvancesAt(day: Instant -> Day, calls: seq<Call>, k: nat) {
    StoresAt(day, calls, k) && !calls[k].storing.PayloadOnly?
  }

  lemma OneCallAdvances(day: Instant -> Day, calls: seq<Call>, n: nat)
    requires n < |calls|
    ensures var b, after := Exec(day, calls[..n]), Exec(day, calls[..n + 1]);
            after.marker == (if !AdvancesAt(day, calls, n) then b.marker
                             else if b.marker.Some? && b.marker.value > calls[n].stamp then b.marker
                             else Some(calls[n].stamp))
  {
    assert calls[..n + 1][..n] == calls[..n];
  }

  ghost predicate GreatestStamp(day: Instant -> Day, calls: seq<Call>, n: nat, marker: Option<Instant>)
    requires n <= |calls|
  {
    if marker.None? then forall k :: 0 <= k < n ==> !AdvancesAt(day, calls, k)
    else && (exists k :: 0 <= k < n && AdvancesAt(day, calls, k) && calls[k].stamp == marker.value)
         && (forall k :: 0 <= k < n && AdvancesAt(day, calls, k) ==> calls[k].stamp <= marker.value)
  }

  lemma GreatestStampNext(day: Instant -> Day, calls: seq<Call>, n: nat, marker: Option<Instant>)
    requires n < |calls| && GreatestStamp(day, calls, n, marker)
    ensures GreatestStamp(day, calls, n + 1,
                          if !AdvancesAt(day, calls, n) || (marker.Some? && marker.value > calls[n].stamp) then marker
                          else Some(calls[n].stamp))
  {
    if AdvancesAt(day, calls, n) && marker.Some? && marker.value > calls[n].stamp {
      var k :| 0 <= k < n && AdvancesAt(day, calls, k) && calls[k].stamp == marker.value;
    }
  }

  // The marker is the greatest stamp of the calls that were stored, if any was.
  lemma {:induction false} TheMarkerIsTheGreatestStamp(day: Instant -> Day, calls: seq<Call>, n: nat)
    requires n <= |calls|
    ensures GreatestStamp(day, calls, n, Exec(day, calls[..n]).marker)
  {
    if n > 0 {
      TheMarkerIsTheGreatestStamp(day, calls, n - 1);
      OneCallAdvances(day, calls, n - 1);
      GreatestStampNext(day, calls, n - 1, Exec(day, calls[..n - 1]).marker);
    }
  }

  // A call writes a note exactly when it computed something new on a device with
  // a vault, heard it stored, and the write went through; the note is that digest.
  lemma ANoteIsWrittenIff(day: Instant -> Day, b: Book, call: Call)
    ensures var written := ComputesNow(day, b, call) && call.items != [] && call.storing.Stored?
                           && call.hasVault && call.noteOk;
            After(day, b, call).notes
            == if written then b.notes + [Report(day(call.today), day(b.marker.value), call.items)] else b.notes
  {
  }

  // ----- where it fails -------------------------------------------------------------

  // Days of ten instants.
  function Tens(t: Instant): Day {
    t / 10
  }

  function Plain(today: Instant, stamp: Instant): Call {
    Call(true, today, true, ["moved"], stamp, Stored, true, true)
  }

  // Midnight falls between the two clock reads of the second call: it reports
  // day 1 and is stamped on day 2, and no digest ever reports day 2.
  lemma MidnightSkipsADay()
    ensures Calendar(Tens)
    ensures var runs := Exec(Tens, [Plain(5, 5), Plain(19, 20), Plain(35, 35)]).runs;
            |runs| == 3 && runs[1].report.date == 1 && runs[2].report.since == 2
            && forall i :: 0 <= i < |runs| ==> !Reports(runs[i], 2)
  {
    var calls := [Plain(5, 5), Plain(19, 20), Plain(35, 35)];
    assert calls[..2] == [Plain(5, 5), Plain(19, 20)];
    assert calls[..2][..1] == [Plain(5, 5)];
    assert Exec(Tens, calls[..2][..1]).runs == [Run(Empty(0), 5, false)];
    assert Exec(Tens, calls[..2]).runs == [Run(Empty(0), 5, false), Run(Report(1, 0, ["moved"]), 20, true)];
  }

  // After a recorded digest its day is due again, and its note may be written
  // again, exactly when the stamp falls on an earlier day.
  lemma DueAgainIff(day: Instant -> Day, b: Book, call: Call, again: Call)
    requires Calendar(day) && Computed(day, b, call).Some? && (call.storing.Stored? || call.storing.ReplyLost?)
    requires again.readOk && again.listOk && day(again.today) == day(call.today)
    ensures Computed(day, After(day, b, call), again).Some? <==> day(call.stamp) < day(call.today)
  {
  }

  // A clock set back across midnight between the two reads stamps the run before
  // its own day, and the next call writes that day's note again.
  lemma ABackwardStampRepeatsANote()
    ensures var notes := Exec(Tens, [Plain(5, 5), Plain(10, 9), Plain(11, 11)]).notes;
            |notes| == 2 && notes[0].date == notes[1].date
  {
    var calls := [Plain(5, 5), Plain(10, 9), Plain(11, 11)];
    assert calls[..2] == [Plain(5, 5), Plain(10, 9)];
    assert calls[..2][..1] == [Plain(5, 5)];
    assert Exec(Tens, calls[..2][..1]).runs == [Run(Empty(0), 5, false)];
    assert Exec(Tens, calls[..2]).notes == [Report(1, 0, ["moved"])];
  }
}
