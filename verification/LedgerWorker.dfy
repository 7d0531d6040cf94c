// The ledger worker: a FIFO job loop with a two-timer debounce in front of the
// snapshot files (src-tauri/src/ledger_state.rs).
module LedgerWorker {
  import opened Wrappers

  type Project = string

  type Content = string

  type Instant = int

  // What a flush finds on disk: the projects whose write fails, and those whose
  // folder is not there.
  datatype Disk = Disk(fails: set<Project>, missing: set<Project>)

  // What one job does to the ledger. A change carries the new contents of each
  // project it touches (None: nothing left to record) and dirties them, all but
  // the ones it leaves unmarked; a restore carries what the vault's snapshots
  // parse to; reads, markers and the digest's two keys change no project.
  datatype Job =
    | Change(machine: bool, writes: map<Project, Option<Content>>, unmarked: set<Project>)
    | RestoreIfEmpty(found: map<Project, Content>, readable: bool)
    | TakeStartupBackfill
    | FlushNow(disk: Disk)
    | Look

  // Poll is one look at the channel: the queued job if there is one, whether every
  // sender is gone, and what a flush would find on disk now. Outside is a change
  // the chat's own process (kodabi-mcp) commits to the same database: it writes
  // the snapshots itself, once, and tells the worker nothing.
  datatype Event =
    | Poll(now: Instant, head: Option<Job>, closed: bool, disk: Disk)
    | Outside(writes: map<Project, Option<Content>>, disk: Disk)

  // The worker's own state and what it has told others.
  datatype Worker = Worker(
    contents: map<Project, Content>,
    dirty: set<Project>,
    files: map<Project, Content>,
    oldest: Option<Instant>,
    newest: Option<Instant>,
    backfillPending: bool,
    answers: seq<bool>,
    announced: nat)

  datatype Config = Config(hasRoot: bool, quiet: nat, maxDelay: nat)

  function Start(contents: map<Project, Content>, files: map<Project, Content>): Worker {
    Worker(contents, {}, files, None, None, false, [], 0)
  }

  // ----- the ledger behind the jobs --------------------------------------------

  function Kept(writes: map<Project, Option<Content>>): map<Project, Content> {
    map p | p in writes && writes[p].Some? :: writes[p].value
  }

  function Overlay(base: map<Project, Content>, writes: map<Project, Option<Content>>): map<Project, Content> {
    (base - writes.Keys) + Kept(writes)
  }

  // mark_dirty ignores the empty slug, and claiming what is already mine touches
  // an entry without marking its project.
  function Dirtied(dirty: set<Project>, writes: map<Project, Option<Content>>, unmarked: set<Project>): set<Project> {
    dirty + (writes.Keys - unmarked - {""})
  }

  // The file a project's contents call for replaces the one it has; a folder
  // that is not there has no file and gets none.
  function Written(files: map<Project, Content>, contents: map<Project, Content>, which: set<Project>, disk: Disk)
    : map<Project, Content>
  {
    (files - (which + disk.missing)) + (contents - (contents.Keys - (which - disk.missing)))
  }

  // flush_snapshots: a project whose write fails stays dirty; one whose folder is
  // missing is skipped and counts as written; with no vault nothing happens.
  function Flushed(config: Config, w: Worker, disk: Disk): Worker {
    if !config.hasRoot then w
    else w.(files := Written(w.files, w.contents, w.dirty - disk.fails, disk), dirty := w.dirty * disk.fails)
  }

  // An outside change with its best-effort flush.
  function Intruded(w: Worker, writes: map<Project, Option<Content>>, disk: Disk): Worker {
    var contents := Overlay(w.contents, writes);
    w.(contents := contents, files := Written(w.files, contents, writes.Keys - {""} - disk.fails, disk))
  }

  function Restored(w: Worker, found: map<Project, Content>): Worker {
    if w.contents == map[] then w.(contents := found, dirty := {}) else w
  }

  function Announce(w: Worker, changed: bool): Worker {
    if changed then w.(announced := w.announced + 1) else w
  }

  // handle_job, with the announcement it asks for
  function Handled(config: Config, w: Worker, job: Job): Worker {
    match job
    case Change(machine, writes, unmarked) =>
      Announce(w.(contents := Overlay(w.contents, writes), dirty := Dirtied(w.dirty, writes, unmarked)),
               machine && writes != map[])
    case RestoreIfEmpty(found, readable) =>
      if !config.hasRoot then w
      else
        var restored := Restored(w, found);
        Announce(restored.(backfillPending := readable && restored.contents == map[]),
                 w.contents == map[] && found != map[])
    case TakeStartupBackfill => w.(answers := w.answers + [w.backfillPending], backfillPending := false)
    case FlushNow(disk) => Flushed(config, w, disk)
    case Look => w
  }

  // The other windows are told once for each change a machine made and for a
  // restore that brought entries back, and for nothing else.
  lemma ToldIff(config: Config, w: Worker, job: Job)
    ensures Handled(config, w, job).announced == w.announced + 1
            <==> (match job
                  case Change(machine, writes, _) => machine && writes != map[]
                  case RestoreIfEmpty(found, _) => config.hasRoot && w.contents == map[] && found != map[]
                  case _ => false)
    ensures w.announced <= Handled(config, w, job).announced <= w.announced + 1
  {
  }

  // ----- the debounce -----------------------------------------------------------

  function Min(a: int, b: int): int {
    if a < b then a else b
  }

  function Deadline(config: Config, w: Worker): Option<Instant> {
    if w.oldest.Some? && w.newest.Some?
    then Some(Min(w.newest.value + config.quiet, w.oldest.value + config.maxDelay))
    else None
  }

  // Only a newly dirtied project, or one left unarmed by a failed flush,
  // extends the quiet window.
  function Rearmed(before: set<Project>, w: Worker, now: Instant): Worker {
    if w.dirty == {} then w.(oldest := None, newest := None)
    else if !(w.dirty <= before) || w.oldest.None? then
      w.(oldest := Some(if w.oldest.Some? then w.oldest.value else now), newest := Some(now))
    else w
  }

  // No job dirties some projects and cleans others, so comparing how many are
  // dirty before and after, as the loop does, tells whether one is new.
  lemma CountTellsNewDirt(config: Config, w: Worker, job: Job)
    ensures |Handled(config, w, job).dirty| > |w.dirty| <==> !(Handled(config, w, job).dirty <= w.dirty)
  {
    var after := Handled(config, w, job).dirty;
    if after <= w.dirty {
      SubsetIsSmaller(after, w.dirty);
    } else {
      var p :| p in after && p !in w.dirty;
      SubsetIsSmaller(w.dirty + {p}, after);
    }
  }

  lemma SubsetIsSmaller(a: set<Project>, b: set<Project>)
    requires a <= b
    ensures |a| <= |b|
  {
    assert b == a + (b - a);
  }

  predicate HasJob(event: Event) {
    event.Poll? && event.head.Some?
  }

  predicate FindsNoJob(event: Event) {
    event.Poll? && event.head.None?
  }

  predicate TimesOut(config: Config, w: Worker, event: Event) {
    FindsNoJob(event) && !event.closed && Deadline(config, w).Some? && event.now >= Deadline(config, w).value
  }

  function Served(config: Config, w: Worker, event: Event): Worker {
    if event.Outside? then Intruded(w, event.writes, event.disk)
    else if event.head.Some? then Rearmed(w.dirty, Handled(config, w, event.head.value), event.now)
    else if event.closed then Flushed(config, w, event.disk)
    else if TimesOut(config, w, event) then Flushed(config, w, event.disk).(oldest := None, newest := None)
    else w
  }

  predicate Stops(event: Event) {
    FindsNoJob(event) && event.closed
  }

  // The state before event n of a run; a disconnect is the last.
  function At(config: Config, w: Worker, events: seq<Event>, n: nat): Worker
    requires n <= |events|
  {
    if n == 0 then w else Served(config, At(config, w, events, n - 1), events[n - 1])
  }

  class LedgerLoop {
    const config: Config
    var contents: map<Project, Content>
    var dirty: set<Project>
    var files: map<Project, Content>
    var backfillPending: bool
    var answers: seq<bool>
    var announced: nat
    // The debounce, locals of run_worker.
    var oldest: Option<Instant>
    var newest: Option<Instant>

    function State(): Worker
      reads this
    {
      Worker(contents, dirty, files, oldest, newest, backfillPending, answers, announced)
    }

    constructor (config: Config, contents: map<Project, Content>, files: map<Project, Content>)
      ensures State() == Start(contents, files) && this.config == config
    {
      this.config := config;
      this.contents, this.dirty, this.files := contents, {}, files;
      oldest, newest := None, None;
      backfillPending, answers, announced := false, [], 0;
    }

    method FlushSnapshots(disk: Disk)
      modifies this
      ensures State() == Flushed(config, old(State()), disk)
    {
      if !config.hasRoot {
        return;
      }
      files := Written(files, contents, dirty - disk.fails, disk);
      dirty := dirty * disk.fails;
    }

    method HandleJob(job: Job)
      modifies this
      ensures State() == Handled(config, old(State()), job)
    {
      var changed := false;
      match job {
        case Change(machine, writes, unmarked) =>
          contents := Overlay(contents, writes);
          dirty := Dirtied(dirty, writes, unmarked);
          changed := machine && writes != map[];
        case RestoreIfEmpty(found, readable) =>
          if config.hasRoot {
            changed := contents == map[] && found != map[];
            if contents == map[] {
              contents, dirty := found, {};
            }
            backfillPending := readable && contents == map[];
          }
        case TakeStartupBackfill =>
          answers := answers + [backfillPending];
          backfillPending := false;
        case FlushNow(disk) =>
          FlushSnapshots(disk);
        case Look =>
      }
      if changed {
        announced := announced + 1;
      }
    }

    // Serves one job and moves the debounce.
    method ServeJob(job: Job, now: Instant)
      modifies this
      ensures State() == Rearmed(old(dirty), Handled(config, old(State()), job), now)
    {
      var pendingBefore := |dirty|;
      CountTellsNewDirt(config, State(), job);
      HandleJob(job);
      var pendingAfter := |dirty|;
      if pendingAfter > 0 && (pendingAfter > pendingBefore || oldest.None?) {
        if oldest.None? {
          oldest := Some(now);
        }
        newest := Some(now);
      }
      if pendingAfter == 0 {
        oldest, newest := None, None;
      }
    }

    // The other process: the database and the vault are shared with it.
    method Intrude(writes: map<Project, Option<Content>>, disk: Disk)
      modifies this
      ensures State() == Intruded(old(State()), writes, disk)
    {
      contents := Overlay(contents, writes);
      files := Written(files, contents, writes.Keys - {""} - disk.fails, disk);
    }

    // One turn of the loop, or a change of the other process.
    method ServeEvent(event: Event) returns (stopped: bool)
      modifies this
      ensures State() == Served(config, old(State()), event) && stopped == Stops(event)
    {
      if event.Outside? {
        Intrude(event.writes, event.disk);
        return false;
      }
      if event.head.Some? {
        ServeJob(event.head.value, event.now);
        return false;
      }
      if event.closed {
        FlushSnapshots(event.disk);
        return true;
      }
      if oldest.Some? && newest.Some?
         && event.now >= Min(newest.value + config.quiet, oldest.value + config.maxDelay) {
        FlushSnapshots(event.disk);
        oldest, newest := None, None;
      }
      return false;
    }

    // Serves polls, with the other process's changes between them, until the
    // senders are gone.
    method RunWorker(events: seq<Event>)
      requires forall i :: 0 <= i < |events| && Stops(events[i]) ==> i == |events| - 1
      modifies this
      ensures State() == At(config, old(State()), events, |events|)
    {
      var i := 0;
      while i < |events|
        invariant 0 <= i <= |events|
        invariant State() == At(config, old(State()), events, i)
      {
        var stopped := ServeEvent(events[i]);
        i := i + 1;
        if stopped {
          return;
        }
      }
    }
  }

  // ----- snapshot files agree with the ledger ------------------------------------

  function FileOf(w: Worker, p: Project): Option<Content> {
    if p in w.files then Some(w.files[p]) else None
  }

  function ContentOf(w: Worker, p: Project): Option<Content> {
    if p in w.contents then Some(w.contents[p]) else None
  }

  predicate CleanAgrees(w: Worker, p: Project) {
    p in w.dirty || FileOf(w, p) == ContentOf(w, p)
  }

  predicate Flushes(config: Config, w: Worker, event: Event) {
    config.hasRoot && event.Poll?
    && if event.head.Some? then event.head.value.FlushNow? else event.closed || TimesOut(config, w, event)
  }

  function DiskOf(event: Event): Disk {
    if HasJob(event) && event.head.value.FlushNow? then event.head.value.disk else event.disk
  }

  predicate Restores(config: Config, w: Worker, event: Event) {
    config.hasRoot && HasJob(event) && event.head.value.RestoreIfEmpty? && w.contents == map[]
  }

  // What a flush does to each file. A project it reaches agrees with its file
  // afterwards exactly when its folder is there or it has nothing to record.
  lemma FlushAgreesIff(config: Config, w: Worker, disk: Disk, p: Project)
    requires config.hasRoot
    ensures var s := Flushed(config, w, disk);
            && (p in s.dirty <==> p in w.dirty && p in disk.fails)
            && FileOf(s, p) == (if p in disk.missing then None
                                else if p in w.dirty && p !in disk.fails then ContentOf(w, p)
                                else FileOf(w, p))
            && (p in w.dirty && p !in s.dirty ==>
                  (FileOf(s, p) == ContentOf(s, p) <==> p !in disk.missing || ContentOf(w, p).None?))
  {
  }

  // What an event must meet for p's clean file to stay current: an outside change
  // finds its folder and writes what it alters, a flush that does not keep p dirty
  // finds its folder or nothing to record, a restore reads the file as it is, a
  // change marks what it alters.
  predicate Safe(config: Config, w: Worker, event: Event, p: Project) {
    if event.Outside? then
      p in w.dirty || WritesTruly(w, event, p)
    else if Flushes(config, w, event) then
      (p in w.dirty && p in DiskOf(event).fails) || p !in DiskOf(event).missing || ContentOf(w, p).None?
    else if Restores(config, w, event) then
      (if p in event.head.value.found then Some(event.head.value.found[p]) else None) == FileOf(w, p)
    else if HasJob(event) && event.head.value.Change? then
      p in w.dirty || p !in event.head.value.writes || p !in event.head.value.unmarked
      || event.head.value.writes[p] == ContentOf(w, p)
    else true
  }

  // The outside process leaves p nothing to record where its folder is gone, and
  // alters nothing of p that it fails to write.
  predicate WritesTruly(w: Worker, event: Event, p: Project)
    requires event.Outside?
  {
    var content := if p in event.writes then event.writes[p] else ContentOf(w, p);
    if p in event.disk.missing then content.None? else p in event.disk.fails ==> content == ContentOf(w, p)
  }

  lemma OutsideAgreesIff(config: Config, w: Worker, event: Event, p: Project)
    requires p != "" && CleanAgrees(w, p) && event.Outside?
    ensures CleanAgrees(Served(config, w, event), p) <==> Safe(config, w, event, p)
  {
    var s := Intruded(w, event.writes, event.disk);
    assert ContentOf(s, p) == if p in event.writes then event.writes[p] else ContentOf(w, p);
    assert FileOf(s, p) == if p in event.disk.missing then None
                           else if p in event.writes && p !in event.disk.fails then ContentOf(s, p)
                           else FileOf(w, p);
  }

  lemma ChangeAgreesIff(config: Config, w: Worker, event: Event, p: Project)
    requires p != "" && CleanAgrees(w, p) && HasJob(event) && event.head.value.Change?
    ensures CleanAgrees(Handled(config, w, event.head.value), p) <==> Safe(config, w, event, p)
  {
    var writes := event.head.value.writes;
    var s := Handled(config, w, event.head.value);
    assert ContentOf(s, p) == if p in writes then writes[p] else ContentOf(w, p);
    assert p in s.dirty <==> p in w.dirty || (p in writes && p !in event.head.value.unmarked);
    assert FileOf(s, p) == FileOf(w, p);
  }

  lemma RearmedAgreesToo(before: set<Project>, w: Worker, now: Instant, p: Project)
    ensures CleanAgrees(Rearmed(before, w, now), p) <==> CleanAgrees(w, p)
  {
  }

  lemma HandledAgreesIff(config: Config, w: Worker, event: Event, p: Project)
    requires HasJob(event) && ((p != "" && CleanAgrees(w, p)) || Restores(config, w, event))
    ensures CleanAgrees(Handled(config, w, event.head.value), p) <==> Safe(config, w, event, p)
  {
    match event.head.value
    case Change(_, _, _) => ChangeAgreesIff(config, w, event, p);
    case FlushNow(disk) => if config.hasRoot { FlushAgreesIff(config, w, disk, p); }
    case _ =>
  }

  // One event leaves a project dirty or its file current exactly when it is safe
  // for it; a restore into an empty ledger does so whatever came before.
  lemma ServedAgreesIff(config: Config, w: Worker, event: Event, p: Project)
    requires (p != "" && CleanAgrees(w, p)) || Restores(config, w, event)
    ensures CleanAgrees(Served(config, w, event), p) <==> Safe(config, w, event, p)
  {
    if event.Outside? {
      OutsideAgreesIff(config, w, event, p);
    } else if HasJob(event) {
      HandledAgreesIff(config, w, event, p);
      RearmedAgreesToo(w.dirty, Handled(config, w, event.head.value), event.now, p);
    } else if config.hasRoot {
      FlushAgreesIff(config, w, event.disk, p);
    }
  }

  // p is dirty or its file current before event k.
  ghost predicate CurrentAt(config: Config, w: Worker, events: seq<Event>, p: Project, k: nat) {
    k <= |events| && CleanAgrees(At(config, w, events, k), p)
  }

  ghost predicate SafeAt(config: Config, w: Worker, events: seq<Event>, p: Project, k: nat) {
    k < |events| && Safe(config, At(config, w, events, k), events[k], p)
  }

  lemma CurrentNext(config: Config, w: Worker, events: seq<Event>, p: Project, k: nat)
    requires p != "" && k < |events| && CurrentAt(config, w, events, p, k)
    ensures CurrentAt(config, w, events, p, k + 1) <==> SafeAt(config, w, events, p, k)
  {
    ServedAgreesIff(config, At(config, w, events, k), events[k], p);
  }

  lemma {:induction false} SafeEventsKeepItCurrent(config: Config, w: Worker, events: seq<Event>, p: Project, n: nat)
    requires p != "" && n <= |events| && CurrentAt(config, w, events, p, 0)
    requires forall k :: 0 <= k < n ==> SafeAt(config, w, events, p, k)
    ensures CurrentAt(config, w, events, p, n)
  {
    if n > 0 {
      SafeEventsKeepItCurrent(config, w, events, p, n - 1);
      CurrentNext(config, w, events, p, n - 1);
    }
  }

  // Over every run of the worker and the other process, from any state in which
  // it is so: a clean project's file holds its current contents all along exactly
  // when every event is safe for it.
  lemma CleanFilesAreCurrentIff(config: Config, w: Worker, events: seq<Event>, p: Project)
    requires p != "" && CleanAgrees(w, p)
    ensures (forall k :: 0 <= k <= |events| ==> CurrentAt(config, w, events, p, k))
            <==> (forall k :: 0 <= k < |events| ==> SafeAt(config, w, events, p, k))
  {
    assert CurrentAt(config, w, events, p, 0);
    if forall k :: 0 <= k <= |events| ==> CurrentAt(config, w, events, p, k) {
      forall k | 0 <= k < |events| ensures SafeAt(config, w, events, p, k) {
        CurrentNext(config, w, events, p, k);
      }
    }
    if forall k :: 0 <= k < |events| ==> SafeAt(config, w, events, p, k) {
      forall n | 0 <= n <= |events| ensures CurrentAt(config, w, events, p, n) {
        SafeEventsKeepItCurrent(config, w, events, p, n);
      }
    }
  }

  // A user deletes the folder of a changed project: the next flush calls it
  // written, and it is left clean, unarmed, with contents and no file.
  lemma ADeletedFolderIsNotSaved(config: Config, w: Worker, p: Project, now: Instant)
    requires config.hasRoot && w.dirty == {p} && p in w.contents
    requires Deadline(config, w).Some? && now >= Deadline(config, w).value
    ensures var s := Served(config, w, Poll(now, None, false, Disk({}, {p})));
            s.dirty == {} && s.oldest.None? && p in s.contents && p !in s.files
  {
    FlushAgreesIff(config, w, Disk({}, {p}), p);
  }

  // The chat closes an entry and cannot write its file: the worker knows nothing
  // of it and leaves the stale file.
  lemma AnOutsideChangeIsNotSaved(config: Config, w: Worker, p: Project, text: Content)
    requires p != "" && w.dirty == {} && FileOf(w, p) == ContentOf(w, p) != Some(text)
    ensures var s := Served(config, w, Outside(map[p := Some(text)], Disk({p}, {})));
            s.dirty == {} && s.oldest == w.oldest && ContentOf(s, p) == Some(text) && FileOf(s, p) == FileOf(w, p)
  {
    OutsideAgreesIff(config, w, Outside(map[p := Some(text)], Disk({p}, {})), p);
  }

  // Claiming an entry that is already mine alters the ledger and marks nothing:
  // the file is stale and no timer runs.
  lemma AnUnmarkedChangeIsNotSaved(config: Config, w: Worker, p: Project, text: Content, now: Instant)
    requires p != "" && w.dirty == {} && FileOf(w, p) == ContentOf(w, p) != Some(text)
    ensures var s := Served(config, w, Poll(now, Some(Change(false, map[p := Some(text)], {p})), false, Disk({}, {})));
            s.dirty == {} && s.oldest.None? && ContentOf(s, p) == Some(text) && FileOf(s, p) != Some(text)
  {
    var writes: map<Project, Option<Content>> := map[p := Some(text)];
    assert Dirtied(w.dirty, writes, {p}) == {};
  }

  // ----- the debounce over runs ---------------------------------------------------

  ghost predicate TimerInv(w: Worker) {
    && (w.oldest.Some? <==> w.newest.Some?)
    && (w.oldest.Some? ==> w.dirty != {} && w.oldest.value <= w.newest.value)
  }

  ghost predicate Monotone(events: seq<Event>) {
    forall i, j :: 0 <= i <= j < |events| && events[i].Poll? && events[j].Poll? ==> events[i].now <= events[j].now
  }

  lemma ArmingIsOrdered(before: set<Project>, w: Worker, now: Instant)
    requires (w.oldest.Some? <==> w.newest.Some?) && (w.oldest.Some? ==> w.oldest.value <= w.newest.value)
    requires w.newest.Some? ==> w.newest.value <= now
    ensures var s := Rearmed(before, w, now);
            TimerInv(s) && (s.newest.None? || s.newest == w.newest || s.newest == Some(now))
  {
  }

  lemma TimerStep(config: Config, w: Worker, event: Event)
    requires TimerInv(w) && !Stops(event) && (event.Poll? && w.newest.Some? ==> w.newest.value <= event.now)
    ensures var s := Served(config, w, event);
            TimerInv(s) && (s.newest.None? || s.newest == w.newest || (event.Poll? && s.newest == Some(event.now)))
  {
    if HasJob(event) {
      var handled := Handled(config, w, event.head.value);
      assert handled.oldest == w.oldest && handled.newest == w.newest;
      ArmingIsOrdered(w.dirty, handled, event.now);
    }
  }

  // The debounce was last pushed back by poll i.
  predicate PushedBackBy(events: seq<Event>, newest: Instant, i: nat) {
    i < |events| && events[i].Poll? && events[i].now == newest
  }

  lemma {:induction false} TimersAreOrdered(config: Config, w: Worker, events: seq<Event>, n: nat)
    requires Monotone(events) && n <= |events| && w.oldest.None? && w.newest.None?
    requires forall i :: 0 <= i < n ==> !Stops(events[i])
    ensures TimerInv(At(config, w, events, n))
    ensures var s := At(config, w, events, n);
            s.newest.Some? ==> exists i :: 0 <= i < n && PushedBackBy(events, s.newest.value, i)
  {
    if n > 0 {
      TimersAreOrdered(config, w, events, n - 1);
      var before, event := At(config, w, events, n - 1), events[n - 1];
      if event.Poll? && before.newest.Some? {
        var i :| 0 <= i < n - 1 && PushedBackBy(events, before.newest.value, i);
        assert events[i].now <= event.now;
      }
      TimerStep(config, before, event);
      var s := At(config, w, events, n);
      if s.newest.Some? && s.newest != before.newest {
        assert PushedBackBy(events, s.newest.value, n - 1);
      }
    }
  }

  // After every job the debounce is armed exactly when some project is dirty.
  lemma ArmedIffDirtyAfterAJob(config: Config, w: Worker, event: Event)
    requires HasJob(event)
    ensures Served(config, w, event).oldest.Some? <==> Served(config, w, event).dirty != {}
  {
  }

  // The worker goes on waiting.
  predicate Waits(config: Config, w: Worker, event: Event) {
    event.Outside? || (FindsNoJob(event) && !event.closed && !TimesOut(config, w, event))
  }

  predicate WaitsAt(config: Config, w: Worker, events: seq<Event>, k: nat) {
    k < |events| && Waits(config, At(config, w, events, k), events[k])
  }

  // The flush timed out at event k, could not write what is dirty now, and nothing
  // has been served since.
  ghost predicate FailedFlush(config: Config, w: Worker, events: seq<Event>, k: nat, n: nat)
    requires k < n <= |events|
  {
    && TimesOut(config, At(config, w, events, k), events[k])
    && (!config.hasRoot || At(config, w, events, n).dirty == At(config, w, events, k).dirty * events[k].disk.fails)
    && forall j :: k < j < n ==> WaitsAt(config, w, events, j)
  }

  lemma WaitingChangesNothing(config: Config, w: Worker, event: Event)
    requires Waits(config, w, event)
    ensures var s := Served(config, w, event); s.dirty == w.dirty && s.oldest == w.oldest && s.newest == w.newest
  {
  }

  lemma FailedFlushStays(config: Config, w: Worker, events: seq<Event>, k: nat, n: nat)
    requires k < n < |events| && FailedFlush(config, w, events, k, n)
    requires WaitsAt(config, w, events, n)
    ensures FailedFlush(config, w, events, k, n + 1)
  {
    WaitingChangesNothing(config, At(config, w, events, n), events[n]);
  }

  lemma FlushLeavesTheFailed(config: Config, w: Worker, events: seq<Event>, n: nat)
    requires n < |events| && TimesOut(config, At(config, w, events, n), events[n])
    ensures FailedFlush(config, w, events, n, n + 1)
  {
  }

  // A project is dirty with no timer running only since a timed-out flush failed
  // to write it, with nothing served in between; the next job arms the timer.
  lemma {:induction false} UnarmedDirtIsAFailedFlush(config: Config, w: Worker, events: seq<Event>, n: nat)
    requires n <= |events| && w.dirty == {} && w.oldest.None?
    requires forall i :: 0 <= i < n ==> !Stops(events[i])
    requires At(config, w, events, n).oldest.None? && At(config, w, events, n).dirty != {}
    ensures exists k :: 0 <= k < n && FailedFlush(config, w, events, k, n)
  {
    var before, event := At(config, w, events, n - 1), events[n - 1];
    if Waits(config, before, event) {
      UnarmedDirtIsAFailedFlush(config, w, events, n - 1);
      var k :| 0 <= k < n - 1 && FailedFlush(config, w, events, k, n - 1);
      FailedFlushStays(config, w, events, k, n - 1);
    } else if HasJob(event) {
      ArmedIffDirtyAfterAJob(config, before, event);
      assert false;
    } else {
      FlushLeavesTheFailed(config, w, events, n - 1);
    }
  }

  // A job that dirties no further project leaves a running timer as it was.
  lemma NoNewDirtNoExtension(config: Config, w: Worker, event: Event)
    requires HasJob(event) && w.oldest.Some?
    requires var dirty := Handled(config, w, event.head.value).dirty; dirty != {} && dirty <= w.dirty
    ensures var s := Served(config, w, event); s.oldest == w.oldest && s.newest == w.newest
  {
  }

  lemma DeadlineIsCapped(config: Config, w: Worker)
    requires w.oldest.Some? && w.newest.Some?
    ensures Deadline(config, w).value <= w.oldest.value + config.maxDelay
  {
  }

  // The timer stops at event k.
  predicate Disarms(config: Config, w: Worker, events: seq<Event>, k: nat) {
    k < |events| && At(config, w, events, k).oldest.Some? && At(config, w, events, k + 1).oldest.None?
  }

  lemma ServedKeepsOldest(config: Config, w: Worker, event: Event)
    requires w.oldest.Some?
    ensures Served(config, w, event).oldest.None? || Served(config, w, event).oldest == w.oldest
  {
  }

  lemma {:induction false} OldestStays(config: Config, w: Worker, events: seq<Event>, n: nat, m: nat)
    requires n <= m <= |events| && At(config, w, events, n).oldest.Some?
    requires forall k :: n <= k < m ==> !Disarms(config, w, events, k)
    ensures At(config, w, events, m).oldest == At(config, w, events, n).oldest
  {
    if n < m {
      OldestStays(config, w, events, n, m - 1);
      ServedKeepsOldest(config, At(config, w, events, m - 1), events[m - 1]);
      assert !Disarms(config, w, events, m - 1);
    }
  }

  // A change that armed the timer at instant `since` is flushed no later than
  // the first look at an empty queue from since + maxDelay on.
  lemma FlushedAtTheFirstEmptyLook(config: Config, w: Worker, events: seq<Event>, n: nat, m: nat, since: Instant)
    requires n <= m < |events| && Monotone(events) && w.oldest.None? && w.newest.None?
    requires forall i :: 0 <= i <= m ==> !Stops(events[i])
    requires At(config, w, events, n).oldest == Some(since)
    requires FindsNoJob(events[m]) && events[m].now >= since + config.maxDelay
    ensures exists k :: n <= k <= m && Disarms(config, w, events, k)
  {
    if forall k :: n <= k < m ==> !Disarms(config, w, events, k) {
      OldestStays(config, w, events, n, m);
      TimersAreOrdered(config, w, events, m);
      DeadlineIsCapped(config, At(config, w, events, m));
      assert Disarms(config, w, events, m);
    }
  }

  // ----- the quiet window, told from the events ------------------------------------

  // The job at look k leaves a project dirty that was clean before it, or leaves
  // dirt while no timer runs.
  ghost predicate PushesAt(config: Config, w: Worker, events: seq<Event>, k: nat) {
    k < |events| && HasJob(events[k])
    && var before, after := At(config, w, events, k), At(config, w, events, k + 1);
       (exists p :: p in after.dirty && p !in before.dirty) || (after.dirty != {} && before.oldest.None?)
  }

  ghost predicate ArmsAt(config: Config, w: Worker, events: seq<Event>, k: nat) {
    PushesAt(config, w, events, k) && At(config, w, events, k).oldest.None?
  }

  // The latest push before event n is at look k.
  ghost predicate LatestPush(config: Config, w: Worker, events: seq<Event>, k: nat, n: nat) {
    k < n && PushesAt(config, w, events, k) && forall j :: k < j < n ==> !PushesAt(config, w, events, j)
  }

  ghost predicate LatestArming(config: Config, w: Worker, events: seq<Event>, k: nat, n: nat) {
    k < n && ArmsAt(config, w, events, k) && forall j :: k < j < n ==> !ArmsAt(config, w, events, j)
  }

  lemma HandledKeepsTimers(config: Config, w: Worker, job: Job)
    ensures Handled(config, w, job).oldest == w.oldest && Handled(config, w, job).newest == w.newest
  {
  }

  // What one event does to the timers.
  lemma TimersMove(config: Config, w: Worker, event: Event)
    requires !Stops(event)
    ensures var s := Served(config, w, event);
            var pushes := HasJob(event)
                          && ((exists p :: p in s.dirty && p !in w.dirty) || (s.dirty != {} && w.oldest.None?));
            s.oldest.Some? ==>
              && (if pushes then s.newest == Some(event.now) else s.newest == w.newest)
              && (if pushes && w.oldest.None? then s.oldest == Some(event.now) else s.oldest == w.oldest)
  {
    if HasJob(event) {
      HandledKeepsTimers(config, w, event.head.value);
    }
  }

  lemma TimersMoveAt(config: Config, w: Worker, events: seq<Event>, n: nat)
    requires n < |events| && !Stops(events[n]) && At(config, w, events, n + 1).oldest.Some?
    ensures var before, s := At(config, w, events, n), At(config, w, events, n + 1);
            && (if PushesAt(config, w, events, n) then s.newest == Some(events[n].now) else s.newest == before.newest)
            && (if ArmsAt(config, w, events, n) then s.oldest == Some(events[n].now) else s.oldest == before.oldest)
  {
    TimersMove(config, At(config, w, events, n), events[n]);
  }

  lemma {:induction false} TheOldestIsTheArming(config: Config, w: Worker, events: seq<Event>, n: nat)
      returns (armed: nat)
    requires n <= |events| && w.oldest.None?
    requires forall i :: 0 <= i < n ==> !Stops(events[i])
    requires At(config, w, events, n).oldest.Some?
    ensures LatestArming(config, w, events, armed, n) && At(config, w, events, n).oldest == Some(events[armed].now)
  {
    TimersMoveAt(config, w, events, n - 1);
    if ArmsAt(config, w, events, n - 1) {
      armed := n - 1;
    } else {
      armed := TheOldestIsTheArming(config, w, events, n - 1);
      LatestArmingStays(config, w, events, armed, n - 1);
    }
  }

  lemma {:induction false} TheNewestIsThePush(config: Config, w: Worker, events: seq<Event>, n: nat)
      returns (pushed: nat)
    requires n <= |events| && w.oldest.None?
    requires forall i :: 0 <= i < n ==> !Stops(events[i])
    requires At(config, w, events, n).oldest.Some?
    ensures LatestPush(config, w, events, pushed, n) && At(config, w, events, n).newest == Some(events[pushed].now)
  {
    TimersMoveAt(config, w, events, n - 1);
    if PushesAt(config, w, events, n - 1) {
      pushed := n - 1;
    } else {
      pushed := TheNewestIsThePush(config, w, events, n - 1);
      LatestPushStays(config, w, events, pushed, n - 1);
    }
  }

  // While the timer runs, its two instants are those of the latest look whose job
  // dirtied a clean project or armed it, and of the look that armed it.
  lemma TheTimersAreTheLatest(config: Config, w: Worker, events: seq<Event>, n: nat)
      returns (armed: nat, pushed: nat)
    requires n <= |events| && w.oldest.None?
    requires forall i :: 0 <= i < n ==> !Stops(events[i])
    requires At(config, w, events, n).oldest.Some?
    ensures LatestArming(config, w, events, armed, n) && LatestPush(config, w, events, pushed, n) && armed <= pushed
    ensures At(config, w, events, n).oldest == Some(events[armed].now)
    ensures At(config, w, events, n).newest == Some(events[pushed].now)
  {
    armed := TheOldestIsTheArming(config, w, events, n);
    pushed := TheNewestIsThePush(config, w, events, n);
    assert PushesAt(config, w, events, armed);
  }

  lemma LatestArmingStays(config: Config, w: Worker, events: seq<Event>, k: nat, n: nat)
    requires n < |events| && LatestArming(config, w, events, k, n) && !ArmsAt(config, w, events, n)
    ensures LatestArming(config, w, events, k, n + 1)
  {
  }

  lemma LatestPushStays(config: Config, w: Worker, events: seq<Event>, k: nat, n: nat)
    requires n < |events| && LatestPush(config, w, events, k, n) && !PushesAt(config, w, events, n)
    ensures LatestPush(config, w, events, k, n + 1)
  {
  }

  // Over every run: with a timer running, a look at an empty queue stops it
  // exactly when the quiet time has passed since the latest push or the cap since
  // the arming; until then it changes nothing, so nothing is written sooner.
  lemma TheQuietWindow(config: Config, w: Worker, events: seq<Event>, n: nat) returns (armed: nat, pushed: nat)
    requires n < |events| && w.oldest.None?
    requires forall i :: 0 <= i <= n ==> !Stops(events[i])
    requires At(config, w, events, n).oldest.Some? && FindsNoJob(events[n])
    ensures LatestArming(config, w, events, armed, n) && LatestPush(config, w, events, pushed, n)
    ensures At(config, w, events, n + 1).oldest.None?
            <==> (events[n].now >= events[pushed].now + config.quiet
                  || events[n].now >= events[armed].now + config.maxDelay)
    ensures At(config, w, events, n + 1).oldest.Some? ==> At(config, w, events, n + 1) == At(config, w, events, n)
  {
    armed, pushed := TheTimersAreTheLatest(config, w, events, n);
  }

  // Without one a look at an empty queue changes nothing at all.
  lemma UnarmedLooksDoNothing(config: Config, w: Worker, events: seq<Event>, n: nat)
    requires n < |events| && !Stops(events[n]) && FindsNoJob(events[n]) && At(config, w, events, n).oldest.None?
    ensures At(config, w, events, n + 1) == At(config, w, events, n)
  {
  }

  // A job never cleans a project but by a flush or a restore.
  lemma JobsCleanByFlushing(config: Config, w: Worker, job: Job)
    requires !(w.dirty <= Handled(config, w, job).dirty)
    ensures config.hasRoot && (job.FlushNow? || (job.RestoreIfEmpty? && w.contents == map[]))
  {
  }

  // When the timer stops at event k, every project that was waiting is dealt with:
  // its write failed at the deadline, so it is still dirty and its file as it was,
  // or it is clean and its file holds its contents (nothing, if its folder is
  // gone), or a restore has replaced the ledger.
  lemma DisarmingWrites(config: Config, w: Worker, events: seq<Event>, k: nat, p: Project)
    requires Disarms(config, w, events, k) && config.hasRoot && p in At(config, w, events, k).dirty
    ensures var before, after := At(config, w, events, k), At(config, w, events, k + 1);
            if p in after.dirty then
              TimesOut(config, before, events[k]) && p in events[k].disk.fails
              && FileOf(after, p) == if p in events[k].disk.missing then None else FileOf(before, p)
            else
              Restores(config, before, events[k])
              || FileOf(after, p) == if p in DiskOf(events[k]).missing then None else ContentOf(after, p)
  {
    var before, event := At(config, w, events, k), events[k];
    if HasJob(event) {
      var handled := Handled(config, before, event.head.value);
      assert handled.dirty == {};
      JobsCleanByFlushing(config, before, event.head.value);
      if event.head.value.FlushNow? {
        FlushAgreesIff(config, before, event.head.value.disk, p);
      }
    } else {
      FlushAgreesIff(config, before, event.disk, p);
    }
  }

  // A running timer is stopped by a job exactly when it leaves nothing dirty, and
  // by a look at an empty queue exactly when the deadline has come.
  lemma StopsTheTimerIff(config: Config, w: Worker, event: Event)
    requires event.Poll? && !Stops(event) && w.oldest.Some? && w.newest.Some?
    ensures Served(config, w, event).oldest.None?
            <==> if event.head.Some? then Handled(config, w, event.head.value).dirty == {}
                 else event.now >= Deadline(config, w).value
  {
  }

  // The worker is given a job that writes nothing and forgets nothing, or the
  // other process acts.
  predicate KeepsBusy(config: Config, w: Worker, event: Event) {
    event.Outside? || (HasJob(event) && !Flushes(config, w, event) && !Restores(config, w, event))
  }

  predicate BusyAt(config: Config, w: Worker, events: seq<Event>, k: nat) {
    k < |events| && KeepsBusy(config, At(config, w, events, k), events[k])
  }

  predicate Touches(event: Event, p: Project) {
    event.Outside? && (p in event.writes || p in event.disk.missing)
  }

  // The other process leaves p alone.
  ghost predicate Untouched(events: seq<Event>, n: nat, m: nat, p: Project) {
    m <= |events| && forall k :: n <= k < m ==> !Touches(events[k], p)
  }

  lemma BusyStep(config: Config, w: Worker, event: Event)
    requires w.oldest.Some? && w.dirty != {} && KeepsBusy(config, w, event)
    ensures var s := Served(config, w, event);
            && s.oldest == w.oldest && w.dirty <= s.dirty && s.dirty != {}
            && forall p :: !Touches(event, p) ==> FileOf(s, p) == FileOf(w, p)
  {
    if HasJob(event) {
      if !(w.dirty <= Handled(config, w, event.head.value).dirty) {
        JobsCleanByFlushing(config, w, event.head.value);
        assert false;
      }
    }
  }

  // While every look finds a job that neither flushes nor restores, the timer
  // stands, dirt only grows and the worker writes nothing, however far the cap is
  // behind.
  lemma {:induction false} ABusyQueueOutrunsTheCap(config: Config, w: Worker, events: seq<Event>, n: nat, m: nat)
    requires n <= m <= |events| && At(config, w, events, n).oldest.Some? && At(config, w, events, n).dirty != {}
    requires forall k :: n <= k < m ==> BusyAt(config, w, events, k)
    ensures var start, s := At(config, w, events, n), At(config, w, events, m);
            && s.oldest == start.oldest && start.dirty <= s.dirty && s.dirty != {}
            && forall p :: Untouched(events, n, m, p) ==> FileOf(s, p) == FileOf(start, p)
  {
    if n < m {
      ABusyQueueOutrunsTheCap(config, w, events, n, m - 1);
      assert BusyAt(config, w, events, m - 1);
      BusyStep(config, At(config, w, events, m - 1), events[m - 1]);
      assert forall p :: Untouched(events, n, m, p) ==>
               Untouched(events, n, m - 1, p) && !Touches(events[m - 1], p);
    }
  }

  // The input: a change of the same project at every look.
  function Busy(p: Project, n: nat): (events: seq<Event>)
    ensures |events| == n && forall i :: 0 <= i < n ==> events[i] == BusyPoll(p, i)
  {
    seq(n, i requires i >= 0 => BusyPoll(p, i))
  }

  function BusyPoll(p: Project, now: nat): Event {
    Poll(now, Some(Change(true, map[p := Some("x")], {})), false, Disk({}, {}))
  }

  lemma OneProjectIsNeverWritten(config: Config, p: Project, n: nat, total: nat)
    requires p != "" && 0 < n <= total
    ensures var s := At(config, Start(map[], map[]), Busy(p, total), n);
            s.oldest == Some(0) && p in s.dirty && p !in s.files
  {
    var start, events := Start(map[], map[]), Busy(p, total);
    var first := At(config, start, events, 1);
    assert first == Served(config, start, BusyPoll(p, 0)) by {
      assert At(config, start, events, 0) == start;
    }
    assert Dirtied({}, map[p := Some("x")], {}) == {p};
    assert first.oldest == Some(0) && first.dirty == {p} && FileOf(first, p) == None;
    forall k | 1 <= k < n ensures BusyAt(config, start, events, k) {
      assert events[k] == BusyPoll(p, k);
    }
    ABusyQueueOutrunsTheCap(config, start, events, 1, n);
    assert Untouched(events, 1, n, p);
  }
}
