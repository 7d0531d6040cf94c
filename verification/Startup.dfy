// The startup handshake between the ledger worker and the index worker
// (src-tauri/src/ledger_state.rs, src-tauri/src/index_state.rs): who may queue
// what, and what the one question about a first-run backfill is answered.
module Startup {
  import opened Wrappers
  import opened LedgerWorker

  // Who queued a job: initialize, the index worker during its nth reconcile, or
  // anyone else (a command, the index worker between reconciles).
  datatype Source = Opening | Reconcile(n: nat) | Elsewhere

  datatype Message = Message(job: Job, source: Source)

  // Where run_reconcile stands. Waiting and Forwarding know the reconcile's
  // number; Waiting also which question it asked.
  datatype IndexPc =
    | Resting
    | Scanned(n: nat)
    | Waiting(n: nat, question: nat)
    | Forwarding(n: nat, owesSeed: bool)

  // `sent` is everything ever queued, in order; the worker has served a prefix.
  datatype Session = Session(
    worker: Worker,
    sent: seq<Message>,
    served: nat,
    asked: nat,
    index: IndexPc,
    reconciles: nat,
    seeds: nat)

  datatype Action =
    | Serve                                  // the worker takes the next job
    | Produce(job: Job)                      // any other sender
    | Scan                                   // run_reconcile has its report
    | Ask                                    // take_startup_backfill sends
    | Hear                                   // its answer arrives in time
    | GiveUp                                 // the reply times out
    | Forward(job: Job)                      // upserts, deletions, backfilled facts
    | Finish(seed: Option<Job>)              // the seed, if one is owed: a batch or nothing to enrol

  // The database and the files as opened, what a restore would find, and what
  // draining the legacy overrides into their notes does to the ledger.
  datatype Opened = Opened(
    config: Config,
    contents: map<Project, Content>,
    files: map<Project, Content>,
    found: map<Project, Content>,
    readable: bool,
    drained: map<Project, Option<Content>>)

  function RestoreJob(o: Opened): Job {
    RestoreIfEmpty(o.found, o.readable)
  }

  // The drain re-applies each override it moves, which untracks or reopens
  // entries and marks their project; with no vault it does nothing.
  function DrainJob(o: Opened): Job {
    if o.config.hasRoot then Change(true, o.drained, {}) else Look
  }

  // initialize queues the restore, the override drain and the triage marker
  // before any handle escapes.
  function Begin(o: Opened): Session {
    Session(Start(o.contents, o.files),
            [Message(RestoreJob(o), Opening), Message(DrainJob(o), Opening), Message(Look, Opening)],
            0, 0, Resting, 0, 0)
  }

  function Send(s: Session, job: Job, source: Source): Session {
    s.(sent := s.sent + [Message(job, source)])
  }

  // Only initialize queues a restore and only the index worker asks.
  predicate Ordinary(job: Job) {
    !job.RestoreIfEmpty? && !job.TakeStartupBackfill?
  }

  function Step(o: Opened, s: Session, a: Action): Session {
    match a
    case Serve =>
      if s.served < |s.sent|
      then s.(worker := Handled(o.config, s.worker, s.sent[s.served].job), served := s.served + 1)
      else s
    case Produce(job) => if Ordinary(job) then Send(s, job, Elsewhere) else s
    case Scan => if s.index.Resting? then s.(index := Scanned(s.reconciles), reconciles := s.reconciles + 1) else s
    case Ask =>
      if s.index.Scanned?
      then Send(s, TakeStartupBackfill, Reconcile(s.index.n))
             .(index := Waiting(s.index.n, s.asked), asked := s.asked + 1)
      else s
    case Hear =>
      if s.index.Waiting? && s.index.question < |s.worker.answers|
      then s.(index := Forwarding(s.index.n, s.worker.answers[s.index.question]))
      else s
    case GiveUp => if s.index.Waiting? then s.(index := Forwarding(s.index.n, false)) else s
    case Forward(job) =>
      if s.index.Forwarding? && Ordinary(job) then Send(s, job, Reconcile(s.index.n)) else s
    case Finish(seed) =>
      if !s.index.Forwarding? then s
      else if !s.index.owesSeed then s.(index := Resting)
      else if seed.None? then s.(index := Resting, seeds := s.seeds + 1)
      else if Ordinary(seed.value)
      then Send(s, seed.value, Reconcile(s.index.n)).(index := Resting, seeds := s.seeds + 1)
      else s
  }

  function Exec(o: Opened, acts: seq<Action>): Session {
    if acts == [] then Begin(o) else Step(o, Exec(o, acts[..|acts| - 1]), acts[|acts| - 1])
  }

  // The worker after serving the first n messages.
  function AfterServing(o: Opened, sent: seq<Message>, n: nat): Worker
    requires n <= |sent|
  {
    if n == 0 then Start(o.contents, o.files)
    else Handled(o.config, AfterServing(o, sent, n - 1), sent[n - 1].job)
  }

  // What the restore leaves: is the ledger still empty, and known to be?
  predicate EmptyAfterRestore(o: Opened) {
    o.config.hasRoot && o.readable && Handled(o.config, Start(o.contents, o.files), RestoreJob(o)).contents == map[]
  }

  // ----- every run ---------------------------------------------------------------

  ghost predicate QueueInv(o: Opened, s: Session) {
    && s.served <= |s.sent|
    && Begin(o).sent <= s.sent
    && (forall i :: 3 <= i < |s.sent| ==> !s.sent[i].job.RestoreIfEmpty? && !s.sent[i].source.Opening?)
    && (forall i :: 0 <= i < |s.sent| && s.sent[i].job.TakeStartupBackfill? ==> s.sent[i].source.Reconcile?)
  }

  // No answer is true but the first, and that only if the restore left the
  // ledger empty.
  ghost predicate AnswerInv(o: Opened, s: Session) {
    var w := s.worker;
    && (s.served == 0 ==> w == Start(o.contents, o.files))
    && (w.backfillPending ==> s.served > 0 && w.answers == [] && EmptyAfterRestore(o))
    && (s.served > 0 && w.answers == [] ==> (w.backfillPending <==> EmptyAfterRestore(o)))
    && (forall i :: 0 <= i < |w.answers| ==> (w.answers[i] <==> i == 0 && EmptyAfterRestore(o)))
  }

  // A reconcile queues nothing before its own question.
  ghost predicate OrderInv(s: Session) {
    && (forall i :: 0 <= i < |s.sent| && s.sent[i].source.Reconcile? ==> s.sent[i].source.n < s.reconciles)
    && (s.index.Scanned? ==>
          s.index.n < s.reconciles && forall i :: 0 <= i < |s.sent| ==> s.sent[i].source != Reconcile(s.index.n))
    && (s.index.Waiting? || s.index.Forwarding? ==> s.index.n < s.reconciles)
    && (forall i, j :: 0 <= i < j < |s.sent| && s.sent[j].job.TakeStartupBackfill? ==>
          s.sent[i].source != s.sent[j].source)
  }

  // At most one seed: a reconcile that owes one heard the first answer, and
  // later questions get later answers.
  ghost predicate SeedInv(s: Session) {
    && (s.index.Waiting? ==> s.index.question < s.asked)
    && (s.index.Waiting? && s.index.question == 0 ==> s.seeds == 0)
    && (s.index.Forwarding? && s.index.owesSeed ==>
          s.seeds == 0 && s.asked > 0 && |s.worker.answers| > 0 && s.worker.answers[0])
    && (s.asked == 0 ==> s.seeds == 0)
    && s.seeds <= 1
    && (s.seeds > 0 ==> |s.worker.answers| > 0 && s.worker.answers[0])
  }

  ghost predicate Inv(o: Opened, s: Session) {
    QueueInv(o, s) && AnswerInv(o, s) && OrderInv(s) && SeedInv(s)
  }

  lemma ServeKeepsAnswers(o: Opened, s: Session)
    requires QueueInv(o, s) && AnswerInv(o, s) && s.served < |s.sent|
    ensures AnswerInv(o, Step(o, s, Serve))
  {
    if s.served < 3 {
      assert s.sent[s.served] == Begin(o).sent[s.served];
    }
  }

  lemma AnswersGrow(o: Opened, s: Session)
    ensures s.worker.answers <= Step(o, s, Serve).worker.answers
  {
  }

  lemma AnswersKept(o: Opened, s: Session, a: Action)
    requires QueueInv(o, s) && AnswerInv(o, s)
    ensures AnswerInv(o, Step(o, s, a))
  {
    if a.Serve? && s.served < |s.sent| {
      ServeKeepsAnswers(o, s);
    }
  }

  lemma QueueKept(o: Opened, s: Session, a: Action)
    requires QueueInv(o, s)
    ensures QueueInv(o, Step(o, s, a))
  {
  }

  lemma OrderKept(o: Opened, s: Session, a: Action)
    requires OrderInv(s)
    ensures OrderInv(Step(o, s, a))
  {
  }

  lemma SeedKept(o: Opened, s: Session, a: Action)
    requires AnswerInv(o, s) && SeedInv(s)
    ensures SeedInv(Step(o, s, a))
  {
    if a.Serve? && s.served < |s.sent| {
      AnswersGrow(o, s);
    }
  }

  lemma StepKeepsInv(o: Opened, s: Session, a: Action)
    requires Inv(o, s)
    ensures Inv(o, Step(o, s, a))
  {
    QueueKept(o, s, a);
    AnswersKept(o, s, a);
    OrderKept(o, s, a);
    SeedKept(o, s, a);
  }

  lemma {:induction false} RunKeepsInv(o: Opened, acts: seq<Action>)
    ensures Inv(o, Exec(o, acts))
  {
    if acts != [] {
      RunKeepsInv(o, acts[..|acts| - 1]);
      StepKeepsInv(o, Exec(o, acts[..|acts| - 1]), acts[|acts| - 1]);
    }
  }

  lemma StepServesInOrder(o: Opened, s: Session, a: Action)
    requires s.served <= |s.sent| && s.worker == AfterServing(o, s.sent, s.served)
    ensures var t := Step(o, s, a); t.served <= |t.sent| && t.worker == AfterServing(o, t.sent, t.served)
  {
    ServingIgnoresTheTail(o, s.sent, Step(o, s, a).sent, s.served);
  }

  // Under every interleaving of senders the worker serves what was queued, in
  // order, and the restore is its first job and its only restore: it runs on the
  // database exactly as opened, before any sync.
  lemma {:induction false} RestoreRunsFirst(o: Opened, acts: seq<Action>)
    ensures var s := Exec(o, acts);
            && s.served <= |s.sent|
            && s.worker == AfterServing(o, s.sent, s.served)
            && 0 < |s.sent| && s.sent[0].job == RestoreJob(o)
            && AfterServing(o, s.sent, 1) == Handled(o.config, Start(o.contents, o.files), RestoreJob(o))
            && forall i :: 1 <= i < |s.sent| ==> !s.sent[i].job.RestoreIfEmpty?
  {
    RunKeepsInv(o, acts);
    OpeningQueue(o, Exec(o, acts));
    if acts != [] {
      var before := Exec(o, acts[..|acts| - 1]);
      RestoreRunsFirst(o, acts[..|acts| - 1]);
      StepServesInOrder(o, before, acts[|acts| - 1]);
    }
  }

  lemma OpeningQueue(o: Opened, s: Session)
    requires QueueInv(o, s)
    ensures 0 < |s.sent| && s.sent[0].job == RestoreJob(o)
    ensures AfterServing(o, s.sent, 1) == Handled(o.config, Start(o.contents, o.files), RestoreJob(o))
    ensures forall i :: 1 <= i < |s.sent| ==> !s.sent[i].job.RestoreIfEmpty?
  {
    assert forall i :: 0 <= i < 3 ==> s.sent[i] == Begin(o).sent[i];
    assert AfterServing(o, s.sent, 0) == Start(o.contents, o.files);
  }

  lemma {:induction false} ServingIgnoresTheTail(o: Opened, sent: seq<Message>, longer: seq<Message>, n: nat)
    requires n <= |sent| && sent <= longer
    ensures AfterServing(o, sent, n) == AfterServing(o, longer, n)
  {
    if n > 0 {
      ServingIgnoresTheTail(o, sent, longer, n - 1);
    }
  }

  // The backfill question is answered true exactly for the first question of
  // the session, and only when the restore left the ledger empty.
  lemma BackfillIsOwedOnce(o: Opened, acts: seq<Action>, i: nat)
    requires i < |Exec(o, acts).worker.answers|
    ensures Exec(o, acts).worker.answers[i] <==> i == 0 && EmptyAfterRestore(o)
  {
    RunKeepsInv(o, acts);
  }

  // A session seeds at most once, and only a ledger that came up empty.
  lemma SeedsAtMostOnce(o: Opened, acts: seq<Action>)
    ensures Exec(o, acts).seeds <= 1
    ensures Exec(o, acts).seeds == 1 ==> EmptyAfterRestore(o)
  {
    RunKeepsInv(o, acts);
  }

  // A reconcile asks before it queues anything of its own: nothing it sent is
  // ahead of its question.
  lemma AsksBeforeForwarding(o: Opened, acts: seq<Action>, i: nat, j: nat)
    requires i < j < |Exec(o, acts).sent| && Exec(o, acts).sent[j].job.TakeStartupBackfill?
    ensures Exec(o, acts).sent[i].source != Exec(o, acts).sent[j].source
  {
    RunKeepsInv(o, acts);
  }

  // ----- when a session seeds -------------------------------------------------------

  // The answer to the session's first question arrives in time.
  predicate HearsFirst(s: Session, a: Action) {
    a.Hear? && s.index == Waiting(0, 0) && 0 < |s.worker.answers|
  }

  predicate HeardAt(o: Opened, acts: seq<Action>, k: nat) {
    k < |acts| && HearsFirst(Exec(o, acts[..k]), acts[k])
  }

  ghost predicate FirstAnswerHeard(o: Opened, acts: seq<Action>) {
    exists k :: 0 <= k < |acts| && HeardAt(o, acts, k)
  }

  lemma HeardBefore(o: Opened, acts: seq<Action>, n: nat, k: nat)
    requires k < n <= |acts|
    ensures HeardAt(o, acts[..n], k) <==> HeardAt(o, acts, k)
  {
    assert acts[..n][..k] == acts[..k];
  }

  lemma HeardSnoc(o: Opened, acts: seq<Action>)
    requires acts != []
    ensures FirstAnswerHeard(o, acts)
            <==> FirstAnswerHeard(o, acts[..|acts| - 1]) || HeardAt(o, acts, |acts| - 1)
  {
    var n := |acts| - 1;
    if FirstAnswerHeard(o, acts) && !HeardAt(o, acts, n) {
      var k :| 0 <= k < |acts| && HeardAt(o, acts, k);
      HeardBefore(o, acts, n, k);
    }
    if FirstAnswerHeard(o, acts[..n]) {
      var k :| 0 <= k < n && HeardAt(o, acts[..n], k);
      HeardBefore(o, acts, n, k);
    }
  }

  predicate FirstReconcileDone(s: Session) {
    s.reconciles > 1 || (s.reconciles == 1 && s.index.Resting?)
  }

  // What the session owes and has seeded, told from whether its first answer was
  // heard.
  ghost predicate FirstInv(o: Opened, s: Session, heard: bool) {
    && (s.reconciles == 0 ==> s.index.Resting? && s.asked == 0)
    && (s.asked == 0 <==> s.reconciles == 0 || s.index == Scanned(0))
    && (s.index.Waiting? && s.index.n == 0 <==> s.index == Waiting(0, 0))
    && (s.index.Waiting? && s.index.n > 0 ==> s.index.question > 0)
    && (heard ==> FirstReconcileDone(s) || s.index.Forwarding?)
    && (s.index.Forwarding? ==> (s.index.owesSeed <==> s.index.n == 0 && heard && EmptyAfterRestore(o)))
    && (if FirstReconcileDone(s) then s.seeds == (if heard && EmptyAfterRestore(o) then 1 else 0) else s.seeds == 0)
    && (s.index.Scanned? || s.index.Waiting? || s.index.Forwarding? ==> s.index.n == s.reconciles - 1)
  }

  lemma FirstKept(o: Opened, s: Session, a: Action, heard: bool)
    requires AnswerInv(o, s) && FirstInv(o, s, heard)
    ensures FirstInv(o, Step(o, s, a), heard || HearsFirst(s, a))
  {
  }

  lemma {:induction false} FirstInvHolds(o: Opened, acts: seq<Action>)
    ensures FirstInv(o, Exec(o, acts), FirstAnswerHeard(o, acts))
  {
    if acts != [] {
      var n := |acts| - 1;
      FirstInvHolds(o, acts[..n]);
      RunKeepsInv(o, acts[..n]);
      FirstKept(o, Exec(o, acts[..n]), acts[n], FirstAnswerHeard(o, acts[..n]));
      HeardSnoc(o, acts);
    }
  }

  // Once the session's first reconcile is over, the ledger has been seeded
  // exactly when the restore left it empty and the answer to that reconcile's
  // question was heard; nothing that happens later changes it.
  lemma SeedsIff(o: Opened, acts: seq<Action>)
    requires FirstReconcileDone(Exec(o, acts))
    ensures Exec(o, acts).seeds == 1 <==> EmptyAfterRestore(o) && FirstAnswerHeard(o, acts)
  {
    FirstInvHolds(o, acts);
  }

  // ----- what is queued for a seed -------------------------------------------------

  // Reconcile n ends at action k, owing a seed or not; `seed` is what the index
  // gives it, if anything is to be enrolled.
  predicate EndsAt(o: Opened, acts: seq<Action>, k: nat, n: nat, owes: bool, seed: Option<Job>) {
    && k < |acts| && acts[k] == Finish(seed) && (seed.Some? ==> Ordinary(seed.value))
    && Exec(o, acts[..k]).index == Forwarding(n, owes)
  }

  // At action k a reconcile ends that owes a seed.
  predicate SeedsAt(o: Opened, acts: seq<Action>, k: nat) {
    k < |acts| && SeedsBy(Exec(o, acts[..k]), acts[k])
  }

  predicate SeedsBy(s: Session, a: Action) {
    a.Finish? && (a.seed.Some? ==> Ordinary(a.seed.value)) && s.index.Forwarding? && s.index.owesSeed
  }

  lemma OneStepSeeds(o: Opened, s: Session, a: Action)
    ensures Step(o, s, a).seeds == if SeedsBy(s, a) then s.seeds + 1 else s.seeds
  {
  }

  ghost predicate SomeSeeds(o: Opened, acts: seq<Action>) {
    exists k :: 0 <= k < |acts| && SeedsAt(o, acts, k)
  }

  lemma SeedsBefore(o: Opened, acts: seq<Action>, n: nat, k: nat)
    requires k < n <= |acts|
    ensures SeedsAt(o, acts[..n], k) <==> SeedsAt(o, acts, k)
  {
    assert acts[..n][..k] == acts[..k];
  }

  lemma SomeSeedsSnoc(o: Opened, acts: seq<Action>)
    requires acts != []
    ensures SomeSeeds(o, acts) <==> SomeSeeds(o, acts[..|acts| - 1]) || SeedsAt(o, acts, |acts| - 1)
  {
    var n := |acts| - 1;
    if SomeSeeds(o, acts) && !SeedsAt(o, acts, n) {
      var k :| 0 <= k < |acts| && SeedsAt(o, acts, k);
      SeedsBefore(o, acts, n, k);
    }
    if SomeSeeds(o, acts[..n]) {
      var k :| 0 <= k < n && SeedsAt(o, acts[..n], k);
      SeedsBefore(o, acts, n, k);
    }
  }

  // The session is seeded exactly by a reconcile that ends owing a seed.
  lemma {:induction false} SeedsAreOwed(o: Opened, acts: seq<Action>)
    ensures Exec(o, acts).seeds > 0 <==> SomeSeeds(o, acts)
  {
    if acts != [] {
      var m := |acts| - 1;
      SeedsAreOwed(o, acts[..m]);
      SomeSeedsSnoc(o, acts);
      OneStepSeeds(o, Exec(o, acts[..m]), acts[m]);
    }
  }

  // Anyone may queue an ordinary job at any time, and a reconcile its own while it
  // forwards; it goes to the end of the queue.
  lemma AJobIsQueued(o: Opened, acts: seq<Action>, k: nat, job: Job)
    requires k < |acts| && Ordinary(job)
    ensures var before, after := Exec(o, acts[..k]), Exec(o, acts[..k + 1]);
            && (acts[k] == Produce(job) ==> after.sent == before.sent + [Message(job, Elsewhere)])
            && (acts[k] == Forward(job) && before.index.Forwarding? ==>
                  after.sent == before.sent + [Message(job, Reconcile(before.index.n))])
  {
    assert acts[..k + 1][..k] == acts[..k];
  }

  ghost predicate NoneFrom(sent: seq<Message>, source: Source, n: nat) {
    forall i :: n <= i < |sent| ==> sent[i].source != source
  }

  // A reconcile that is over queues nothing more.
  ghost predicate OverInv(s: Session, n: nat, at: nat) {
    && n < s.reconciles && (s.index.Scanned? || s.index.Waiting? || s.index.Forwarding? ==> s.index.n != n)
    && NoneFrom(s.sent, Reconcile(n), at)
  }

  lemma OverStays(o: Opened, s: Session, a: Action, n: nat, at: nat)
    requires OverInv(s, n, at)
    ensures OverInv(Step(o, s, a), n, at)
  {
  }

  lemma SentGrows(o: Opened, s: Session, a: Action)
    ensures s.sent <= Step(o, s, a).sent
  {
  }

  // The sessions that run on from here keep what is queued and what is over.
  ghost predicate OverSince(start: Session, s: Session, n: nat, at: nat) {
    OverInv(s, n, at) && start.sent <= s.sent
  }

  lemma OverSinceStays(o: Opened, start: Session, s: Session, a: Action, n: nat, at: nat)
    requires OverSince(start, s, n, at)
    ensures OverSince(start, Step(o, s, a), n, at)
  {
    OverStays(o, s, a, n, at);
    SentGrows(o, s, a);
  }

  lemma {:induction false} OverAlways(o: Opened, acts: seq<Action>, more: seq<Action>, n: nat, at: nat)
    requires OverInv(Exec(o, acts), n, at)
    ensures OverSince(Exec(o, acts), Exec(o, acts + more), n, at)
    decreases |more|
  {
    if more == [] {
      assert acts + more == acts;
    } else {
      var m := |more| - 1;
      var longer := acts + more[..m];
      OverAlways(o, acts, more[..m], n, at);
      assert acts + more == longer + [more[m]];
      ExecOneMore(o, longer, more[m]);
      OverSinceStays(o, Exec(o, acts), Exec(o, longer), more[m], n, at);
    }
  }

  lemma ExecOneMore(o: Opened, acts: seq<Action>, a: Action)
    ensures Exec(o, acts + [a]) == Step(o, Exec(o, acts), a)
  {
    assert (acts + [a])[..|acts|] == acts;
  }

  // What the reconcile under way has asked is in the queue.
  ghost predicate AskedInv(s: Session) {
    s.index.Waiting? || s.index.Forwarding? ==>
      exists i :: 0 <= i < |s.sent| && s.sent[i] == Message(TakeStartupBackfill, Reconcile(s.index.n))
  }

  lemma AskedKept(o: Opened, s: Session, a: Action)
    requires AskedInv(s)
    ensures AskedInv(Step(o, s, a))
  {
    var t := Step(o, s, a);
    if s.index.Waiting? || s.index.Forwarding? {
      var i :| 0 <= i < |s.sent| && s.sent[i] == Message(TakeStartupBackfill, Reconcile(s.index.n));
      assert t.sent[i] == s.sent[i];
    } else if t.index.Waiting? {
      assert t.sent[|s.sent|] == Message(TakeStartupBackfill, Reconcile(t.index.n));
    }
  }

  lemma {:induction false} AskedAlways(o: Opened, acts: seq<Action>)
    ensures AskedInv(Exec(o, acts))
  {
    if acts != [] {
      AskedAlways(o, acts[..|acts| - 1]);
      AskedKept(o, Exec(o, acts[..|acts| - 1]), acts[|acts| - 1]);
    }
  }

  // The job a seed comes to is queued when its reconcile ends: after that
  // reconcile's question and everything else it queued, with nothing of it to
  // follow. A reconcile that owes no seed, or has nothing to enrol, queues nothing
  // at its end.
  lemma TheSeedIsQueuedLast(o: Opened, acts: seq<Action>, k: nat, n: nat, owes: bool, seed: Option<Job>)
    requires EndsAt(o, acts, k, n, owes, seed)
    ensures var before, end := Exec(o, acts[..k]).sent, Exec(o, acts).sent;
            var mine := if owes && seed.Some? then [Message(seed.value, Reconcile(n))] else [];
            && before + mine <= end
            && NoneFrom(end, Reconcile(n), |before| + |mine|)
            && exists i :: 0 <= i < |before| && before[i] == Message(TakeStartupBackfill, Reconcile(n))
  {
    assert acts[..k + 1][..k] == acts[..k];
    RunKeepsInv(o, acts[..k]);
    AskedAlways(o, acts[..k]);
    var s, t := Exec(o, acts[..k]), Exec(o, acts[..k + 1]);
    assert s.sent + [] == s.sent;
    assert acts[..k + 1] + acts[k + 1..] == acts;
    OverAlways(o, acts[..k + 1], acts[k + 1..], n, |t.sent|);
  }

  lemma Next(o: Opened, acts: seq<Action>, s: Session, a: Action) returns (longer: seq<Action>, t: Session)
    requires Exec(o, acts) == s
    ensures longer == acts + [a] && t == Step(o, s, a) && Exec(o, longer) == t
  {
    longer, t := acts + [a], Step(o, s, a);
    assert longer[..|acts|] == acts;
  }

  function QuestionQueued(o: Opened): seq<Message> {
    Begin(o).sent + [Message(TakeStartupBackfill, Reconcile(0))]
  }

  function AskedSession(o: Opened): Session {
    Begin(o).(sent := QuestionQueued(o), asked := 1, index := Waiting(0, 0), reconciles := 1)
  }

  lemma Asked(o: Opened) returns (acts: seq<Action>)
    ensures acts == [Scan, Ask] && Exec(o, acts) == AskedSession(o)
  {
    acts := [];
    var s := Begin(o);
    acts, s := Next(o, acts, s, Scan);
    assert s == Begin(o).(index := Scanned(0), reconciles := 1);
    acts, s := Next(o, acts, s, Ask);
  }

  lemma AskedAndGaveUp(o: Opened) returns (acts: seq<Action>)
    ensures acts == [Scan, Ask, GiveUp]
    ensures Exec(o, acts)
         == Begin(o).(sent := QuestionQueued(o), asked := 1, index := Forwarding(0, false), reconciles := 1)
  {
    acts := Asked(o);
    var s: Session;
    acts, s := Next(o, acts, AskedSession(o), GiveUp);
  }

  // A reply that times out still spends the flag: the answer was true, nobody
  // heard it, and no later question is answered true.
  lemma ATimeoutLosesTheSeed(o: Opened) returns (acts: seq<Action>)
    requires EmptyAfterRestore(o)
    ensures acts == [Scan, Ask, GiveUp, Serve, Serve, Serve, Serve]
    ensures var s := Exec(o, acts);
            && s.worker.answers == [true]
            && s.index == Forwarding(0, false) && s.seeds == 0 && !s.worker.backfillPending
  {
    acts := AskedAndGaveUp(o);
    var s := Exec(o, acts);
    var unserved := s;
    var restored := Handled(o.config, Start(o.contents, o.files), RestoreJob(o));
    var drained := Handled(o.config, restored, DrainJob(o));
    acts, s := Next(o, acts, s, Serve);
    assert s == unserved.(worker := restored, served := 1);
    acts, s := Next(o, acts, s, Serve);
    assert s == unserved.(worker := drained, served := 2);
    acts, s := Next(o, acts, s, Serve);
    assert s == unserved.(worker := drained, served := 3);
    acts, s := Next(o, acts, s, Serve);
    assert drained.answers == [] && drained.backfillPending;
  }
}
