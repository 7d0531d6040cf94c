// What holds over whole runs of the capture toggle.
module CaptureRuns {
  import opened CaptureState
  import opened CaptureProtocol
  import opened Wrappers

  // The state before action n of a run.
  function At(consent: bool, acts: seq<Action>, n: nat): State
    requires n <= |acts|
  {
    Exec(consent, acts[..n])
  }

  lemma AtNext(consent: bool, acts: seq<Action>, n: nat)
    requires n < |acts|
    ensures At(consent, acts, n + 1) == Step(At(consent, acts, n), acts[n])
    ensures Inv(At(consent, acts, n))
  {
    assert acts[..n + 1][..n] == acts[..n];
    RunKeepsInv(consent, acts[..n]);
  }

  // Action i is actor t's next operation, and that operation is at pc.
  ghost predicate Runs(consent: bool, acts: seq<Action>, i: nat, t: Tid) {
    i < |acts| && acts[i].Run? && acts[i].t == t && t in At(consent, acts, i).actors
  }

  function PcOf(consent: bool, acts: seq<Action>, i: nat, t: Tid): Pc
    requires i <= |acts| && t in At(consent, acts, i).actors
  {
    At(consent, acts, i).actors[t].pc
  }

  // Press p leaves its mark for the holder at action i.
  ghost predicate Stores(consent: bool, acts: seq<Action>, i: nat, p: Tid) {
    Runs(consent, acts, i, p) && PcOf(consent, acts, i, p).StoreFlag?
  }

  // At action k a toggle begins that acts for press p: it cleared p's flag, or
  // it is p's own.
  ghost predicate ActsFor(consent: bool, acts: seq<Action>, k: nat, p: Tid) {
    k < |acts| && acts[k].Run? && Runs(consent, acts, k, acts[k].t)
    && var pc := PcOf(consent, acts, k, acts[k].t);
    pc.ReadActive? && (p in pc.batch || (acts[k].t == p && pc.press.Direct?))
  }

  ghost predicate ServedWithin(consent: bool, acts: seq<Action>, from: nat, to: nat, p: Tid) {
    exists k :: from < k < to && ActsFor(consent, acts, k, p)
  }

  // ----- no press is lost ------------------------------------------------------

  // The flag stands for press p, or a drainer holds p's mark and is about to act.
  predicate Kept(s: State, p: Tid) {
    (p in s.flag.flagged && s.flag.pending) || p in InHand(s)
  }

  // An actor without the lock clears nothing.
  lemma OutsiderKeepsMarks(s: State, t: Tid, c: Choice, p: Tid)
    requires LockInv(s) && Kept(s, p) && t in s.actors && s.lock != Some(t)
    ensures Kept(Advance(s, t, c), p)
  {
    assert !InCritical(s.actors[t].pc);
    var s' := Advance(s, t, c);
    assert s.flag.flagged <= s'.flag.flagged && (s.flag.pending ==> s'.flag.pending);
    assert s.lock.Some? ==> s'.lock == s.lock;
  }

  // The holder moves the marks from the flag into its hand, and then acts for
  // them.
  lemma HolderKeepsMarks(s: State, t: Tid, c: Choice, p: Tid)
    requires LockInv(s) && Kept(s, p) && t in s.actors && s.lock == Some(t)
    ensures Kept(Advance(s, t, c), p) || (s.actors[t].pc.ReadActive? && p in s.actors[t].pc.batch)
  {
    var s' := Advance(s, t, c);
    if s.actors[t].pc.Clear? {
      assert InHand(s') == s.flag.flagged;
    } else {
      assert s'.flag.flagged == s.flag.flagged && s'.flag.pending == s.flag.pending;
    }
  }

  lemma MarkOneStep(s: State, a: Action, p: Tid)
    requires Inv(s) && Kept(s, p)
    ensures Kept(Step(s, a), p)
         || (a.Run? && a.t in s.actors && s.actors[a.t].pc.ReadActive? && p in s.actors[a.t].pc.batch)
  {
    if a.Run? && a.t in s.actors {
      if s.lock == Some(a.t) {
        HolderKeepsMarks(s, a.t, a.choice, p);
      } else {
        OutsiderKeepsMarks(s, a.t, a.choice, p);
      }
    }
  }

  lemma StoreMarks(consent: bool, acts: seq<Action>, i: nat, p: Tid)
    requires Stores(consent, acts, i, p)
    ensures Kept(At(consent, acts, i + 1), p)
  {
    AtNext(consent, acts, i);
  }

  lemma KeptOrServed(consent: bool, acts: seq<Action>, k: nat, p: Tid)
    requires k < |acts| && Kept(At(consent, acts, k), p)
    ensures Kept(At(consent, acts, k + 1), p) || ActsFor(consent, acts, k, p)
  {
    AtNext(consent, acts, k);
    MarkOneStep(At(consent, acts, k), acts[k], p);
  }

  // A stored press has been acted for since, or is kept.
  lemma {:induction false} NoPressIsLost(consent: bool, acts: seq<Action>, i: nat, n: nat, p: Tid)
    requires Stores(consent, acts, i, p) && i < n <= |acts|
    ensures ServedWithin(consent, acts, i, n, p) || Kept(At(consent, acts, n), p)
  {
    if i == n - 1 {
      StoreMarks(consent, acts, i, p);
    } else {
      NoPressIsLost(consent, acts, i, n - 1, p);
      if !ServedWithin(consent, acts, i, n - 1, p) {
        KeptOrServed(consent, acts, n - 1, p);
      }
    }
  }

  // A holder that has not made its last look keeps the lock and keeps draining
  // while a mark stands or sits in its hand.
  lemma DrainerStays(s: State, a: Action, h: Tid, p: Tid)
    requires Inv(s) && s.lock == Some(h) && WillDrain(s.actors[h].pc)
    requires Kept(s, p)
    ensures var s' := Step(s, a); s'.lock == Some(h) && h in s'.actors && WillDrain(s'.actors[h].pc)
  {
    if a.Run? && a.t in s.actors {
      if a.t == h {
        DrainerGoesOn(s, h, a.choice, p);
      } else {
        OutsiderLeavesTheHolder(s, h, a.t, a.choice);
      }
    }
  }

  lemma DrainerGoesOn(s: State, h: Tid, c: Choice, p: Tid)
    requires LockInv(s) && s.lock == Some(h) && WillDrain(s.actors[h].pc) && Kept(s, p)
    ensures Advance(s, h, c).lock == Some(h) && WillDrain(Advance(s, h, c).actors[h].pc)
  {
  }

  lemma OutsiderLeavesTheHolder(s: State, h: Tid, t: Tid, c: Choice)
    requires LockInv(s) && s.lock == Some(h) && t in s.actors && t != h
    ensures Advance(s, t, c).lock == Some(h) && Advance(s, t, c).actors[h] == s.actors[h]
  {
    assert !InCritical(s.actors[t].pc);
  }

  ghost predicate Draining(s: State, h: Tid) {
    s.lock == Some(h) && h in s.actors && WillDrain(s.actors[h].pc)
  }

  lemma DrainerStaysAt(consent: bool, acts: seq<Action>, k: nat, h: Tid, p: Tid)
    requires k < |acts| && Draining(At(consent, acts, k), h) && Kept(At(consent, acts, k), p)
    ensures Draining(At(consent, acts, k + 1), h)
  {
    AtNext(consent, acts, k);
    DrainerStays(At(consent, acts, k), acts[k], h, p);
  }

  // A holder that may still drain when it takes the lock, or when a press marks
  // the flag, serves every press stored by then before it gives the lock up.
  lemma {:induction false} DrainerServes(consent: bool, acts: seq<Action>, i: nat, m: nat, n: nat, h: Tid, p: Tid)
    requires Stores(consent, acts, i, p) && i < m <= n <= |acts|
    requires Draining(At(consent, acts, m), h)
    ensures ServedWithin(consent, acts, i, n, p) || Draining(At(consent, acts, n), h)
  {
    if m < n {
      DrainerServes(consent, acts, i, m, n - 1, h, p);
      if !ServedWithin(consent, acts, i, n - 1, p) {
        NoPressIsLost(consent, acts, i, n - 1, p);
        DrainerStaysAt(consent, acts, n - 1, h, p);
      }
    }
  }

  // A watchdog tick that gets the lock (action m) serves every press stranded
  // by then before it leaves its critical section.
  lemma TickServesStranded(consent: bool, acts: seq<Action>, i: nat, m: nat, n: nat, w: Tid, p: Tid)
    requires Stores(consent, acts, i, p) && i < m < n <= |acts|
    requires Runs(consent, acts, m, w) && PcOf(consent, acts, m, w).TickTry? && At(consent, acts, m).lock.None?
    requires !Draining(At(consent, acts, n), w)
    ensures ServedWithin(consent, acts, i, n, p)
  {
    AtNext(consent, acts, m);
    DrainerServes(consent, acts, i, m + 1, n, w, p);
  }

  // h holds the lock before each of the actions m to n - 1.
  ghost predicate HoldsThrough(consent: bool, acts: seq<Action>, m: nat, n: nat, h: Tid) {
    n <= |acts| && forall k :: m <= k < n ==> At(consent, acts, k).lock == Some(h)
  }

  lemma NonDrainerStaysAt(consent: bool, acts: seq<Action>, k: nat, h: Tid)
    requires k < |acts| && At(consent, acts, k).lock == Some(h) && At(consent, acts, k + 1).lock == Some(h)
    requires h in At(consent, acts, k).actors && !WillDrain(PcOf(consent, acts, k, h))
    ensures h in At(consent, acts, k + 1).actors && !WillDrain(PcOf(consent, acts, k + 1, h))
  {
    AtNext(consent, acts, k);
    NonDrainerStep(At(consent, acts, k), acts[k], h);
  }

  // A holder past its last look, or one that never looks, acts for nobody before
  // it gives the lock up.
  lemma {:induction false} NonDrainerStays(consent: bool, acts: seq<Action>, m: nat, n: nat, h: Tid)
    requires m <= n && HoldsThrough(consent, acts, m, n + 1, h) && n < |acts|
    requires h in At(consent, acts, m).actors && !WillDrain(PcOf(consent, acts, m, h))
    ensures h in At(consent, acts, n).actors && !WillDrain(PcOf(consent, acts, n, h))
  {
    if m < n {
      NonDrainerStays(consent, acts, m, n - 1, h);
      NonDrainerStaysAt(consent, acts, n - 1, h);
    }
  }

  lemma NonDrainerStep(s: State, a: Action, h: Tid)
    requires Inv(s) && s.lock == Some(h) && !WillDrain(s.actors[h].pc) && Step(s, a).lock == Some(h)
    ensures h in Step(s, a).actors && !WillDrain(Step(s, a).actors[h].pc)
  {
    if a.Run? && a.t in s.actors && a.t != h {
      OutsiderLeavesTheHolder(s, h, a.t, a.choice);
    }
  }

  // Only the lock's holder acts for a press.
  lemma OnlyTheHolderActs(consent: bool, acts: seq<Action>, k: nat, p: Tid)
    requires ActsFor(consent, acts, k, p)
    ensures At(consent, acts, k).lock == Some(acts[k].t) && WillDrain(PcOf(consent, acts, k, acts[k].t))
  {
    AtNext(consent, acts, k);
  }

  // A blocking IPC call serves no press: while one holds the lock nobody acts for
  // any press.
  lemma IpcHolderActsForNobody(consent: bool, acts: seq<Action>, k: nat, h: Tid, p: Tid)
    requires k < |acts| && At(consent, acts, k).lock == Some(h) && h in At(consent, acts, k).actors
    requires var kind := At(consent, acts, k).actors[h].kind; kind.IpcStart? || kind.IpcStop?
    ensures !ActsFor(consent, acts, k, p)
  {
    AtNext(consent, acts, k);
    if ActsFor(consent, acts, k, p) {
      OnlyTheHolderActs(consent, acts, k, p);
    }
  }

  // A press turned away at action m, not served by then, is served before the
  // holder gives the lock up (at n) exactly when that holder may still drain.
  lemma RefusedPressIsServedIff(consent: bool, acts: seq<Action>, i: nat, m: nat, n: nat, h: Tid, p: Tid)
    requires Stores(consent, acts, i, p) && i < m < n <= |acts| && !ServedWithin(consent, acts, i, m, p)
    requires Runs(consent, acts, m, p) && PcOf(consent, acts, m, p).TrySecond?
    requires HoldsThrough(consent, acts, m, n, h) && At(consent, acts, n).lock != Some(h)
    ensures h in At(consent, acts, m).actors
    ensures ServedWithin(consent, acts, i, n, p) <==> WillDrain(PcOf(consent, acts, m, h))
  {
    AtNext(consent, acts, m);
    if WillDrain(PcOf(consent, acts, m, h)) {
      DrainerServes(consent, acts, i, m, n, h, p);
    } else {
      forall k | i < k < n ensures !ActsFor(consent, acts, k, p) {
        if m <= k && ActsFor(consent, acts, k, p) {
          OnlyTheHolderActs(consent, acts, k, p);
          NonDrainerStays(consent, acts, m, k, h);
        }
      }
    }
  }

  // ----- no press acts more than twice -----------------------------------------

  // Press p takes the lock on its second try after its mark was already cleared.
  ghost predicate TakesLate(consent: bool, acts: seq<Action>, j: nat, p: Tid) {
    Runs(consent, acts, j, p) && PcOf(consent, acts, j, p).TrySecond?
    && At(consent, acts, j).lock.None? && p !in At(consent, acts, j).flag.flagged
  }

  ghost predicate ActsFromFlag(consent: bool, acts: seq<Action>, k: nat, p: Tid) {
    ActsFor(consent, acts, k, p) && p in PcOf(consent, acts, k, acts[k].t).batch
  }

  ghost predicate ActsAsItself(consent: bool, acts: seq<Action>, k: nat, p: Tid) {
    ActsFor(consent, acts, k, p) && p !in PcOf(consent, acts, k, acts[k].t).batch
  }

  lemma HistoryOneStep(s: State, a: Action, p: Tid)
    ensures p in s.flag.replayed ==> p in Step(s, a).flag.replayed
    ensures p in s.flag.direct ==> p in Step(s, a).flag.direct
    ensures p in s.flag.overtaken ==> p in Step(s, a).flag.overtaken
    ensures p !in s.flag.replayed && p in Step(s, a).flag.replayed ==>
              a.Run? && a.t in s.actors && s.actors[a.t].pc.ReadActive? && p in s.actors[a.t].pc.batch
    ensures p !in s.flag.direct && p in Step(s, a).flag.direct ==>
              a.Run? && a.t == p && p in s.actors && s.actors[p].pc.ReadActive?
              && s.actors[p].pc.press.Direct? && p !in s.actors[p].pc.batch
    ensures p !in s.flag.overtaken && p in Step(s, a).flag.overtaken ==>
              a.Run? && a.t == p && p in s.actors && s.actors[p].pc.TrySecond?
              && s.lock.None? && p !in s.flag.flagged
  {
  }

  // The three history sets say exactly what happened in the run.
  lemma {:induction false} ReplayedMeans(consent: bool, acts: seq<Action>, n: nat, p: Tid)
    requires n <= |acts|
    ensures p in At(consent, acts, n).flag.replayed <==> exists k :: 0 <= k < n && ActsFromFlag(consent, acts, k, p)
  {
    if n > 0 {
      ReplayedMeans(consent, acts, n - 1, p);
      AtNext(consent, acts, n - 1);
      HistoryOneStep(At(consent, acts, n - 1), acts[n - 1], p);
      LastStepMeans(consent, acts, n - 1, p);
      if p in At(consent, acts, n).flag.replayed && p !in At(consent, acts, n - 1).flag.replayed {
        assert ActsFromFlag(consent, acts, n - 1, p);
      }
    }
  }

  lemma {:induction false} DirectMeans(consent: bool, acts: seq<Action>, n: nat, p: Tid)
    requires n <= |acts|
    ensures p in At(consent, acts, n).flag.direct <==> exists k :: 0 <= k < n && ActsAsItself(consent, acts, k, p)
  {
    if n > 0 {
      DirectMeans(consent, acts, n - 1, p);
      AtNext(consent, acts, n - 1);
      HistoryOneStep(At(consent, acts, n - 1), acts[n - 1], p);
      LastStepMeans(consent, acts, n - 1, p);
      if p in At(consent, acts, n).flag.direct && p !in At(consent, acts, n - 1).flag.direct {
        assert ActsAsItself(consent, acts, n - 1, p);
      }
    }
  }

  lemma {:induction false} OvertakenMeans(consent: bool, acts: seq<Action>, n: nat, p: Tid)
    requires n <= |acts|
    ensures p in At(consent, acts, n).flag.overtaken <==> exists k :: 0 <= k < n && TakesLate(consent, acts, k, p)
  {
    if n > 0 {
      OvertakenMeans(consent, acts, n - 1, p);
      AtNext(consent, acts, n - 1);
      HistoryOneStep(At(consent, acts, n - 1), acts[n - 1], p);
      LastStepMeans(consent, acts, n - 1, p);
      if p in At(consent, acts, n).flag.overtaken && p !in At(consent, acts, n - 1).flag.overtaken {
        assert TakesLate(consent, acts, n - 1, p);
      }
    }
  }

  lemma LastStepMeans(consent: bool, acts: seq<Action>, k: nat, p: Tid)
    requires k < |acts|
    ensures var s, s' := At(consent, acts, k), At(consent, acts, k + 1);
            && (ActsFromFlag(consent, acts, k, p) ==> p !in s.flag.replayed && p in s'.flag.replayed)
            && (ActsAsItself(consent, acts, k, p) ==> p !in s.flag.direct && p in s'.flag.direct)
            && (TakesLate(consent, acts, k, p) ==> p in s'.flag.overtaken)
  {
    AtNext(consent, acts, k);
    var s := At(consent, acts, k);
    if ActsFromFlag(consent, acts, k, p) {
      assert InHand(s) == s.actors[acts[k].t].pc.batch;
    }
  }

  // One press acts at most once from its mark and at most once as itself.
  lemma AtMostTwice(consent: bool, acts: seq<Action>, k1: nat, k2: nat, k3: nat, p: Tid)
    requires k1 < k2 < k3 < |acts|
    requires ActsFor(consent, acts, k1, p) && ActsFor(consent, acts, k2, p)
    ensures !ActsFor(consent, acts, k3, p)
  {
    if ActsFor(consent, acts, k3, p) {
      Distinct(consent, acts, k1, k2, p);
      Distinct(consent, acts, k1, k3, p);
      Distinct(consent, acts, k2, k3, p);
    }
  }

  lemma Distinct(consent: bool, acts: seq<Action>, j: nat, k: nat, p: Tid)
    requires j < k < |acts| && ActsFor(consent, acts, j, p) && ActsFor(consent, acts, k, p)
    ensures ActsFromFlag(consent, acts, j, p) <==> ActsAsItself(consent, acts, k, p)
  {
    ReplayedMeans(consent, acts, k, p);
    DirectMeans(consent, acts, k, p);
    LastStepMeans(consent, acts, k, p);
    if ActsFromFlag(consent, acts, j, p) {
      assert p in At(consent, acts, k).flag.replayed;
    } else {
      assert ActsAsItself(consent, acts, j, p);
      assert p in At(consent, acts, k).flag.direct;
    }
  }

  // A press acts twice exactly when it took the lock on its second try after
  // another pass had cleared its mark, and has since begun its own toggle.
  lemma ActsTwiceIff(consent: bool, acts: seq<Action>, p: Tid)
    ensures (exists k1, k2 :: 0 <= k1 < k2 < |acts| && ActsFor(consent, acts, k1, p) && ActsFor(consent, acts, k2, p))
       <==> (exists j, k :: 0 <= j < k < |acts| && TakesLate(consent, acts, j, p) && ActsFor(consent, acts, k, p))
  {
    if k1, k2 :| 0 <= k1 < k2 < |acts| && ActsFor(consent, acts, k1, p) && ActsFor(consent, acts, k2, p) {
      Distinct(consent, acts, k1, k2, p);
      var k := if ActsAsItself(consent, acts, k1, p) then k1 else k2;
      LateBeforeDirect(consent, acts, k, k1, k2, p);
    }
    if j, k :| 0 <= j < k < |acts| && TakesLate(consent, acts, j, p) && ActsFor(consent, acts, k, p) {
      LateWasServed(consent, acts, j, p);
      var k1 :| 0 <= k1 < j && ActsFor(consent, acts, k1, p);
    }
  }

  // By the time a press takes the lock late, a pass has acted for it already.
  lemma LateWasServed(consent: bool, acts: seq<Action>, j: nat, p: Tid)
    requires TakesLate(consent, acts, j, p)
    ensures exists k :: 0 <= k < j && ActsFor(consent, acts, k, p)
  {
    AtNext(consent, acts, j);
    ReplayedMeans(consent, acts, j, p);
    assert InHand(At(consent, acts, j)) == {};
    assert p in At(consent, acts, j).flag.replayed;
    var k :| 0 <= k < j && ActsFromFlag(consent, acts, k, p);
    assert ActsFor(consent, acts, k, p);
  }

  lemma LateBeforeDirect(consent: bool, acts: seq<Action>, k: nat, k1: nat, k2: nat, p: Tid)
    requires k1 < k2 < |acts| && (k == k1 || k == k2)
    requires ActsAsItself(consent, acts, k, p)
    requires ActsFromFlag(consent, acts, if k == k1 then k2 else k1, p)
    ensures exists j :: 0 <= j < k && TakesLate(consent, acts, j, p)
  {
    var n := k2 + 1;
    ReplayedMeans(consent, acts, n, p);
    DirectMeans(consent, acts, n, p);
    OvertakenMeans(consent, acts, n, p);
    InvAt(consent, acts, n);
    BothMeansOvertaken(At(consent, acts, n), p);
    var j :| 0 <= j < n && TakesLate(consent, acts, j, p);
    LateIsNotYetDirect(consent, acts, j, p);
    DirectMeans(consent, acts, j, p);
    assert j != k;
  }

  lemma InvAt(consent: bool, acts: seq<Action>, n: nat)
    requires n <= |acts|
    ensures Inv(At(consent, acts, n))
  {
    RunKeepsInv(consent, acts[..n]);
  }

  lemma BothMeansOvertaken(s: State, p: Tid)
    requires Inv(s) && p in s.flag.replayed && p in s.flag.direct
    ensures p in s.flag.overtaken
  {
    assert p in s.flag.direct * s.flag.stored;
  }

  lemma LateIsNotYetDirect(consent: bool, acts: seq<Action>, j: nat, p: Tid)
    requires TakesLate(consent, acts, j, p)
    ensures p !in At(consent, acts, j).flag.direct
  {
    InvAt(consent, acts, j);
  }

  // ----- who starts the engine ---------------------------------------------------

  ghost predicate StartsEngine(consent: bool, acts: seq<Action>, k: nat) {
    k < |acts| && !Active(At(consent, acts, k).engine) && Active(At(consent, acts, k + 1).engine)
  }

  // At action i actor t reads consent as given: as a direct press holding the
  // lock and having seen an idle engine, or at the gate of start_capture.
  ghost predicate ReadsConsentGiven(consent: bool, acts: seq<Action>, i: nat, t: Tid) {
    Runs(consent, acts, i, t) && At(consent, acts, i).consent
    && var pc := PcOf(consent, acts, i, t);
    (pc == ReadConsent(Direct, false) && At(consent, acts, i).lock == Some(t)) || pc.Gate?
  }

  // Operations an actor reaches only after reading consent as given.
  predicate AfterConsent(actor: Actor) {
    actor.pc.Announce? || actor.pc.Engage?
    || (actor.kind.IpcStart?
        && (actor.pc.WaitLock? || actor.pc.IpcReadActive? || actor.pc.IpcAnnounce? || actor.pc.IpcAct?))
  }

  // An operation of t moves t alone and never changes what kind of actor it is.
  lemma AdvanceMovesOne(s: State, t: Tid, c: Choice)
    requires t in s.actors
    ensures var s' := Advance(s, t, c);
            t in s'.actors && s'.actors == s.actors[t := s.actors[t].(pc := s'.actors[t].pc)]
  {
  }

  lemma ActorOneStep(s: State, a: Action, t: Tid)
    requires t in Step(s, a).actors && !(a.Spawn? && a.t == t)
    ensures t in s.actors && Step(s, a).actors[t].kind == s.actors[t].kind
    ensures !(a.Run? && a.t == t) ==> Step(s, a).actors[t] == s.actors[t]
  {
    if a.Run? && a.t in s.actors {
      AdvanceMovesOne(s, a.t, a.choice);
    }
  }

  lemma ConsentOneStep(s: State, a: Action, t: Tid)
    requires Inv(s) && t in Step(s, a).actors && AfterConsent(Step(s, a).actors[t])
    ensures t in s.actors
    ensures AfterConsent(s.actors[t])
         || (a.Run? && a.t == t && s.consent
             && ((s.actors[t].pc == ReadConsent(Direct, false) && s.lock == Some(t)) || s.actors[t].pc.Gate?))
  {
    if !(a.Spawn? && a.t == t) {
      ActorOneStep(s, a, t);
      if a.Run? && a.t == t {
        ConsentAdvance(s, t, a.choice);
      }
    }
  }

  lemma ConsentAdvance(s: State, t: Tid, c: Choice)
    requires Inv(s) && t in s.actors && t in Advance(s, t, c).actors && AfterConsent(Advance(s, t, c).actors[t])
    ensures AfterConsent(s.actors[t])
         || (s.consent && ((s.actors[t].pc == ReadConsent(Direct, false) && s.lock == Some(t)) || s.actors[t].pc.Gate?))
  {
  }

  lemma {:induction false} ConsentWasRead(consent: bool, acts: seq<Action>, n: nat, t: Tid)
    requires n <= |acts| && t in At(consent, acts, n).actors && AfterConsent(At(consent, acts, n).actors[t])
    ensures exists i :: 0 <= i < n && ReadsConsentGiven(consent, acts, i, t)
  {
    if n > 0 {
      AtNext(consent, acts, n - 1);
      ConsentOneStep(At(consent, acts, n - 1), acts[n - 1], t);
      if AfterConsent(At(consent, acts, n - 1).actors[t]) {
        ConsentWasRead(consent, acts, n - 1, t);
      } else {
        assert ReadsConsentGiven(consent, acts, n - 1, t);
      }
    }
  }

  lemma StartOneStep(s: State, a: Action)
    requires Inv(s) && !Active(s.engine) && Active(Step(s, a).engine)
    ensures a.Run? && a.t in s.actors && s.lock == Some(a.t)
    ensures s.actors[a.t] == Actor(PressThread, Engage(Direct)) || s.actors[a.t] == Actor(IpcStart, IpcAct)
  {
  }

  // Over every run the engine goes from idle to active only under the toggle
  // lock, at the start operation of a direct press or of start_capture, and
  // that same actor read consent as given before; no replayed press and no
  // watchdog pass starts one.
  lemma StartProvenance(consent: bool, acts: seq<Action>, k: nat)
    requires StartsEngine(consent, acts, k)
    ensures acts[k].Run? && Runs(consent, acts, k, acts[k].t)
    ensures At(consent, acts, k).lock == Some(acts[k].t)
    ensures var actor := At(consent, acts, k).actors[acts[k].t];
            actor == Actor(PressThread, Engage(Direct)) || actor == Actor(IpcStart, IpcAct)
    ensures exists i :: 0 <= i < k && ReadsConsentGiven(consent, acts, i, acts[k].t)
  {
    AtNext(consent, acts, k);
    StartOneStep(At(consent, acts, k), acts[k]);
    ConsentWasRead(consent, acts, k, acts[k].t);
  }

  // ----- what is on screen ---------------------------------------------------------

  // Nothing is left announcing a start once the lock is free.
  lemma NoStartingWhenFree(consent: bool, acts: seq<Action>)
    requires Exec(consent, acts).lock.None?
    ensures Exec(consent, acts).display.last.phase != Starting
  {
    RunKeepsInv(consent, acts);
  }

  // Replayed toggles never outnumber the presses that stored the flag.
  lemma ReplaysAreBounded(consent: bool, acts: seq<Action>)
    ensures Exec(consent, acts).flag.replays <= Exec(consent, acts).flag.stores
  {
    RunKeepsInv(consent, acts);
  }

  predicate OverlayAgrees(s: State) {
    s.display.overlay <==> s.display.last.phase != Idle
  }

  // The overlay's copy follows the last broadcast through every operation; only
  // a resync can part them, and it does exactly when what it read is stale.
  lemma OverlayStepIff(s: State, a: Action)
    requires OverlayAgrees(s)
    ensures OverlayAgrees(Step(s, a)) <==> !SyncsStale(s, a)
  {
  }

  // A resync hands the overlay an event that claims otherwise than the last
  // broadcast.
  predicate SyncsStale(s: State, a: Action) {
    a.Run? && a.t in s.actors && s.actors[a.t].pc.ResyncSync?
    && (s.actors[a.t].pc.seen.phase == Idle <==> s.display.last.phase != Idle)
  }

  ghost predicate AgreesAt(consent: bool, acts: seq<Action>, k: nat) {
    k <= |acts| && OverlayAgrees(At(consent, acts, k))
  }

  ghost predicate StaleAt(consent: bool, acts: seq<Action>, k: nat) {
    k < |acts| && SyncsStale(At(consent, acts, k), acts[k])
  }

  lemma OverlayAtNext(consent: bool, acts: seq<Action>, k: nat)
    requires k < |acts| && AgreesAt(consent, acts, k)
    ensures AgreesAt(consent, acts, k + 1) <==> !StaleAt(consent, acts, k)
  {
    AtNext(consent, acts, k);
    OverlayStepIff(At(consent, acts, k), acts[k]);
  }

  lemma {:induction false} NoStaleSyncKeepsIt(consent: bool, acts: seq<Action>, n: nat)
    requires n <= |acts| && forall k :: 0 <= k < n ==> !StaleAt(consent, acts, k)
    ensures AgreesAt(consent, acts, n)
  {
    if n > 0 {
      NoStaleSyncKeepsIt(consent, acts, n - 1);
      OverlayAtNext(consent, acts, n - 1);
    }
  }

  // Over every run the overlay claims what the last broadcast claims all along
  // exactly when no resync hands it a stale event.
  lemma OverlayFollowsIff(consent: bool, acts: seq<Action>)
    ensures (forall k :: 0 <= k <= |acts| ==> AgreesAt(consent, acts, k))
            <==> (forall k :: 0 <= k < |acts| ==> !StaleAt(consent, acts, k))
  {
    if forall k :: 0 <= k <= |acts| ==> AgreesAt(consent, acts, k) {
      forall k | 0 <= k < |acts| ensures !StaleAt(consent, acts, k) {
        OverlayAtNext(consent, acts, k);
        assert AgreesAt(consent, acts, k) && AgreesAt(consent, acts, k + 1);
      }
    }
    if forall k :: 0 <= k < |acts| ==> !StaleAt(consent, acts, k) {
      forall k | 0 <= k <= |acts| ensures AgreesAt(consent, acts, k) {
        NoStaleSyncKeepsIt(consent, acts, k);
      }
    }
  }

  lemma {:induction false} OverlayFollowsWithoutResync(consent: bool, acts: seq<Action>)
    requires forall i :: 0 <= i < |acts| ==> !(acts[i].Spawn? && acts[i].kind.Resync?)
    ensures OverlayAgrees(Exec(consent, acts))
    ensures forall t :: t in Exec(consent, acts).actors ==> !Exec(consent, acts).actors[t].kind.Resync?
  {
    if acts != [] {
      var before := acts[..|acts| - 1];
      OverlayFollowsWithoutResync(consent, before);
      RunKeepsInv(consent, before);
      var s, a := Exec(consent, before), acts[|acts| - 1];
      OverlayStepIff(s, a);
      forall t | t in Step(s, a).actors ensures !Step(s, a).actors[t].kind.Resync? {
        if a.Spawn? && a.t == t {
          assert !a.kind.Resync?;
        } else {
          ActorOneStep(s, a, t);
        }
      }
    }
  }

  // ----- the drain loop ends ----------------------------------------------------

  // How far a holder is from letting the lock go: a standing flag costs one
  // more round, and within a round the operations count down.
  function Rank(pending: bool, pc: Pc): nat {
    if pending && pc.Clear? then 40 else (if pending then 40 else 0) + Distance(pc)
  }

  function Distance(pc: Pc): nat {
    match pc
    case Clear(_) => 9
    case ReadActive(_, _) => 8
    case ReadConsent(_, _) => 7
    case Announce(_) => 6
    case Engage(_) | IpcReadActive => 5
    case Disengage | IpcAnnounce | TickObserve => 4
    case Truth | IpcAct => 3
    case Load | TickLoad | IpcTruth => 2
    case Release => 1
    case _ => 0
  }

  // Each operation of the holder brings the release nearer; none of them waits.
  lemma HolderProgresses(s: State, h: Tid, c: Choice)
    requires Inv(s) && s.lock == Some(h)
    ensures var s' := Advance(s, h, c);
            s'.lock.None?
            || Rank(s'.flag.pending, s'.actors[h].pc) < Rank(s.flag.pending, s.actors[h].pc)
  {
    OperationProgresses(s, h, s.actors[h].kind, s.actors[h].pc, c);
  }

  lemma OperationProgresses(s: State, h: Tid, kind: Kind, pc: Pc, c: Choice)
    requires InCritical(pc)
    ensures var (s', pc') := Operate(s, h, kind, pc, c);
            s'.lock.None? || Rank(s'.flag.pending, pc') < Rank(s.flag.pending, pc)
  {
  }

  // Nobody but a press storing the flag can push the release away again.
  lemma OthersDoNotHinder(s: State, h: Tid, a: Action)
    requires Inv(s) && s.lock == Some(h) && !(a.Run? && a.t == h)
    requires !(a.Run? && a.t in s.actors && s.actors[a.t].pc.StoreFlag?)
    ensures var s' := Step(s, a);
            s'.lock == s.lock && s'.flag.pending == s.flag.pending
            && h in s'.actors && s'.actors[h] == s.actors[h]
  {
    if a.Run? && a.t in s.actors {
      AdvanceMovesOne(s, a.t, a.choice);
    }
  }

  // How many of the actions i to n - 1 are h's own.
  function OpsOf(acts: seq<Action>, i: nat, n: nat, h: Tid): nat
    requires i <= n <= |acts|
    decreases n
  {
    if i == n then 0
    else OpsOf(acts, i, n - 1, h) + if acts[n - 1].Run? && acts[n - 1].t == h then 1 else 0
  }

  ghost predicate NoStores(consent: bool, acts: seq<Action>, i: nat, n: nat) {
    forall k, p :: i <= k < n ==> !Stores(consent, acts, k, p)
  }

  function RankAt(consent: bool, acts: seq<Action>, n: nat, h: Tid): nat
    requires n <= |acts| && h in At(consent, acts, n).actors
  {
    Rank(At(consent, acts, n).flag.pending, PcOf(consent, acts, n, h))
  }

  lemma RankStep(s: State, a: Action, h: Tid)
    requires Inv(s) && s.lock == Some(h) && Step(s, a).lock == Some(h)
    requires !(a.Run? && a.t in s.actors && s.actors[a.t].pc.StoreFlag?)
    ensures var s' := Step(s, a);
            h in s'.actors
            && Rank(s'.flag.pending, s'.actors[h].pc) + (if a.Run? && a.t == h then 1 else 0)
               <= Rank(s.flag.pending, s.actors[h].pc)
  {
    if a.Run? && a.t == h {
      HolderProgresses(s, h, a.choice);
    } else {
      OthersDoNotHinder(s, h, a);
    }
  }

  ghost predicate LockedAt(consent: bool, acts: seq<Action>, k: nat, h: Tid) {
    k <= |acts| && At(consent, acts, k).lock == Some(h)
  }

  lemma HolderIsThere(consent: bool, acts: seq<Action>, k: nat, h: Tid)
    requires LockedAt(consent, acts, k, h)
    ensures h in At(consent, acts, k).actors && InCritical(PcOf(consent, acts, k, h))
  {
    RunKeepsInv(consent, acts[..k]);
  }

  lemma RankFallsAt(consent: bool, acts: seq<Action>, k: nat, h: Tid)
    requires k < |acts| && (forall p :: !Stores(consent, acts, k, p))
    requires LockedAt(consent, acts, k, h) && LockedAt(consent, acts, k + 1, h)
    ensures h in At(consent, acts, k).actors && h in At(consent, acts, k + 1).actors
    ensures RankAt(consent, acts, k + 1, h) + OpsOf(acts, k, k + 1, h) <= RankAt(consent, acts, k, h)
  {
    AtNext(consent, acts, k);
    var s, a := At(consent, acts, k), acts[k];
    if a.Run? && a.t in s.actors {
      assert !Stores(consent, acts, k, a.t);
    }
    RankStep(s, a, h);
  }

  lemma HolderHasRank(consent: bool, acts: seq<Action>, k: nat, h: Tid)
    requires LockedAt(consent, acts, k, h)
    ensures h in At(consent, acts, k).actors && RankAt(consent, acts, k, h) > 0
  {
    HolderIsThere(consent, acts, k, h);
  }

  lemma {:induction false} RankFalls(consent: bool, acts: seq<Action>, i: nat, n: nat, h: Tid)
    requires i <= n <= |acts| && NoStores(consent, acts, i, n)
    requires forall k :: i <= k <= n ==> LockedAt(consent, acts, k, h)
    ensures h in At(consent, acts, i).actors && h in At(consent, acts, n).actors
    ensures RankAt(consent, acts, n, h) + OpsOf(acts, i, n, h) <= RankAt(consent, acts, i, h)
  {
    HolderIsThere(consent, acts, i, h);
    if i < n {
      RankFalls(consent, acts, i, n - 1, h);
      RankFallsAt(consent, acts, n - 1, h);
    }
  }

  // The drain loop ends: while no press stores the flag anew, Rank operations of
  // the holder free the lock, and every press stored before is served by then if
  // the holder could still drain.
  lemma TheLoopEnds(consent: bool, acts: seq<Action>, i: nat, n: nat, h: Tid) returns (m: nat)
    requires i < n <= |acts| && At(consent, acts, i).lock == Some(h) && h in At(consent, acts, i).actors
    requires NoStores(consent, acts, i, n) && RankAt(consent, acts, i, h) <= OpsOf(acts, i, n, h)
    ensures i < m <= n && At(consent, acts, m).lock != Some(h)
    ensures WillDrain(PcOf(consent, acts, i, h)) ==>
              forall j, p :: 0 <= j < i && Stores(consent, acts, j, p) ==> ServedWithin(consent, acts, j, m, p)
  {
    if forall k :: i <= k <= n ==> LockedAt(consent, acts, k, h) {
      RankFalls(consent, acts, i, n, h);
      HolderHasRank(consent, acts, n, h);
      assert false;
    }
    m :| i <= m <= n && !LockedAt(consent, acts, m, h);
    if WillDrain(PcOf(consent, acts, i, h)) {
      forall j, p | 0 <= j < i && Stores(consent, acts, j, p) ensures ServedWithin(consent, acts, j, m, p) {
        DrainerServes(consent, acts, j, i, m, h, p);
      }
    }
  }

  // ----- runs that surprise -----------------------------------------------------

  const WORKS := Choice(true, true, true)

  lemma ExecSnoc(consent: bool, acts: seq<Action>, a: Action)
    ensures Exec(consent, acts + [a]) == Step(Exec(consent, acts), a)
  {
    assert (acts + [a])[..|acts|] == acts;
  }

  // One more operation of t, in a run that has reached s.
  lemma Then(acts: seq<Action>, s: State, t: Tid) returns (longer: seq<Action>, s': State)
    requires Exec(true, acts) == s && t in s.actors
    ensures longer == acts + [Run(t, WORKS)] && s' == Advance(s, t, WORKS) && Exec(true, longer) == s'
  {
    ExecSnoc(true, acts, Run(t, WORKS));
    longer, s' := acts + [Run(t, WORKS)], Advance(s, t, WORKS);
  }

  const LISTENING := EventFromHealth(Health(Live, Live))

  function OnePress(pc: Pc): map<Tid, Actor> {
    map[0 := Actor(PressThread, pc)]
  }

  function TwoPresses(pc: Pc, other: Pc): map<Tid, Actor> {
    map[0 := Actor(PressThread, pc), 1 := Actor(PressThread, other)]
  }

  // Press 0 has started the engine, shown it, and is about to look at the flag.
  const STARTED := State(Some(0), Health(Live, Live), true, Display(LISTENING, 0, true),
                         Flag(false, {}, {}, {}, {0}, {}, 0, 0), OnePress(Load))

  const ANNOUNCED := State(Some(0), ALL_OFF, true, Display(StartingEvent(ALL_OFF), 0, true),
                           Flag(false, {}, {}, {}, {0}, {}, 0, 0), OnePress(Engage(Direct)))

  lemma FirstPressAnnounces() returns (acts: seq<Action>)
    ensures Exec(true, acts) == ANNOUNCED
  {
    ExecSnoc(true, [], Spawn(0, PressThread));
    acts := [Spawn(0, PressThread)];
    assert [] + acts == acts;
    var s := Init(true).(actors := OnePress(TryFirst));
    acts, s := Then(acts, s, 0);
    acts, s := Then(acts, s, 0);
    assert s == Init(true).(lock := Some(0), actors := OnePress(ReadActive(Direct, {})));
    acts, s := Then(acts, s, 0);
    acts, s := Then(acts, s, 0);
    assert s.actors == OnePress(Announce(Direct));
    acts, s := Then(acts, s, 0);
  }

  lemma FirstPressStarts() returns (acts: seq<Action>)
    ensures Exec(true, acts) == STARTED
  {
    acts := FirstPressAnnounces();
    var s := ANNOUNCED;
    acts, s := Then(acts, s, 0);
    assert s == ANNOUNCED.(engine := Health(Live, Live), actors := OnePress(Truth));
    acts, s := Then(acts, s, 0);
  }

  // Press 1 arrives while the engine records and marks the flag.
  const MARKED := STARTED.(flag := Flag(true, {1}, {1}, {}, {0}, {}, 1, 0), actors := TwoPresses(Load, TrySecond))

  lemma SecondPressMarks(before: seq<Action>) returns (acts: seq<Action>)
    requires Exec(true, before) == STARTED
    ensures before <= acts && Exec(true, acts) == MARKED
  {
    ExecSnoc(true, before, Spawn(1, PressThread));
    acts := before + [Spawn(1, PressThread)];
    var s := STARTED.(actors := TwoPresses(Load, TryFirst));
    acts, s := Then(acts, s, 1);
    assert s == STARTED.(actors := TwoPresses(Load, StoreFlag));
    acts, s := Then(acts, s, 1);
  }

  lemma FirstMoves(a: Pc, b: Pc, c: Pc)
    ensures TwoPresses(a, b)[0 := TwoPresses(a, b)[0].(pc := c)] == TwoPresses(c, b)
  {
  }

  lemma SecondMoves(a: Pc, b: Pc, c: Pc)
    ensures TwoPresses(a, b)[1 := TwoPresses(a, b)[1].(pc := c)] == TwoPresses(a, c)
  {
  }

  // Press 0 or press 1 takes one step to the state given.
  lemma ZeroGoes(acts: seq<Action>, s: State, a: Pc, b: Pc, target: State, c: Pc) returns (longer: seq<Action>)
    requires Exec(true, acts) == s && s.actors == TwoPresses(a, b) && target.actors == TwoPresses(c, b)
    requires Operate(s, 0, PressThread, a, WORKS) == (target.(actors := s.actors), c)
    ensures longer == acts + [Run(0, WORKS)] && Exec(true, longer) == target
  {
    FirstMoves(a, b, c);
    var s': State;
    longer, s' := Then(acts, s, 0);
  }

  lemma OneGoes(acts: seq<Action>, s: State, a: Pc, b: Pc, target: State, c: Pc) returns (longer: seq<Action>)
    requires Exec(true, acts) == s && s.actors == TwoPresses(a, b) && target.actors == TwoPresses(a, c)
    requires Operate(s, 1, PressThread, b, WORKS) == (target.(actors := s.actors), c)
    ensures longer == acts + [Run(1, WORKS)] && Exec(true, longer) == target
  {
    SecondMoves(a, b, c);
    var s': State;
    longer, s' := Then(acts, s, 1);
  }

  // The holder begins to act for press 1.
  const REPLAYING := MARKED.(flag := Flag(false, {1}, {}, {1}, {0}, {}, 1, 1),
                             actors := TwoPresses(ReadConsent(Coalesced, true), TrySecond))

  lemma HolderReplays(before: seq<Action>) returns (acts: seq<Action>)
    requires Exec(true, before) == MARKED
    ensures before <= acts && Exec(true, acts) == REPLAYING
  {
    var looked := MARKED.(actors := TwoPresses(Clear(Coalesced), TrySecond));
    var cleared := MARKED.(flag := Flag(false, {1}, {}, {}, {0}, {}, 1, 0),
                           actors := TwoPresses(ReadActive(Coalesced, {1}), TrySecond));
    acts := ZeroGoes(before, MARKED, Load, TrySecond, looked, Clear(Coalesced));
    acts := ZeroGoes(acts, looked, Clear(Coalesced), TrySecond, cleared, ReadActive(Coalesced, {1}));
    assert cleared.flag.replayed + {1} == {1};
    acts := ZeroGoes(acts, cleared, ReadActive(Coalesced, {1}), TrySecond, REPLAYING, ReadConsent(Coalesced, true));
  }

  const REPLAYED := REPLAYING.(engine := ALL_OFF, display := Display(IDLE_EVENT, 0, false),
                               actors := TwoPresses(Load, TrySecond))

  lemma ReplayStops(before: seq<Action>) returns (acts: seq<Action>)
    requires Exec(true, before) == REPLAYING
    ensures before <= acts && Exec(true, acts) == REPLAYED
  {
    var decided := REPLAYING.(actors := TwoPresses(Disengage, TrySecond));
    var off := REPLAYING.(engine := ALL_OFF, actors := TwoPresses(Truth, TrySecond));
    acts := ZeroGoes(before, REPLAYING, ReadConsent(Coalesced, true), TrySecond, decided, Disengage);
    acts := ZeroGoes(acts, decided, Disengage, TrySecond, off, Truth);
    acts := ZeroGoes(acts, off, Truth, TrySecond, REPLAYED, Load);
  }

  // The replay has stopped the engine and the lock is free.
  const STOPPED := State(None, ALL_OFF, true, Display(IDLE_EVENT, 0, false),
                         Flag(false, {1}, {}, {1}, {0}, {}, 1, 1), TwoPresses(Done, TrySecond))

  lemma HolderLeaves(before: seq<Action>) returns (acts: seq<Action>)
    requires Exec(true, before) == REPLAYED
    ensures before <= acts && Exec(true, acts) == STOPPED
  {
    var leaving := REPLAYED.(actors := TwoPresses(Release, TrySecond));
    acts := ZeroGoes(before, REPLAYED, Load, TrySecond, leaving, Release);
    acts := ZeroGoes(acts, leaving, Release, TrySecond, STOPPED, Done);
  }

  // Press 1's own toggle has begun a new recording.
  const RESTARTED := State(Some(1), Health(Live, Live), true, Display(StartingEvent(ALL_OFF), 0, true),
                           Flag(false, {1}, {}, {1}, {0, 1}, {1}, 1, 1), TwoPresses(Done, Truth))

  // Press 1 has the lock on its second try.
  const TAKEN := STOPPED.(lock := Some(1), flag := STOPPED.flag.(overtaken := {1}),
                          actors := TwoPresses(Done, ReadActive(Direct, {})))

  lemma SecondPressTakes(before: seq<Action>) returns (acts: seq<Action>)
    requires Exec(true, before) == STOPPED
    ensures before <= acts && Exec(true, acts) == TAKEN
  {
    var locked := TAKEN.(actors := TwoPresses(Done, Clear(Direct)));
    assert STOPPED.flag.overtaken + {1} == {1};
    acts := OneGoes(before, STOPPED, Done, TrySecond, locked, Clear(Direct));
    acts := OneGoes(acts, locked, Done, Clear(Direct), TAKEN, ReadActive(Direct, {}));
  }

  // Press 1 has read consent and is about to announce a start.
  const DECIDED := TAKEN.(flag := RESTARTED.flag, actors := TwoPresses(Done, Announce(Direct)))

  lemma SecondPressDecides(before: seq<Action>) returns (acts: seq<Action>)
    requires Exec(true, before) == TAKEN
    ensures before <= acts && Exec(true, acts) == DECIDED
  {
    var idle := DECIDED.(actors := TwoPresses(Done, ReadConsent(Direct, false)));
    assert TAKEN.flag.replayed + {} == {1} && TAKEN.flag.direct + {1} == {0, 1};
    acts := OneGoes(before, TAKEN, Done, ReadActive(Direct, {}), idle, ReadConsent(Direct, false));
    acts := OneGoes(acts, idle, Done, ReadConsent(Direct, false), DECIDED, Announce(Direct));
  }

  lemma SecondPressEngages(before: seq<Action>) returns (acts: seq<Action>)
    requires Exec(true, before) == DECIDED
    ensures before <= acts && Exec(true, acts) == RESTARTED
  {
    var told := DECIDED.(display := RESTARTED.display, actors := TwoPresses(Done, Engage(Direct)));
    acts := OneGoes(before, DECIDED, Done, Announce(Direct), told, Engage(Direct));
    acts := OneGoes(acts, told, Done, Engage(Direct), RESTARTED, Truth);
  }

  // One press against a running capture is replayed as a stop and then, on its
  // second try, starts a new recording: it acts twice.
  lemma APressCanActTwice() returns (hit: seq<Action>, stop: seq<Action>, acts: seq<Action>)
    ensures hit <= stop <= acts
    ensures Exec(true, hit) == MARKED && Exec(true, stop) == STOPPED && Exec(true, acts) == RESTARTED
    ensures Active(MARKED.engine) && !Active(STOPPED.engine) && Active(RESTARTED.engine)
    ensures exists k1, k2 :: 0 <= k1 < |acts| && 0 <= k2 < |acts| && k1 != k2
              && ActsFor(true, acts, k1, 1) && ActsFor(true, acts, k2, 1)
  {
    acts := FirstPressStarts();
    hit := SecondPressMarks(acts);
    acts := HolderReplays(hit);
    acts := ReplayStops(acts);
    stop := HolderLeaves(acts);
    acts := SecondPressTakes(stop);
    acts := SecondPressDecides(acts);
    acts := SecondPressEngages(acts);
    TwiceInTheRun(true, acts, 1);
  }

  lemma TwiceInTheRun(consent: bool, acts: seq<Action>, p: Tid)
    requires p in Exec(consent, acts).flag.replayed && p in Exec(consent, acts).flag.direct
    ensures exists k1, k2 :: 0 <= k1 < |acts| && 0 <= k2 < |acts| && k1 != k2
              && ActsFor(consent, acts, k1, p) && ActsFor(consent, acts, k2, p)
  {
    assert acts[..|acts|] == acts;
    ReplayedMeans(consent, acts, |acts|, p);
    DirectMeans(consent, acts, |acts|, p);
    var k1 :| 0 <= k1 < |acts| && ActsFromFlag(consent, acts, k1, p);
    var k2 :| 0 <= k2 < |acts| && ActsAsItself(consent, acts, k2, p);
    assert ActsFor(consent, acts, k1, p) && ActsFor(consent, acts, k2, p);
  }

  function CallAndPress(call: Pc, press: Pc): map<Tid, Actor> {
    map[0 := Actor(IpcStop, call), 1 := Actor(PressThread, press)]
  }

  const REFUSED := Init(true).(lock := Some(0), flag := Flag(true, {1}, {1}, {}, {}, {}, 1, 0),
                               actors := CallAndPress(IpcReadActive, Done))

  lemma ACallRefusesAPress() returns (acts: seq<Action>)
    ensures Exec(true, acts) == REFUSED
  {
    ExecSnoc(true, [], Spawn(0, IpcStop));
    acts := [Spawn(0, IpcStop)];
    assert [] + acts == acts;
    ExecSnoc(true, acts, Spawn(1, PressThread));
    acts := acts + [Spawn(1, PressThread)];
    var s := Init(true).(actors := CallAndPress(WaitLock, TryFirst));
    acts, s := Then(acts, s, 0);
    acts, s := Then(acts, s, 1);
    assert s == Init(true).(lock := Some(0), actors := CallAndPress(IpcReadActive, StoreFlag));
    acts, s := Then(acts, s, 1);
    acts, s := Then(acts, s, 1);
  }

  const SETTLED := REFUSED.(actors := CallAndPress(IpcTruth, Done))

  lemma TheCallStops() returns (acts: seq<Action>)
    ensures Exec(true, acts) == SETTLED
  {
    acts := ACallRefusesAPress();
    var s := REFUSED;
    acts, s := Then(acts, s, 0);
    assert s == REFUSED.(actors := CallAndPress(IpcAct, Done));
    acts, s := Then(acts, s, 0);
  }

  lemma TheCallSettles() returns (acts: seq<Action>)
    ensures Exec(true, acts) == REFUSED.(actors := CallAndPress(Release, Done))
  {
    acts := TheCallStops();
    var s: State;
    acts, s := Then(acts, SETTLED, 0);
  }

  // A press that meets a blocking IPC call is left with its mark standing and
  // nobody running: run_under_toggle_lock never looks at the flag.
  lemma AnIpcHolderStrandsAPress() returns (acts: seq<Action>)
    ensures Exec(true, acts) == REFUSED.(lock := None, actors := CallAndPress(Done, Done))
  {
    acts := TheCallSettles();
    var s: State;
    acts, s := Then(acts, REFUSED.(actors := CallAndPress(Release, Done)), 0);
  }

  function PressAndResync(press: Pc, resync: Pc): map<Tid, Actor> {
    map[0 := Actor(PressThread, press), 1 := Actor(Resync, resync)]
  }

  const FAILS := Choice(true, false, false)

  const SEEN := ResyncSync(StartingEvent(ALL_OFF))

  // The start fails after the resync has read its announcement.
  const FAILED := ANNOUNCED.(engine := Health(Failed, Failed), actors := PressAndResync(Truth, SEEN))

  lemma AStartFails() returns (acts: seq<Action>)
    ensures Exec(true, acts) == FAILED
  {
    acts := FirstPressAnnounces();
    ExecSnoc(true, acts, Spawn(1, Resync));
    acts := acts + [Spawn(1, Resync)];
    var s := ANNOUNCED.(actors := PressAndResync(Engage(Direct), ResyncRead));
    acts, s := Then(acts, s, 1);
    assert s == ANNOUNCED.(actors := PressAndResync(Engage(Direct), SEEN));
    ExecSnoc(true, acts, Run(0, FAILS));
    acts := acts + [Run(0, FAILS)];
    assert Advance(s, 0, FAILS) == FAILED;
  }

  // A resync that read an announced start and wrote after the start had failed
  // leaves the overlay claiming a capture the last broadcast denies.
  lemma AResyncCanLeaveAStaleOverlay() returns (acts: seq<Action>)
    ensures var s := Exec(true, acts);
            s.display.overlay && s.display.last.phase == Idle && !Active(s.engine)
  {
    acts := AStartFails();
    var s := FAILED;
    acts, s := Then(acts, s, 0);
    var idle := Display(EventFromHealth(FAILED.engine), 0, false);
    assert s == FAILED.(display := idle, actors := PressAndResync(Load, SEEN));
    acts, s := Then(acts, s, 1);
  }
}
