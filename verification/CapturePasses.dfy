// What one pass of a toggle, a blocking call or a watchdog tick leaves behind,
// whatever the other threads do meanwhile (src-tauri/src/capture_control.rs).
module CapturePasses {
  import opened CaptureState
  import opened CaptureProtocol
  import opened CaptureRuns
  import opened Wrappers
  import Watchdog

  // Actor t opens a pass at action i: under the lock it reads whether the engine
  // is active.
  ghost predicate Opens(consent: bool, acts: seq<Action>, i: nat, t: Tid) {
    Runs(consent, acts, i, t) && PcOf(consent, acts, i, t).ReadActive?
  }

  function PressOf(consent: bool, acts: seq<Action>, i: nat, t: Tid): Press
    requires Opens(consent, acts, i, t)
  {
    PcOf(consent, acts, i, t).press
  }

  // It reads it as active; an engine that cannot be read counts as idle.
  predicate SawActive(consent: bool, acts: seq<Action>, i: nat) {
    i < |acts| && acts[i].Run? && acts[i].choice.readable && Active(At(consent, acts, i).engine)
  }

  // After action i and before action n, t reads consent as given.
  ghost predicate Given(consent: bool, acts: seq<Action>, i: nat, n: nat, t: Tid) {
    exists j :: i < j < n && GivenAt(consent, acts, j, t)
  }

  ghost predicate GivenAt(consent: bool, acts: seq<Action>, j: nat, t: Tid) {
    Runs(consent, acts, j, t) && PcOf(consent, acts, j, t).ReadConsent? && At(consent, acts, j).consent
  }

  predicate Comes(before: SourceState, after: SourceState, up: bool) {
    after == match before
             case Live => Live
             case Stalled => Stalled
             case _ => if up then Live else Failed
  }

  // At action k, t starts both sources: one that records goes on, another comes up
  // or fails; an unreadable engine is left alone.
  ghost predicate ComesUpAt(consent: bool, acts: seq<Action>, k: nat, t: Tid) {
    && Runs(consent, acts, k, t)
    && var before, after, c := At(consent, acts, k).engine, At(consent, acts, k + 1).engine, acts[k].choice;
       if c.readable
       then Comes(before.loopback, after.loopback, c.loopbackUp)
            && Comes(before.microphone, after.microphone, c.microphoneUp)
       else after == before
  }

  // It does so with a start announced.
  ghost predicate StartsAt(consent: bool, acts: seq<Action>, k: nat, t: Tid) {
    ComesUpAt(consent, acts, k, t) && At(consent, acts, k).display.last.phase == Starting
  }

  ghost predicate EngagesAt(consent: bool, acts: seq<Action>, k: nat, t: Tid) {
    Runs(consent, acts, k, t) && PcOf(consent, acts, k, t).Engage?
  }

  ghost predicate Engages(consent: bool, acts: seq<Action>, i: nat, n: nat, t: Tid) {
    exists k :: i < k < n && EngagesAt(consent, acts, k, t)
  }

  // At action m, t broadcasts what it reads of the engine, or idle.
  ghost predicate TellsTruthAt(consent: bool, acts: seq<Action>, m: nat, t: Tid, shown: Event) {
    && Runs(consent, acts, m, t)
    && shown == TruthOf(At(consent, acts, m).engine, acts[m].choice.readable)
  }

  function TruthOf(engine: Health, readable: bool): Event {
    if readable then TrueEvent(engine) else Event(Idle, Health(Off, Off))
  }

  function TrueEvent(engine: Health): Event {
    Event(match (engine.loopback, engine.microphone)
          case (Live, Live) => Listening
          case (Live, _) | (Stalled, _) | (_, Live) | (_, Stalled) => Degraded
          case _ => Idle,
          engine)
  }

  lemma TrueEventIsTheHealths(engine: Health)
    ensures EventFromHealth(engine) == TrueEvent(engine)
  {
  }

  // ----- what other threads leave alone ---------------------------------------------

  // While t holds the lock, others change neither its place nor whether the engine
  // records nor what is broadcast; devices may stall and recover.
  lemma OthersLeaveThePass(s: State, a: Action, t: Tid)
    requires Inv(s) && s.lock == Some(t) && !(a.Run? && a.t == t)
    ensures var s' := Step(s, a);
            && s'.lock == Some(t) && t in s'.actors && s'.actors[t] == s.actors[t]
            && Active(s'.engine) == Active(s.engine) && s'.display.last == s.display.last
            && (s.engine == Health(Off, Off) ==> s'.engine == s.engine)
  {
    if a.Run? && a.t in s.actors {
      AdvanceMovesOne(s, a.t, a.choice);
      OutsiderChangesLittle(s, a.t, a.choice);
    }
  }

  lemma OutsiderChangesLittle(s: State, u: Tid, c: Choice)
    requires LockInv(s) && u in s.actors && s.lock.Some? && s.lock != Some(u)
    ensures var s' := Advance(s, u, c);
            s'.lock == s.lock && s'.engine == s.engine && s'.display.last == s.display.last
  {
    assert !InCritical(s.actors[u].pc);
  }

  // ----- the stages of a toggle ---------------------------------------------------

  // Nothing of the pass has shown yet.
  ghost predicate Untold(consent: bool, acts: seq<Action>, i: nat, n: nat)
    requires i <= n <= |acts|
  {
    && Active(At(consent, acts, n).engine) == Active(At(consent, acts, i).engine)
    && At(consent, acts, n).display.last == At(consent, acts, i).display.last
  }

  // What the pass has made of the engine: shut where it was read active; started,
  // at one action k, exactly for a direct press that read it idle and consent as
  // given; otherwise recording or not as before.
  ghost predicate Acted(consent: bool, acts: seq<Action>, i: nat, n: nat, t: Tid)
    requires i < n <= |acts| && Opens(consent, acts, i, t)
  {
    var s, saw := At(consent, acts, n), SawActive(consent, acts, i);
    && (Engages(consent, acts, i, n, t) <==>
          PressOf(consent, acts, i, t).Direct? && !saw && Given(consent, acts, i, n, t))
    && (saw ==> s.engine == Health(Off, Off))
    && (Engages(consent, acts, i, n, t) ==> StartedWithin(consent, acts, i, n, t))
    && (!saw && !Engages(consent, acts, i, n, t) ==> Active(s.engine) == Active(At(consent, acts, i).engine))
  }

  ghost predicate StartedWithin(consent: bool, acts: seq<Action>, i: nat, n: nat, t: Tid)
    requires n <= |acts|
  {
    exists k :: i < k < n && StartsAt(consent, acts, k, t)
      && Active(At(consent, acts, n).engine) == Active(At(consent, acts, k + 1).engine)
  }

  // What the pass has shown: nothing for a replay that found nothing to stop,
  // otherwise the truth about what it left.
  ghost predicate Told(consent: bool, acts: seq<Action>, i: nat, n: nat, t: Tid)
    requires i < n <= |acts| && Opens(consent, acts, i, t)
  {
    if PressOf(consent, acts, i, t).Coalesced? && !SawActive(consent, acts, i)
    then At(consent, acts, n).display.last == At(consent, acts, i).display.last
    else TruthWithin(consent, acts, i, n, t)
  }

  ghost predicate TruthWithin(consent: bool, acts: seq<Action>, i: nat, n: nat, t: Tid)
    requires n <= |acts|
  {
    exists m :: i < m < n && TellsTruthAt(consent, acts, m, t, At(consent, acts, n).display.last)
      && Active(At(consent, acts, m).engine) == Active(At(consent, acts, n).engine)
  }

  ghost predicate Stage(consent: bool, acts: seq<Action>, i: nat, n: nat, t: Tid)
    requires i < n <= |acts| && Opens(consent, acts, i, t)
  {
    var s, saw, press := At(consent, acts, n), SawActive(consent, acts, i), PressOf(consent, acts, i, t);
    var given, engages := Given(consent, acts, i, n, t), Engages(consent, acts, i, n, t);
    && s.lock == Some(t) && t in s.actors
    && match s.actors[t].pc
       case ReadConsent(p, active) => p == press && active == saw && !given && !engages && Untold(consent, acts, i, n)
       case Disengage => saw && !engages
       case Announce(p) => p == press && press.Direct? && !saw && given && !engages && Untold(consent, acts, i, n)
       case Engage(p) => p == press && press.Direct? && !saw && given && !engages && s.display.last.phase == Starting
       case Truth => Acted(consent, acts, i, n, t) && (press.Direct? || saw)
       case Load => Acted(consent, acts, i, n, t) && Told(consent, acts, i, n, t)
       case _ => false
  }

  lemma GivenNext(consent: bool, acts: seq<Action>, i: nat, n: nat, t: Tid)
    requires i < n < |acts|
    ensures Given(consent, acts, i, n + 1, t) <==> Given(consent, acts, i, n, t) || GivenAt(consent, acts, n, t)
  {
    if j :| i < j < n + 1 && GivenAt(consent, acts, j, t) {
      assert j == n || (i < j < n && GivenAt(consent, acts, j, t));
    }
  }

  lemma EngagesNext(consent: bool, acts: seq<Action>, i: nat, n: nat, t: Tid)
    requires i < n < |acts|
    ensures Engages(consent, acts, i, n + 1, t) <==> Engages(consent, acts, i, n, t) || EngagesAt(consent, acts, n, t)
  {
    if k :| i < k < n + 1 && EngagesAt(consent, acts, k, t) {
      assert k == n || (i < k < n && EngagesAt(consent, acts, k, t));
    }
  }

  lemma StageOpens(consent: bool, acts: seq<Action>, i: nat, t: Tid)
    requires Opens(consent, acts, i, t)
    ensures Stage(consent, acts, i, i + 1, t)
  {
    AtNext(consent, acts, i);
    assert !Given(consent, acts, i, i + 1, t) && !Engages(consent, acts, i, i + 1, t);
  }

  // The activity and the last broadcast are as they were, so what was so stays so.
  lemma ActedStays(consent: bool, acts: seq<Action>, i: nat, n: nat, t: Tid)
    requires i < n < |acts| && Opens(consent, acts, i, t) && Acted(consent, acts, i, n, t)
    requires !GivenAt(consent, acts, n, t) && !EngagesAt(consent, acts, n, t)
    requires var s, s' := At(consent, acts, n), At(consent, acts, n + 1);
             Active(s'.engine) == Active(s.engine) && (s.engine == Health(Off, Off) ==> s'.engine == s.engine)
    ensures Acted(consent, acts, i, n + 1, t)
  {
    GivenNext(consent, acts, i, n, t);
    EngagesNext(consent, acts, i, n, t);
    if Engages(consent, acts, i, n, t) {
      var k :| i < k < n && StartsAt(consent, acts, k, t)
        && Active(At(consent, acts, n).engine) == Active(At(consent, acts, k + 1).engine);
      assert StartedWithin(consent, acts, i, n + 1, t);
    }
  }

  lemma ToldStays(consent: bool, acts: seq<Action>, i: nat, n: nat, t: Tid)
    requires i < n < |acts| && Opens(consent, acts, i, t) && Told(consent, acts, i, n, t)
    requires var s, s' := At(consent, acts, n), At(consent, acts, n + 1);
             Active(s'.engine) == Active(s.engine) && s'.display.last == s.display.last
    ensures Told(consent, acts, i, n + 1, t)
  {
    if !(PressOf(consent, acts, i, t).Coalesced? && !SawActive(consent, acts, i)) {
      var m :| i < m < n && TellsTruthAt(consent, acts, m, t, At(consent, acts, n).display.last)
        && Active(At(consent, acts, m).engine) == Active(At(consent, acts, n).engine);
      assert TruthWithin(consent, acts, i, n + 1, t);
    }
  }

  lemma StageWaits(consent: bool, acts: seq<Action>, i: nat, n: nat, t: Tid)
    requires i < n < |acts| && Opens(consent, acts, i, t) && Stage(consent, acts, i, n, t)
    requires !Runs(consent, acts, n, t)
    ensures Stage(consent, acts, i, n + 1, t)
  {
    AtNext(consent, acts, n);
    OthersLeaveThePass(At(consent, acts, n), acts[n], t);
    GivenNext(consent, acts, i, n, t);
    EngagesNext(consent, acts, i, n, t);
    var pc := At(consent, acts, n).actors[t].pc;
    if pc.Truth? || pc.Load? {
      ActedStays(consent, acts, i, n, t);
    }
    if pc.Load? {
      ToldStays(consent, acts, i, n, t);
    }
  }

  lemma StageDecides(consent: bool, acts: seq<Action>, i: nat, n: nat, t: Tid)
    requires i < n < |acts| && Opens(consent, acts, i, t) && Stage(consent, acts, i, n, t)
    requires Runs(consent, acts, n, t) && PcOf(consent, acts, n, t).ReadConsent?
    ensures Stage(consent, acts, i, n + 1, t)
  {
    AtNext(consent, acts, n);
    GivenNext(consent, acts, i, n, t);
    EngagesNext(consent, acts, i, n, t);
  }

  lemma StageStops(consent: bool, acts: seq<Action>, i: nat, n: nat, t: Tid)
    requires i < n < |acts| && Opens(consent, acts, i, t) && Stage(consent, acts, i, n, t)
    requires Runs(consent, acts, n, t) && PcOf(consent, acts, n, t).Disengage?
    ensures Stage(consent, acts, i, n + 1, t)
  {
    AtNext(consent, acts, n);
    EngagesNext(consent, acts, i, n, t);
  }

  lemma StageAnnounces(consent: bool, acts: seq<Action>, i: nat, n: nat, t: Tid)
    requires i < n < |acts| && Opens(consent, acts, i, t) && Stage(consent, acts, i, n, t)
    requires Runs(consent, acts, n, t) && PcOf(consent, acts, n, t).Announce?
    ensures Stage(consent, acts, i, n + 1, t)
  {
    AtNext(consent, acts, n);
    GivenNext(consent, acts, i, n, t);
    EngagesNext(consent, acts, i, n, t);
  }

  lemma StageStarts(consent: bool, acts: seq<Action>, i: nat, n: nat, t: Tid)
    requires i < n < |acts| && Opens(consent, acts, i, t) && Stage(consent, acts, i, n, t)
    requires Runs(consent, acts, n, t) && PcOf(consent, acts, n, t).Engage?
    ensures Stage(consent, acts, i, n + 1, t)
  {
    AtNext(consent, acts, n);
    GivenNext(consent, acts, i, n, t);
    EngagesNext(consent, acts, i, n, t);
    assert EngagesAt(consent, acts, n, t) && StartsAt(consent, acts, n, t);
    assert StartedWithin(consent, acts, i, n + 1, t);
  }

  lemma StageTells(consent: bool, acts: seq<Action>, i: nat, n: nat, t: Tid)
    requires i < n < |acts| && Opens(consent, acts, i, t) && Stage(consent, acts, i, n, t)
    requires Runs(consent, acts, n, t) && PcOf(consent, acts, n, t).Truth?
    ensures Stage(consent, acts, i, n + 1, t)
  {
    AtNext(consent, acts, n);
    TrueEventIsTheHealths(At(consent, acts, n).engine);
    ActedStays(consent, acts, i, n, t);
    assert TellsTruthAt(consent, acts, n, t, At(consent, acts, n + 1).display.last);
    assert TruthWithin(consent, acts, i, n + 1, t);
  }

  // t has not looked at the flag again since it opened the pass.
  ghost predicate NoLookSince(consent: bool, acts: seq<Action>, i: nat, n: nat, t: Tid) {
    forall k :: i < k < n ==> !LooksAt(consent, acts, k, t)
  }

  ghost predicate LooksAt(consent: bool, acts: seq<Action>, k: nat, t: Tid) {
    Runs(consent, acts, k, t) && PcOf(consent, acts, k, t).Load?
  }

  lemma StageGoesOn(consent: bool, acts: seq<Action>, i: nat, n: nat, t: Tid)
    requires i < n < |acts| && Opens(consent, acts, i, t) && Stage(consent, acts, i, n, t)
    requires !LooksAt(consent, acts, n, t)
    ensures Stage(consent, acts, i, n + 1, t)
  {
    if !Runs(consent, acts, n, t) {
      StageWaits(consent, acts, i, n, t);
    } else {
      match PcOf(consent, acts, n, t)
      case ReadConsent(_, _) => StageDecides(consent, acts, i, n, t);
      case Disengage => StageStops(consent, acts, i, n, t);
      case Announce(_) => StageAnnounces(consent, acts, i, n, t);
      case Engage(_) => StageStarts(consent, acts, i, n, t);
      case Truth => StageTells(consent, acts, i, n, t);
    }
  }

  lemma {:induction false} AllStages(consent: bool, acts: seq<Action>, i: nat, n: nat, t: Tid)
    requires i < n <= |acts| && Opens(consent, acts, i, t) && NoLookSince(consent, acts, i, n, t)
    ensures Stage(consent, acts, i, n, t)
    decreases n
  {
    if n == i + 1 {
      StageOpens(consent, acts, i, t);
    } else {
      AllStages(consent, acts, i, n - 1, t);
      assert !LooksAt(consent, acts, n - 1, t);
      StageGoesOn(consent, acts, i, n - 1, t);
    }
  }

  // A pass does not give the lock up before it looks at the flag again.
  lemma APassHoldsTheLock(consent: bool, acts: seq<Action>, i: nat, n: nat, t: Tid)
    requires i < n <= |acts| && Opens(consent, acts, i, t) && NoLookSince(consent, acts, i, n, t)
    ensures At(consent, acts, n).lock == Some(t)
  {
    AllStages(consent, acts, i, n, t);
  }

  // Over every run, whatever the others do: by the time a pass looks at the flag
  // again it has shut the engine if it had read it active, for either kind of
  // press; it has tried to start exactly for a direct press that read the engine
  // idle and consent as given, and the engine records or not as that start left
  // it; otherwise the engine records exactly if it did before. And the last
  // broadcast is the truth about that, but for a replay with nothing to stop,
  // which shows nothing.
  lemma APassLeaves(consent: bool, acts: seq<Action>, i: nat, n: nat, t: Tid)
    requires Opens(consent, acts, i, t) && i < n && LooksAt(consent, acts, n, t) && NoLookSince(consent, acts, i, n, t)
    ensures var press, saw := PressOf(consent, acts, i, t), SawActive(consent, acts, i);
            var before, after := At(consent, acts, i), At(consent, acts, n);
            && (saw ==> after.engine == Health(Off, Off))
            && (Engages(consent, acts, i, n, t) <==> press.Direct? && !saw && Given(consent, acts, i, n, t))
            && (Engages(consent, acts, i, n, t) ==> StartedWithin(consent, acts, i, n, t))
            && (!saw && !Engages(consent, acts, i, n, t) ==> Active(after.engine) == Active(before.engine))
            && (if press.Direct? || saw then TruthWithin(consent, acts, i, n, t)
                else after.display.last == before.display.last)
  {
    AllStages(consent, acts, i, n, t);
  }

  // ----- the stages of a blocking call ----------------------------------------------

  // A blocking call has the lock and reads whether the engine is active.
  ghost predicate CallOpens(consent: bool, acts: seq<Action>, i: nat, t: Tid) {
    Runs(consent, acts, i, t) && PcOf(consent, acts, i, t).IpcReadActive?
  }

  predicate IsStart(consent: bool, acts: seq<Action>, i: nat, t: Tid)
    requires CallOpens(consent, acts, i, t)
  {
    At(consent, acts, i).actors[t].kind.IpcStart?
  }

  // A start call starts the engine at one action, announced unless it was read
  // active, and the engine records or not as that start left it.
  ghost predicate CallStarted(consent: bool, acts: seq<Action>, i: nat, n: nat, t: Tid)
    requires i < n <= |acts|
  {
    exists k :: i < k < n && CallStartedAt(consent, acts, i, k, t)
      && Active(At(consent, acts, n).engine) == Active(At(consent, acts, k + 1).engine)
  }

  ghost predicate CallStartedAt(consent: bool, acts: seq<Action>, i: nat, k: nat, t: Tid)
    requires i < k < |acts|
  {
    && ComesUpAt(consent, acts, k, t)
    && (if SawActive(consent, acts, i) then At(consent, acts, k).display.last == At(consent, acts, i).display.last
        else At(consent, acts, k).display.last.phase == Starting)
  }

  ghost predicate CallActed(consent: bool, acts: seq<Action>, i: nat, n: nat, t: Tid)
    requires i < n <= |acts| && CallOpens(consent, acts, i, t)
  {
    if IsStart(consent, acts, i, t) then CallStarted(consent, acts, i, n, t)
    else At(consent, acts, n).engine == Health(Off, Off)
  }

  ghost predicate CallStage(consent: bool, acts: seq<Action>, i: nat, n: nat, t: Tid)
    requires i < n <= |acts| && CallOpens(consent, acts, i, t)
  {
    var s, saw := At(consent, acts, n), SawActive(consent, acts, i);
    && t in s.actors
    && s.actors[t].kind == At(consent, acts, i).actors[t].kind
    && (!s.actors[t].pc.Done? ==> s.lock == Some(t))
    && match s.actors[t].pc
       case IpcAnnounce => IsStart(consent, acts, i, t) && !saw && Untold(consent, acts, i, n)
       case IpcAct =>
         if IsStart(consent, acts, i, t) && !saw then s.display.last.phase == Starting else Untold(consent, acts, i, n)
       case IpcTruth => CallActed(consent, acts, i, n, t)
       case Release => CallActed(consent, acts, i, n, t) && TruthWithin(consent, acts, i, n, t)
       case Done => true
       case _ => false
  }

  lemma CallActedStays(consent: bool, acts: seq<Action>, i: nat, n: nat, t: Tid)
    requires i < n < |acts| && CallOpens(consent, acts, i, t) && CallActed(consent, acts, i, n, t)
    requires var s, s' := At(consent, acts, n), At(consent, acts, n + 1);
             Active(s'.engine) == Active(s.engine) && (s.engine == Health(Off, Off) ==> s'.engine == s.engine)
    ensures CallActed(consent, acts, i, n + 1, t)
  {
    if IsStart(consent, acts, i, t) {
      var k :| i < k < n && CallStartedAt(consent, acts, i, k, t)
        && Active(At(consent, acts, n).engine) == Active(At(consent, acts, k + 1).engine);
      assert CallStarted(consent, acts, i, n + 1, t);
    }
  }

  lemma TruthStays(consent: bool, acts: seq<Action>, i: nat, n: nat, t: Tid)
    requires i < n < |acts| && TruthWithin(consent, acts, i, n, t)
    requires var s, s' := At(consent, acts, n), At(consent, acts, n + 1);
             Active(s'.engine) == Active(s.engine) && s'.display.last == s.display.last
    ensures TruthWithin(consent, acts, i, n + 1, t)
  {
    var m :| i < m < n && TellsTruthAt(consent, acts, m, t, At(consent, acts, n).display.last)
      && Active(At(consent, acts, m).engine) == Active(At(consent, acts, n).engine);
  }

  lemma CallWaits(consent: bool, acts: seq<Action>, i: nat, n: nat, t: Tid)
    requires i < n < |acts| && CallOpens(consent, acts, i, t) && CallStage(consent, acts, i, n, t)
    requires !Runs(consent, acts, n, t)
    ensures CallStage(consent, acts, i, n + 1, t)
  {
    AtNext(consent, acts, n);
    var pc := At(consent, acts, n).actors[t].pc;
    if pc.Done? {
      DoneStaysDone(At(consent, acts, n), acts[n], t);
    } else {
      OthersLeaveThePass(At(consent, acts, n), acts[n], t);
      if pc.IpcTruth? || pc.Release? {
        CallActedStays(consent, acts, i, n, t);
      }
      if pc.Release? {
        TruthStays(consent, acts, i, n, t);
      }
    }
  }

  lemma DoneStaysDone(s: State, a: Action, t: Tid)
    requires Inv(s) && t in s.actors && s.actors[t].pc.Done?
    ensures t in Step(s, a).actors && Step(s, a).actors[t] == s.actors[t]
  {
    if a.Run? && a.t in s.actors {
      AdvanceMovesOne(s, a.t, a.choice);
    }
  }

  lemma CallActs(consent: bool, acts: seq<Action>, i: nat, n: nat, t: Tid)
    requires i < n < |acts| && CallOpens(consent, acts, i, t) && CallStage(consent, acts, i, n, t)
    requires Runs(consent, acts, n, t) && PcOf(consent, acts, n, t).IpcAct?
    ensures CallStage(consent, acts, i, n + 1, t)
  {
    AtNext(consent, acts, n);
    if IsStart(consent, acts, i, t) {
      assert CallStartedAt(consent, acts, i, n, t);
      assert CallStarted(consent, acts, i, n + 1, t);
    }
  }

  lemma CallTells(consent: bool, acts: seq<Action>, i: nat, n: nat, t: Tid)
    requires i < n < |acts| && CallOpens(consent, acts, i, t) && CallStage(consent, acts, i, n, t)
    requires Runs(consent, acts, n, t) && PcOf(consent, acts, n, t).IpcTruth?
    ensures CallStage(consent, acts, i, n + 1, t)
  {
    AtNext(consent, acts, n);
    TrueEventIsTheHealths(At(consent, acts, n).engine);
    CallActedStays(consent, acts, i, n, t);
    assert TellsTruthAt(consent, acts, n, t, At(consent, acts, n + 1).display.last);
    assert TruthWithin(consent, acts, i, n + 1, t);
  }

  lemma CallMoves(consent: bool, acts: seq<Action>, i: nat, n: nat, t: Tid)
    requires i < n < |acts| && CallOpens(consent, acts, i, t) && CallStage(consent, acts, i, n, t)
    requires Runs(consent, acts, n, t)
    requires var pc := PcOf(consent, acts, n, t); pc.IpcAnnounce? || pc.Release? || pc.Done?
    ensures CallStage(consent, acts, i, n + 1, t)
  {
    AtNext(consent, acts, n);
  }

  lemma CallStageOpens(consent: bool, acts: seq<Action>, i: nat, t: Tid)
    requires CallOpens(consent, acts, i, t)
    ensures CallStage(consent, acts, i, i + 1, t)
  {
    AtNext(consent, acts, i);
  }

  lemma CallGoesOn(consent: bool, acts: seq<Action>, i: nat, n: nat, t: Tid)
    requires i < n < |acts| && CallOpens(consent, acts, i, t) && CallStage(consent, acts, i, n, t)
    ensures CallStage(consent, acts, i, n + 1, t)
  {
    if !Runs(consent, acts, n, t) {
      CallWaits(consent, acts, i, n, t);
    } else if PcOf(consent, acts, n, t).IpcAct? {
      CallActs(consent, acts, i, n, t);
    } else if PcOf(consent, acts, n, t).IpcTruth? {
      CallTells(consent, acts, i, n, t);
    } else {
      CallMoves(consent, acts, i, n, t);
    }
  }

  lemma {:induction false} AllCallStages(consent: bool, acts: seq<Action>, i: nat, n: nat, t: Tid)
    requires i < n <= |acts| && CallOpens(consent, acts, i, t)
    ensures CallStage(consent, acts, i, n, t)
    decreases n
  {
    if n == i + 1 {
      CallStageOpens(consent, acts, i, t);
    } else {
      AllCallStages(consent, acts, i, n - 1, t);
      CallGoesOn(consent, acts, i, n - 1, t);
    }
  }

  // When a blocking call gives the lock up, a stop has shut both sources, a start
  // has started them, announced unless it read the engine active, and the last
  // broadcast is the truth about what the call left.
  lemma ACallLeaves(consent: bool, acts: seq<Action>, i: nat, n: nat, t: Tid)
    requires CallOpens(consent, acts, i, t) && i < n && Runs(consent, acts, n, t) && PcOf(consent, acts, n, t).Release?
    ensures At(consent, acts, n).lock == Some(t)
    ensures if IsStart(consent, acts, i, t) then CallStarted(consent, acts, i, n, t)
            else At(consent, acts, n).engine == Health(Off, Off)
    ensures TruthWithin(consent, acts, i, n, t)
    ensures !IsStart(consent, acts, i, t) ==> At(consent, acts, n).display.last.phase == Idle
  {
    AllCallStages(consent, acts, i, n, t);
  }

  // ----- the display is the watchdog's ------------------------------------------------

  // What an action means to the watchdog and the display.
  function InputOf(s: State, a: Action): seq<Watchdog.Input> {
    if !(a.Run? && a.t in s.actors) then []
    else
      var shown := TruthOf(s.engine, a.choice.readable);
      match s.actors[a.t].pc
      case Truth | IpcTruth => [Watchdog.Elsewhere(shown)]
      case Announce(_) | IpcAnnounce =>
        [Watchdog.Elsewhere(Event(Starting, if a.choice.readable then s.engine else Health(Off, Off)))]
      case TickObserve => if a.choice.readable then [Watchdog.Observed(shown)] else [Watchdog.Blind]
      case TickTry => if s.lock.Some? then [Watchdog.Blind] else []
      case _ => []
  }

  function Inputs(consent: bool, acts: seq<Action>): seq<Watchdog.Input> {
    if acts == [] then []
    else
      var before := acts[..|acts| - 1];
      Inputs(consent, before) + InputOf(Exec(consent, before), acts[|acts| - 1])
  }

  function WatchOf(s: State): Watchdog.Watch {
    Watchdog.Watch(s.display.streak, s.display.last)
  }

  lemma OneInput(s: State, a: Action)
    ensures var s', inputs := Step(s, a), InputOf(s, a);
            |inputs| <= 1 && WatchOf(s') == if inputs == [] then WatchOf(s) else Watchdog.Take(WatchOf(s), inputs[0])
  {
    TrueEventIsTheHealths(s.engine);
  }

  lemma AfterOneMore(inputs: seq<Watchdog.Input>, more: seq<Watchdog.Input>)
    requires |more| <= 1
    ensures Watchdog.After(inputs + more)
         == if more == [] then Watchdog.After(inputs) else Watchdog.Take(Watchdog.After(inputs), more[0])
  {
    if more == [] {
      assert inputs + more == inputs;
    } else {
      assert (inputs + more)[..|inputs|] == inputs;
    }
  }

  // Over every run what is displayed is what the watchdog's debounce makes of the
  // ticks that could observe, the ticks that could not, and the broadcasts of
  // everyone else, so all that holds of its runs holds here.
  lemma {:induction false} TheDisplayIsTheWatchdogs(consent: bool, acts: seq<Action>)
    ensures WatchOf(Exec(consent, acts)) == Watchdog.After(Inputs(consent, acts))
  {
    if acts != [] {
      var before, a := acts[..|acts| - 1], acts[|acts| - 1];
      TheDisplayIsTheWatchdogs(consent, before);
      OneInput(Exec(consent, before), a);
      AfterOneMore(Inputs(consent, before), InputOf(Exec(consent, before), a));
    }
  }
}
