// The capture toggle as a transition system: any number of press threads,
// blocking IPC starts and stops, watchdog ticks and overlay resyncs, one step
// per atomic operation (src-tauri/src/capture_control.rs,
// src-tauri/src/capture_watchdog.rs, src-tauri/src/overlay.rs).
//
// A run is any finite sequence of actions. Step is total: an action that is not
// enabled leaves the state alone, so a statement about every sequence of
// actions is a statement about every interleaving.
module CaptureProtocol {
  import opened CaptureState
  import opened Wrappers
  import Watchdog

  type Tid = nat

  datatype Press = Direct | Coalesced

  datatype ToggleAction = Start | Stop | RequireConsent | Nothing

  datatype Kind = PressThread | IpcStart | IpcStop | Tick | Resync

  // Where an actor stands. Each constructor names the operation it runs next.
  datatype Pc =
    // acquire_for_press
    | TryFirst | StoreFlag | TrySecond
    // the drain loop and the toggle inside it, all under the lock;
    // `batch` holds the presses whose flag the pass cleared
    | Clear(press: Press)
    | ReadActive(press: Press, batch: set<Tid>)
    | ReadConsent(press: Press, active: bool)
    | Announce(press: Press) | Engage(press: Press) | Disengage | Truth | Load
    // run_under_toggle_lock and the consent gate in front of a start
    | Gate | WaitLock | IpcReadActive | IpcAnnounce | IpcAct | IpcTruth
    // the watchdog tick
    | TickTry | TickObserve | TickLoad
    | Release
    // overlay::resync, outside the lock
    | ResyncRead | ResyncSync(seen: Event)
    | Done

  datatype Actor = Actor(kind: Kind, pc: Pc)

  // What the user is shown: the last broadcast, the watchdog's counter and the
  // overlay's own copy of "a capture is running".
  datatype Display = Display(last: Event, streak: nat, overlay: bool)

  // The pending flag and its history: which presses stored it, whose store the
  // standing flag carries, which presses a pass acted for from the flag or as
  // their own, who took the lock after its flag was already cleared.
  datatype Flag = Flag(
    pending: bool,
    stored: set<Tid>,
    flagged: set<Tid>,
    replayed: set<Tid>,
    direct: set<Tid>,
    overtaken: set<Tid>,
    stores: nat,
    replays: nat)

  datatype State = State(
    lock: Option<Tid>,
    engine: Health,
    consent: bool,
    display: Display,
    flag: Flag,
    actors: map<Tid, Actor>)

  // What the world decides during one operation.
  datatype Choice = Choice(readable: bool, loopbackUp: bool, microphoneUp: bool)

  datatype Action =
    | Spawn(t: Tid, kind: Kind)
    | Run(t: Tid, choice: Choice)
    | Drift(loopbackFlows: bool, microphoneFlows: bool)
    | SetConsent(value: bool)

  function Init(consent: bool): State {
    State(None, ALL_OFF, consent, Display(IDLE_EVENT, 0, false),
          Flag(false, {}, {}, {}, {}, {}, 0, 0), map[])
  }

  function NextAction(active: bool, consent: bool, press: Press): ToggleAction {
    match (active, consent, press)
    case (true, _, _) => Stop
    case (false, _, Coalesced) => Nothing
    case (false, true, Direct) => Start
    case (false, false, Direct) => RequireConsent
  }

  function FirstPc(kind: Kind): Pc {
    match kind
    case PressThread => TryFirst
    case IpcStart => Gate
    case IpcStop => WaitLock
    case Tick => TickTry
    case Resync => ResyncRead
  }

  // broadcast_event: the stored event and the overlay's copy move together.
  function Broadcast(s: State, event: Event): State {
    s.(display := s.display.(last := event, overlay := Claims(event)))
  }

  // broadcast_truth: an unreadable engine is shown as idle.
  function BroadcastTruth(s: State, readable: bool): State {
    Broadcast(s, if readable then EventFromHealth(s.engine) else IDLE_EVENT)
  }

  function BroadcastStarting(s: State, readable: bool): State {
    Broadcast(s, StartingEvent(if readable then s.engine else ALL_OFF))
  }

  // try_lock: where the actor goes when it gets the lock and when it does not.
  function TryLock(s: State, t: Tid, taken: Pc, busy: Pc): (State, Pc) {
    if s.lock.None? then (s.(lock := Some(t)), taken) else (s, busy)
  }

  function Step(s: State, a: Action): State {
    match a
    case Spawn(t, kind) =>
      if t in s.actors then s else s.(actors := s.actors[t := Actor(kind, FirstPc(kind))])
    case Run(t, choice) => if t in s.actors then Advance(s, t, choice) else s
    case Drift(loopbackFlows, microphoneFlows) =>
      s.(engine := Drifted(s.engine, loopbackFlows, microphoneFlows))
    case SetConsent(value) => s.(consent := value)
  }

  function Advance(s: State, t: Tid, c: Choice): State
    requires t in s.actors
  {
    var (s', pc) := Operate(s, t, s.actors[t].kind, s.actors[t].pc, c);
    s'.(actors := s.actors[t := s.actors[t].(pc := pc)])
  }

  // One operation of actor t: its effect on what is shared, and where t goes.
  function Operate(s: State, t: Tid, kind: Kind, pc: Pc, c: Choice): (State, Pc) {
    match pc
    case TryFirst => TryLock(s, t, Clear(Direct), StoreFlag)
    case StoreFlag =>
      (s.(flag := s.flag.(pending := true, stored := s.flag.stored + {t},
                          flagged := s.flag.flagged + {t}, stores := s.flag.stores + 1)), TrySecond)
    case TrySecond =>
      if s.lock.None? && t !in s.flag.flagged
      then (s.(lock := Some(t), flag := s.flag.(overtaken := s.flag.overtaken + {t})), Clear(Direct))
      else TryLock(s, t, Clear(Direct), Done)
    case Clear(press) =>
      (s.(flag := s.flag.(pending := false, flagged := {})), ReadActive(press, s.flag.flagged))
    case ReadActive(press, batch) =>
      (BeginToggle(s, t, press, batch), ReadConsent(press, c.readable && Active(s.engine)))
    case ReadConsent(press, active) =>
      (s, match NextAction(active, s.consent, press)
          case Start => Announce(press)
          case Stop => Disengage
          case RequireConsent => Truth
          case Nothing => Load)
    case Announce(press) => (BroadcastStarting(s, c.readable), Engage(press))
    case Engage(press) => (StartEngine(s, c), Truth)
    case Disengage => (s.(engine := ALL_OFF), Truth)
    case Truth => (BroadcastTruth(s, c.readable), Load)
    case Load => (s, if s.flag.pending then Clear(Coalesced) else Release)
    case Gate => (s, if s.consent then WaitLock else Done)
    case WaitLock => TryLock(s, t, IpcReadActive, WaitLock)
    case IpcReadActive => (s, if kind.IpcStart? && !(c.readable && Active(s.engine)) then IpcAnnounce else IpcAct)
    case IpcAnnounce => (BroadcastStarting(s, c.readable), IpcAct)
    case IpcAct => (if kind.IpcStart? then StartEngine(s, c) else s.(engine := ALL_OFF), IpcTruth)
    case IpcTruth => (BroadcastTruth(s, c.readable), Release)
    case TickTry =>
      if s.lock.None? then TryLock(s, t, TickObserve, Done)
      else (s.(display := s.display.(streak := 0)), Done)
    case TickObserve => (Observe(s, c.readable), TickLoad)
    case TickLoad => (s, if s.flag.pending then Clear(Coalesced) else Release)
    case Release => (s.(lock := None), Done)
    case ResyncRead => (s, ResyncSync(s.display.last))
    case ResyncSync(seen) => (s.(display := s.display.(overlay := Claims(seen))), Done)
    case Done => (s, Done)
  }

  // A toggle begins: it acts for the presses whose flag it cleared, and for its
  // own press when it is the one that took the lock.
  function BeginToggle(s: State, t: Tid, press: Press, batch: set<Tid>): State {
    s.(flag := s.flag.(
         replayed := s.flag.replayed + batch,
         direct := if press.Direct? && t !in batch then s.flag.direct + {t} else s.flag.direct,
         replays := if press.Coalesced? then s.flag.replays + 1 else s.flag.replays))
  }

  // start_capture_impl: an unreadable engine fails the start.
  function StartEngine(s: State, c: Choice): State {
    if c.readable then s.(engine := Started(s.engine, c.loopbackUp, c.microphoneUp)) else s
  }

  function Observe(s: State, readable: bool): State {
    if !readable then s.(display := s.display.(streak := 0))
    else
      var (streak, shown) := Watchdog.Decision(s.display.streak, s.display.last, EventFromHealth(s.engine));
      var counted := s.(display := s.display.(streak := streak));
      if shown.Some? then Broadcast(counted, shown.value) else counted
  }

  // The state after a run; runs grow at the end, so Exec(b, acts[..n]) is the
  // state before action n.
  function Exec(consent: bool, acts: seq<Action>): State {
    if acts == [] then Init(consent)
    else Step(Exec(consent, acts[..|acts| - 1]), acts[|acts| - 1])
  }

  // ----- what every step keeps --------------------------------------------

  // The operations that run with the toggle lock held.
  predicate InCritical(pc: Pc) {
    pc.Clear? || pc.ReadActive? || pc.ReadConsent? || pc.Announce? || pc.Engage? || pc.Disengage?
    || pc.Truth? || pc.Load? || pc.IpcReadActive? || pc.IpcAnnounce? || pc.IpcAct? || pc.IpcTruth?
    || pc.TickObserve? || pc.TickLoad? || pc.Release?
  }

  // A holder that has not yet made its last look at the flag.
  predicate WillDrain(pc: Pc) {
    pc.Clear? || pc.ReadActive? || pc.ReadConsent? || pc.Announce? || pc.Engage? || pc.Disengage?
    || pc.Truth? || pc.Load? || pc.TickObserve? || pc.TickLoad?
  }

  predicate Fits(kind: Kind, pc: Pc) {
    match pc
    case TryFirst | StoreFlag | TrySecond => kind == PressThread
    case Clear(press) => if press.Direct? then kind == PressThread else kind == PressThread || kind == Tick
    case ReadActive(press, _) => if press.Direct? then kind == PressThread else kind == PressThread || kind == Tick
    case ReadConsent(press, _) => if press.Direct? then kind == PressThread else kind == PressThread || kind == Tick
    case Announce(press) => press.Direct? && kind == PressThread
    case Engage(press) => press.Direct? && kind == PressThread
    case Disengage | Truth | Load => kind == PressThread || kind == Tick
    case Gate | IpcAnnounce => kind == IpcStart
    case WaitLock | IpcReadActive | IpcAct | IpcTruth => kind == IpcStart || kind == IpcStop
    case TickTry | TickObserve | TickLoad => kind == Tick
    case Release => kind != Resync
    case ResyncRead | ResyncSync(_) => kind == Resync
    case Done => true
  }

  // The presses the holder has taken the flag of and not begun to act for.
  function InHand(s: State): set<Tid> {
    if s.lock.Some? && s.lock.value in s.actors && s.actors[s.lock.value].pc.ReadActive?
    then s.actors[s.lock.value].pc.batch
    else {}
  }

  ghost predicate LockInv(s: State) {
    && (s.lock.Some? ==> s.lock.value in s.actors)
    && (forall t :: t in s.actors ==> (InCritical(s.actors[t].pc) <==> s.lock == Some(t)))
    && (forall t :: t in s.actors ==> Fits(s.actors[t].kind, s.actors[t].pc))
  }

  ghost predicate PressInv(s: State) {
    var f := s.flag;
    && (f.pending <==> f.flagged != {})
    && f.stored == f.flagged + InHand(s) + f.replayed
    && f.flagged !! InHand(s) && f.flagged !! f.replayed && InHand(s) !! f.replayed
    && f.stored <= s.actors.Keys
    && (forall t :: t in s.actors ==> StoreFits(s.actors[t].pc, t in f.stored, t in f.overtaken))
  }

  // A press stores the flag between its two tries.
  predicate StoreFits(pc: Pc, stored: bool, overtaken: bool) {
    match pc
    case TryFirst | StoreFlag => !stored && !overtaken
    case TrySecond => stored && !overtaken
    case _ => true
  }

  // A press acts twice when it takes the lock on its second try after another
  // pass has cleared its flag.
  ghost predicate TwiceInv(s: State) {
    var f := s.flag;
    && f.overtaken <= f.replayed
    && f.direct <= s.actors.Keys
    && f.direct * f.stored <= f.overtaken
    && (forall t :: t in s.actors ==>
          DirectFits(s.actors[t].pc, t, t in f.direct, t in f.overtaken, t in f.stored, t in f.flagged))
  }

  predicate OpensDirect(pc: Pc) {
    (pc.Clear? && pc.press.Direct?) || (pc.ReadActive? && pc.press.Direct?)
  }

  // A press acts directly only after its own pass began; an overtaken one does
  // so always; one that took the lock with its flag standing clears it itself.
  predicate DirectFits(pc: Pc, t: Tid, direct: bool, overtaken: bool, stored: bool, flagged: bool) {
    && (direct ==> !pc.TryFirst? && !pc.StoreFlag? && !pc.TrySecond? && !OpensDirect(pc))
    && (overtaken ==> direct || OpensDirect(pc))
    && (stored && !overtaken && pc == Clear(Direct) ==> flagged)
    && (stored && !overtaken && pc.ReadActive? && pc.press.Direct? ==> t in pc.batch)
  }

  // One token per store that still owes a replay.
  function Owed(s: State): nat {
    (if s.flag.pending then 1 else 0)
    + (if s.lock.Some? && s.lock.value in s.actors && s.actors[s.lock.value].pc.ReadActive?
          && s.actors[s.lock.value].pc.press.Coalesced? then 1 else 0)
  }

  ghost predicate CountInv(s: State) {
    && s.flag.replays + Owed(s) <= s.flag.stores
    && (forall t :: t in s.actors && s.actors[t].pc == Clear(Coalesced) ==> s.flag.pending)
  }

  predicate ShowsStarting(pc: Pc) {
    pc.Engage? || pc.Truth? || pc.IpcAct? || pc.IpcTruth?
  }

  ghost predicate ShowInv(s: State) {
    && (s.display.last.phase == Starting ==>
          s.lock.Some? && s.lock.value in s.actors && ShowsStarting(s.actors[s.lock.value].pc))
    && s.display.streak <= 1
  }

  ghost predicate Inv(s: State) {
    LockInv(s) && PressInv(s) && TwiceInv(s) && CountInv(s) && ShowInv(s)
  }

  // ----- one step ------------------------------------------------------------

  // An operation that is not part of the flag's life.
  predicate Plain(pc: Pc) {
    !pc.TryFirst? && !pc.StoreFlag? && !pc.TrySecond? && !pc.Clear? && !pc.ReadActive?
  }

  // Actor t moves to pc on its side of the lock.
  ghost predicate Shifts(s: State, s': State, t: Tid, pc: Pc) {
    && t in s.actors && s'.lock == s.lock && s'.actors == s.actors[t := s.actors[t].(pc := pc)]
    && InCritical(pc) == InCritical(s.actors[t].pc) && Fits(s.actors[t].kind, pc)
  }

  lemma ShiftKeepsLock(s: State, s': State, t: Tid, pc: Pc)
    requires LockInv(s) && Shifts(s, s', t, pc)
    ensures LockInv(s')
  {
  }

  // An actor moves between two plain operations and the flag stays put.
  ghost predicate PlainShift(s: State, s': State, t: Tid, pc: Pc) {
    Shifts(s, s', t, pc) && Plain(s.actors[t].pc) && Plain(pc) && s'.flag == s.flag
  }

  lemma PlainKeepsPresses(s: State, s': State, t: Tid, pc: Pc)
    requires LockInv(s) && PressInv(s) && PlainShift(s, s', t, pc)
    ensures PressInv(s')
  {
    assert InHand(s') == InHand(s);
  }

  lemma PlainKeepsTwice(s: State, s': State, t: Tid, pc: Pc)
    requires LockInv(s) && TwiceInv(s) && PlainShift(s, s', t, pc)
    ensures TwiceInv(s')
  {
  }

  lemma PlainKeepsCount(s: State, s': State, t: Tid, pc: Pc)
    requires LockInv(s) && CountInv(s) && PlainShift(s, s', t, pc)
    ensures CountInv(s')
  {
  }

  lemma PlainMove(s: State, s': State, t: Tid, pc: Pc)
    requires LockInv(s) && PressInv(s) && TwiceInv(s) && CountInv(s) && PlainShift(s, s', t, pc)
    ensures LockInv(s') && PressInv(s') && TwiceInv(s') && CountInv(s')
  {
    ShiftKeepsLock(s, s', t, pc);
    PlainKeepsPresses(s, s', t, pc);
    PlainKeepsTwice(s, s', t, pc);
    PlainKeepsCount(s, s', t, pc);
  }

  lemma StoreKeepsPresses(s: State, t: Tid, c: Choice)
    requires LockInv(s) && PressInv(s) && t in s.actors && s.actors[t].pc.StoreFlag?
    ensures PressInv(Advance(s, t, c))
  {
    assert InHand(Advance(s, t, c)) == InHand(s);
  }

  lemma StoreKeepsTwice(s: State, t: Tid, c: Choice)
    requires LockInv(s) && PressInv(s) && TwiceInv(s) && t in s.actors && s.actors[t].pc.StoreFlag?
    ensures TwiceInv(Advance(s, t, c))
  {
  }

  lemma StoreMove(s: State, t: Tid, c: Choice)
    requires Inv(s) && t in s.actors && s.actors[t].pc.StoreFlag?
    ensures Inv(Advance(s, t, c))
  {
    ShiftKeepsLock(s, Advance(s, t, c), t, TrySecond);
    StoreKeepsPresses(s, t, c);
    StoreKeepsTwice(s, t, c);
  }

  lemma ClearMove(s: State, t: Tid, c: Choice)
    requires Inv(s) && t in s.actors && s.actors[t].pc.Clear?
    ensures Inv(Advance(s, t, c))
  {
    assert InHand(s) == {};
    assert InHand(Advance(s, t, c)) == s.flag.flagged;
  }

  lemma BeginKeepsPresses(s: State, t: Tid, c: Choice)
    requires LockInv(s) && PressInv(s) && t in s.actors && s.actors[t].pc.ReadActive?
    ensures PressInv(Advance(s, t, c))
  {
    assert InHand(s) == s.actors[t].pc.batch;
    assert InHand(Advance(s, t, c)) == {};
  }

  lemma BeginKeepsTwice(s: State, t: Tid, c: Choice)
    requires LockInv(s) && PressInv(s) && TwiceInv(s) && t in s.actors && s.actors[t].pc.ReadActive?
    ensures TwiceInv(Advance(s, t, c))
  {
    assert InHand(s) == s.actors[t].pc.batch;
  }

  lemma BeginMove(s: State, t: Tid, c: Choice)
    requires Inv(s) && t in s.actors && s.actors[t].pc.ReadActive?
    ensures Inv(Advance(s, t, c))
  {
    BeginKeepsPresses(s, t, c);
    BeginKeepsTwice(s, t, c);
  }

  // A press finds the lock free on its first or second try.
  predicate FreeForPress(s: State, t: Tid) {
    t in s.actors && s.lock.None? && (s.actors[t].pc.TryFirst? || s.actors[t].pc.TrySecond?)
  }

  lemma PressTakeKeepsPresses(s: State, t: Tid, c: Choice)
    requires LockInv(s) && PressInv(s) && FreeForPress(s, t)
    ensures PressInv(Advance(s, t, c))
  {
    assert InHand(s) == {} && InHand(Advance(s, t, c)) == {};
  }

  lemma PressTakeKeepsTwice(s: State, t: Tid, c: Choice)
    requires LockInv(s) && PressInv(s) && TwiceInv(s) && FreeForPress(s, t)
    ensures TwiceInv(Advance(s, t, c))
  {
    assert InHand(s) == {};
  }

  lemma PressTakeMove(s: State, t: Tid, c: Choice)
    requires Inv(s) && FreeForPress(s, t)
    ensures Inv(Advance(s, t, c))
  {
    PressTakeKeepsPresses(s, t, c);
    PressTakeKeepsTwice(s, t, c);
  }

  lemma FirstBusyMove(s: State, t: Tid, c: Choice)
    requires Inv(s) && t in s.actors && s.lock.Some? && s.actors[t].pc.TryFirst?
    ensures Inv(Advance(s, t, c))
  {
    assert InHand(Advance(s, t, c)) == InHand(s);
  }

  lemma SecondBusyMove(s: State, t: Tid, c: Choice)
    requires Inv(s) && t in s.actors && s.lock.Some? && s.actors[t].pc.TrySecond?
    ensures Inv(Advance(s, t, c))
  {
    assert InHand(Advance(s, t, c)) == InHand(s);
  }

  // A blocking call or a tick finds the lock free.
  predicate FreeForOther(s: State, t: Tid) {
    t in s.actors && s.lock.None? && (s.actors[t].pc.WaitLock? || s.actors[t].pc.TickTry?)
  }

  lemma OtherTakeKeepsPresses(s: State, t: Tid, c: Choice)
    requires LockInv(s) && PressInv(s) && FreeForOther(s, t)
    ensures PressInv(Advance(s, t, c))
  {
    assert InHand(s) == {} && InHand(Advance(s, t, c)) == {};
  }

  lemma OtherTakeKeepsTwice(s: State, t: Tid, c: Choice)
    requires LockInv(s) && TwiceInv(s) && FreeForOther(s, t)
    ensures TwiceInv(Advance(s, t, c))
  {
  }

  lemma OtherTakeMove(s: State, t: Tid, c: Choice)
    requires Inv(s) && FreeForOther(s, t)
    ensures Inv(Advance(s, t, c))
  {
    OtherTakeKeepsPresses(s, t, c);
    OtherTakeKeepsTwice(s, t, c);
  }

  predicate FindsFlag(s: State, t: Tid) {
    t in s.actors && s.flag.pending && (s.actors[t].pc.Load? || s.actors[t].pc.TickLoad?)
  }

  lemma LoadKeepsPresses(s: State, t: Tid, c: Choice)
    requires LockInv(s) && PressInv(s) && FindsFlag(s, t)
    ensures PressInv(Advance(s, t, c))
  {
    assert InHand(s) == {} && InHand(Advance(s, t, c)) == {};
  }

  lemma LoadKeepsTwice(s: State, t: Tid, c: Choice)
    requires LockInv(s) && TwiceInv(s) && FindsFlag(s, t)
    ensures TwiceInv(Advance(s, t, c))
  {
  }

  lemma LoadMove(s: State, t: Tid, c: Choice)
    requires Inv(s) && t in s.actors && (s.actors[t].pc.Load? || s.actors[t].pc.TickLoad?)
    ensures Inv(Advance(s, t, c))
  {
    if s.flag.pending {
      ShiftKeepsLock(s, Advance(s, t, c), t, Clear(Coalesced));
      LoadKeepsPresses(s, t, c);
      LoadKeepsTwice(s, t, c);
    } else {
      PlainMove(s, Advance(s, t, c), t, Release);
    }
  }

  lemma ReleaseKeepsPresses(s: State, t: Tid, c: Choice)
    requires LockInv(s) && PressInv(s) && t in s.actors && s.actors[t].pc.Release?
    ensures PressInv(Advance(s, t, c))
  {
    assert InHand(s) == {} && InHand(Advance(s, t, c)) == {};
  }

  lemma ReleaseMove(s: State, t: Tid, c: Choice)
    requires Inv(s) && t in s.actors && s.actors[t].pc.Release?
    ensures Inv(Advance(s, t, c))
  {
    ReleaseKeepsPresses(s, t, c);
    assert ShowInv(Advance(s, t, c));
  }

  // The operations that leave the flag alone and keep or lack the lock throughout.
  predicate Quiet(pc: Pc) {
    pc.ReadConsent? || Acting(pc) || Blocking(pc) || Watching(pc)
  }

  predicate Acting(pc: Pc) {
    pc.Announce? || pc.Engage? || pc.Disengage? || pc.Truth?
  }

  predicate Blocking(pc: Pc) {
    pc.Gate? || pc.IpcReadActive? || pc.IpcAnnounce? || pc.IpcAct? || pc.IpcTruth?
  }

  predicate Watching(pc: Pc) {
    pc.TickObserve? || pc.ResyncRead? || pc.ResyncSync?
  }

  // Only t moves, between plain operations on the same side of the lock.
  ghost predicate Framed(s: State, s': State, t: Tid)
    requires t in s.actors
  {
    && s'.lock == s.lock && s'.flag == s.flag
    && t in s'.actors && s'.actors == s.actors[t := s.actors[t].(pc := s'.actors[t].pc)]
    && Plain(s'.actors[t].pc) && InCritical(s'.actors[t].pc) == InCritical(s.actors[t].pc)
    && Fits(s.actors[t].kind, s'.actors[t].pc)
  }

  lemma QuietMove(s: State, t: Tid, c: Choice)
    requires Inv(s) && t in s.actors && Quiet(s.actors[t].pc)
    ensures Inv(Advance(s, t, c))
  {
    var s' := Advance(s, t, c);
    if s.actors[t].pc.ReadConsent? {
      ConsentFrame(s, t, c);
      ConsentShows(s, t, c);
    } else if Acting(s.actors[t].pc) {
      ActingFrame(s, t, c);
      ActingShows(s, t, c);
    } else if Blocking(s.actors[t].pc) {
      BlockingFrame(s, t, c);
      BlockingShows(s, t, c);
    } else {
      WatchingFrame(s, t, c);
      WatchingShows(s, t, c);
    }
    PlainMove(s, s', t, s'.actors[t].pc);
  }

  lemma ConsentFrame(s: State, t: Tid, c: Choice)
    requires t in s.actors && s.actors[t].pc.ReadConsent? && Fits(s.actors[t].kind, s.actors[t].pc)
    ensures Framed(s, Advance(s, t, c), t)
  {
  }

  lemma ActingFrame(s: State, t: Tid, c: Choice)
    requires t in s.actors && Acting(s.actors[t].pc) && Fits(s.actors[t].kind, s.actors[t].pc)
    ensures Framed(s, Advance(s, t, c), t)
  {
  }

  lemma BlockingFrame(s: State, t: Tid, c: Choice)
    requires t in s.actors && Blocking(s.actors[t].pc) && Fits(s.actors[t].kind, s.actors[t].pc)
    ensures Framed(s, Advance(s, t, c), t)
  {
  }

  lemma WatchingFrame(s: State, t: Tid, c: Choice)
    requires t in s.actors && Watching(s.actors[t].pc) && Fits(s.actors[t].kind, s.actors[t].pc)
    ensures Framed(s, Advance(s, t, c), t)
  {
  }

  lemma ConsentShows(s: State, t: Tid, c: Choice)
    requires LockInv(s) && ShowInv(s) && t in s.actors && s.actors[t].pc.ReadConsent?
    ensures ShowInv(Advance(s, t, c))
  {
  }

  lemma ActingShows(s: State, t: Tid, c: Choice)
    requires LockInv(s) && ShowInv(s) && t in s.actors && Acting(s.actors[t].pc)
    ensures ShowInv(Advance(s, t, c))
  {
  }

  lemma BlockingShows(s: State, t: Tid, c: Choice)
    requires LockInv(s) && ShowInv(s) && t in s.actors && Blocking(s.actors[t].pc)
    ensures ShowInv(Advance(s, t, c))
  {
  }

  lemma WatchingShows(s: State, t: Tid, c: Choice)
    requires LockInv(s) && ShowInv(s) && t in s.actors && Watching(s.actors[t].pc)
    ensures ShowInv(Advance(s, t, c))
  {
    if s.actors[t].pc.TickObserve? {
      Watchdog.DecisionKeepsItLow(s.display.streak, s.display.last, EventFromHealth(s.engine));
    }
  }

  // A blocked call waits, a busy tick gives up and forgets its count.
  lemma OtherBusyMove(s: State, t: Tid, c: Choice)
    requires Inv(s) && t in s.actors && s.lock.Some?
    requires s.actors[t].pc.WaitLock? || s.actors[t].pc.TickTry?
    ensures Inv(Advance(s, t, c))
  {
    var s' := Advance(s, t, c);
    PlainMove(s, s', t, s'.actors[t].pc);
  }

  lemma SpawnMove(s: State, t: Tid, kind: Kind)
    requires Inv(s) && t !in s.actors
    ensures Inv(Step(s, Spawn(t, kind)))
  {
    var s' := Step(s, Spawn(t, kind));
    assert InHand(s') == InHand(s);
    SpawnKeepsPresses(s, t, kind);
    assert LockInv(s') by {
      assert !InCritical(FirstPc(kind)) && Fits(kind, FirstPc(kind));
    }
    assert ShowInv(s');
  }

  lemma SpawnKeepsPresses(s: State, t: Tid, kind: Kind)
    requires LockInv(s) && PressInv(s) && TwiceInv(s) && CountInv(s) && t !in s.actors
    ensures var s' := Step(s, Spawn(t, kind)); PressInv(s') && TwiceInv(s') && CountInv(s')
  {
    var s' := Step(s, Spawn(t, kind));
    assert InHand(s') == InHand(s);
    assert t !in s.flag.stored && t !in s.flag.overtaken && t !in s.flag.direct;
  }

  lemma StepKeepsInv(s: State, a: Action)
    requires Inv(s)
    ensures Inv(Step(s, a))
  {
    match a
    case Spawn(t, kind) =>
      if t !in s.actors {
        SpawnMove(s, t, kind);
      }
    case Run(t, c) =>
      if t in s.actors {
        AdvanceKeepsInv(s, t, c);
      }
    case Drift(_, _) => assert InHand(Step(s, a)) == InHand(s);
    case SetConsent(_) => assert InHand(Step(s, a)) == InHand(s);
  }

  lemma AdvanceKeepsInv(s: State, t: Tid, c: Choice)
    requires Inv(s) && t in s.actors
    ensures Inv(Advance(s, t, c))
  {
    match s.actors[t].pc
    case TryFirst => if s.lock.None? { PressTakeMove(s, t, c); } else { FirstBusyMove(s, t, c); }
    case TrySecond => if s.lock.None? { PressTakeMove(s, t, c); } else { SecondBusyMove(s, t, c); }
    case StoreFlag => StoreMove(s, t, c);
    case Clear(_) => ClearMove(s, t, c);
    case ReadActive(_, _) => BeginMove(s, t, c);
    case Load => LoadMove(s, t, c);
    case TickLoad => LoadMove(s, t, c);
    case Release => ReleaseMove(s, t, c);
    case WaitLock => if s.lock.None? { OtherTakeMove(s, t, c); } else { OtherBusyMove(s, t, c); }
    case TickTry => if s.lock.None? { OtherTakeMove(s, t, c); } else { OtherBusyMove(s, t, c); }
    case Done =>
    case _ => QuietMove(s, t, c);
  }

  lemma {:induction false} RunKeepsInv(consent: bool, acts: seq<Action>)
    ensures Inv(Exec(consent, acts))
  {
    if acts != [] {
      RunKeepsInv(consent, acts[..|acts| - 1]);
      StepKeepsInv(Exec(consent, acts[..|acts| - 1]), acts[|acts| - 1]);
    }
  }
}
