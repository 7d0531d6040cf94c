// The watchdog's damping of degraded states (src-tauri/src/capture_watchdog.rs)
// and the overlay's start edge (src-tauri/src/overlay.rs).
module Watchdog {
  import opened CaptureState
  import opened Wrappers

  // Consecutive observations a newly degraded state must persist before it is
  // shown (DEGRADED_CONFIRM_TICKS).
  const CONFIRM_TICKS := 2

  const U8_MAX := 255

  function SaturatingSucc(count: nat): nat {
    if count < U8_MAX then count + 1 else U8_MAX
  }

  // Only entering degraded waits for confirmation.
  predicate Entering(last: Event, observed: Event) {
    observed.phase.Degraded? && !last.phase.Degraded?
  }

  // The new counter and the event to broadcast, if any.
  function Decision(count: nat, last: Event, observed: Event): (nat, Option<Event>) {
    if observed == last then (0, None)
    else if Entering(last, observed) && SaturatingSucc(count) < CONFIRM_TICKS then (SaturatingSucc(count), None)
    else (0, Some(observed))
  }

  lemma DecisionKeepsItLow(count: nat, last: Event, observed: Event)
    requires count <= 1
    ensures Decision(count, last, observed).0 <= 1
  {
  }

  class DegradedDebounce {
    var consecutiveDegraded: nat

    constructor ()
      ensures consecutiveDegraded == 0
    {
      consecutiveDegraded := 0;
    }

    method Decide(lastBroadcast: Event, observed: Event) returns (shown: Option<Event>)
      modifies this
      ensures (consecutiveDegraded, shown) == Decision(old(consecutiveDegraded), lastBroadcast, observed)
    {
      if observed == lastBroadcast {
        consecutiveDegraded := 0;
        return None;
      }
      if observed.phase.Degraded? && !lastBroadcast.phase.Degraded? {
        consecutiveDegraded := if consecutiveDegraded < U8_MAX then consecutiveDegraded + 1 else U8_MAX;
        if consecutiveDegraded < CONFIRM_TICKS {
          return None;
        }
      }
      consecutiveDegraded := 0;
      return Some(observed);
    }

    method Reset()
      modifies this
      ensures consecutiveDegraded == 0
    {
      consecutiveDegraded := 0;
    }
  }

  // ----- runs of the watchdog ---------------------------------------------------

  // What reaches the watchdog and the display: a tick that observes, a tick that
  // cannot, and a broadcast some other path makes in between.
  datatype Input = Observed(event: Event) | Blind | Elsewhere(event: Event)

  datatype Watch = Watch(count: nat, last: Event)

  function Take(w: Watch, input: Input): Watch {
    match input
    case Observed(event) =>
      var (count, shown) := Decision(w.count, w.last, event);
      Watch(count, if shown.Some? then shown.value else w.last)
    case Blind => w.(count := 0)
    case Elsewhere(event) => w.(last := event)
  }

  // The state after a run that started with nothing shown.
  function After(inputs: seq<Input>): Watch {
    if inputs == [] then Watch(0, IDLE_EVENT)
    else Take(After(inputs[..|inputs| - 1]), inputs[|inputs| - 1])
  }

  // The counter never reaches the confirming count, so it never saturates.
  lemma {:induction false} CounterStaysBelowTwo(inputs: seq<Input>)
    ensures After(inputs).count < CONFIRM_TICKS
  {
    if inputs != [] {
      var before := After(inputs[..|inputs| - 1]);
      CounterStaysBelowTwo(inputs[..|inputs| - 1]);
      if inputs[|inputs| - 1].Observed? {
        DecisionKeepsItLow(before.count, before.last, inputs[|inputs| - 1].event);
      }
    }
  }

  function LastAt(inputs: seq<Input>, k: nat): Event
    requires k <= |inputs|
  {
    After(inputs[..k]).last
  }

  // Tick j observed a newly degraded state and held it back.
  predicate HeldBack(inputs: seq<Input>, j: nat) {
    j < |inputs| && inputs[j].Observed? && inputs[j].event.phase == Degraded && LastAt(inputs, j).phase != Degraded
    && LastAt(inputs, j + 1) == LastAt(inputs, j)
  }

  // Tick j is the watchdog's latest input before input k.
  predicate LatestTick(inputs: seq<Input>, j: nat, k: nat) {
    j < k <= |inputs| && !inputs[j].Elsewhere? && forall i :: j < i < k ==> inputs[i].Elsewhere?
  }

  // The counter remembers exactly whether the latest tick was held back.
  lemma {:induction false} CounterMeans(inputs: seq<Input>, k: nat)
    requires k <= |inputs|
    ensures After(inputs[..k]).count == 1 <==> exists j :: 0 <= j < k && LatestTick(inputs, j, k) && HeldBack(inputs, j)
  {
    CounterStaysBelowTwo(inputs[..k]);
    if k > 0 {
      CounterMeans(inputs, k - 1);
      CounterStaysBelowTwo(inputs[..k - 1]);
      var prefix := inputs[..k];
      assert prefix[..k - 1] == inputs[..k - 1] && prefix[k - 1] == inputs[k - 1];
      if inputs[k - 1].Elsewhere? {
        if j :| 0 <= j < k - 1 && LatestTick(inputs, j, k - 1) && HeldBack(inputs, j) {
          assert LatestTick(inputs, j, k);
        }
        if j :| 0 <= j < k && LatestTick(inputs, j, k) && HeldBack(inputs, j) {
          assert LatestTick(inputs, j, k - 1);
        }
      } else {
        assert LatestTick(inputs, k - 1, k);
        assert forall j :: 0 <= j < k && LatestTick(inputs, j, k) ==> j == k - 1;
      }
    }
  }

  // A degraded observation replaces a non-degraded display exactly when the
  // watchdog's latest input was itself a newly degraded observation held back:
  // no reset, no blind tick, no recovery in between.
  lemma ShowsDegradedIff(inputs: seq<Input>, k: nat)
    requires k < |inputs| && inputs[k].Observed?
    requires inputs[k].event.phase == Degraded && LastAt(inputs, k).phase != Degraded
    ensures LastAt(inputs, k + 1) == inputs[k].event <==>
            exists j :: 0 <= j < k && LatestTick(inputs, j, k) && HeldBack(inputs, j)
  {
    CounterMeans(inputs, k);
    CounterStaysBelowTwo(inputs[..k]);
    assert inputs[..k + 1][..k] == inputs[..k];
  }

  // Everything else is shown at once.
  lemma OtherTruthTakesOneTick(inputs: seq<Input>, event: Event)
    requires event.phase == Degraded ==> After(inputs).last.phase == Degraded
    ensures After(inputs + [Observed(event)]).last == event
  {
    assert (inputs + [Observed(event)])[..|inputs|] == inputs;
  }

  // Two ticks in a row that see the same state leave it on screen.
  lemma TwoTicksConverge(inputs: seq<Input>, event: Event)
    ensures After(inputs + [Observed(event), Observed(event)]).last == event
  {
    var once := inputs + [Observed(event)];
    var twice := inputs + [Observed(event), Observed(event)];
    assert once[..|inputs|] == inputs && twice[..|once|] == once;
  }

  // ----- the overlay's start edge -----------------------------------------------

  class OverlayController {
    var captureWasActive: bool

    constructor ()
      ensures !captureWasActive
    {
      captureWasActive := false;
    }

    // Swap and compare: is this event the start of a new recording?
    method ObserveCaptureActive(nowActive: bool) returns (start: bool)
      modifies this
      ensures captureWasActive == nowActive
      ensures start == IsCaptureStart(old(captureWasActive), nowActive)
    {
      var wasActive := captureWasActive;
      captureWasActive := nowActive;
      start := IsCaptureStart(wasActive, nowActive);
    }
  }

  predicate IsCaptureStart(wasActive: bool, nowActive: bool) {
    !wasActive && nowActive
  }

  // One call of sync: a broadcast, or a resync replaying what it read.
  datatype Call = Broadcast(event: Event) | Replay(event: Event)

  // What the controller holds after a sequence of calls.
  function Held(calls: seq<Call>): bool {
    if calls == [] then false else Claims(calls[|calls| - 1].event)
  }

  predicate Fires(calls: seq<Call>, k: nat)
    requires k < |calls|
  {
    IsCaptureStart(Held(calls[..k]), Claims(calls[k].event))
  }

  // The last thing broadcast before call k.
  function LastBroadcast(calls: seq<Call>, k: nat): Event
    requires k <= |calls|
  {
    if k == 0 then IDLE_EVENT
    else if calls[k - 1].Broadcast? then calls[k - 1].event
    else LastBroadcast(calls, k - 1)
  }

  predicate ReplaysAreFresh(calls: seq<Call>) {
    forall i :: 0 <= i < |calls| && calls[i].Replay? ==> calls[i].event == LastBroadcast(calls, i)
  }

  lemma {:induction false} FreshReplaysHoldTheLast(calls: seq<Call>, k: nat)
    requires ReplaysAreFresh(calls) && k <= |calls|
    ensures Held(calls[..k]) <==> LastBroadcast(calls, k).phase != Idle
  {
    if k > 0 {
      FreshReplaysHoldTheLast(calls, k - 1);
      assert calls[..k][..k - 1] == calls[..k - 1];
    }
  }

  // Under fresh replays the start edge fires exactly on the idle-to-active steps
  // of the broadcast sequence.
  lemma FreshReplaysFireRightly(calls: seq<Call>, k: nat)
    requires ReplaysAreFresh(calls) && k < |calls|
    ensures FiresRightly(calls, k)
  {
    FreshReplaysHoldTheLast(calls, k);
  }

  // The edge fires at call k exactly when call k is an idle-to-active step of the
  // broadcast sequence.
  predicate FiresRightly(calls: seq<Call>, k: nat)
    requires k < |calls|
  {
    Fires(calls, k) <==>
      calls[k].Broadcast? && calls[k].event.phase != Idle && LastBroadcast(calls, k).phase == Idle
  }

  // What is held is what the last broadcast claims exactly when the latest call
  // was a broadcast, or a replay that claims the same.
  lemma HeldIsTheLastIff(calls: seq<Call>, k: nat)
    requires k <= |calls|
    ensures (Held(calls[..k]) <==> LastBroadcast(calls, k).phase != Idle)
            <==> k == 0 || calls[k - 1].Broadcast?
                 || (calls[k - 1].event.phase == Idle <==> LastBroadcast(calls, k - 1).phase == Idle)
  {
  }

  // On every sequence of broadcasts and resyncs, the edge is right at call k
  // exactly when that call claims nothing, or is a broadcast that finds held what
  // the last broadcast claims, or is a replay that finds a capture held.
  lemma StartEdgeIff(calls: seq<Call>, k: nat)
    requires k < |calls|
    ensures FiresRightly(calls, k)
            <==> (calls[k].event.phase == Idle
                  || if calls[k].Broadcast? then Held(calls[..k]) == (LastBroadcast(calls, k).phase != Idle)
                     else Held(calls[..k]))
  {
  }

  // A stale replay fires an edge no broadcast made, or swallows the next one.
  lemma AStaleReplayBreaksTheEdge(live: Event)
    requires live.phase != Idle
    ensures Fires([Broadcast(live), Broadcast(IDLE_EVENT), Replay(live)], 2)
    ensures !Fires([Broadcast(live), Broadcast(IDLE_EVENT), Replay(live), Broadcast(live)], 3)
  {
    var calls := [Broadcast(live), Broadcast(IDLE_EVENT), Replay(live)];
    assert calls[..2] == [Broadcast(live), Broadcast(IDLE_EVENT)];
    var longer := calls + [Broadcast(live)];
    assert longer[..3] == calls;
  }
}
