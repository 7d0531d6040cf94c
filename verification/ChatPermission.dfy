// How one permission card is resolved when a command and the pump race for it:
// a card is taken from the slot in one lock hold, and written, recorded or put
// back in later steps (src-tauri/src/chat_cmds.rs). Commands run one at a time
// (they hold the session lock throughout); the pump runs beside them.
module ChatPermission {
  import opened Wrappers
  import opened ChatModel

  type Id = Text

  datatype Rec = Rec(id: Id, allowed: bool, resolution: Resolution)

  // What the command in progress has done with a card.
  datatype Command =
    | Idle
    | Took(id: Id, allow: bool, resolution: Resolution)
    | Wrote(id: Id, allow: bool, resolution: Resolution)

  // Where the pump stands; Closing holds a card handle_exit took.
  datatype PumpPc = Serving | Closing(id: Id) | Finished

  // `slot`, `command`, `pump` and `records` are the program's own. The rest is
  // history: requests seen, cards overwritten in the slot, responses the child
  // was sent, answers among them that allowed.
  datatype State = State(
    slot: Option<Id>,
    command: Command,
    pump: PumpPc,
    records: seq<Rec>,
    registered: set<Id>,
    overwritten: set<Id>,
    delivered: set<Id>,
    allowedByUser: set<Id>)

  datatype Action =
    | Register(id: Id)                       // handle_item, a new request
    | Answer(id: Id, allow: bool)            // chat_permission_respond takes
    | Deny(resolution: Resolution)           // deny_pending takes
    | Write(succeeds: bool)                  // write_line, or the card goes back
    | Record                                 // the audit record and the entry
    | ExitTakes                              // handle_exit looks
    | ExitRecords

  const INIT := State(None, Idle, Serving, [], {}, {}, {}, {})

  function Put(s: State, id: Id): State {
    s.(slot := Some(id),
       overwritten := if s.slot.Some? then s.overwritten + {s.slot.value} else s.overwritten)
  }

  function Step(s: State, a: Action): State {
    match a
    case Register(id) =>
      if s.pump.Serving? && id !in s.registered
      then Put(s.(registered := s.registered + {id}), id)
      else s
    case Answer(id, allow) =>
      if s.command.Idle? && s.slot == Some(id) then s.(slot := None, command := Took(id, allow, User)) else s
    case Deny(resolution) =>
      if s.command.Idle? && s.slot.Some? && !resolution.User?
      then s.(slot := None, command := Took(s.slot.value, false, resolution))
      else s
    case Write(succeeds) =>
      if !s.command.Took? then s
      else
        var Took(id, allow, resolution) := s.command;
        if succeeds then
          s.(command := Wrote(id, allow, resolution), delivered := s.delivered + {id},
             allowedByUser := if allow && resolution.User? then s.allowedByUser + {id} else s.allowedByUser)
        else if resolution.User? then Put(s.(command := Idle), id)
        else s.(command := Wrote(id, allow, resolution))
    case Record =>
      if !s.command.Wrote? then s
      else s.(command := Idle,
              records := s.records + [Rec(s.command.id, s.command.allow, s.command.resolution)])
    case ExitTakes =>
      if !s.pump.Serving? then s
      else if s.slot.None? then s.(pump := Finished)
      else s.(slot := None, pump := Closing(s.slot.value))
    case ExitRecords =>
      if !s.pump.Closing? then s
      else s.(pump := Finished, records := s.records + [Rec(s.pump.id, false, SessionClosed)])
  }

  function Exec(acts: seq<Action>): State {
    if acts == [] then INIT else Step(Exec(acts[..|acts| - 1]), acts[|acts| - 1])
  }

  // ----- one place for each card ----------------------------------------------

  function InSlot(s: State): set<Id> {
    if s.slot.Some? then {s.slot.value} else {}
  }

  function InCommand(s: State): set<Id> {
    if s.command.Idle? then {} else {s.command.id}
  }

  function InExit(s: State): set<Id> {
    if s.pump.Closing? then {s.pump.id} else {}
  }

  function Recorded(s: State): set<Id> {
    set i | 0 <= i < |s.records| :: s.records[i].id
  }

  predicate Distinct(records: seq<Rec>) {
    forall i, j :: 0 <= i < j < |records| ==> records[i].id != records[j].id
  }

  // Every request is in exactly one place: waiting in the slot, held by the
  // command, held by the exit handler, recorded, or lost to a later one.
  ghost predicate Inv(s: State) {
    && s.registered == InSlot(s) + InCommand(s) + InExit(s) + Recorded(s) + s.overwritten
    && InSlot(s) !! InCommand(s) !! InExit(s) !! Recorded(s) !! s.overwritten
    && Distinct(s.records)
    && (s.command.Took? || s.command.Wrote? ==> (s.command.allow ==> s.command.resolution.User?))
    && (s.command.Wrote? && s.command.allow ==> s.command.id in s.allowedByUser)
    && (forall i :: 0 <= i < |s.records| && s.records[i].allowed ==>
          s.records[i].resolution.User? && s.records[i].id in s.allowedByUser)
    && (!s.pump.Serving? && s.slot.Some? ==> s.command.Idle?)
  }

  lemma RecordedGrows(s: State, s': State, r: Rec)
    requires s'.records == s.records + [r]
    ensures Recorded(s') == Recorded(s) + {r.id}
  {
    assert s'.records[|s.records|] == r;
    forall id | id in Recorded(s) ensures id in Recorded(s') {
      var i :| 0 <= i < |s.records| && s.records[i].id == id;
      assert s'.records[i].id == id;
    }
  }

  lemma StepKeepsInv(s: State, a: Action)
    requires Inv(s)
    ensures Inv(Step(s, a))
  {
    var s' := Step(s, a);
    if s'.records == s.records {
      assert Recorded(s') == Recorded(s);
    } else {
      RecordedGrows(s, s', s'.records[|s.records|]);
    }
  }

  lemma {:induction false} RunKeepsInv(acts: seq<Action>)
    ensures Inv(Exec(acts))
  {
    if acts != [] {
      RunKeepsInv(acts[..|acts| - 1]);
      StepKeepsInv(Exec(acts[..|acts| - 1]), acts[|acts| - 1]);
    }
  }

  // Over every interleaving a request gets at most one record, and no record is
  // taken back.
  lemma AtMostOneRecord(acts: seq<Action>, i: nat, j: nat)
    requires i < j < |Exec(acts).records|
    ensures Exec(acts).records[i].id != Exec(acts).records[j].id
  {
    RunKeepsInv(acts);
  }

  lemma RecordsAreFinal(s: State, a: Action)
    ensures s.records <= Step(s, a).records
  {
  }

  // A record allows only what the user allowed, in an answer whose write to the
  // child succeeded; every other end is a denial.
  lemma DenialIsTheDefault(acts: seq<Action>, i: nat)
    requires i < |Exec(acts).records| && Exec(acts).records[i].allowed
    ensures Exec(acts).records[i].resolution == User
    ensures exists k :: 0 <= k < |acts| && AllowsAt(acts, k, Exec(acts).records[i].id)
  {
    RunKeepsInv(acts);
    AllowedMeans(acts, Exec(acts).records[i].id);
  }

  // At step k the user's allow for this request is written to the child.
  predicate AllowsAt(acts: seq<Action>, k: nat, id: Id) {
    k < |acts| && acts[k] == Write(true) && Exec(acts[..k]).command == Took(id, true, User)
  }

  lemma {:induction false} AllowedMeans(acts: seq<Action>, id: Id)
    requires id in Exec(acts).allowedByUser
    ensures exists k :: 0 <= k < |acts| && AllowsAt(acts, k, id)
  {
    if acts != [] {
      var before := acts[..|acts| - 1];
      if id in Exec(before).allowedByUser {
        AllowedMeans(before, id);
        var k :| 0 <= k < |before| && AllowsAt(before, k, id);
        assert before[..k] == acts[..k] && AllowsAt(acts, k, id);
      } else {
        assert AllowsAt(acts, |acts| - 1, id);
      }
    }
  }

  // ----- after the exit ----------------------------------------------------------

  ghost predicate Settled(s: State) {
    s.pump.Finished? && s.command.Idle?
  }

  // The child asks again only when it has an answer to everything it asked.
  ghost predicate ChildWaits(acts: seq<Action>) {
    forall k :: 0 <= k < |acts| && acts[k].Register? && acts[k].id !in Exec(acts[..k]).registered ==>
      Exec(acts[..k]).registered <= Exec(acts[..k]).delivered
  }

  ghost predicate WaitInv(s: State) {
    && s.overwritten == {}
    && InSlot(s) !! s.delivered
    && (s.command.Took? ==> s.slot.None? && s.command.id !in s.delivered)
    && s.delivered <= s.registered
  }

  lemma WaitStep(s: State, a: Action)
    requires Inv(s) && WaitInv(s)
    requires a.Register? && a.id !in s.registered ==> s.registered <= s.delivered
    ensures WaitInv(Step(s, a))
  {
    if s.slot.Some? {
      assert s.slot.value in s.registered;
    }
    if s.command.Took? {
      assert s.command.id in s.registered;
    }
  }

  lemma {:induction false} WaitRun(acts: seq<Action>)
    requires ChildWaits(acts)
    ensures WaitInv(Exec(acts))
  {
    if acts != [] {
      var before := acts[..|acts| - 1];
      assert forall k :: 0 <= k < |before| ==> before[..k] == acts[..k];
      WaitRun(before);
      RunKeepsInv(before);
      WaitStep(Exec(before), acts[|acts| - 1]);
    }
  }

  // At step k the write of the user's answer to this request fails, the pump has
  // already looked at the slot, and the card goes back.
  predicate ReturnsLate(acts: seq<Action>, k: nat, id: Id) {
    && k < |acts| && acts[k] == Write(false)
    && var s := Exec(acts[..k]);
       s.command.Took? && s.command.id == id && s.command.resolution.User? && !s.pump.Serving?
  }

  predicate Takes(a: Action, id: Id) {
    (a.Answer? && a.id == id) || (a.Deny? && !a.resolution.User?)
  }

  // The card came back late and nobody took it again.
  ghost predicate LeftBehind(acts: seq<Action>, k: nat, id: Id) {
    ReturnsLate(acts, k, id) && forall j :: k < j < |acts| ==> !Takes(acts[j], id)
  }

  lemma LeftBehindSnoc(acts: seq<Action>, id: Id)
    requires acts != []
    ensures var n := |acts| - 1;
            (exists k :: 0 <= k < |acts| && LeftBehind(acts, k, id))
            <==> (ReturnsLate(acts, n, id)
                  || ((exists k :: 0 <= k < n && LeftBehind(acts[..n], k, id)) && !Takes(acts[n], id)))
  {
    var n := |acts| - 1;
    var front := acts[..n];
    forall k | 0 <= k < n ensures LeftBehind(acts, k, id) <==> LeftBehind(front, k, id) && !Takes(acts[n], id) {
      assert front[..k] == acts[..k];
      if LeftBehind(acts, k, id) {
        assert !Takes(acts[n], id);
      }
    }
    if ReturnsLate(acts, n, id) {
      assert LeftBehind(acts, n, id);
    }
  }

  // After the exit handler has looked, the slot holds a card exactly when it was
  // left behind.
  lemma {:induction false} SlotHoldsIff(acts: seq<Action>, id: Id)
    ensures !Exec(acts).pump.Serving? && Exec(acts).slot == Some(id)
            <==> exists k :: 0 <= k < |acts| && LeftBehind(acts, k, id)
  {
    if acts != [] {
      var n := |acts| - 1;
      SlotHoldsIff(acts[..n], id);
      RunKeepsInv(acts[..n]);
      LeftBehindSnoc(acts, id);
    }
  }

  // Once the exit has been handled and no command is under way, a request has no
  // record exactly when a failed answer put its card back after the exit handler
  // had looked and no later answer or denial took it; every other request has
  // exactly one.
  lemma EveryRequestIsRecordedIff(acts: seq<Action>, id: Id)
    requires ChildWaits(acts) && Settled(Exec(acts)) && id in Exec(acts).registered
    ensures id !in Recorded(Exec(acts)) <==> exists k :: 0 <= k < |acts| && LeftBehind(acts, k, id)
  {
    RunKeepsInv(acts);
    WaitRun(acts);
    SlotHoldsIff(acts, id);
    var s := Exec(acts);
    assert id in InSlot(s) <==> s.slot == Some(id);
  }

  // Such a card exists: the answer is in hand while the exit handler looks.
  lemma ACardCanComeBackLate(id: Id)
    ensures var s := Exec([Register(id), Answer(id, true), ExitTakes, Write(false)]);
            Settled(s) && s.slot == Some(id) && s.records == [] && id in s.registered
  {
    var a := [Register(id), Answer(id, true), ExitTakes, Write(false)];
    assert a[..3] == [Register(id), Answer(id, true), ExitTakes];
    assert a[..3][..2] == [Register(id), Answer(id, true)];
    assert a[..3][..2][..1] == [Register(id)];
    assert a[..3][..2][..1][..0] == [];
    var s1 := Step(INIT, Register(id));
    var s2 := Step(s1, Answer(id, true));
    var s3 := Step(s2, ExitTakes);
    assert Exec(a[..3]) == s3 by {
      assert Exec([Register(id)]) == s1;
      assert Exec([Register(id), Answer(id, true)]) == s2;
    }
    assert Exec(a) == Step(s3, Write(false));
  }

  // ----- records after the exit ---------------------------------------------------

  lemma ExecAppends(acts: seq<Action>, a: Action)
    ensures Exec(acts + [a]) == Step(Exec(acts), a)
  {
    assert (acts + [a])[..|acts|] == acts;
  }

  lemma {:induction false} RecordsStop(acts: seq<Action>, more: seq<Action>)
    requires var s := Exec(acts); s.pump.Finished? && s.command.Idle? && s.slot.None?
    ensures Exec(acts + more) == Exec(acts)
  {
    if more == [] {
      assert acts + more == acts;
    } else {
      var n := |more| - 1;
      RecordsStop(acts, more[..n]);
      ExecAppends(acts + more[..n], more[n]);
      assert acts + more == (acts + more[..n]) + [more[n]];
    }
  }

  // Some continuation of this run adds a record.
  ghost predicate CanStillRecord(acts: seq<Action>) {
    exists more :: Exec(acts + more).records != Exec(acts).records
  }

  lemma WrittenIsRecorded(acts: seq<Action>, more: seq<Action>)
    requires Exec(acts + more).command.Wrote? && Exec(acts + more).records == Exec(acts).records
    ensures CanStillRecord(acts)
  {
    var s := Exec(acts + more);
    ExecAppends(acts + more, Record);
    assert acts + (more + [Record]) == (acts + more) + [Record];
    assert |Step(s, Record).records| == |s.records| + 1;
    assert |Exec(acts + (more + [Record])).records| != |Exec(acts).records|;
  }

  lemma TakenIsRecorded(acts: seq<Action>, more: seq<Action>)
    requires Exec(acts + more).command.Took? && Exec(acts + more).records == Exec(acts).records
    ensures CanStillRecord(acts)
  {
    var s := Exec(acts + more);
    ExecAppends(acts + more, Write(true));
    assert acts + (more + [Write(true)]) == (acts + more) + [Write(true)];
    assert Step(s, Write(true)).command.Wrote? && Step(s, Write(true)).records == s.records;
    WrittenIsRecorded(acts, more + [Write(true)]);
  }

  // Once the exit has been handled, a record can still be made exactly when a
  // command is under way or a card waits in the slot.
  lemma CanStillRecordIff(acts: seq<Action>)
    requires Exec(acts).pump.Finished?
    ensures CanStillRecord(acts) <==> !(Exec(acts).command.Idle? && Exec(acts).slot.None?)
  {
    var s := Exec(acts);
    assert acts + [] == acts;
    if s.command.Wrote? {
      WrittenIsRecorded(acts, []);
    } else if s.command.Took? {
      TakenIsRecorded(acts, []);
    } else if s.slot.Some? {
      ExecAppends(acts, Answer(s.slot.value, true));
      TakenIsRecorded(acts, [Answer(s.slot.value, true)]);
    } else if more :| Exec(acts + more).records != s.records {
      RecordsStop(acts, more);
      assert false;
    }
  }

  // The exit handler finishes at step k; what is recorded by then is what the
  // distill it schedules is given.
  predicate FinishesAt(acts: seq<Action>, k: nat) {
    k < |acts| && !Exec(acts[..k]).pump.Finished? && Exec(acts[..k + 1]).pump.Finished?
  }

  // While the child waits for its answers nothing can come back to the slot
  // behind the exit handler's back.
  lemma {:induction false} NothingBehindTheHandler(acts: seq<Action>)
    requires ChildWaits(acts)
    ensures Exec(acts).pump.Closing? ==> Exec(acts).slot.None? && !Exec(acts).command.Took?
  {
    if acts != [] {
      var before := acts[..|acts| - 1];
      assert forall k :: 0 <= k < |before| ==> before[..k] == acts[..k];
      NothingBehindTheHandler(before);
      WaitRun(before);
    }
  }

  lemma SlotIsEmptyAtTheFinish(acts: seq<Action>, k: nat)
    requires ChildWaits(acts) && FinishesAt(acts, k)
    ensures Exec(acts[..k + 1]).slot.None?
  {
    assert acts[..k + 1][..k] == acts[..k];
    assert forall i :: 0 <= i < k ==> acts[..k][..i] == acts[..i];
    NothingBehindTheHandler(acts[..k]);
  }

  // The transcript a distill was scheduled for can still grow exactly when a
  // command held a card as the exit handler finished.
  lemma TheDistillMissesARecordIff(acts: seq<Action>, k: nat)
    requires ChildWaits(acts) && FinishesAt(acts, k)
    ensures CanStillRecord(acts[..k + 1]) <==> !Exec(acts[..k + 1]).command.Idle?
  {
    SlotIsEmptyAtTheFinish(acts, k);
    CanStillRecordIff(acts[..k + 1]);
  }

  // s comes after a finish at which the command held card id: the card is
  // recorded once, or it is still in the command or the slot.
  ghost predicate OneCardLeft(finish: State, s: State, id: Id) {
    && s.pump.Finished?
    && if s.records == finish.records then
         (InSlot(s) + InCommand(s) == {id}) && (s.slot.None? || s.command.Idle?)
       else
         s.slot.None? && s.command.Idle?
         && exists allowed, resolution :: s.records == finish.records + [Rec(id, allowed, resolution)]
  }

  lemma OneCardStep(finish: State, s: State, id: Id, a: Action)
    requires OneCardLeft(finish, s, id)
    ensures OneCardLeft(finish, Step(s, a), id)
  {
    if s.records == finish.records {
      assert s.slot.Some? ==> s.slot.value in InSlot(s);
      assert !s.command.Idle? ==> s.command.id in InCommand(s);
      if a.Record? && s.command.Wrote? {
        var r := Rec(id, s.command.allow, s.command.resolution);
        assert Step(s, a).records == finish.records + [r];
      }
    }
  }

  lemma {:induction false} OneCardRun(acts: seq<Action>, k: nat, n: nat, id: Id)
    requires k <= n <= |acts| && OneCardLeft(Exec(acts[..k]), Exec(acts[..k]), id)
    ensures OneCardLeft(Exec(acts[..k]), Exec(acts[..n]), id)
  {
    if k < n {
      OneCardRun(acts, k, n - 1, id);
      assert acts[..n][..n - 1] == acts[..n - 1];
      OneCardStep(Exec(acts[..k]), Exec(acts[..n - 1]), id, acts[n - 1]);
    }
  }

  // And by no more than that card's one record, over every run.
  lemma TheDistillMissesAtMostOne(acts: seq<Action>, k: nat)
    requires ChildWaits(acts) && FinishesAt(acts, k)
    ensures var finish, end := Exec(acts[..k + 1]), Exec(acts);
            || end.records == finish.records
            || (!finish.command.Idle?
                && exists allowed, resolution ::
                     end.records == finish.records + [Rec(finish.command.id, allowed, resolution)])
  {
    var finish := Exec(acts[..k + 1]);
    SlotIsEmptyAtTheFinish(acts, k);
    assert acts[..|acts|] == acts;
    if finish.command.Idle? {
      RecordsStop(acts[..k + 1], acts[k + 1..]);
      assert acts[..k + 1] + acts[k + 1..] == acts;
    } else {
      OneCardRun(acts, k + 1, |acts|, finish.command.id);
    }
  }

  // The input: an answer written before the exit handler looks and recorded after
  // it has finished.
  lemma ARecordCanFollowTheExit(id: Id)
    ensures var finished := Exec([Register(id), Answer(id, true), Write(true), ExitTakes]);
            finished.pump.Finished? && finished.records == []
            && Step(finished, Record).records == [Rec(id, true, User)]
  {
    var a := [Register(id), Answer(id, true), Write(true), ExitTakes];
    assert a[..3] == [Register(id), Answer(id, true), Write(true)];
    assert a[..3][..2] == [Register(id), Answer(id, true)];
    assert a[..3][..2][..1] == [Register(id)];
    assert a[..3][..2][..1][..0] == [];
    var s1 := Step(INIT, Register(id));
    var s2 := Step(s1, Answer(id, true));
    assert Exec([Register(id)]) == s1;
    assert Exec([Register(id), Answer(id, true)]) == s2;
    assert Exec(a[..3]) == Step(s2, Write(true));
  }
}
