// Runs of a live chat session: the pump serves what the child says while the
// window sends, cancels, answers, restarts or closes
// (src-tauri/src/chat_cmds.rs). A command is one step among the pump's, a restart two.
module ChatRuns {
  import opened Wrappers
  import opened ChatModel
  import opened ChatSession

  // What can happen: the pump receives, the child dies, or a command runs. Leave
  // is the reap on app exit; Reopen is chat_open finding the child dead. A restart
  // is two moves, and the pump may come between them: Wish takes the session from
  // the commands and wishes for a distill, Reap reaps it.
  datatype Move =
    | Arrive(arrival: Arrival)
    | Die
    | Send(text: Text, writes: bool)
    | Cancel(counter: nat, writes: bool)
    | Respond(requestId: Text, allow: bool, writes: bool)
    | Leave(writes: bool)
    | Wish
    | Reap(writes: bool)
    | Reopen

  // Whether the child lives, the commands still reach this session, a restart is
  // about to reap it, and the pump has handled the exit.
  datatype Control = Control(alive: bool, attached: bool, restarting: bool, stopped: bool)

  const OPENED := Control(true, true, false, false)

  function Steer(k: Control, move: Move): Control {
    match move
    case Arrive(arrival) =>
      if k.stopped then k else k.(alive := k.alive && !arrival.Gone?, stopped := arrival.Gone?)
    case Die => k.(alive := false)
    case Leave(_) => if k.attached then k.(alive := false, attached := false) else k
    case Wish => if k.attached then k.(attached := false, restarting := true) else k
    case Reap(_) => if k.restarting then k.(alive := false, restarting := false) else k
    case Reopen => k.(attached := k.attached && k.alive)
    case _ => k
  }

  // What a command does to the session.
  function Command(k: Control, c: Chat, move: Move): Chat {
    match move
    case Send(text, writes) => if k.attached && k.alive then Sent(c, text, writes) else c
    case Cancel(counter, writes) => if k.attached && k.alive then CancelledTurn(c, counter, writes) else c
    case Respond(requestId, allow, writes) => if k.attached then Answered(c, requestId, allow, writes) else c
    case Leave(writes) => if k.attached then Reaped(c, writes) else c
    case Wish => if k.attached then c.(distillOnReap := true) else c
    case Reap(writes) => if k.restarting then Reaped(c, writes) else c
    case _ => c
  }

  function Moved(k: Control, p: Pump, move: Move): Pump {
    if move.Arrive? then (if k.stopped then p else ServeOne(p, move.arrival))
    else p.(chat := Command(k, p.chat, move))
  }

  function Run(k: Control, p: Pump, moves: seq<Move>): Pump
    decreases moves
  {
    if moves == [] then p else Run(Steer(k, moves[0]), Moved(k, p, moves[0]), moves[1..])
  }

  // The same run under a pump that emits every delta the moment it arrives.
  function EagerMoved(k: Control, c: Chat, move: Move): Chat {
    if move.Arrive? then (if k.stopped then c else EagerOne(c, move.arrival)) else Command(k, c, move)
  }

  function EagerRun(k: Control, c: Chat, moves: seq<Move>): Chat
    decreases moves
  {
    if moves == [] then c else EagerRun(Steer(k, moves[0]), EagerMoved(k, c, moves[0]), moves[1..])
  }

  // ----- commands and events -------------------------------------------------------

  // The commands that tell the window something: a card is denied by a stop or
  // answered.
  predicate Tells(k: Control, c: Chat, move: Move) {
    match move
    case Cancel(_, _) => k.attached && k.alive && c.pending.Some?
    case Respond(requestId, _, writes) =>
      k.attached && c.pending.Some? && c.pending.value.requestId == requestId && writes
    case _ => false
  }

  function Told(c: Chat, move: Move): Event
    requires c.pending.Some? && (move.Cancel? || move.Respond?)
  {
    if move.Cancel? then PermissionResolved(c.pending.value.requestId, false, Cancelled)
    else PermissionResolved(move.requestId, move.allow, User)
  }

  lemma CommandTells(k: Control, c: Chat, move: Move)
    requires !move.Arrive?
    ensures Command(k, c, move).emitted
         == if Tells(k, c, move) then c.emitted + [Told(c, move)] else c.emitted
  {
  }

  // What a command reads: everything but the streamed text and the events.
  function Core(c: Chat): Chat {
    c.(streaming := "", emitted := [])
  }

  lemma DeniedKeepsStream(c: Chat, d: Chat, tell: bool, resolution: Resolution, writes: bool)
    requires Core(c) == Core(d)
    ensures Core(Denied(c, tell, resolution, writes)) == Core(Denied(d, tell, resolution, writes))
    ensures Denied(c, tell, resolution, writes).streaming == c.streaming
  {
  }

  lemma AnsweredKeepsStream(c: Chat, d: Chat, requestId: Text, allow: bool, writes: bool)
    requires Core(c) == Core(d)
    ensures Core(Answered(c, requestId, allow, writes)) == Core(Answered(d, requestId, allow, writes))
    ensures Answered(c, requestId, allow, writes).streaming == c.streaming
  {
  }

  lemma SentKeepsStream(c: Chat, d: Chat, text: Text, writes: bool)
    requires Core(c) == Core(d)
    ensures Core(Sent(c, text, writes)) == Core(Sent(d, text, writes)) && Sent(c, text, writes).streaming == c.streaming
  {
  }

  lemma CancelledKeepsStream(c: Chat, d: Chat, counter: nat, writes: bool)
    requires Core(c) == Core(d)
    ensures Core(CancelledTurn(c, counter, writes)) == Core(CancelledTurn(d, counter, writes))
    ensures CancelledTurn(c, counter, writes).streaming == c.streaming
  {
    DeniedKeepsStream(c, d, true, Cancelled, writes);
  }

  lemma ReapedKeepsStream(c: Chat, d: Chat, writes: bool)
    requires Core(c) == Core(d)
    ensures Core(Reaped(c, writes)) == Core(Reaped(d, writes)) && Reaped(c, writes).streaming == c.streaming
  {
    DeniedKeepsStream(c, d, false, SessionClosed, writes);
  }

  lemma WishKeepsStream(c: Chat, d: Chat)
    requires Core(c) == Core(d)
    ensures Core(c.(distillOnReap := true)) == Core(d.(distillOnReap := true))
  {
    assert Core(c.(distillOnReap := true)) == Core(c).(distillOnReap := true);
    assert Core(d.(distillOnReap := true)) == Core(d).(distillOnReap := true);
  }

  lemma TellsAlike(k: Control, c: Chat, d: Chat, move: Move)
    requires Core(c) == Core(d)
    ensures Tells(k, c, move) <==> Tells(k, d, move)
  {
    assert Core(c).pending == c.pending && Core(d).pending == d.pending;
  }

  lemma CommandKeepsStream(k: Control, c: Chat, d: Chat, move: Move)
    requires !move.Arrive? && Core(c) == Core(d)
    ensures Core(Command(k, c, move)) == Core(Command(k, d, move)) && Command(k, c, move).streaming == c.streaming
    ensures Tells(k, c, move) <==> Tells(k, d, move)
  {
    TellsAlike(k, c, d, move);
    match move
    case Send(text, writes) => SentKeepsStream(c, d, text, writes);
    case Cancel(counter, writes) => CancelledKeepsStream(c, d, counter, writes);
    case Respond(requestId, allow, writes) => AnsweredKeepsStream(c, d, requestId, allow, writes);
    case Leave(writes) => ReapedKeepsStream(c, d, writes);
    case Wish => WishKeepsStream(c, d);
    case Reap(writes) => ReapedKeepsStream(c, d, writes);
    case _ =>
  }

  lemma SameByCore(c: Chat, d: Chat)
    ensures c.(emitted := []) == d.(emitted := []) <==> Core(c) == Core(d) && c.streaming == d.streaming
  {
    assert c.(emitted := []) == Core(c).(streaming := c.streaming);
    assert d.(emitted := []) == Core(d).(streaming := d.streaming);
  }

  lemma SameCommand(k: Control, c: Chat, d: Chat, move: Move)
    requires !move.Arrive? && SameButCut(c, d)
    ensures SameButCut(Command(k, c, move), Command(k, d, move))
  {
    SameByCore(c, d);
    CommandKeepsStream(k, c, d, move);
    CommandKeepsStream(k, d, c, move);
    SameByCore(Command(k, c, move), Command(k, d, move));
    CommandTells(k, c, move);
    CommandTells(k, d, move);
    if Tells(k, c, move) {
      assert Told(c, move) == Told(d, move) by {
        assert Core(c).pending == Core(d).pending;
      }
      JoinedAppends(c.emitted, d.emitted, [Told(c, move)]);
    }
  }

  // Held-back text passes a command untouched but for the order of the events.
  lemma CommandPassesText(k: Control, c: Chat, text: Text, move: Move)
    requires !move.Arrive?
    ensures Command(k, Flushed(c, text), move).(emitted := []) == Flushed(Command(k, c, move), text).(emitted := [])
    ensures Tells(k, Flushed(c, text), move) <==> Tells(k, c, move)
  {
    assert Core(Flushed(c, text)) == Core(c);
    CommandKeepsStream(k, Flushed(c, text), c, move);
    CommandKeepsStream(k, c, Flushed(c, text), move);
    var before, after := Command(k, Flushed(c, text), move), Flushed(Command(k, c, move), text);
    assert Core(after) == Core(Command(k, c, move));
    SameByCore(before, after);
  }

  // ----- one move ------------------------------------------------------------------

  // Text is held back while a command tells the window something: the command's
  // event goes out ahead of text that came first.
  predicate Overtakes(k: Control, p: Pump, move: Move) {
    p.delta != "" && !move.Arrive? && Tells(k, p.chat, move)
  }

  lemma MoveKeepsFields(k: Control, p: Pump, c: Chat, move: Move)
    requires Flushed(p.chat, p.delta).(emitted := []) == c.(emitted := []) && !move.Arrive?
    ensures var q := Moved(k, p, move);
            Flushed(q.chat, q.delta).(emitted := []) == EagerMoved(k, c, move).(emitted := [])
  {
    CommandPassesText(k, p.chat, p.delta, move);
    SameByCore(Flushed(p.chat, p.delta), c);
    CommandKeepsStream(k, Flushed(p.chat, p.delta), c, move);
    CommandKeepsStream(k, c, Flushed(p.chat, p.delta), move);
    SameByCore(Command(k, Flushed(p.chat, p.delta), move), Command(k, c, move));
  }

  lemma MoveRefinesEager(k: Control, p: Pump, c: Chat, move: Move)
    requires SameButCut(Flushed(p.chat, p.delta), c) && !Overtakes(k, p, move)
    ensures var q := Moved(k, p, move); SameButCut(Flushed(q.chat, q.delta), EagerMoved(k, c, move))
  {
    if move.Arrive? {
      StepRefinesEager(p, c, move.arrival);
    } else {
      var flushed := Flushed(p.chat, p.delta);
      MoveKeepsFields(k, p, c, move);
      SameCommand(k, flushed, c, move);
      CommandPassesText(k, p.chat, p.delta, move);
      CommandTells(k, p.chat, move);
      CommandTells(k, flushed, move);
      assert Flushed(Command(k, p.chat, move), p.delta).emitted == Command(k, flushed, move).emitted;
    }
  }

  // ----- what an overtaking does --------------------------------------------------

  // Everything but its last event, which a delta may still extend, is settled.
  ghost predicate Grows(j: seq<Event>, longer: seq<Event>) {
    |j| <= |longer| && forall i :: 0 <= i < |j| - 1 ==> longer[i] == j[i]
  }

  predicate EndsInDelta(j: seq<Event>) {
    j != [] && j[|j| - 1].Delta?
  }

  lemma {:induction false} JoinAllGrows(j: seq<Event>, more: seq<Event>)
    ensures Grows(j, JoinAll(j, more))
    ensures !EndsInDelta(j) ==> j <= JoinAll(j, more) && (more != [] ==> |j| < |JoinAll(j, more)|)
    decreases more
  {
    if more != [] {
      var next := Join(j, more[0]);
      JoinAllGrows(next, more[1..]);
      if !EndsInDelta(j) {
        assert next == j + [more[0]];
        assert next[..|j|] == j;
      }
    }
  }

  lemma AppendingGrows(events: seq<Event>, more: seq<Event>)
    ensures Grows(Joined(events), Joined(events + more))
  {
    JoinAllAppends([], events, more);
    JoinAllGrows(Joined(events), more);
  }

  // The events as they will read once what is held back is out.
  function Full(p: Pump): seq<Event> {
    Flushed(p.chat, p.delta).emitted
  }

  lemma OvertakenJoins(events: seq<Event>, told: Event, text: Text)
    requires !told.Delta?
    ensures var j := Joined(events);
            && Joined(events + [told]) == j + [told]
            && Joined(events + [told] + [Delta(text)]) == j + [told] + [Delta(text)]
            && Joined(events + [Delta(text)] + [told]) == Join(j, Delta(text)) + [told]
            && Joined(events + [Delta(text)]) == Join(j, Delta(text))
  {
    JoinedSnoc(events, told);
    JoinedSnoc(events + [told], Delta(text));
    JoinedSnoc(events, Delta(text));
    JoinedSnoc(events + [Delta(text)], told);
  }

  lemma ArrivalGrows(p: Pump, arrival: Arrival)
    ensures Grows(Joined(Full(p)), Joined(Full(ServeOne(p, arrival))))
  {
    var flushed := Flushed(p.chat, p.delta);
    StepRefinesEager(p, flushed, arrival);
    EagerOneAppends(flushed, arrival);
    AppendingGrows(flushed.emitted, EagerOne(Muted(flushed), arrival).emitted);
  }

  lemma EagerOneAppends(c: Chat, arrival: Arrival)
    ensures OnlyAppends(c, EagerOne(c, arrival), EagerOne(Muted(c), arrival))
  {
    match arrival
    case Timeout => assert c.emitted + [] == c.emitted;
    case Got(item) =>
      if item.TextDelta? {
        FlushedOnlyAppends(c, item.text);
      } else {
        HandledOnlyAppends(c, item);
      }
    case Gone(code) => ExitOnlyAppends(c, code);
  }

  lemma MoveGrows(k: Control, p: Pump, move: Move)
    ensures Grows(Joined(Full(p)), Joined(Full(Moved(k, p, move))))
  {
    if move.Arrive? {
      ArrivalGrows(p, move.arrival);
    } else {
      CommandTells(k, p.chat, move);
      if Tells(k, p.chat, move) {
        OvertakenJoins(p.chat.emitted, Told(p.chat, move), p.delta);
        AppendingGrows(p.chat.emitted, [Told(p.chat, move)]);
      }
    }
  }

  lemma EagerGrows(k: Control, c: Chat, move: Move)
    ensures Grows(Joined(c.emitted), Joined(EagerMoved(k, c, move).emitted))
  {
    if move.Arrive? {
      if !k.stopped {
        EagerOneAppends(c, move.arrival);
        AppendingGrows(c.emitted, EagerOne(Muted(c), move.arrival).emitted);
      }
    } else {
      CommandTells(k, c, move);
      if Tells(k, c, move) {
        AppendingGrows(c.emitted, [Told(c, move)]);
      }
    }
  }

  // The two event streams differ at a place neither will touch again.
  ghost predicate Parted(j: seq<Event>, e: seq<Event>) {
    exists i :: 0 <= i < |j| - 1 && i < |e| - 1 && j[i] != e[i]
  }

  lemma PartedStays(j: seq<Event>, e: seq<Event>, longer: seq<Event>, later: seq<Event>)
    requires Parted(j, e) && Grows(j, longer) && Grows(e, later)
    ensures Parted(longer, later)
  {
    var i :| 0 <= i < |j| - 1 && i < |e| - 1 && j[i] != e[i];
    assert longer[i] != later[i];
  }

  lemma ThePumpTellsFirst(k: Control, p: Pump, move: Move)
    requires Overtakes(k, p, move)
    ensures !Told(p.chat, move).Delta?
    ensures Full(Moved(k, p, move)) == p.chat.emitted + [Told(p.chat, move)] + [Delta(p.delta)]
  {
    CommandTells(k, p.chat, move);
  }

  lemma TheEagerPumpTellsLast(k: Control, p: Pump, c: Chat, move: Move)
    requires SameButCut(Flushed(p.chat, p.delta), c) && Overtakes(k, p, move)
    ensures EagerMoved(k, c, move).emitted == c.emitted + [Told(p.chat, move)]
    ensures Joined(c.emitted) == Joined(p.chat.emitted + [Delta(p.delta)])
  {
    var flushed := Flushed(p.chat, p.delta);
    SameByCore(flushed, c);
    assert Core(c).pending == p.chat.pending;
    CommandPassesText(k, p.chat, p.delta, move);
    CommandKeepsStream(k, flushed, c, move);
    CommandTells(k, c, move);
  }

  lemma OvertakingParts(k: Control, p: Pump, c: Chat, move: Move)
    requires SameButCut(Flushed(p.chat, p.delta), c) && Overtakes(k, p, move)
    ensures Parted(Joined(Full(Moved(k, p, move))), Joined(EagerMoved(k, c, move).emitted))
  {
    var told := Told(p.chat, move);
    ThePumpTellsFirst(k, p, move);
    TheEagerPumpTellsLast(k, p, c, move);
    OvertakenJoins(p.chat.emitted, told, p.delta);
    JoinedSnoc(c.emitted, told);
    OvertakenTextParts(Joined(p.chat.emitted), told, p.delta);
  }

  lemma OvertakenTextParts(before: seq<Event>, told: Event, text: Text)
    requires text != "" && !told.Delta?
    ensures Parted(before + [told] + [Delta(text)], Join(before, Delta(text)) + [told])
  {
    var j, e := before + [told] + [Delta(text)], Join(before, Delta(text)) + [told];
    if EndsInDelta(before) {
      var i := |before| - 1;
      assert |before[i].text + text| > |before[i].text|;
      assert j[i] == before[i] && e[i] == Delta(before[i].text + text);
    } else {
      assert j[|before|] == told && e[|before|] == Delta(text);
    }
  }

  // ----- every run -------------------------------------------------------------------

  // Nothing overtakes held-back text along the run.
  predicate KeepsOrder(k: Control, p: Pump, moves: seq<Move>)
    decreases moves
  {
    moves == []
    || (!Overtakes(k, p, moves[0]) && KeepsOrder(Steer(k, moves[0]), Moved(k, p, moves[0]), moves[1..]))
  }

  lemma {:induction false} PartedForGood(k: Control, p: Pump, c: Chat, moves: seq<Move>)
    requires Parted(Joined(Full(p)), Joined(c.emitted))
    ensures Parted(Joined(Full(Run(k, p, moves))), Joined(EagerRun(k, c, moves).emitted))
    decreases moves
  {
    if moves != [] {
      var q, d := Moved(k, p, moves[0]), EagerMoved(k, c, moves[0]);
      MoveGrows(k, p, moves[0]);
      EagerGrows(k, c, moves[0]);
      PartedStays(Joined(Full(p)), Joined(c.emitted), Joined(Full(q)), Joined(d.emitted));
      PartedForGood(Steer(k, moves[0]), q, d, moves[1..]);
    }
  }

  // Over every run of arrivals, timeouts and commands the coalescing pump does
  // what the eager one does (same log, transcript, card, distills, lines and
  // streamed text, and the same events in order once runs of deltas are joined)
  // exactly when no command tells the window something while text is held back.
  lemma {:induction false} PumpRefinesEagerIff(k: Control, p: Pump, c: Chat, moves: seq<Move>)
    requires SameButCut(Flushed(p.chat, p.delta), c)
    ensures var end := Run(k, p, moves);
            SameButCut(Flushed(end.chat, end.delta), EagerRun(k, c, moves)) <==> KeepsOrder(k, p, moves)
    decreases moves
  {
    if moves != [] {
      var q, d := Moved(k, p, moves[0]), EagerMoved(k, c, moves[0]);
      if Overtakes(k, p, moves[0]) {
        OvertakingParts(k, p, c, moves[0]);
        PartedForGood(Steer(k, moves[0]), q, d, moves[1..]);
      } else {
        MoveRefinesEager(k, p, c, moves[0]);
        PumpRefinesEagerIff(Steer(k, moves[0]), q, d, moves[1..]);
      }
    }
  }

  lemma ArrivalKeepsFields(p: Pump, c: Chat, arrival: Arrival)
    requires Muted(Flushed(p.chat, p.delta)) == Muted(c)
    ensures var q := ServeOne(p, arrival); Muted(Flushed(q.chat, q.delta)) == Muted(EagerOne(c, arrival))
  {
    var flushed := Flushed(p.chat, p.delta);
    StepRefinesEager(p, flushed, arrival);
    EagerOneAppends(flushed, arrival);
    EagerOneAppends(c, arrival);
  }

  // Only the order of the events is ever at stake.
  lemma {:induction false} EverythingElseAgrees(k: Control, p: Pump, c: Chat, moves: seq<Move>)
    requires Muted(Flushed(p.chat, p.delta)) == Muted(c)
    ensures var end := Run(k, p, moves); Muted(Flushed(end.chat, end.delta)) == Muted(EagerRun(k, c, moves))
    decreases moves
  {
    if moves != [] {
      if !moves[0].Arrive? {
        MoveKeepsFields(k, p, c, moves[0]);
      } else if !k.stopped {
        ArrivalKeepsFields(p, c, moves[0].arrival);
      }
      EverythingElseAgrees(Steer(k, moves[0]), Moved(k, p, moves[0]), EagerMoved(k, c, moves[0]), moves[1..]);
    }
  }

  lemma AnAnswerIsTold(c: Chat, allow: bool)
    requires c.pending.Some?
    ensures var id := c.pending.value.requestId;
            Command(OPENED, c, Respond(id, allow, true)).emitted == c.emitted + [PermissionResolved(id, allow, User)]
  {
    CommandTells(OPENED, c, Respond(c.pending.value.requestId, allow, true));
  }

  lemma ATimeoutFlushes(p: Pump)
    requires p.delta != ""
    ensures ServeOne(p, Timeout).chat.emitted == p.chat.emitted + [Delta(p.delta)]
  {
  }

  // A card answered over held-back text: the window hears of the answer first.
  lemma AnAnswerOvertakesText(c: Chat, text: Text, allow: bool)
    requires c.pending.Some? && text != ""
    ensures var id := c.pending.value.requestId;
            var moves := [Respond(id, allow, true), Arrive(Timeout)];
            && Run(OPENED, Pump(c, text), moves).chat.emitted
               == c.emitted + [PermissionResolved(id, allow, User), Delta(text)]
            && EagerRun(OPENED, Flushed(c, text), moves).emitted
               == c.emitted + [Delta(text), PermissionResolved(id, allow, User)]
  {
    var id := c.pending.value.requestId;
    var answer := Respond(id, allow, true);
    TwoMoves(OPENED, Pump(c, text), Flushed(c, text), answer, Arrive(Timeout));
    AnAnswerIsTold(c, allow);
    AnAnswerIsTold(Flushed(c, text), allow);
    ATimeoutFlushes(Pump(Command(OPENED, c, answer), text));
    TwoEvents(c.emitted, PermissionResolved(id, allow, User), Delta(text));
    TwoEvents(c.emitted, Delta(text), PermissionResolved(id, allow, User));
  }

  lemma TwoEvents(events: seq<Event>, a: Event, b: Event)
    ensures events + [a] + [b] == events + [a, b]
  {
  }

  lemma TwoMoves(k: Control, p: Pump, c: Chat, a: Move, b: Move)
    ensures Run(k, p, [a, b]) == Moved(Steer(k, a), Moved(k, p, a), b)
    ensures EagerRun(k, c, [a, b]) == EagerMoved(Steer(k, a), EagerMoved(k, c, a), b)
  {
    assert [a, b][1..] == [b] && [b][1..] == [];
    assert Run(Steer(k, a), Moved(k, p, a), [b]) == Moved(Steer(k, a), Moved(k, p, a), b);
    assert EagerRun(Steer(k, a), EagerMoved(k, c, a), [b]) == EagerMoved(Steer(k, a), EagerMoved(k, c, a), b);
  }

  function ControlAfter(k: Control, moves: seq<Move>): Control
    decreases moves
  {
    if moves == [] then k else ControlAfter(Steer(k, moves[0]), moves[1..])
  }

  lemma {:induction false} NothingHeldAfterExit(k: Control, p: Pump, moves: seq<Move>)
    requires k.stopped ==> p.delta == ""
    ensures ControlAfter(k, moves).stopped ==> Run(k, p, moves).delta == ""
    decreases moves
  {
    if moves != [] {
      NothingHeldAfterExit(Steer(k, moves[0]), Moved(k, p, moves[0]), moves[1..]);
    }
  }

  // After an exit nothing is outstanding, so a run that kept the order agrees
  // with the eager one outright.
  lemma PumpCoalescesIff(c: Chat, moves: seq<Move>)
    requires ControlAfter(OPENED, moves).stopped
    ensures SameButCut(Run(OPENED, Pump(c, ""), moves).chat, EagerRun(OPENED, c, moves))
            <==> KeepsOrder(OPENED, Pump(c, ""), moves)
  {
    PumpRefinesEagerIff(OPENED, Pump(c, ""), c, moves);
    NothingHeldAfterExit(OPENED, Pump(c, ""), moves);
  }

  // The text held back, told from the moves: the deltas since the last timeout,
  // completed item or full buffer. Commands leave it alone.
  function HeldBack(k: Control, held: Text, moves: seq<Move>): Text
    decreases moves
  {
    if moves == [] then held else HeldBack(Steer(k, moves[0]), HeldAfter(k, held, moves[0]), moves[1..])
  }

  function HeldAfter(k: Control, held: Text, move: Move): Text {
    if !move.Arrive? || k.stopped then held
    else if Flushes(k, held, move) then ""
    else held + move.arrival.item.text
  }

  lemma {:induction false} HeldBackMeans(k: Control, p: Pump, moves: seq<Move>)
    ensures Run(k, p, moves).delta == HeldBack(k, p.delta, moves)
    decreases moves
  {
    if moves != [] {
      HeldBackMeans(Steer(k, moves[0]), Moved(k, p, moves[0]), moves[1..]);
    }
  }

  // An arrival flushes unless it is a delta that does not fill the buffer.
  predicate Flushes(k: Control, held: Text, move: Move) {
    move.Arrive? && !k.stopped
    && !(move.arrival.Got? && move.arrival.item.TextDelta?
         && ByteLength(held + move.arrival.item.text) < MAX_DELTA_BYTES)
  }

  // Move m brings text and nothing from there on flushes.
  ghost predicate LeftUnflushed(moves: seq<Move>, m: nat) {
    && m < |moves| && moves[m].Arrive? && moves[m].arrival.Got? && moves[m].arrival.item.TextDelta?
    && moves[m].arrival.item.text != "" && !ControlAfter(OPENED, moves[..m]).stopped
    && forall n :: m <= n < |moves| ==> !FlushesAt(moves, n)
  }

  predicate FlushesAt(moves: seq<Move>, n: nat) {
    n < |moves| && Flushes(ControlAfter(OPENED, moves[..n]), HeldBack(OPENED, "", moves[..n]), moves[n])
  }

  lemma {:induction false} ControlSnoc(k: Control, moves: seq<Move>, move: Move)
    ensures ControlAfter(k, moves + [move]) == Steer(ControlAfter(k, moves), move)
    decreases moves
  {
    if moves == [] {
      assert [move][1..] == [];
    } else {
      ControlSnoc(Steer(k, moves[0]), moves[1..], move);
      assert (moves + [move])[1..] == moves[1..] + [move];
    }
  }

  lemma {:induction false} HeldSnoc(k: Control, held: Text, moves: seq<Move>, move: Move)
    ensures HeldBack(k, held, moves + [move])
         == HeldAfter(ControlAfter(k, moves), HeldBack(k, held, moves), move)
    decreases moves
  {
    if moves == [] {
      assert [move][1..] == [];
    } else {
      HeldSnoc(Steer(k, moves[0]), HeldAfter(k, held, moves[0]), moves[1..], move);
      assert (moves + [move])[1..] == moves[1..] + [move];
    }
  }

  // Text is held at the end of a run exactly when some delta brought it and
  // nothing has flushed since.
  lemma {:induction false} HeldBackIff(moves: seq<Move>)
    ensures HeldBack(OPENED, "", moves) != "" <==> exists m :: 0 <= m < |moves| && LeftUnflushed(moves, m)
    decreases |moves|
  {
    if moves != [] {
      var n := |moves| - 1;
      var front, last := moves[..n], moves[n];
      HeldBackIff(front);
      assert moves == front + [last];
      HeldSnoc(OPENED, "", front, last);
      UnflushedSnoc(moves);
    }
  }

  lemma UnflushedSnoc(moves: seq<Move>)
    requires moves != []
    ensures var n := |moves| - 1;
            (exists m :: 0 <= m < |moves| && LeftUnflushed(moves, m))
            <==> !FlushesAt(moves, n)
                 && (LeftUnflushed(moves, n) || exists m :: 0 <= m < n && LeftUnflushed(moves[..n], m))
  {
    var n := |moves| - 1;
    var front := moves[..n];
    forall m | 0 <= m < n ensures LeftUnflushed(moves, m) <==> LeftUnflushed(front, m) && !FlushesAt(moves, n) {
      assert front[..m] == moves[..m];
      forall i | m <= i < n ensures FlushesAt(front, i) <==> FlushesAt(moves, i) {
        assert front[..i] == moves[..i];
      }
      if LeftUnflushed(moves, m) {
        assert !FlushesAt(moves, n);
        forall i | m <= i < n ensures !FlushesAt(front, i) {
          assert !FlushesAt(moves, i);
        }
      }
    }
    if LeftUnflushed(moves, n) {
      assert !FlushesAt(moves, n);
    }
  }

  // Exited is the last thing a child's channel carries. Should it close without
  // one, streamed text is lost exactly when a delta brought some and nothing has
  // flushed since.
  lemma AClosedChannelDropsTextIff(c: Chat, moves: seq<Move>)
    ensures Run(OPENED, Pump(c, ""), moves).chat.streaming != EagerRun(OPENED, c, moves).streaming
            <==> exists m :: 0 <= m < |moves| && LeftUnflushed(moves, m)
  {
    EverythingElseAgrees(OPENED, Pump(c, ""), c, moves);
    HeldBackMeans(OPENED, Pump(c, ""), moves);
    HeldBackIff(moves);
    var end := Run(OPENED, Pump(c, ""), moves);
    assert Muted(Flushed(end.chat, end.delta)).streaming == end.chat.streaming + end.delta;
    assert |end.chat.streaming + end.delta| == |end.chat.streaming| + |end.delta|;
  }

  // ----- the distill ------------------------------------------------------------------

  // The fields only an end path touches.
  predicate SameEnd(c: Chat, d: Chat) {
    && c.distills == d.distills && c.distillScheduled == d.distillScheduled
    && c.reaped == d.reaped && c.distillOnReap == d.distillOnReap
  }

  lemma ArrivalKeepsEnd(p: Pump, arrival: Arrival)
    requires !arrival.Gone?
    ensures SameEnd(ServeOne(p, arrival).chat, p.chat)
  {
    if arrival.Got? && !arrival.item.TextDelta? {
      HandledKeepsEnd(Flush(p).chat, arrival.item);
    }
  }

  lemma HandledKeepsEnd(c: Chat, item: Item)
    requires !item.TextDelta?
    ensures SameEnd(Handled(c, item), c)
  {
  }

  lemma SentKeepsEnd(c: Chat, text: Text, writes: bool)
    ensures SameEnd(Sent(c, text, writes), c)
  {
  }

  predicate Reaps(k: Control, move: Move) {
    (k.attached && move.Leave?) || (k.restarting && move.Reap?)
  }

  // ----- the records of a run -----------------------------------------------------

  function Closing(card: Option<Pending>, resolution: Resolution): seq<Record> {
    if card.None? then []
    else [PermissionRecord(card.value.requestId, card.value.tool, false, resolution)]
  }

  predicate Matches(card: Option<Pending>, requestId: Text) {
    card.Some? && card.value.requestId == requestId
  }

  // What a run records, told from its moves: which card waits, whether a turn is
  // being interrupted, and what each move adds.
  datatype Desk = Desk(card: Option<Pending>, interrupting: bool)

  function DeskOf(c: Chat): Desk {
    Desk(c.pending, c.interrupting)
  }

  function MoveRecords(k: Control, d: Desk, move: Move): seq<Record> {
    match move
    case Arrive(arrival) =>
      if k.stopped then []
      else (match arrival
            case Timeout => []
            case Got(item) => ItemRecords(d.interrupting, item)
            case Gone(_) => Closing(d.card, SessionClosed))
    case Send(text, _) => if k.attached && k.alive then [UserRecord(text)] else []
    case Cancel(_, _) => if k.attached && k.alive then Closing(d.card, Cancelled) else []
    case Respond(requestId, allow, writes) =>
      if k.attached && Matches(d.card, requestId) && writes
      then [PermissionRecord(requestId, d.card.value.tool, allow, User)]
      else []
    case Leave(_) => if k.attached then Closing(d.card, SessionClosed) else []
    case Reap(_) => if k.restarting then Closing(d.card, SessionClosed) else []
    case _ => []
  }

  function DeskAfter(k: Control, d: Desk, move: Move): Desk {
    match move
    case Arrive(arrival) =>
      if k.stopped then d
      else (match arrival
            case Timeout => d
            case Got(item) =>
              Desk(if item.PermissionRequest?
                   then Some(Pending(item.requestId, item.tool, item.input, item.question))
                   else d.card,
                   d.interrupting && !item.TurnResult?)
            case Gone(_) => d.(card := None))
    case Send(_, writes) => if k.attached && k.alive && writes then d.(interrupting := false) else d
    case Cancel(_, _) => if k.attached && k.alive then Desk(None, true) else d
    case Respond(requestId, _, writes) =>
      if k.attached && Matches(d.card, requestId) && writes then d.(card := None) else d
    case Leave(_) => if k.attached then d.(card := None) else d
    case Reap(_) => if k.restarting then d.(card := None) else d
    case _ => d
  }

  function RunRecords(k: Control, d: Desk, moves: seq<Move>): seq<Record>
    decreases moves
  {
    if moves == [] then []
    else MoveRecords(k, d, moves[0]) + RunRecords(Steer(k, moves[0]), DeskAfter(k, d, moves[0]), moves[1..])
  }

  // A move leaves the transcript and the desk as told.
  predicate Files(k: Control, c: Chat, after: Chat, move: Move) {
    && after.transcript == c.transcript + MoveRecords(k, DeskOf(c), move)
    && DeskOf(after) == DeskAfter(k, DeskOf(c), move)
  }

  lemma ClosingFiles(c: Chat)
    ensures var d := ExitClosesCard(c);
            && d.transcript == c.transcript + Closing(c.pending, SessionClosed)
            && d.pending.None? && d.interrupting == c.interrupting && SameEnd(d, c)
  {
    if c.pending.None? {
      assert c.transcript + [] == c.transcript;
    }
  }

  lemma HandledExitFiles(c: Chat, code: Option<int>)
    ensures var d := ExitHandled(c, code);
            && d.transcript == c.transcript + Closing(c.pending, SessionClosed)
            && d.pending.None? && d.interrupting == c.interrupting
            && (!c.distillScheduled ==> d.distills == c.distills + if Wants(c) then [d.transcript] else [])
  {
    ClosingFiles(c);
    var closed := ExitClosesCard(c);
    var told := if c.reaped then closed else Emit(closed, Exited(code));
    assert told.transcript == closed.transcript && told.distills == c.distills;
    assert c.distills + [] == c.distills;
  }

  lemma ExitFiles(k: Control, p: Pump, code: Option<int>)
    requires !k.stopped
    ensures Files(k, p.chat, ServeOne(p, Gone(code)).chat, Arrive(Gone(code)))
  {
    FlushedKeepsRecords(p.chat, p.delta);
    HandledExitFiles(Flushed(p.chat, p.delta), code);
  }

  lemma ArrivalFiles(k: Control, p: Pump, arrival: Arrival)
    requires !k.stopped
    ensures Files(k, p.chat, ServeOne(p, arrival).chat, Arrive(arrival))
  {
    if arrival.Gone? {
      ExitFiles(k, p, arrival.code);
    } else {
      OneRecords(p, arrival);
      assert p.chat.transcript + [] == p.chat.transcript;
    }
  }

  lemma SendFiles(k: Control, c: Chat, text: Text, writes: bool)
    ensures Files(k, c, Command(k, c, Send(text, writes)), Send(text, writes))
  {
    assert c.transcript + [] == c.transcript;
  }

  // What taking and recording a card changes and leaves alone.
  lemma ResolvedFiles(c: Chat, card: Pending, allowed: bool, resolution: Resolution)
    ensures var d := Resolved(c, card, allowed, resolution);
            && d.transcript == c.transcript + [PermissionRecord(card.requestId, card.tool, allowed, resolution)]
            && d.pending.None? && d.interrupting == c.interrupting && SameEnd(d, c)
  {
  }

  lemma DenialFiles(c: Chat, tell: bool, resolution: Resolution, writes: bool)
    ensures var d := Denied(c, tell, resolution, writes);
            && d.transcript == c.transcript + Closing(c.pending, resolution)
            && d.pending.None? && d.interrupting == c.interrupting && SameEnd(d, c)
  {
    if c.pending.None? {
      assert c.transcript + [] == c.transcript;
    } else {
      var line := if writes then c.(queued := c.queued + [DenyLine(c.pending.value.requestId)]) else c;
      ResolvedFiles(line, c.pending.value, false, resolution);
    }
  }

  lemma AnswerFiles(k: Control, c: Chat, requestId: Text, allow: bool, writes: bool)
    ensures Files(k, c, Command(k, c, Respond(requestId, allow, writes)), Respond(requestId, allow, writes))
  {
    if k.attached && Matches(c.pending, requestId) && writes {
      var card := c.pending.value;
      var line := if allow then AllowLine(requestId, card.input) else DenyLine(requestId);
      ResolvedFiles(c.(queued := c.queued + [line]), card, allow, User);
    } else {
      assert Command(k, c, Respond(requestId, allow, writes)) == c;
      assert c.transcript + [] == c.transcript;
    }
  }

  lemma CancelFiles(k: Control, c: Chat, counter: nat, writes: bool)
    ensures Files(k, c, Command(k, c, Cancel(counter, writes)), Cancel(counter, writes))
  {
    assert c.transcript + [] == c.transcript;
    DenialFiles(c, true, Cancelled, writes);
  }

  lemma ReapFiles(k: Control, c: Chat, move: Move)
    requires move.Leave? || move.Reap?
    ensures Files(k, c, Command(k, c, move), move)
  {
    assert c.transcript + [] == c.transcript;
    DenialFiles(c, false, SessionClosed, move.writes);
  }

  lemma WishFiles(k: Control, c: Chat)
    ensures Files(k, c, Command(k, c, Wish), Wish)
  {
    assert c.transcript + [] == c.transcript;
  }

  lemma NothingFiles(k: Control, c: Chat, move: Move)
    requires move.Die? || move.Reopen? || (move.Arrive? && k.stopped)
    ensures Files(k, c, c, move)
  {
    assert c.transcript + [] == c.transcript;
  }

  lemma CommandFiles(k: Control, c: Chat, move: Move)
    requires !move.Arrive?
    ensures Files(k, c, Command(k, c, move), move)
  {
    match move
    case Send(text, writes) => SendFiles(k, c, text, writes);
    case Cancel(counter, writes) => CancelFiles(k, c, counter, writes);
    case Respond(requestId, allow, writes) => AnswerFiles(k, c, requestId, allow, writes);
    case Leave(_) => ReapFiles(k, c, move);
    case Wish => WishFiles(k, c);
    case Reap(_) => ReapFiles(k, c, move);
    case _ => NothingFiles(k, c, move);
  }

  lemma MoveFiles(k: Control, p: Pump, move: Move)
    ensures Files(k, p.chat, Moved(k, p, move).chat, move)
  {
    if !move.Arrive? {
      CommandFiles(k, p.chat, move);
    } else if k.stopped {
      NothingFiles(k, p.chat, move);
    } else {
      ArrivalFiles(k, p, move.arrival);
    }
  }

  lemma OneMoveMore(before: seq<Record>, first: seq<Record>, rest: seq<Record>)
    ensures before + (first + rest) == (before + first) + rest
  {
  }

  // The transcript grows by exactly the records the run calls for, in order.
  lemma {:induction false} RunFiles(k: Control, p: Pump, moves: seq<Move>)
    ensures Run(k, p, moves).chat.transcript == p.chat.transcript + RunRecords(k, DeskOf(p.chat), moves)
    decreases moves
  {
    if moves == [] {
      assert p.chat.transcript + [] == p.chat.transcript;
    } else {
      var q := Moved(k, p, moves[0]);
      MoveFiles(k, p, moves[0]);
      RunFiles(Steer(k, moves[0]), q, moves[1..]);
      OneMoveMore(p.chat.transcript, MoveRecords(k, DeskOf(p.chat), moves[0]),
                  RunRecords(Steer(k, moves[0]), DeskOf(q.chat), moves[1..]));
    }
  }

  // ----- the lines sent to the child -------------------------------------------------

  function DenyLines(card: Option<Pending>, writes: bool): seq<Line> {
    if card.Some? && writes then [DenyLine(card.value.requestId)] else []
  }

  // What each move queues to the child's stdin, told from the move and the card
  // that waits.
  function MoveLines(k: Control, d: Desk, move: Move): seq<Line> {
    match move
    case Arrive(arrival) =>
      if !k.stopped && arrival.Got? && arrival.item.UnknownControlRequest?
      then [AckLine(arrival.item.requestId)]
      else []
    case Send(text, writes) => if k.attached && k.alive && writes then [UserLine(text)] else []
    case Cancel(counter, writes) =>
      if k.attached && k.alive
      then DenyLines(d.card, writes) + (if writes then [InterruptLine(counter)] else [])
      else []
    case Respond(requestId, allow, writes) =>
      if k.attached && Matches(d.card, requestId) && writes
      then (if allow then [AllowLine(requestId, d.card.value.input)] else [DenyLine(requestId)])
      else []
    case Leave(writes) => if k.attached then DenyLines(d.card, writes) else []
    case Reap(writes) => if k.restarting then DenyLines(d.card, writes) else []
    case _ => []
  }

  function RunLines(k: Control, d: Desk, moves: seq<Move>): seq<Line>
    decreases moves
  {
    if moves == [] then []
    else MoveLines(k, d, moves[0]) + RunLines(Steer(k, moves[0]), DeskAfter(k, d, moves[0]), moves[1..])
  }

  lemma DenialQueues(c: Chat, tell: bool, resolution: Resolution, writes: bool)
    ensures Denied(c, tell, resolution, writes).queued == c.queued + DenyLines(c.pending, writes)
  {
    assert c.queued + [] == c.queued;
  }

  lemma CancelQueues(c: Chat, counter: nat, writes: bool)
    ensures CancelledTurn(c, counter, writes).queued
         == c.queued + (DenyLines(c.pending, writes) + (if writes then [InterruptLine(counter)] else []))
  {
    DenialQueues(c, true, Cancelled, writes);
  }

  lemma AnswerQueues(c: Chat, requestId: Text, allow: bool, writes: bool)
    ensures Answered(c, requestId, allow, writes).queued
         == if Matches(c.pending, requestId) && writes
            then c.queued + (if allow then [AllowLine(requestId, c.pending.value.input)] else [DenyLine(requestId)])
            else c.queued
  {
  }

  lemma CommandQueues(k: Control, c: Chat, move: Move)
    requires !move.Arrive?
    ensures Command(k, c, move).queued == c.queued + MoveLines(k, DeskOf(c), move)
  {
    assert c.queued + [] == c.queued;
    match move
    case Cancel(counter, writes) => CancelQueues(c, counter, writes);
    case Respond(requestId, allow, writes) => AnswerQueues(c, requestId, allow, writes);
    case Leave(writes) => DenialQueues(c, false, SessionClosed, writes);
    case Reap(writes) => DenialQueues(c, false, SessionClosed, writes);
    case _ =>
  }

  lemma ItemQueues(c: Chat, item: Item)
    requires !item.TextDelta?
    ensures Handled(c, item).queued
         == if item.UnknownControlRequest? then c.queued + [AckLine(item.requestId)] else c.queued
  {
  }

  lemma ExitQueues(c: Chat, code: Option<int>)
    ensures ExitHandled(c, code).queued == c.queued
  {
  }

  lemma MoveQueues(k: Control, p: Pump, move: Move)
    ensures Moved(k, p, move).chat.queued == p.chat.queued + MoveLines(k, DeskOf(p.chat), move)
  {
    assert p.chat.queued + [] == p.chat.queued;
    if !move.Arrive? {
      CommandQueues(k, p.chat, move);
    } else if !k.stopped {
      match move.arrival
      case Timeout =>
      case Gone(code) => ExitQueues(Flushed(p.chat, p.delta), code);
      case Got(item) => if !item.TextDelta? { ItemQueues(Flushed(p.chat, p.delta), item); }
    }
  }

  lemma OneMoveMoreLines(before: seq<Line>, first: seq<Line>, rest: seq<Line>)
    ensures before + (first + rest) == (before + first) + rest
  {
  }

  // Over every run the child is sent exactly these lines, in order.
  lemma {:induction false} RunQueues(k: Control, p: Pump, moves: seq<Move>)
    ensures Run(k, p, moves).chat.queued == p.chat.queued + RunLines(k, DeskOf(p.chat), moves)
    decreases moves
  {
    if moves == [] {
      assert p.chat.queued + [] == p.chat.queued;
    } else {
      var q := Moved(k, p, moves[0]);
      MoveQueues(k, p, moves[0]);
      MoveFiles(k, p, moves[0]);
      RunQueues(Steer(k, moves[0]), q, moves[1..]);
      OneMoveMoreLines(p.chat.queued, MoveLines(k, DeskOf(p.chat), moves[0]),
                       RunLines(Steer(k, moves[0]), DeskOf(q.chat), moves[1..]));
    }
  }

  // At move n the user's allow of the waiting card is written to the child.
  predicate AllowsAt(k: Control, p: Pump, moves: seq<Move>, n: nat, id: Text, input: Text) {
    && n < |moves| && moves[n] == Respond(id, true, true)
    && ControlAfter(k, moves[..n]).attached
    && var card := Run(k, p, moves[..n]).chat.pending;
       card.Some? && card.value.requestId == id && card.value.input == input
  }

  lemma FirstAllows(k: Control, p: Pump, moves: seq<Move>, id: Text, input: Text)
    requires moves != []
    ensures AllowsAt(k, p, moves, 0, id, input) <==> AllowLine(id, input) in MoveLines(k, DeskOf(p.chat), moves[0])
  {
    assert moves[..0] == [];
  }

  lemma LaterAllows(k: Control, p: Pump, moves: seq<Move>, n: nat, id: Text, input: Text)
    requires moves != []
    ensures AllowsAt(Steer(k, moves[0]), Moved(k, p, moves[0]), moves[1..], n, id, input)
            <==> AllowsAt(k, p, moves, n + 1, id, input)
  {
    if n + 1 < |moves| {
      assert moves[..n + 1][1..] == moves[1..][..n];
    }
  }

  // A tool is let run, with this input, exactly where the user allowed the card
  // that waited with it and the answer was written.
  lemma {:induction false} AllowedIff(k: Control, p: Pump, moves: seq<Move>, id: Text, input: Text)
    ensures AllowLine(id, input) in RunLines(k, DeskOf(p.chat), moves)
            <==> exists n :: 0 <= n < |moves| && AllowsAt(k, p, moves, n, id, input)
    decreases moves
  {
    if moves != [] {
      var q, k' := Moved(k, p, moves[0]), Steer(k, moves[0]);
      MoveFiles(k, p, moves[0]);
      AllowedIff(k', q, moves[1..], id, input);
      FirstAllows(k, p, moves, id, input);
      if n :| 0 <= n < |moves| - 1 && AllowsAt(k', q, moves[1..], n, id, input) {
        LaterAllows(k, p, moves, n, id, input);
      }
      if n :| 0 < n < |moves| && AllowsAt(k, p, moves, n, id, input) {
        LaterAllows(k, p, moves, n - 1, id, input);
      }
    }
  }

  lemma AnAllowLineIsTheUsersIff(moves: seq<Move>, id: Text, input: Text)
    ensures AllowLine(id, input) in Run(OPENED, Pump(FRESH, ""), moves).chat.queued
            <==> exists n :: 0 <= n < |moves| && AllowsAt(OPENED, Pump(FRESH, ""), moves, n, id, input)
  {
    RunQueues(OPENED, Pump(FRESH, ""), moves);
    AllowedIff(OPENED, Pump(FRESH, ""), moves, id, input);
    assert FRESH.queued == [];
  }

  // The requests the lines allow and the ones the transcript records as allowed.
  function AllowedByLines(lines: seq<Line>): seq<Text> {
    if lines == [] then []
    else AllowedByLines(lines[..|lines| - 1])
         + (if lines[|lines| - 1].AllowLine? then [lines[|lines| - 1].requestId] else [])
  }

  function AllowedByRecords(records: seq<Record>): seq<Text> {
    if records == [] then []
    else
      var last := records[|records| - 1];
      AllowedByRecords(records[..|records| - 1])
      + (if last.PermissionRecord? && last.allowed then [last.requestId] else [])
  }

  lemma {:induction false} AllowedLinesAppend(a: seq<Line>, b: seq<Line>)
    ensures AllowedByLines(a + b) == AllowedByLines(a) + AllowedByLines(b)
  {
    if b == [] {
      assert a + b == a;
    } else {
      AllowedLinesAppend(a, b[..|b| - 1]);
      assert (a + b)[..|a + b| - 1] == a + b[..|b| - 1];
    }
  }

  lemma {:induction false} AllowedRecordsAppend(a: seq<Record>, b: seq<Record>)
    ensures AllowedByRecords(a + b) == AllowedByRecords(a) + AllowedByRecords(b)
  {
    if b == [] {
      assert a + b == a;
    } else {
      AllowedRecordsAppend(a, b[..|b| - 1]);
      assert (a + b)[..|a + b| - 1] == a + b[..|b| - 1];
    }
  }

  lemma ClosingAllowsNothing(card: Option<Pending>, resolution: Resolution)
    ensures AllowedByRecords(Closing(card, resolution)) == []
  {
    if card.Some? {
      assert Closing(card, resolution)[..0] == [];
    }
  }

  lemma DenyingAllowsNothing(card: Option<Pending>, writes: bool, counter: nat)
    ensures AllowedByLines(DenyLines(card, writes)) == []
    ensures AllowedByLines(DenyLines(card, writes) + (if writes then [InterruptLine(counter)] else [])) == []
  {
    AllowedLinesAppend(DenyLines(card, writes), if writes then [InterruptLine(counter)] else []);
  }

  lemma ItemAllowsNothing(interrupting: bool, item: Item)
    ensures AllowedByRecords(ItemRecords(interrupting, item)) == []
  {
    var records := ItemRecords(interrupting, item);
    assert |records| <= 1;
    if |records| == 1 {
      assert records[..0] == [];
    }
  }

  lemma MoveAllows(k: Control, d: Desk, move: Move)
    ensures AllowedByLines(MoveLines(k, d, move)) == AllowedByRecords(MoveRecords(k, d, move))
  {
    ClosingAllowsNothing(d.card, SessionClosed);
    ClosingAllowsNothing(d.card, Cancelled);
    match move
    case Arrive(arrival) => if arrival.Got? { ItemAllowsNothing(d.interrupting, arrival.item); }
    case Cancel(counter, writes) => DenyingAllowsNothing(d.card, writes, counter);
    case Leave(writes) => DenyingAllowsNothing(d.card, writes, 0);
    case Reap(writes) => DenyingAllowsNothing(d.card, writes, 0);
    case _ =>
  }

  // The lines that let a tool run and the records that say so name the same
  // requests, as often and in the same order.
  lemma {:induction false} AllowsAreRecorded(k: Control, d: Desk, moves: seq<Move>)
    ensures AllowedByLines(RunLines(k, d, moves)) == AllowedByRecords(RunRecords(k, d, moves))
    decreases moves
  {
    if moves != [] {
      var k', d' := Steer(k, moves[0]), DeskAfter(k, d, moves[0]);
      MoveAllows(k, d, moves[0]);
      AllowsAreRecorded(k', d', moves[1..]);
      AllowedLinesAppend(MoveLines(k, d, moves[0]), RunLines(k', d', moves[1..]));
      AllowedRecordsAppend(MoveRecords(k, d, moves[0]), RunRecords(k', d', moves[1..]));
    }
  }

  lemma ARefusalIsSentAtOnce(k: Control, d: Desk, move: Move, id: Text, tool: Text)
    requires PermissionRecord(id, tool, false, User) in MoveRecords(k, d, move)
    ensures DenyLine(id) in MoveLines(k, d, move)
  {
  }

  // Every refusal the transcript records as the user's was sent as one.
  lemma {:induction false} RefusalsAreSent(k: Control, d: Desk, moves: seq<Move>, id: Text, tool: Text)
    requires PermissionRecord(id, tool, false, User) in RunRecords(k, d, moves)
    ensures DenyLine(id) in RunLines(k, d, moves)
    decreases moves
  {
    if PermissionRecord(id, tool, false, User) in MoveRecords(k, d, moves[0]) {
      ARefusalIsSentAtOnce(k, d, moves[0], id, tool);
    } else {
      RefusalsAreSent(Steer(k, moves[0]), DeskAfter(k, d, moves[0]), moves[1..], id, tool);
    }
  }

  lemma LinesMatchRecords(moves: seq<Move>, id: Text, tool: Text)
    ensures var end := Run(OPENED, Pump(FRESH, ""), moves).chat;
            && AllowedByLines(end.queued) == AllowedByRecords(end.transcript)
            && (PermissionRecord(id, tool, false, User) in end.transcript ==> DenyLine(id) in end.queued)
  {
    var p := Pump(FRESH, "");
    RunQueues(OPENED, p, moves);
    RunFiles(OPENED, p, moves);
    assert p.chat.queued == [] && p.chat.transcript == [];
    assert Run(OPENED, p, moves).chat.queued == RunLines(OPENED, DeskOf(FRESH), moves);
    assert Run(OPENED, p, moves).chat.transcript == RunRecords(OPENED, DeskOf(FRESH), moves);
    AllowsAreRecorded(OPENED, DeskOf(FRESH), moves);
    if PermissionRecord(id, tool, false, User) in RunRecords(OPENED, DeskOf(FRESH), moves) {
      RefusalsAreSent(OPENED, DeskOf(FRESH), moves, id, tool);
    }
  }

  // ----- what the window is told -----------------------------------------------------

  // Besides the desk, whether the session has been reaped.
  datatype Counter = Counter(desk: Desk, reaped: bool)

  function CounterOf(c: Chat): Counter {
    Counter(DeskOf(c), c.reaped)
  }

  function CounterAfter(k: Control, d: Counter, move: Move): Counter {
    Counter(DeskAfter(k, d.desk, move), d.reaped || Reaps(k, move))
  }

  predicate HasDetail(result: Option<Text>) {
    result.Some? && exists i :: 0 <= i < |result.value| && !IsWhite(result.value[i])
  }

  function ItemEvents(interrupting: bool, item: Item): seq<Event> {
    match item
    case TextDelta(text) => if text == "" then [] else [Delta(text)]
    case AssistantText(text) => [AssistantDone(text)]
    case ToolUse(_, _, summary, note) => [ToolUsed(summary, note)]
    case PermissionRequest(requestId, tool, _, question) => [PermissionRequested(requestId, tool, question)]
    case TurnResult(isError, result) =>
      if !isError then [TurnDone(false, None)]
      else if interrupting then [TurnDone(true, None)]
      else if HasDetail(result) then [TurnDone(false, Some("Couldn't finish the answer: " + result.value))]
      else [TurnDone(false, Some("Couldn't finish the answer. Try sending the message again."))]
    case _ => []
  }

  // What each move tells the window, when deltas go out at once.
  function MoveEvents(k: Control, d: Counter, move: Move): seq<Event> {
    match move
    case Arrive(arrival) =>
      if k.stopped then []
      else (match arrival
            case Timeout => []
            case Got(item) => ItemEvents(d.desk.interrupting, item)
            case Gone(code) =>
              if d.reaped then []
              else (if d.desk.card.Some?
                    then [PermissionResolved(d.desk.card.value.requestId, false, SessionClosed)]
                    else []) + [Exited(code)])
    case Cancel(_, _) =>
      if k.attached && k.alive && d.desk.card.Some?
      then [PermissionResolved(d.desk.card.value.requestId, false, Cancelled)]
      else []
    case Respond(requestId, allow, writes) =>
      if k.attached && Matches(d.desk.card, requestId) && writes
      then [PermissionResolved(requestId, allow, User)]
      else []
    case _ => []
  }

  function RunEvents(k: Control, d: Counter, moves: seq<Move>): seq<Event>
    decreases moves
  {
    if moves == [] then []
    else MoveEvents(k, d, moves[0]) + RunEvents(Steer(k, moves[0]), CounterAfter(k, d, moves[0]), moves[1..])
  }

  lemma TurnTells(c: Chat, isError: bool, result: Option<Text>)
    ensures TurnEnded(c, isError, result).emitted
         == c.emitted + ItemEvents(c.interrupting, TurnResult(isError, result))
  {
    assert HasDetail(result) <==> Detail(result).Some?;
  }

  lemma ItemTells(c: Chat, item: Item)
    ensures EagerOne(c, Got(item)).emitted == c.emitted + ItemEvents(c.interrupting, item)
  {
    assert c.emitted + [] == c.emitted;
    if item.TurnResult? {
      TurnTells(c, item.isError, item.result);
    }
  }

  lemma ExitTells(k: Control, c: Chat, code: Option<int>)
    requires !k.stopped
    ensures ExitHandled(c, code).emitted == c.emitted + MoveEvents(k, CounterOf(c), Arrive(Gone(code)))
  {
    assert c.emitted + [] == c.emitted;
    if c.pending.Some? && !c.reaped {
      TwoEvents(c.emitted, PermissionResolved(c.pending.value.requestId, false, SessionClosed), Exited(code));
    }
  }

  // The desk and the mark of a reap move as told under the eager pump too.
  lemma EagerCounts(k: Control, c: Chat, move: Move)
    ensures CounterOf(EagerMoved(k, c, move)) == CounterAfter(k, CounterOf(c), move)
  {
    if !move.Arrive? {
      CommandFiles(k, c, move);
      CommandKeepsEnd(k, c, move);
    } else if !k.stopped {
      match move.arrival
      case Timeout =>
      case Gone(code) =>
        HandledExitFiles(c, code);
        ExitKeepsReaped(c, code);
      case Got(item) => ItemCounts(k, c, item);
    }
  }

  lemma ExitKeepsReaped(c: Chat, code: Option<int>)
    ensures ExitHandled(c, code).reaped == c.reaped
  {
    ClosingFiles(c);
  }

  lemma ItemCounts(k: Control, c: Chat, item: Item)
    requires !k.stopped
    ensures CounterOf(EagerOne(c, Got(item))) == CounterAfter(k, CounterOf(c), Arrive(Got(item)))
  {
    if !item.TextDelta? {
      HandledKeepsEnd(c, item);
    }
  }

  lemma MoveTells(k: Control, c: Chat, move: Move)
    ensures EagerMoved(k, c, move).emitted == c.emitted + MoveEvents(k, CounterOf(c), move)
  {
    assert c.emitted + [] == c.emitted;
    if !move.Arrive? {
      CommandTells(k, c, move);
    } else if !k.stopped {
      match move.arrival
      case Timeout =>
      case Gone(code) => ExitTells(k, c, code);
      case Got(item) => ItemTells(c, item);
    }
  }

  lemma OneMoveMoreEvents(before: seq<Event>, first: seq<Event>, rest: seq<Event>)
    ensures before + (first + rest) == (before + first) + rest
  {
  }

  // Over every run these are the events of a pump that emits at once, in order.
  lemma {:induction false} RunTells(k: Control, c: Chat, moves: seq<Move>)
    ensures EagerRun(k, c, moves).emitted == c.emitted + RunEvents(k, CounterOf(c), moves)
    decreases moves
  {
    if moves == [] {
      assert c.emitted + [] == c.emitted;
    } else {
      var d := EagerMoved(k, c, moves[0]);
      MoveTells(k, c, moves[0]);
      EagerCounts(k, c, moves[0]);
      RunTells(Steer(k, moves[0]), d, moves[1..]);
      OneMoveMoreEvents(c.emitted, MoveEvents(k, CounterOf(c), moves[0]),
                        RunEvents(Steer(k, moves[0]), CounterOf(d), moves[1..]));
    }
  }

  // So where the order is kept, an ended session has told the window exactly what
  // its run calls for, up to joining neighbouring deltas.
  lemma TheWindowIsTold(moves: seq<Move>)
    requires ControlAfter(OPENED, moves).stopped && KeepsOrder(OPENED, Pump(FRESH, ""), moves)
    ensures Joined(Run(OPENED, Pump(FRESH, ""), moves).chat.emitted)
         == Joined(RunEvents(OPENED, CounterOf(FRESH), moves))
  {
    PumpCoalescesIff(FRESH, moves);
    RunTells(OPENED, FRESH, moves);
    assert FRESH.emitted + RunEvents(OPENED, CounterOf(FRESH), moves) == RunEvents(OPENED, CounterOf(FRESH), moves);
  }

  // ----- one distill, of everything -----------------------------------------------

  lemma AnswerKeepsEnd(c: Chat, requestId: Text, allow: bool, writes: bool)
    ensures SameEnd(Answered(c, requestId, allow, writes), c)
  {
    if Matches(c.pending, requestId) && writes {
      var line := if allow then AllowLine(requestId, c.pending.value.input) else DenyLine(requestId);
      ResolvedFiles(c.(queued := c.queued + [line]), c.pending.value, allow, User);
    }
  }

  lemma ReapedEnd(c: Chat, writes: bool)
    ensures SameEnd(Reaped(c, writes), c.(reaped := true))
  {
    DenialFiles(c, false, SessionClosed, writes);
  }

  lemma CancelKeepsEnd(c: Chat, counter: nat, writes: bool)
    ensures SameEnd(CancelledTurn(c, counter, writes), c)
  {
    DenialFiles(c, true, Cancelled, writes);
  }

  lemma ReapEnds(k: Control, c: Chat, move: Move)
    requires Reaps(k, move)
    ensures SameEnd(Command(k, c, move), c.(reaped := true))
  {
    ReapedEnd(c, move.writes);
  }

  lemma OthersKeepEnd(k: Control, c: Chat, move: Move)
    requires !move.Arrive? && !Reaps(k, move)
    ensures SameEnd(Command(k, c, move), if k.attached && move.Wish? then c.(distillOnReap := true) else c)
  {
    match move
    case Send(text, writes) => SentKeepsEnd(c, text, writes);
    case Cancel(counter, writes) => CancelKeepsEnd(c, counter, writes);
    case Respond(requestId, allow, writes) => AnswerKeepsEnd(c, requestId, allow, writes);
    case _ =>
  }

  lemma CommandKeepsEnd(k: Control, c: Chat, move: Move)
    requires !move.Arrive?
    ensures if Reaps(k, move)
            then SameEnd(Command(k, c, move), c.(reaped := true))
            else SameEnd(Command(k, c, move), if k.attached && move.Wish? then c.(distillOnReap := true) else c)
  {
    if Reaps(k, move) {
      ReapEnds(k, c, move);
    } else {
      OthersKeepEnd(k, c, move);
    }
  }

  // Once the exit is handled, no move records anything or schedules anything.
  lemma {:induction false} QuietAfterExit(k: Control, p: Pump, moves: seq<Move>)
    requires k.stopped && !k.alive && p.chat.pending.None?
    ensures var end := Run(k, p, moves).chat;
            end.transcript == p.chat.transcript && end.distills == p.chat.distills
    decreases moves
  {
    if moves != [] {
      var q := Moved(k, p, moves[0]);
      MoveFiles(k, p, moves[0]);
      assert MoveRecords(k, DeskOf(p.chat), moves[0]) == [];
      assert p.chat.transcript + [] == p.chat.transcript;
      if !moves[0].Arrive? {
        CommandKeepsEnd(k, p.chat, moves[0]);
      }
      QuietAfterExit(Steer(k, moves[0]), q, moves[1..]);
    }
  }

  // Whether an exit handled now would schedule a distill.
  predicate Wants(c: Chat) {
    !c.reaped || c.distillOnReap
  }

  // Whether the run schedules one, told from its moves: `wish` is what an exit
  // would do now.
  function Schedules(k: Control, wish: bool, moves: seq<Move>): bool
    decreases moves
  {
    if moves == [] then false
    else if moves[0].Arrive? && moves[0].arrival.Gone? then wish
    else Schedules(Steer(k, moves[0]), wish && !(k.attached && moves[0].Leave?), moves[1..])
  }

  lemma ExitDistills(p: Pump, code: Option<int>)
    requires !p.chat.distillScheduled && p.chat.distills == []
    ensures var q := ServeOne(p, Gone(code)).chat;
            q.pending.None? && q.distills == if Wants(p.chat) then [q.transcript] else []
  {
    HandledExitFiles(Flushed(p.chat, p.delta), code);
  }

  lemma {:induction false} RunDistills(k: Control, p: Pump, moves: seq<Move>)
    requires !k.stopped && !p.chat.distillScheduled && p.chat.distills == []
    requires k.attached ==> !k.restarting && !p.chat.reaped && !p.chat.distillOnReap
    requires k.restarting ==> p.chat.distillOnReap
    ensures var end := Run(k, p, moves).chat;
            end.distills == if Schedules(k, Wants(p.chat), moves) then [end.transcript] else []
    decreases moves
  {
    if moves != [] {
      var q, k' := Moved(k, p, moves[0]), Steer(k, moves[0]);
      if !moves[0].Arrive? {
        CommandKeepsEnd(k, p.chat, moves[0]);
        RunDistills(k', q, moves[1..]);
      } else if moves[0].arrival.Gone? {
        ExitDistills(p, moves[0].arrival.code);
        QuietAfterExit(k', q, moves[1..]);
      } else {
        ArrivalKeepsEnd(p, moves[0].arrival);
        RunDistills(k', q, moves[1..]);
      }
    }
  }

  // The exit is handled at move n: the first Gone of the run.
  predicate ExitsAt(moves: seq<Move>, n: nat) {
    && n < |moves| && moves[n].Arrive? && moves[n].arrival.Gone?
    && forall m :: 0 <= m < n ==> !(moves[m].Arrive? && moves[m].arrival.Gone?)
  }

  // An app exit reaps this session at move m.
  predicate LeavesAt(k: Control, moves: seq<Move>, m: nat) {
    m < |moves| && moves[m].Leave? && ControlAfter(k, moves[..m]).attached
  }

  // The exit is handled, and no app exit had reaped the session before.
  ghost predicate EndsInADistill(k: Control, moves: seq<Move>) {
    exists n :: 0 <= n < |moves| && ExitsAt(moves, n) && forall m :: 0 <= m < n ==> !LeavesAt(k, moves, m)
  }

  lemma {:induction false} DetachedNeverWants(k: Control, moves: seq<Move>)
    requires !k.attached
    ensures !Schedules(k, false, moves)
    decreases moves
  {
    if moves != [] {
      DetachedNeverWants(Steer(k, moves[0]), moves[1..]);
    }
  }

  lemma LeavesAtShift(k: Control, moves: seq<Move>, m: nat)
    requires moves != []
    ensures LeavesAt(Steer(k, moves[0]), moves[1..], m) <==> LeavesAt(k, moves, m + 1)
  {
    if m + 1 < |moves| {
      assert moves[..m + 1][1..] == moves[1..][..m];
    }
  }

  lemma EndsShift(k: Control, moves: seq<Move>)
    requires moves != [] && !(moves[0].Arrive? && moves[0].arrival.Gone?)
    ensures EndsInADistill(k, moves)
            <==> !LeavesAt(k, moves, 0) && EndsInADistill(Steer(k, moves[0]), moves[1..])
  {
    var k', rest := Steer(k, moves[0]), moves[1..];
    forall m | 0 <= m < |rest| ensures LeavesAt(k', rest, m) <==> LeavesAt(k, moves, m + 1) {
      LeavesAtShift(k, moves, m);
    }
    forall n | 0 <= n < |rest| ensures ExitsAt(rest, n) <==> ExitsAt(moves, n + 1) {
      assert forall m :: 0 <= m < n ==> rest[m] == moves[m + 1];
    }
    if EndsInADistill(k, moves) {
      var n :| 0 <= n < |moves| && ExitsAt(moves, n) && forall m :: 0 <= m < n ==> !LeavesAt(k, moves, m);
      assert ExitsAt(rest, n - 1);
    }
    if !LeavesAt(k, moves, 0) && EndsInADistill(k', rest) {
      var n :| 0 <= n < |rest| && ExitsAt(rest, n) && forall m :: 0 <= m < n ==> !LeavesAt(k', rest, m);
      assert ExitsAt(moves, n + 1);
      forall m | 0 <= m < n + 1 ensures !LeavesAt(k, moves, m) {
        if m > 0 {
          assert !LeavesAt(k', rest, m - 1);
        }
      }
    }
  }

  lemma {:induction false} SchedulesIff(k: Control, moves: seq<Move>)
    ensures Schedules(k, true, moves) <==> EndsInADistill(k, moves)
    decreases moves
  {
    if moves != [] {
      if moves[0].Arrive? && moves[0].arrival.Gone? {
        assert ExitsAt(moves, 0);
      } else {
        EndsShift(k, moves);
        SchedulesIff(Steer(k, moves[0]), moves[1..]);
        assert moves[..0] == [];
        if LeavesAt(k, moves, 0) {
          DetachedNeverWants(Steer(k, moves[0]), moves[1..]);
        }
      }
    }
  }

  // Over every run of a session, commands included: at most one distill is
  // scheduled; one is exactly when the exit is handled and no app exit had reaped
  // the session; and it is given every record of the run.
  lemma DistillsIff(moves: seq<Move>)
    ensures Run(OPENED, Pump(FRESH, ""), moves).chat.distills
         == if EndsInADistill(OPENED, moves) then [RunRecords(OPENED, DeskOf(FRESH), moves)] else []
  {
    RunDistills(OPENED, Pump(FRESH, ""), moves);
    RunFiles(OPENED, Pump(FRESH, ""), moves);
    SchedulesIff(OPENED, moves);
    assert FRESH.transcript + RunRecords(OPENED, DeskOf(FRESH), moves) == RunRecords(OPENED, DeskOf(FRESH), moves);
  }
}
