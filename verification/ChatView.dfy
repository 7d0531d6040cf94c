// The window's reducer (src/useChatSession.ts), and why replaying a session's
// events leaves the window where a fresh snapshot would put it.
module ChatView {
  import opened Wrappers
  import opened ChatModel
  import ChatSession

  // PendingPermission and ChatSnapshot in src/chat.ts, without the chat id.
  datatype Card = Card(requestId: Text, tool: Text, question: Text)

  datatype Snapshot = Snapshot(
    running: bool,
    turnActive: bool,
    entries: seq<Entry>,
    streamingText: Option<Text>,
    pendingPermission: Option<Card>)

  datatype View = View(
    entries: seq<Entry>,
    streamingText: Text,
    pending: Option<Card>,
    turnActive: bool,
    exited: bool)

  function CardOf(pending: Option<Pending>): Option<Card> {
    if pending.None? then None
    else Some(Card(pending.value.requestId, pending.value.tool, pending.value.question))
  }

  // ChatSessionState::snapshot
  function SnapshotOf(c: Chat, running: bool): Snapshot {
    Snapshot(running, running && c.turnActive, c.log,
             if c.streaming == "" then None else Some(c.streaming), CardOf(c.pending))
  }

  function FromSnapshot(s: Snapshot): View {
    View(s.entries, if s.streamingText.Some? then s.streamingText.value else "",
         s.pendingPermission, s.turnActive, !s.running)
  }

  // Walks the entries backwards for the last card still waiting.
  method ResolvePermissionEntry(entries: seq<Entry>, allowed: bool, resolution: Resolution)
    returns (settled: seq<Entry>)
    ensures settled == SettleLast(entries, allowed, resolution)
  {
    var i := |entries|;
    assert entries[..|entries|] == entries;
    while i > 0
      invariant 0 <= i <= |entries|
      invariant LastOpen(entries, None) == LastOpen(entries[..i], None)
    {
      i := i - 1;
      assert entries[..i + 1][..i] == entries[..i];
      var candidate := entries[i];
      if candidate.PermissionEntry? && candidate.resolution.None? {
        var entry := candidate.(allowed := Some(allowed), resolution := Some(resolution));
        return entries[..i] + [entry] + entries[i + 1..];
      }
    }
    return entries;
  }

  function ApplyEvent(v: View, event: Event): View {
    match event
    case Delta(text) => v.(streamingText := v.streamingText + text, turnActive := true)
    case AssistantDone(text) => v.(streamingText := "", entries := v.entries + [AssistantEntry(text)])
    case ToolUsed(summary, note) => v.(entries := v.entries + [ToolUseEntry(summary, note)])
    case PermissionRequested(requestId, tool, question) =>
      v.(pending := Some(Card(requestId, tool, question)),
         entries := v.entries + [PermissionEntry(question, tool, None, None)])
    case PermissionResolved(requestId, allowed, resolution) =>
      v.(pending := if v.pending.Some? && v.pending.value.requestId == requestId then None else v.pending,
         entries := SettleLast(v.entries, allowed, resolution))
    case TurnDone(stopped, error) =>
      v.(turnActive := false, streamingText := "",
         entries := if error.Some? && error.value != "" then v.entries + [ErrorEntry(error.value)] else v.entries)
    case Exited(code) => v.(exited := true, turnActive := false, streamingText := "", pending := None)
  }

  function ApplyAll(v: View, events: seq<Event>): View
    decreases events
  {
    if events == [] then v else ApplyAll(ApplyEvent(v, events[0]), events[1..])
  }

  // ----- the two sides together ---------------------------------------------

  // What can happen to a live session. Flush is one emission of the pump, of
  // any text it had held back; a process may die before the pump reports it.
  datatype Op =
    | Flush(text: Text)
    | Handle(item: Item)
    | Die
    | Exit(code: Option<int>)
    | Send(text: Text, writes: bool)
    | Cancel(counter: nat, writes: bool)
    | Respond(requestId: Text, allow: bool, writes: bool)

  // The session, whether its process runs, whether its exit has been handled,
  // and the window.
  datatype Both = Both(chat: Chat, running: bool, exitHandled: bool, view: View)

  const SEND_REFUSED := "The chat isn't running. Start a new chat to send this message."
  const SEND_FAILED := "Couldn't send the message. The chat is still open; try again."

  predicate PumpOp(op: Op) {
    op.Flush? || op.Handle? || op.Exit?
  }

  // An operation that cannot happen: the pump has stopped, or a delta reaches
  // handle_item.
  predicate Barred(b: Both, op: Op) {
    (PumpOp(op) && b.exitHandled) || (op.Handle? && op.item.TextDelta?)
  }

  function ChatAfter(c: Chat, running: bool, op: Op): Chat
    requires op.Handle? ==> !op.item.TextDelta?
  {
    match op
    case Flush(text) => Flushed(c, text)
    case Handle(item) => Handled(c, item)
    case Die => c
    case Exit(code) => ExitHandled(c, code)
    case Send(text, writes) => if running then Sent(c, text, writes) else c
    case Cancel(counter, writes) => if running then CancelledTurn(c, counter, writes) else c
    case Respond(requestId, allow, writes) => Answered(c, requestId, allow, writes)
  }

  // What the window does by itself: it shows a sent message at once, and an
  // error when the call comes back refused.
  function ViewBefore(v: View, running: bool, op: Op): View {
    match op
    case Send(text, writes) =>
      var shown := v.(entries := v.entries + [UserEntry(text)], turnActive := true);
      if running && writes then shown
      else shown.(turnActive := false,
                  entries := shown.entries + [ErrorEntry(if running then SEND_FAILED else SEND_REFUSED)])
    case _ => v
  }

  function Do(b: Both, op: Op): Both {
    if Barred(b, op) then b
    else
      var quiet := b.chat.(emitted := []);
      var after := ChatAfter(quiet, b.running, op);
      Both(after.(emitted := b.chat.emitted + after.emitted),
           b.running && !op.Die? && !op.Exit?,
           b.exitHandled || op.Exit?,
           ApplyAll(ViewBefore(b.view, b.running, op), after.emitted))
  }

  // The window shows what a snapshot taken now would if a process counted as
  // running until its exit had been handled; SnapshotAgreesIff says when the real
  // one, which asks the process, is the same.
  predicate Synced(b: Both) {
    b.view == FromSnapshot(SnapshotOf(b.chat, !b.exitHandled))
  }

  // A waiting card always belongs to the last waiting entry.
  ghost predicate Sound(b: Both) {
    && (b.chat.pending.Some? ==> OpenQuestion(b.chat.log) == Some(b.chat.pending.value.question))
    && (b.exitHandled ==> !b.running && !b.chat.turnActive)
  }

  // When an operation keeps the window in step, told from the state before it.
  predicate KeepsStep(b: Both, op: Op) {
    match op
    case Flush(text) => text == "" || b.chat.turnActive
    case Handle(item) => item.TurnResult? ==> b.chat.streaming == ""
    case Exit(_) => b.chat.streaming == "" && !b.chat.reaped
    case Send(_, writes) => b.running && writes
    case _ => true
  }

  lemma ApplyOne(v: View, event: Event)
    ensures ApplyAll(v, [event]) == ApplyEvent(v, event)
  {
    assert ApplyAll(ApplyEvent(v, event), [event][1..]) == ApplyEvent(v, event);
  }

  lemma FlushIff(b: Both, text: Text)
    requires Synced(b) && Sound(b) && !b.exitHandled
    ensures Synced(Do(b, Flush(text))) <==> KeepsStep(b, Flush(text))
    ensures Sound(Do(b, Flush(text)))
  {
    if text != "" {
      assert [] + [Delta(text)] == [Delta(text)];
      ApplyOne(b.view, Delta(text));
    }
  }

  // The window after an operation that emits the given events.
  lemma DoEmits(b: Both, op: Op, events: seq<Event>)
    requires !Barred(b, op) && ChatAfter(b.chat.(emitted := []), b.running, op).emitted == events
    ensures Do(b, op).view == ApplyAll(ViewBefore(b.view, b.running, op), events)
  {
  }

  lemma DoEmitsOne(b: Both, op: Op, event: Event)
    requires !Barred(b, op) && ChatAfter(b.chat.(emitted := []), b.running, op).emitted == [event]
    ensures Do(b, op).view == ApplyEvent(ViewBefore(b.view, b.running, op), event)
  {
    DoEmits(b, op, [event]);
    ApplyOne(ViewBefore(b.view, b.running, op), event);
  }

  lemma QuietTurnIff(b: Both, isError: bool, result: Option<Text>)
    requires Synced(b) && Sound(b) && !b.exitHandled && !(isError && !b.chat.interrupting)
    ensures var op := Handle(TurnResult(isError, result)); Synced(Do(b, op)) <==> KeepsStep(b, op)
    ensures Sound(Do(b, Handle(TurnResult(isError, result))))
  {
    DoEmitsOne(b, Handle(TurnResult(isError, result)), TurnDone(isError, None));
  }

  lemma FailedTurnIff(b: Both, result: Option<Text>)
    requires Synced(b) && Sound(b) && !b.exitHandled && !b.chat.interrupting
    ensures var op := Handle(TurnResult(true, result)); Synced(Do(b, op)) <==> KeepsStep(b, op)
    ensures Sound(Do(b, Handle(TurnResult(true, result))))
  {
    var message := Shown(Detail(result));
    DoEmitsOne(b, Handle(TurnResult(true, result)), TurnDone(false, Some(message)));
    OpenQuestionAppends(b.chat.log, ErrorEntry(message));
  }

  lemma TurnIff(b: Both, isError: bool, result: Option<Text>)
    requires Synced(b) && Sound(b) && !b.exitHandled
    ensures var op := Handle(TurnResult(isError, result)); Synced(Do(b, op)) <==> KeepsStep(b, op)
    ensures Sound(Do(b, Handle(TurnResult(isError, result))))
  {
    if isError && !b.chat.interrupting {
      FailedTurnIff(b, result);
    } else {
      QuietTurnIff(b, isError, result);
    }
  }

  lemma EntryKeeps(b: Both, item: Item)
    requires Synced(b) && Sound(b) && !b.exitHandled
    requires item.AssistantText? || item.ToolUse?
    ensures Synced(Do(b, Handle(item))) && Sound(Do(b, Handle(item)))
  {
    match item
    case AssistantText(text) =>
      DoEmitsOne(b, Handle(item), AssistantDone(text));
      OpenQuestionAppends(b.chat.log, AssistantEntry(text));
    case ToolUse(_, _, summary, note) =>
      DoEmitsOne(b, Handle(item), ToolUsed(summary, note));
      OpenQuestionAppends(b.chat.log, ToolUseEntry(summary, note));
  }

  lemma RequestKeeps(b: Both, item: Item)
    requires Synced(b) && Sound(b) && !b.exitHandled && item.PermissionRequest?
    ensures Synced(Do(b, Handle(item))) && Sound(Do(b, Handle(item)))
  {
    DoEmitsOne(b, Handle(item), PermissionRequested(item.requestId, item.tool, item.question));
    OpenQuestionAppends(b.chat.log, PermissionEntry(item.question, item.tool, None, None));
  }

  lemma HandleIff(b: Both, item: Item)
    requires Synced(b) && Sound(b) && !b.exitHandled && !item.TextDelta?
    ensures Synced(Do(b, Handle(item))) <==> KeepsStep(b, Handle(item))
    ensures Sound(Do(b, Handle(item)))
  {
    match item
    case TurnResult(isError, result) => TurnIff(b, isError, result);
    case PermissionRequest(_, _, _, _) => RequestKeeps(b, item);
    case InitItem => QuietKeeps(b, item);
    case UnknownControlRequest(_) => QuietKeeps(b, item);
    case _ => EntryKeeps(b, item);
  }

  lemma QuietKeeps(b: Both, item: Item)
    requires Synced(b) && Sound(b) && !b.exitHandled && (item.InitItem? || item.UnknownControlRequest?)
    ensures Synced(Do(b, Handle(item))) && Sound(Do(b, Handle(item)))
  {
    DoEmits(b, Handle(item), []);
  }

  // A resolution shown to the window settles the same card on both sides.
  lemma ResolutionKeeps(b: Both, allowed: bool, resolution: Resolution)
    requires Synced(b) && Sound(b) && b.chat.pending.Some?
    ensures var card := b.chat.pending.value;
            var v := ApplyEvent(b.view, PermissionResolved(card.requestId, allowed, resolution));
            v.entries == Resolved(b.chat, card, allowed, resolution).log
            && v == b.view.(pending := None, entries := v.entries)
  {
    LookupsAgreeIff(b.chat.log, b.chat.pending.value.question, allowed, resolution);
  }

  lemma CancelKeeps(b: Both, counter: nat, writes: bool)
    requires Synced(b) && Sound(b)
    ensures Synced(Do(b, Cancel(counter, writes))) && Sound(Do(b, Cancel(counter, writes)))
  {
    var op := Cancel(counter, writes);
    if b.running && b.chat.pending.Some? {
      DoEmitsOne(b, op, PermissionResolved(b.chat.pending.value.requestId, false, Cancelled));
      ResolutionKeeps(b, false, Cancelled);
    } else {
      DoEmits(b, op, []);
    }
  }

  predicate Answers(c: Chat, requestId: Text, writes: bool) {
    c.pending.Some? && c.pending.value.requestId == requestId && writes
  }

  lemma AnswerKeeps(b: Both, requestId: Text, allow: bool)
    requires Synced(b) && Sound(b) && Answers(b.chat, requestId, true)
    ensures Synced(Do(b, Respond(requestId, allow, true))) && Sound(Do(b, Respond(requestId, allow, true)))
  {
    var op := Respond(requestId, allow, true);
    DoEmitsOne(b, op, PermissionResolved(requestId, allow, User));
    ResolutionKeeps(b, allow, User);
    assert Do(b, op).chat.log == Resolved(b.chat, b.chat.pending.value, allow, User).log;
    assert Do(b, op).chat.pending.None?;
  }

  lemma RespondKeeps(b: Both, requestId: Text, allow: bool, writes: bool)
    requires Synced(b) && Sound(b)
    ensures Synced(Do(b, Respond(requestId, allow, writes))) && Sound(Do(b, Respond(requestId, allow, writes)))
  {
    if Answers(b.chat, requestId, writes) {
      AnswerKeeps(b, requestId, allow);
    } else {
      DoEmits(b, Respond(requestId, allow, writes), []);
    }
  }

  lemma SendIff(b: Both, text: Text, writes: bool)
    requires Synced(b) && Sound(b)
    ensures Synced(Do(b, Send(text, writes))) <==> KeepsStep(b, Send(text, writes))
    ensures Sound(Do(b, Send(text, writes)))
  {
    DoEmits(b, Send(text, writes), []);
    OpenQuestionAppends(b.chat.log, UserEntry(text));
    assert |Do(b, Send(text, writes)).view.entries| == |b.chat.log| + if b.running && writes then 1 else 2;
  }

  lemma DieKeeps(b: Both)
    requires Synced(b) && Sound(b)
    ensures Synced(Do(b, Die)) && Sound(Do(b, Die))
  {
    DoEmits(b, Die, []);
  }

  lemma ExitWithoutCard(b: Both, code: Option<int>)
    requires Synced(b) && Sound(b) && !b.exitHandled && b.chat.pending.None?
    ensures Synced(Do(b, Exit(code))) <==> KeepsStep(b, Exit(code))
    ensures Sound(Do(b, Exit(code)))
  {
    DoEmits(b, Exit(code), if b.chat.reaped then [] else [Exited(code)]);
  }

  lemma ExitWithCard(b: Both, code: Option<int>)
    requires Synced(b) && Sound(b) && !b.exitHandled && b.chat.pending.Some?
    ensures Synced(Do(b, Exit(code))) <==> KeepsStep(b, Exit(code))
    ensures Sound(Do(b, Exit(code)))
  {
    if b.chat.reaped {
      DoEmits(b, Exit(code), []);
    } else {
      var resolved := PermissionResolved(b.chat.pending.value.requestId, false, SessionClosed);
      var events := [resolved, Exited(code)];
      DoEmits(b, Exit(code), events);
      assert events[1..] == [Exited(code)];
      ApplyOne(ApplyEvent(b.view, resolved), Exited(code));
      ResolutionKeeps(b, false, SessionClosed);
    }
  }

  // From a window in step, an operation keeps it in step exactly when the guard
  // holds: text arrives during a turn, a turn or a session does not end with
  // text still streaming, a send is accepted, the session was not reaped.
  lemma OpIff(b: Both, op: Op)
    requires Synced(b) && Sound(b) && !Barred(b, op)
    ensures Synced(Do(b, op)) <==> KeepsStep(b, op)
    ensures Sound(Do(b, op))
  {
    match op
    case Flush(text) => FlushIff(b, text);
    case Handle(item) => HandleIff(b, item);
    case Die => DieKeeps(b);
    case Exit(code) => if b.chat.pending.Some? { ExitWithCard(b, code); } else { ExitWithoutCard(b, code); }
    case Send(text, writes) => SendIff(b, text, writes);
    case Cancel(counter, writes) => CancelKeeps(b, counter, writes);
    case Respond(requestId, allow, writes) => RespondKeeps(b, requestId, allow, writes);
  }

  // ChatSessionState::snapshot as it would be taken now.
  function RealSnapshot(b: Both): Snapshot {
    SnapshotOf(b.chat, b.running)
  }

  // A window in step shows the real snapshot except between the process's death
  // and the pump's handling of it.
  lemma SnapshotAgreesIff(b: Both)
    requires Synced(b) && Sound(b)
    ensures FromSnapshot(RealSnapshot(b)) == b.view <==> b.running || b.exitHandled
  {
    assert b.view.exited == b.exitHandled;
    assert FromSnapshot(RealSnapshot(b)).exited == !b.running;
  }

  function DoAll(b: Both, ops: seq<Op>): Both
    decreases ops
  {
    if ops == [] then b else DoAll(Do(b, ops[0]), ops[1..])
  }

  ghost predicate AllKeepStep(b: Both, ops: seq<Op>)
    decreases ops
  {
    ops == [] || ((Barred(b, ops[0]) || KeepsStep(b, ops[0])) && AllKeepStep(Do(b, ops[0]), ops[1..]))
  }

  // Snapshot equals replay: over every run of pump steps and commands that meet
  // their guards, the window that replayed the events from one snapshot shows
  // what a later snapshot holds, but for one taken of a process that is dead and
  // not yet reported.
  lemma SnapshotEqualsReplay(b: Both, ops: seq<Op>)
    requires Synced(b) && Sound(b) && AllKeepStep(b, ops)
    ensures Synced(DoAll(b, ops)) && Sound(DoAll(b, ops))
    ensures var end := DoAll(b, ops);
            FromSnapshot(RealSnapshot(end)) == end.view <==> end.running || end.exitHandled
    decreases ops
  {
    InStepAll(b, ops);
    SnapshotAgreesIff(DoAll(b, ops));
  }

  lemma {:induction false} InStepAll(b: Both, ops: seq<Op>)
    requires Synced(b) && Sound(b) && AllKeepStep(b, ops)
    ensures Synced(DoAll(b, ops)) && Sound(DoAll(b, ops))
    decreases ops
  {
    if ops != [] {
      if !Barred(b, ops[0]) {
        OpIff(b, ops[0]);
      }
      InStepAll(Do(b, ops[0]), ops[1..]);
    }
  }

  // A snapshot of a session whose process is gone shows it as ended, with no turn
  // under way, whatever flags it still holds; and so does the exit, once told.
  lemma AnEndedSessionIsQuiet(c: Chat, v: View, code: Option<int>)
    ensures var dead := FromSnapshot(SnapshotOf(c, false)); dead.exited && !dead.turnActive && dead.entries == c.log
    ensures var told := ApplyEvent(v, Exited(code));
            told.exited && !told.turnActive && told.streamingText == "" && told.pending.None?
            && told.entries == v.entries
  {
  }

  // A window that has just opened a fresh session is in step.
  lemma OpensInStep()
    ensures var b := Both(FRESH, true, false, FromSnapshot(SnapshotOf(FRESH, true))); Synced(b) && Sound(b)
  {
  }

  // The backend never clears streamed text at the end of a turn, so a turn that
  // stops mid-text parts the two: the window is empty, a new snapshot is not.
  lemma AStoppedTurnPartsThem(text: Text)
    requires text != ""
    ensures var b := Both(FRESH, true, false, FromSnapshot(SnapshotOf(FRESH, true)));
            var end := DoAll(b, [Send("hi", true), Flush(text), Handle(TurnResult(false, None))]);
            end.view.streamingText == "" && SnapshotOf(end.chat, true).streamingText == Some(text)
  {
    var b := Both(FRESH, true, false, FromSnapshot(SnapshotOf(FRESH, true)));
    OpenQuestionAppends(FRESH.log, UserEntry("hi"));
    OpIff(b, Send("hi", true));
    var sent := Do(b, Send("hi", true));
    OpIff(sent, Flush(text));
    var streaming := Do(sent, Flush(text));
    assert streaming.chat.streaming == text by {
      assert "" + text == text;
    }
    var turn := Handle(TurnResult(false, None));
    DoEmitsOne(streaming, turn, TurnDone(false, None));
    assert [Flush(text), turn][1..] == [turn] && [turn][1..] == [];
    assert [Send("hi", true), Flush(text), turn][1..] == [Flush(text), turn];
    assert DoAll(streaming, [turn]) == Do(streaming, turn);
    assert DoAll(sent, [Flush(text), turn]) == Do(streaming, turn);
  }

  // ----- the pump among the operations ------------------------------------------

  // What a run of the pump does, as operations: what it holds back when, and
  // which items it handles.
  function PumpOps(delta: Text, arrivals: seq<Arrival>): seq<Op>
    decreases arrivals
  {
    if arrivals == [] then []
    else match arrivals[0]
      case Timeout => [Flush(delta)] + PumpOps("", arrivals[1..])
      case Gone(code) => [Flush(delta), Exit(code)]
      case Got(item) =>
        if !item.TextDelta? then [Flush(delta), Handle(item)] + PumpOps("", arrivals[1..])
        else if ChatSession.ByteLength(delta + item.text) >= ChatSession.MAX_DELTA_BYTES
        then [Flush(delta + item.text)] + PumpOps("", arrivals[1..])
        else PumpOps(delta + item.text, arrivals[1..])
  }

  lemma DoIsThePumpStep(b: Both, op: Op)
    requires PumpOp(op) && !Barred(b, op)
    ensures Do(b, op).chat == ChatAfter(b.chat, b.running, op)
  {
    match op
    case Flush(text) => ChatSession.FlushedOnlyAppends(b.chat, text);
    case Handle(item) => ChatSession.HandledOnlyAppends(b.chat, item);
    case Exit(code) => ChatSession.ExitOnlyAppends(b.chat, code);
  }

  lemma DoAllCons(b: Both, op: Op, rest: seq<Op>)
    ensures DoAll(b, [op] + rest) == DoAll(Do(b, op), rest)
  {
    assert ([op] + rest)[1..] == rest;
  }

  lemma DoAllTwo(b: Both, op: Op, next: Op, rest: seq<Op>)
    ensures DoAll(b, [op, next] + rest) == DoAll(Do(Do(b, op), next), rest)
  {
    assert [op, next] + rest == [op] + ([next] + rest);
    DoAllCons(b, op, [next] + rest);
    DoAllCons(Do(b, op), next, rest);
  }

  // The session RunPump leaves is the one these operations leave, so what is
  // proved of operations holds of every pattern of arrivals.
  lemma {:induction false} PumpIsOps(b: Both, delta: Text, arrivals: seq<Arrival>)
    requires !b.exitHandled
    ensures DoAll(b, PumpOps(delta, arrivals)).chat == ChatSession.Serve(ChatSession.Pump(b.chat, delta), arrivals).chat
    decreases arrivals
  {
    if arrivals != [] {
      var rest := arrivals[1..];
      match arrivals[0]
      case Timeout =>
        DoIsThePumpStep(b, Flush(delta));
        PumpIsOps(Do(b, Flush(delta)), "", rest);
        DoAllCons(b, Flush(delta), PumpOps("", rest));
      case Gone(code) =>
        DoIsThePumpStep(b, Flush(delta));
        DoIsThePumpStep(Do(b, Flush(delta)), Exit(code));
        DoAllTwo(b, Flush(delta), Exit(code), []);
        assert [Flush(delta), Exit(code)] + [] == [Flush(delta), Exit(code)];
      case Got(item) =>
        if !item.TextDelta? {
          DoIsThePumpStep(b, Flush(delta));
          var flushed := Do(b, Flush(delta));
          DoIsThePumpStep(flushed, Handle(item));
          PumpIsOps(Do(flushed, Handle(item)), "", rest);
          DoAllTwo(b, Flush(delta), Handle(item), PumpOps("", rest));
        } else if ChatSession.ByteLength(delta + item.text) >= ChatSession.MAX_DELTA_BYTES {
          DoIsThePumpStep(b, Flush(delta + item.text));
          PumpIsOps(Do(b, Flush(delta + item.text)), "", rest);
          DoAllCons(b, Flush(delta + item.text), PumpOps("", rest));
        } else {
          PumpIsOps(b, delta + item.text, rest);
        }
    }
  }
}
