// The live session: its shared fields, the handlers that update them in place,
// and the pump (src-tauri/src/chat_cmds.rs).
module ChatSession {
  import opened Wrappers
  import opened ChatModel

  const MAX_DELTA_BYTES := 8 * 1024

  // The bytes of a text in UTF-8.
  function ByteLength(text: Text): nat {
    if text == "" then 0
    else
      var c := text[0];
      ByteLength(text[1..]) + if c < '\U{80}' then 1 else if c < '\U{800}' then 2 else if c < '\U{10000}' then 3 else 4
  }

  // UTF-8 lengths: they add up, and one character takes one to four bytes by its
  // code point (section 3 of RFC 3629).
  lemma {:induction false} ByteLengthAdds(a: Text, b: Text)
    ensures ByteLength(a + b) == ByteLength(a) + ByteLength(b)
    ensures |a| == 1 ==>
              var n := a[0] as int;
              ByteLength(a) == if n <= 0x7F then 1 else if n <= 0x7FF then 2 else if n <= 0xFFFF then 3 else 4
  {
    if a == "" {
      assert a + b == b;
    } else {
      ByteLengthAdds(a[1..], b);
      assert (a + b)[1..] == a[1..] + b;
    }
  }

  class SharedChat {
    var log: seq<Entry>
    var streaming: Text
    var pending: Option<Pending>
    var transcript: seq<Record>
    var turnActive: bool
    var interrupting: bool
    var reaped: bool
    var distillScheduled: bool
    var distillOnReap: bool
    // What left the session: events to the window, lines to the child, and the
    // transcript each scheduled distill reads.
    var emitted: seq<Event>
    var queued: seq<Line>
    var distills: seq<seq<Record>>

    function State(): Chat
      reads this
    {
      Chat(log, streaming, pending, transcript, turnActive, interrupting, reaped, distillScheduled,
           distillOnReap, emitted, queued, distills)
    }

    constructor ()
      ensures State() == FRESH
    {
      log, streaming, pending, transcript := [], "", None, [];
      turnActive, interrupting, reaped := false, false, false;
      distillScheduled, distillOnReap := false, false;
      emitted, queued, distills := [], [], [];
    }

    method EmitEvent(event: Event)
      modifies this`emitted
      ensures State() == Emit(old(State()), event)
    {
      emitted := emitted + [event];
    }

    // Walks the log backwards for the waiting card that asks this question.
    method ResolvePermissionEntry(question: Text, allowed: bool, resolution: Resolution)
      modifies this`log
      ensures log == SettleByQuestion(old(log), question, allowed, resolution)
    {
      var i := |log|;
      assert log[..|log|] == log;
      while i > 0
        invariant 0 <= i <= |log|
        invariant log == old(log)
        invariant LastOpen(log, Some(question)) == LastOpen(log[..i], Some(question))
      {
        i := i - 1;
        assert log[..i + 1][..i] == log[..i];
        if Open(log[i]) && log[i].question == question {
          log := log[i := log[i].(allowed := Some(allowed), resolution := Some(resolution))];
          return;
        }
      }
    }

    method FlushDelta(text: Text)
      modifies this
      ensures State() == Flushed(old(State()), text)
    {
      if text == "" {
        return;
      }
      streaming := streaming + text;
      EmitEvent(Delta(text));
    }

    method HandleItem(item: Item)
      requires !item.TextDelta?
      modifies this
      ensures State() == Handled(old(State()), item)
    {
      match item
      case InitItem =>
      case AssistantText(text) =>
        streaming := "";
        transcript := transcript + [AssistantRecord(text)];
        log := log + [AssistantEntry(text)];
        EmitEvent(AssistantDone(text));
      case ToolUse(name, input, summary, note) =>
        transcript := transcript + [ToolUseRecord(name, input, summary)];
        log := log + [ToolUseEntry(summary, note)];
        EmitEvent(ToolUsed(summary, note));
      case PermissionRequest(requestId, tool, input, question) =>
        pending := Some(Pending(requestId, tool, input, question));
        log := log + [PermissionEntry(question, tool, None, None)];
        EmitEvent(PermissionRequested(requestId, tool, question));
      case UnknownControlRequest(requestId) =>
        queued := queued + [AckLine(requestId)];
      case TurnResult(isError, result) =>
        EndTurn(isError, result);
    }

    method EndTurn(isError: bool, result: Option<Text>)
      modifies this
      ensures State() == TurnEnded(old(State()), isError, result)
    {
      turnActive := false;
      var stopped := interrupting && isError;
      interrupting := false;
      if isError && !stopped {
        var detail := Detail(result);
        transcript := transcript + [ErrorRecord(if detail.Some? then detail.value else FAILED_RECORD)];
        log := log + [ErrorEntry(Shown(detail))];
        EmitEvent(TurnDone(stopped, Some(Shown(detail))));
      } else {
        EmitEvent(TurnDone(stopped, None));
      }
    }

    // Takes the waiting card, records how it ended and settles its entry.
    method Resolve(card: Pending, allowed: bool, resolution: Resolution)
      requires pending == Some(card)
      modifies this
      ensures State() == Resolved(old(State()), card, allowed, resolution)
    {
      pending := None;
      transcript := transcript + [PermissionRecord(card.requestId, card.tool, allowed, resolution)];
      ResolvePermissionEntry(card.question, allowed, resolution);
    }

    method ScheduleChatDistill()
      modifies this`distillScheduled, this`distills
      ensures State() == Distilled(old(State()))
    {
      var claimed := distillScheduled;
      distillScheduled := true;
      if claimed {
        return;
      }
      distills := distills + [transcript];
    }

    method HandleExit(code: Option<int>)
      modifies this
      ensures State() == ExitHandled(old(State()), code)
    {
      turnActive := false;
      if pending.Some? {
        var card := pending.value;
        Resolve(card, false, SessionClosed);
        if !reaped {
          EmitEvent(PermissionResolved(card.requestId, false, SessionClosed));
        }
      }
      if !reaped {
        EmitEvent(Exited(code));
      }
      if !reaped || distillOnReap {
        ScheduleChatDistill();
      }
    }

    method DenyPending(tell: bool, resolution: Resolution, writes: bool)
      modifies this
      ensures State() == Denied(old(State()), tell, resolution, writes)
    {
      if pending.None? {
        return;
      }
      var card := pending.value;
      if writes {
        queued := queued + [DenyLine(card.requestId)];
      }
      Resolve(card, false, resolution);
      if tell {
        EmitEvent(PermissionResolved(card.requestId, false, resolution));
      }
    }

    method Send(text: Text, writes: bool)
      modifies this
      ensures State() == Sent(old(State()), text, writes)
    {
      transcript := transcript + [UserRecord(text)];
      log := log + [UserEntry(text)];
      if !writes {
        return;
      }
      queued := queued + [UserLine(text)];
      turnActive := true;
      interrupting := false;
    }

    method Cancel(counter: nat, writes: bool)
      modifies this
      ensures State() == CancelledTurn(old(State()), counter, writes)
    {
      DenyPending(true, Cancelled, writes);
      interrupting := true;
      if writes {
        queued := queued + [InterruptLine(counter)];
      }
    }

    method PermissionRespond(requestId: Text, allow: bool, writes: bool)
      modifies this
      ensures State() == Answered(old(State()), requestId, allow, writes)
    {
      if pending.None? || pending.value.requestId != requestId {
        return;
      }
      var card := pending.value;
      pending := None;
      if !writes {
        pending := Some(card);
        return;
      }
      queued := queued + [if allow then AllowLine(requestId, card.input) else DenyLine(requestId)];
      pending := Some(card);
      Resolve(card, allow, User);
      EmitEvent(PermissionResolved(requestId, allow, User));
    }

    method Reap(writes: bool)
      modifies this
      ensures State() == Reaped(old(State()), writes)
    {
      DenyPending(false, SessionClosed, writes);
      reaped := true;
    }

    // chat_restart's wish, before it reaps.
    method WishForDistill()
      modifies this`distillOnReap
      ensures State() == old(State()).(distillOnReap := true)
    {
      distillOnReap := true;
    }

    // Serves arrivals until the process is gone or the channel closes, holding
    // text back until something else happens or enough has piled up.
    method RunPump(arrivals: seq<Arrival>)
      modifies this
      ensures State() == Pumped(old(State()), arrivals).chat
    {
      var pendingDelta := "";
      var i := 0;
      while i < |arrivals|
        invariant 0 <= i <= |arrivals|
        invariant Serve(Pump(old(State()), ""), arrivals) == Serve(Pump(State(), pendingDelta), arrivals[i..])
      {
        var arrival := arrivals[i];
        assert arrivals[i..][1..] == arrivals[i + 1..];
        i := i + 1;
        match arrival
        case Timeout =>
          FlushDelta(pendingDelta);
          pendingDelta := "";
        case Got(item) =>
          if item.TextDelta? {
            pendingDelta := pendingDelta + item.text;
            if ByteLength(pendingDelta) >= MAX_DELTA_BYTES {
              FlushDelta(pendingDelta);
              pendingDelta := "";
            }
          } else {
            FlushDelta(pendingDelta);
            pendingDelta := "";
            HandleItem(item);
          }
        case Gone(code) =>
          FlushDelta(pendingDelta);
          pendingDelta := "";
          HandleExit(code);
          return;
      }
    }
  }

  // ----- what the pump computes -----------------------------------------------

  datatype Pump = Pump(chat: Chat, delta: Text)

  function Flush(p: Pump): Pump {
    Pump(Flushed(p.chat, p.delta), "")
  }

  function ServeOne(p: Pump, arrival: Arrival): Pump {
    match arrival
    case Timeout => Flush(p)
    case Got(item) =>
      if item.TextDelta? then
        var grown := p.(delta := p.delta + item.text);
        if ByteLength(grown.delta) >= MAX_DELTA_BYTES then Flush(grown) else grown
      else Pump(Handled(Flush(p).chat, item), "")
    case Gone(code) => Pump(ExitHandled(Flush(p).chat, code), "")
  }

  function Serve(p: Pump, arrivals: seq<Arrival>): Pump
    decreases arrivals
  {
    if arrivals == [] then p
    else if arrivals[0].Gone? then ServeOne(p, arrivals[0])
    else Serve(ServeOne(p, arrivals[0]), arrivals[1..])
  }

  function Pumped(c: Chat, arrivals: seq<Arrival>): Pump {
    Serve(Pump(c, ""), arrivals)
  }

  // ----- coalescing changes nothing that matters ----------------------------------

  // A pump that emits every delta the moment it arrives.
  function EagerOne(c: Chat, arrival: Arrival): Chat {
    match arrival
    case Timeout => c
    case Got(item) => if item.TextDelta? then Flushed(c, item.text) else Handled(c, item)
    case Gone(code) => ExitHandled(c, code)
  }

  function Eager(c: Chat, arrivals: seq<Arrival>): Chat
    decreases arrivals
  {
    if arrivals == [] then c
    else if arrivals[0].Gone? then EagerOne(c, arrivals[0])
    else Eager(EagerOne(c, arrivals[0]), arrivals[1..])
  }

  // Events with each run of deltas joined into one.
  function Joined(events: seq<Event>): seq<Event> {
    JoinAll([], events)
  }

  function JoinAll(joined: seq<Event>, events: seq<Event>): seq<Event>
    decreases events
  {
    if events == [] then joined else JoinAll(Join(joined, events[0]), events[1..])
  }

  function Join(joined: seq<Event>, event: Event): seq<Event> {
    if event.Delta? && joined != [] && joined[|joined| - 1].Delta?
    then joined[..|joined| - 1] + [Delta(joined[|joined| - 1].text + event.text)]
    else joined + [event]
  }

  // Two sessions that differ at most in how their deltas were cut.
  ghost predicate SameButCut(c: Chat, d: Chat) {
    c.(emitted := []) == d.(emitted := []) && Joined(c.emitted) == Joined(d.emitted)
  }

  lemma {:induction false} JoinAllAppends(joined: seq<Event>, events: seq<Event>, more: seq<Event>)
    ensures JoinAll(joined, events + more) == JoinAll(JoinAll(joined, events), more)
    decreases events
  {
    if events == [] {
      assert events + more == more;
    } else {
      assert (events + more)[1..] == events[1..] + more;
      JoinAllAppends(Join(joined, events[0]), events[1..], more);
    }
  }

  lemma JoinedSnoc(events: seq<Event>, event: Event)
    ensures Joined(events + [event]) == Join(Joined(events), event)
  {
    JoinAllAppends([], events, [event]);
    assert JoinAll(Joined(events), [event]) == Join(Joined(events), event);
  }

  lemma JoinTwice(joined: seq<Event>, x: Text, y: Text)
    ensures Join(Join(joined, Delta(x)), Delta(y)) == Join(joined, Delta(x + y))
  {
    if joined != [] && joined[|joined| - 1].Delta? {
      var text := joined[|joined| - 1].text;
      assert (text + x) + y == text + (x + y);
    }
  }

  lemma FlushedTwice(c: Chat, x: Text, y: Text)
    ensures SameButCut(Flushed(c, x + y), Flushed(Flushed(c, x), y))
  {
    if x == "" {
      assert x + y == y;
    } else if y == "" {
      assert x + y == x;
    } else {
      JoinedSnoc(c.emitted, Delta(x + y));
      JoinedSnoc(c.emitted, Delta(x));
      JoinedSnoc(c.emitted + [Delta(x)], Delta(y));
      JoinTwice(Joined(c.emitted), x, y);
      assert c.streaming + (x + y) == (c.streaming + x) + y;
    }
  }

  lemma JoinedAppends(a: seq<Event>, b: seq<Event>, more: seq<Event>)
    requires Joined(a) == Joined(b)
    ensures Joined(a + more) == Joined(b + more)
  {
    JoinAllAppends([], a, more);
    JoinAllAppends([], b, more);
  }

  function Muted(c: Chat): Chat {
    c.(emitted := [])
  }

  // What an operation adds to the events does not depend on those before.
  ghost predicate OnlyAppends(c: Chat, c': Chat, muted': Chat) {
    c' == muted'.(emitted := c.emitted + muted'.emitted)
  }

  lemma FlushedOnlyAppends(c: Chat, text: Text)
    ensures OnlyAppends(c, Flushed(c, text), Flushed(Muted(c), text))
  {
  }

  lemma TurnOnlyAppends(c: Chat, isError: bool, result: Option<Text>)
    ensures OnlyAppends(c, TurnEnded(c, isError, result), TurnEnded(Muted(c), isError, result))
  {
  }

  lemma EntryOnlyAppends(c: Chat, item: Item)
    requires item.AssistantText? || item.ToolUse? || item.PermissionRequest?
    ensures OnlyAppends(c, Handled(c, item), Handled(Muted(c), item))
  {
  }

  lemma QuietOnlyAppends(c: Chat, item: Item)
    requires item.InitItem? || item.UnknownControlRequest?
    ensures OnlyAppends(c, Handled(c, item), Handled(Muted(c), item))
  {
    assert c.emitted + [] == c.emitted;
  }

  lemma HandledOnlyAppends(c: Chat, item: Item)
    requires !item.TextDelta?
    ensures OnlyAppends(c, Handled(c, item), Handled(Muted(c), item))
  {
    if item.TurnResult? {
      TurnOnlyAppends(c, item.isError, item.result);
    } else if item.InitItem? || item.UnknownControlRequest? {
      QuietOnlyAppends(c, item);
    } else {
      EntryOnlyAppends(c, item);
    }
  }

  lemma ClosedOnlyAppends(c: Chat)
    ensures OnlyAppends(c, ExitClosesCard(c), ExitClosesCard(Muted(c)))
  {
    assert c.emitted + [] == c.emitted;
    if c.pending.Some? && !c.reaped {
      assert ExitClosesCard(Muted(c)).emitted
          == [PermissionResolved(c.pending.value.requestId, false, SessionClosed)];
    }
  }

  lemma ExitOnlyAppends(c: Chat, code: Option<int>)
    ensures OnlyAppends(c, ExitHandled(c, code), ExitHandled(Muted(c), code))
  {
    ClosedOnlyAppends(c);
    var muted := ExitClosesCard(Muted(c)).emitted;
    assert (c.emitted + muted) + [Exited(code)] == c.emitted + (muted + [Exited(code)]);
  }

  lemma SameStaysSame(c: Chat, d: Chat, arrival: Arrival)
    requires SameButCut(c, d)
    ensures SameButCut(EagerOne(c, arrival), EagerOne(d, arrival))
  {
    match arrival
    case Timeout =>
    case Got(item) =>
      if item.TextDelta? {
        FlushedOnlyAppends(c, item.text);
        FlushedOnlyAppends(d, item.text);
      } else {
        HandledOnlyAppends(c, item);
        HandledOnlyAppends(d, item);
      }
      JoinedAppends(c.emitted, d.emitted, EagerOne(Muted(c), arrival).emitted);
    case Gone(code) =>
      ExitOnlyAppends(c, code);
      ExitOnlyAppends(d, code);
      JoinedAppends(c.emitted, d.emitted, EagerOne(Muted(c), arrival).emitted);
  }

  lemma StepRefinesEager(p: Pump, c: Chat, arrival: Arrival)
    requires SameButCut(Flushed(p.chat, p.delta), c)
    ensures var q := ServeOne(p, arrival); SameButCut(Flushed(q.chat, q.delta), EagerOne(c, arrival))
  {
    var flushed := Flushed(p.chat, p.delta);
    SameStaysSame(flushed, c, arrival);
    if arrival.Got? && arrival.item.TextDelta? {
      var q := ServeOne(p, arrival);
      assert Flushed(q.chat, q.delta) == Flushed(p.chat, p.delta + arrival.item.text);
      FlushedTwice(p.chat, p.delta, arrival.item.text);
    } else {
      assert Flushed(ServeOne(p, arrival).chat, "") == EagerOne(flushed, arrival);
    }
  }

  // ----- the records a delivery makes ---------------------------------------------

  function ItemRecords(interrupting: bool, item: Item): seq<Record> {
    match item
    case AssistantText(text) => [AssistantRecord(text)]
    case ToolUse(name, input, summary, _) => [ToolUseRecord(name, input, summary)]
    case TurnResult(true, result) =>
      if interrupting then [] else [ErrorRecord(if Detail(result).Some? then result.value else FAILED_RECORD)]
    case _ => []
  }

  // What a chat holds that a delta leaves alone.
  predicate SameRecords(c: Chat, d: Chat) {
    c.transcript == d.transcript && c.interrupting == d.interrupting && c.pending == d.pending
  }

  lemma FlushedKeepsRecords(c: Chat, text: Text)
    ensures SameRecords(Flushed(c, text), c)
  {
  }

  ghost predicate AddsRecords(c: Chat, q: Chat, item: Item) {
    && q.transcript == c.transcript + ItemRecords(c.interrupting, item)
    && q.interrupting == (c.interrupting && !item.TurnResult?)
    && q.pending == (if item.PermissionRequest?
                     then Some(Pending(item.requestId, item.tool, item.input, item.question))
                     else c.pending)
  }

  lemma HandledAddsRecords(c: Chat, item: Item)
    requires !item.TextDelta?
    ensures AddsRecords(c, Handled(c, item), item)
  {
    if item.TurnResult? {
      TurnAddsRecords(c, item);
    }
  }

  lemma TurnAddsRecords(c: Chat, item: Item)
    requires item.TurnResult?
    ensures AddsRecords(c, Handled(c, item), item)
  {
  }

  lemma OneRecords(p: Pump, arrival: Arrival)
    requires !arrival.Gone?
    ensures var q := ServeOne(p, arrival).chat;
            if arrival.Timeout? then SameRecords(q, p.chat) else AddsRecords(p.chat, q, arrival.item)
  {
    match arrival
    case Timeout => FlushedKeepsRecords(p.chat, p.delta);
    case Got(item) =>
      if item.TextDelta? {
        FlushedKeepsRecords(p.chat, p.delta + item.text);
        assert ItemRecords(p.chat.interrupting, item) == [];
      } else {
        FlushedKeepsRecords(p.chat, p.delta);
        HandledAddsRecords(Flush(p).chat, item);
      }
  }
}
