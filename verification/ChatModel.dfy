// The chat session's data and what each of its operations does to it
// (src-tauri/src/chat_cmds.rs).
module ChatModel {
  import opened Wrappers

  // Text as code points; only the pump counts bytes.
  type Text = string

  datatype NoteRef = NoteRef(id: Text, title: Text, project: Option<Text>)

  datatype Resolution = User | Cancelled | SessionClosed

  // One rendered entry of the conversation log; a permission card waits while
  // its resolution is None.
  datatype Entry =
    | UserEntry(text: Text)
    | AssistantEntry(text: Text)
    | ToolUseEntry(summary: Text, note: Option<NoteRef>)
    | PermissionEntry(question: Text, tool: Text, allowed: Option<bool>, resolution: Option<Resolution>)
    | ErrorEntry(message: Text)

  // One transcript line, without its timestamp.
  datatype Record =
    | UserRecord(text: Text)
    | AssistantRecord(text: Text)
    | ToolUseRecord(tool: Text, input: Text, summary: Text)
    | PermissionRecord(requestId: Text, tool: Text, allowed: bool, resolution: Resolution)
    | ErrorRecord(message: Text)

  datatype Pending = Pending(requestId: Text, tool: Text, input: Text, question: Text)

  // ChatEventPayload.
  datatype Event =
    | Delta(text: Text)
    | AssistantDone(text: Text)
    | ToolUsed(summary: Text, note: Option<NoteRef>)
    | PermissionRequested(requestId: Text, tool: Text, question: Text)
    | PermissionResolved(requestId: Text, allowed: bool, resolution: Resolution)
    | TurnDone(stopped: bool, error: Option<Text>)
    | Exited(code: Option<int>)

  // A parsed stdout item; the summary, the question and the note a call cites
  // are computed outside this model and ride along.
  datatype Item =
    | TextDelta(text: Text)
    | InitItem
    | AssistantText(text: Text)
    | ToolUse(name: Text, input: Text, summary: Text, note: Option<NoteRef>)
    | PermissionRequest(requestId: Text, tool: Text, input: Text, question: Text)
    | UnknownControlRequest(requestId: Text)
    | TurnResult(isError: bool, result: Option<Text>)

  // What one recv_timeout of the pump returns.
  datatype Arrival = Got(item: Item) | Timeout | Gone(code: Option<int>)

  // A line queued to the child's stdin.
  datatype Line =
    | UserLine(text: Text)
    | AllowLine(requestId: Text, input: Text)
    | DenyLine(requestId: Text)
    | InterruptLine(counter: nat)
    | AckLine(requestId: Text)

  // Everything a session shares between its threads, what it has emitted and
  // queued, and the transcript each scheduled distill was given.
  datatype Chat = Chat(
    log: seq<Entry>,
    streaming: Text,
    pending: Option<Pending>,
    transcript: seq<Record>,
    turnActive: bool,
    interrupting: bool,
    reaped: bool,
    distillScheduled: bool,
    distillOnReap: bool,
    emitted: seq<Event>,
    queued: seq<Line>,
    distills: seq<seq<Record>>)

  const FRESH := Chat([], "", None, [], false, false, false, false, false, [], [], [])

  // ----- permission entries -------------------------------------------------

  predicate Open(entry: Entry) {
    entry.PermissionEntry? && entry.resolution.None?
  }

  // The last waiting card, of any question or of one.
  function LastOpen(log: seq<Entry>, question: Option<Text>): (i: Option<nat>)
    ensures i.Some? ==> (i.value < |log| && Open(log[i.value]))
    ensures i.Some? && question.Some? ==> log[i.value].question == question.value
    ensures i.None? ==>
              forall k :: 0 <= k < |log| && Open(log[k]) ==> question.Some? && log[k].question != question.value
    ensures i.Some? ==> forall k :: i.value < k < |log| && Open(log[k]) ==>
              question.Some? && log[k].question != question.value
  {
    if log == [] then None
    else
      var last := log[|log| - 1];
      if Open(last) && (question.None? || last.question == question.value) then Some(|log| - 1)
      else LastOpen(log[..|log| - 1], question)
  }

  function Settle(log: seq<Entry>, i: Option<nat>, allowed: bool, resolution: Resolution): (settled: seq<Entry>)
    requires i.Some? ==> i.value < |log| && Open(log[i.value])
    ensures |settled| == |log|
  {
    if i.None? then log
    else log[i.value := log[i.value].(allowed := Some(allowed), resolution := Some(resolution))]
  }

  // The shell looks the card up by its question.
  function SettleByQuestion(log: seq<Entry>, question: Text, allowed: bool, resolution: Resolution): seq<Entry> {
    Settle(log, LastOpen(log, Some(question)), allowed, resolution)
  }

  // The window takes the last waiting card, whatever it asks.
  function SettleLast(log: seq<Entry>, allowed: bool, resolution: Resolution): seq<Entry> {
    Settle(log, LastOpen(log, None), allowed, resolution)
  }

  // The question of the last waiting card.
  function OpenQuestion(log: seq<Entry>): Option<Text> {
    var i := LastOpen(log, None);
    if i.Some? then Some(log[i.value].question) else None
  }

  // Both lookups find the same card exactly when the last waiting card, if
  // there is one, asks the question being resolved.
  lemma LookupsAgreeIff(log: seq<Entry>, question: Text, allowed: bool, resolution: Resolution)
    ensures SettleByQuestion(log, question, allowed, resolution) == SettleLast(log, allowed, resolution)
       <==> OpenQuestion(log).None? || OpenQuestion(log) == Some(question)
  {
    var last, asked := LastOpen(log, None), LastOpen(log, Some(question));
    if last.Some? && log[last.value].question != question {
      assert SettleLast(log, allowed, resolution)[last.value] != log[last.value];
      assert asked.Some? ==> asked.value != last.value;
      assert SettleByQuestion(log, question, allowed, resolution)[last.value] == log[last.value];
    }
  }

  // Resolving a card marks one entry, with the outcome: the last that waits and
  // asks its question. If none does, nothing changes.
  lemma SettlingMarksTheLast(log: seq<Entry>, question: Text, allowed: bool, resolution: Resolution)
    ensures var settled := SettleByQuestion(log, question, allowed, resolution);
            || (settled == log && forall i :: 0 <= i < |log| ==> !Asks(log[i], question))
            || exists i :: 0 <= i < |log| && Asks(log[i], question)
                 && settled == log[i := PermissionEntry(question, log[i].tool, Some(allowed), Some(resolution))]
                 && forall j :: i < j < |log| ==> !Asks(log[j], question)
  {
    var i := LastOpen(log, Some(question));
    if i.Some? {
      assert log[i.value].question == question;
    }
  }

  predicate Asks(entry: Entry, question: Text) {
    entry.PermissionEntry? && entry.resolution == None && entry.question == question
  }

  lemma OpenQuestionAppends(log: seq<Entry>, entry: Entry)
    ensures OpenQuestion(log + [entry]) == if Open(entry) then Some(entry.question) else OpenQuestion(log)
  {
    assert (log + [entry])[..|log|] == log;
  }

  // ----- the operations -------------------------------------------------------

  // Rust's char::is_whitespace.
  predicate IsWhite(c: char) {
    '\t' <= c <= '\r'
    || c in {' ', '\U{85}', '\U{A0}', '\U{1680}', '\U{2028}', '\U{2029}', '\U{202F}', '\U{205F}', '\U{3000}'}
    || '\U{2000}' <= c <= '\U{200A}'
  }

  // The White_Space characters of Unicode, by code point.
  lemma WhiteIs(c: char)
    ensures IsWhite(c) <==>
      c as int in {0x9, 0xA, 0xB, 0xC, 0xD, 0x20, 0x85, 0xA0, 0x1680, 0x2000, 0x2001, 0x2002, 0x2003, 0x2004, 0x2005,
                   0x2006, 0x2007, 0x2008, 0x2009, 0x200A, 0x2028, 0x2029, 0x202F, 0x205F, 0x3000}
  {
  }

  predicate Blank(text: Text) {
    forall i :: 0 <= i < |text| ==> IsWhite(text[i])
  }

  const FAILED_PREFIX := "Couldn't finish the answer: "
  const FAILED_BARE := "Couldn't finish the answer. Try sending the message again."
  const FAILED_RECORD := "the turn failed"

  function Detail(result: Option<Text>): Option<Text> {
    if result.Some? && !Blank(result.value) then result else None
  }

  function Shown(detail: Option<Text>): (shown: Text)
    ensures shown != ""
  {
    if detail.Some? then FAILED_PREFIX + detail.value else FAILED_BARE
  }

  function Emit(c: Chat, event: Event): Chat {
    c.(emitted := c.emitted + [event])
  }

  // flush_delta
  function Flushed(c: Chat, text: Text): Chat {
    if text == "" then c else Emit(c.(streaming := c.streaming + text), Delta(text))
  }

  // handle_item, for everything but a delta
  function Handled(c: Chat, item: Item): Chat
    requires !item.TextDelta?
  {
    match item
    case InitItem => c
    case AssistantText(text) =>
      Emit(c.(streaming := "", transcript := c.transcript + [AssistantRecord(text)],
              log := c.log + [AssistantEntry(text)]), AssistantDone(text))
    case ToolUse(name, input, summary, note) =>
      Emit(c.(transcript := c.transcript + [ToolUseRecord(name, input, summary)],
              log := c.log + [ToolUseEntry(summary, note)]), ToolUsed(summary, note))
    case PermissionRequest(requestId, tool, input, question) =>
      Emit(c.(pending := Some(Pending(requestId, tool, input, question)),
              log := c.log + [PermissionEntry(question, tool, None, None)]),
           PermissionRequested(requestId, tool, question))
    case UnknownControlRequest(requestId) => c.(queued := c.queued + [AckLine(requestId)])
    case TurnResult(isError, result) => TurnEnded(c, isError, result)
  }

  function TurnEnded(c: Chat, isError: bool, result: Option<Text>): Chat {
    var stopped := c.interrupting && isError;
    var idle := c.(turnActive := false, interrupting := false);
    if isError && !stopped then
      var detail := Detail(result);
      var message := if detail.Some? then detail.value else FAILED_RECORD;
      Emit(idle.(transcript := idle.transcript + [ErrorRecord(message)],
                 log := idle.log + [ErrorEntry(Shown(detail))]), TurnDone(stopped, Some(Shown(detail))))
    else Emit(idle, TurnDone(stopped, None))
  }

  // A card is recorded and its entry settled, once it has been taken.
  function Resolved(c: Chat, card: Pending, allowed: bool, resolution: Resolution): Chat {
    c.(pending := None,
       transcript := c.transcript + [PermissionRecord(card.requestId, card.tool, allowed, resolution)],
       log := SettleByQuestion(c.log, card.question, allowed, resolution))
  }

  // claim_distill_once, then the transcript as it stands
  function Distilled(c: Chat): Chat {
    if c.distillScheduled then c
    else c.(distillScheduled := true, distills := c.distills + [c.transcript])
  }

  function ExitClosesCard(c: Chat): Chat {
    if c.pending.None? then c.(turnActive := false)
    else
      var card := c.pending.value;
      var closed := Resolved(c.(turnActive := false), card, false, SessionClosed);
      if c.reaped then closed else Emit(closed, PermissionResolved(card.requestId, false, SessionClosed))
  }

  // handle_exit
  function ExitHandled(c: Chat, code: Option<int>): Chat {
    var closed := ExitClosesCard(c);
    var told := if c.reaped then closed else Emit(closed, Exited(code));
    if !c.reaped || c.distillOnReap then Distilled(told) else told
  }

  // deny_pending; the deny line is queued if the child still takes lines
  function Denied(c: Chat, tell: bool, resolution: Resolution, writes: bool): Chat {
    if c.pending.None? then c
    else
      var card := c.pending.value;
      var line := if writes then c.(queued := c.queued + [DenyLine(card.requestId)]) else c;
      var resolved := Resolved(line, card, false, resolution);
      if tell then Emit(resolved, PermissionResolved(card.requestId, false, resolution)) else resolved
  }

  // chat_send while the child lives
  function Sent(c: Chat, text: Text, writes: bool): Chat {
    var noted := c.(transcript := c.transcript + [UserRecord(text)], log := c.log + [UserEntry(text)]);
    if writes then noted.(queued := noted.queued + [UserLine(text)], turnActive := true, interrupting := false)
    else noted
  }

  // chat_cancel while the child lives
  function CancelledTurn(c: Chat, counter: nat, writes: bool): Chat {
    var denied := Denied(c, true, Cancelled, writes).(interrupting := true);
    if writes then denied.(queued := denied.queued + [InterruptLine(counter)]) else denied
  }

  // chat_permission_respond
  function Answered(c: Chat, requestId: Text, allow: bool, writes: bool): Chat {
    if c.pending.None? || c.pending.value.requestId != requestId || !writes then c
    else
      var card := c.pending.value;
      var line := if allow then AllowLine(requestId, card.input) else DenyLine(requestId);
      Emit(Resolved(c.(queued := c.queued + [line]), card, allow, User), PermissionResolved(requestId, allow, User))
  }

  // reap
  function Reaped(c: Chat, writes: bool): Chat {
    Denied(c, false, SessionClosed, writes).(reaped := true)
  }
}
