# Kodabi: a model of its stateful cores

Kodabi is a desktop note keeper: it records meetings, keeps a commitment ledger
beside a vault of notes, talks to a chat process and shows all of it in a small
window. This project models the parts of it that are easy to get wrong, and
proves what they keep.

- `CaptureState`, `CaptureProtocol`, `CaptureRuns`, `CapturePasses`, `Watchdog`: recording is
  switched by hotkey presses, blocking calls and a watchdog that share one
  try-lock, one pending flag and one last broadcast. The protocol is a transition
  system with a step per atomic operation; device health and consent change by
  themselves. A statement about every list of actions is a statement about every
  interleaving of any number of threads. The press history kept in `Flag` (who
  stored, who was acted for) exists for the statements only.
- `ChatModel`, `ChatSession`, `ChatRuns`, `ChatView`, `ChatPermission`: the pump of
  a chat session coalesces streamed text and keeps a snapshot log while commands
  send, stop, answer and restart; the window rebuilds the same view from events; a
  permission card can be resolved by four paths.
- `LedgerWorker`, `Startup`: in the app one thread owns the ledger, serves a queue
  and writes snapshot files behind a two-timer debounce, while the chat's own
  process may change the same database; at startup a restore, a backfill question
  and a reconcile meet on that queue.
- `Digest`: the daily digest, checked, computed, recorded and written to a note
  under one gate, with a failure possible at every step.
- `StableSort`, `Commitments`, `Triage`, `Search`, `Markup`, `NoteGroups`: the
  sequence algorithms behind the views.

Where the program changes an object or loops over one, the model is a class or a
method with the same fields and branches, and its contract ties the new state to
a function; the theorems are about that function and about runs of it. The time
of day, what a write does, what a flush finds on disk, what arrives when:
all of these are inputs, so each theorem is about every value of them.

Where comments in the source promise more than the code gives, the code is
modelled and the difference is proved:

- A press can be served twice, once as a replay and once as itself
  (`ActsTwiceIff`, `APressCanActTwice`), although the comments say that presses
  collapse into one follow-up.
- A blocking call never drains the pending flag (`IpcHolderActsForNobody`), so a
  press it turns away waits (`RefusedPressIsServedIff`) until a later pass or
  watchdog tick gets the lock (`TickServesStranded`).
- A resync can leave the overlay claiming a capture that the last broadcast
  denies (`AResyncCanLeaveAStaleOverlay`).
- A command's event can reach the window ahead of text that came first
  (`PumpRefinesEagerIff`, `AnAnswerOvertakesText`).
- The backend keeps streamed text at the end of a turn, the window drops it
  (`AStoppedTurnPartsThem`).
- An answer that could not be written can put its card back after the exit handler
  has looked (`ACardCanComeBackLate`).
- An answer in hand while the exit is handled is recorded after the distill was
  scheduled (`TheDistillMissesARecordIff`, `ARecordCanFollowTheExit`).
- A flush calls a project written when its folder is gone, claiming what is
  already mine alters a snapshot without marking it, and the chat's process
  flushes once only (`CleanFilesAreCurrentIff`, `ADeletedFolderIsNotSaved`,
  `AnUnmarkedChangeIsNotSaved`, `AnOutsideChangeIsNotSaved`).
- A backfill reply that times out loses the seed for good (`SeedsIff`,
  `ATimeoutLosesTheSeed`).
- A queue that is never empty outruns the debounce's cap (`StopsTheTimerIff`,
  `ABusyQueueOutrunsTheCap`).
- Midnight between the digest's two clock reads leaves a day out
  (`MidnightSkipsADay`).
- The triage marker can cover an unreviewed row of the same instant
  (`WatermarkHidesIff`); needs-review rows can cycle (`NeedsReviewRowsCanCycle`).
- A caret at 0 before a leading newline doubles it (`ALeadingNewlineIsDoubled`),
  and group keys are unique only while months hold no # (`KeysCollideIff`).

`dafny verify dfyconfig.toml` checks the whole project.

## Model

| member | source | states |
|---|---|---|
| `CaptureState.PhaseOf` | `src-tauri/src/audio_cmds.rs:172-183` | listening exactly when both sources record, idle exactly when neither is engaged, degraded exactly in between, so a reconciled event never claims a start |
| `Watchdog.DegradedDebounce.constructor` | `src-tauri/src/capture_watchdog.rs:58-62` | a new debounce holds no part-built confirmation |
| `Watchdog.DegradedDebounce.Decide` | `src-tauri/src/capture_watchdog.rs:71-94` | one tick leaves the counter and returns the broadcast that Decision gives |
| `Watchdog.DegradedDebounce.Reset` | `src-tauri/src/capture_watchdog.rs:102-104` | a reset forgets a part-built confirmation |
| `Watchdog.CounterStaysBelowTwo` | `src-tauri/src/capture_watchdog.rs:71-104` | after every run of ticks, resets and other broadcasts the counter is below the confirming count, so it never saturates |
| `Watchdog.CounterMeans` | `src-tauri/src/capture_watchdog.rs:71-104` | the counter is one exactly when the latest input was a degraded observation held back while something else was shown |
| `Watchdog.ShowsDegradedIff` | `src-tauri/src/capture_watchdog.rs:71-94` | a degraded observation replaces a non-degraded display exactly when the input just before it was one too, with no reset between |
| `Watchdog.OtherTruthTakesOneTick` | `src-tauri/src/capture_watchdog.rs:66-94` | anything that is not an entry into degraded is shown by the first tick that sees it |
| `Watchdog.TwoTicksConverge` | `src-tauri/src/capture_watchdog.rs:147-175` | two ticks in a row that see the same state leave it displayed, whatever came before |
| `Watchdog.OverlayController.constructor` | `src-tauri/src/overlay.rs:84-92` | the overlay starts out believing nothing is recorded |
| `Watchdog.OverlayController.ObserveCaptureActive` | `src-tauri/src/overlay.rs:84-92` | the swap reports a start exactly when the event claims a capture and the stored copy did not |
| `Watchdog.FreshReplaysHoldTheLast` | `src-tauri/src/overlay.rs:84-92` | while resyncs replay the latest broadcast the stored copy is what that broadcast claims |
| `Watchdog.StartEdgeIff` | `src-tauri/src/overlay.rs:116-153` | on any sequence of broadcasts and resyncs, stale or not, the start edge is right at a call (it fires exactly for an idle-to-active step of the broadcasts) exactly when the call claims nothing, or is a broadcast that finds held what the last broadcast claims, or is a replay that finds a capture held |
| `Watchdog.HeldIsTheLastIff` | `src-tauri/src/overlay.rs:84-92` | what is held is what the last broadcast claims exactly when the latest call was a broadcast, or a replay with the same claim |
| `Watchdog.FreshReplaysFireRightly` | `src-tauri/src/overlay.rs:116-174` | so with fresh replays every call of every sequence is right |
| `Watchdog.AStaleReplayBreaksTheEdge` | `src-tauri/src/overlay.rs:166-174` | a replay of an older event fires an edge no broadcast made, or swallows the next one |
| `CaptureProtocol.StepKeepsInv` | `src-tauri/src/capture_control.rs:159-306` | every operation of every actor keeps the lock, press, attribution, counting and display invariants |
| `CaptureProtocol.RunKeepsInv` | `src-tauri/src/capture_control.rs:159-306` | they hold after every run, for any number of threads |
| `CaptureRuns.NoPressIsLost` | `src-tauri/src/capture_control.rs:159-207` | a press that stored the flag has been acted for by a pass that began later, or its mark still stands or is in the holder's hand |
| `CaptureRuns.DrainerServes` | `src-tauri/src/capture_control.rs:188-207` | a holder that has not made its last look serves every press stored by then before it gives the lock up |
| `CaptureRuns.TickServesStranded` | `src-tauri/src/capture_watchdog.rs:155-187` | a watchdog tick that gets the lock serves every stranded press before it leaves |
| `CaptureRuns.ReplaysAreBounded` | `src-tauri/src/capture_control.rs:184-207` | replayed toggles never outnumber the presses that stored the flag |
| `CaptureRuns.AtMostTwice` | `src-tauri/src/capture_control.rs:159-207` | a press is acted for at most twice: once from its mark, once as itself |
| `CaptureRuns.ActsTwiceIff` | `src-tauri/src/capture_control.rs:159-169` | it is acted for twice exactly when it took the lock on its second try after another pass had cleared its mark, and then ran its own pass |
| `CaptureRuns.LateWasServed` | `src-tauri/src/capture_control.rs:159-169` | by the time a press takes the lock that way, a pass has acted for it already |
| `CaptureRuns.APressCanActTwice` | `src-tauri/src/capture_control.rs:150-170` | the run: a press against a running capture is replayed as a stop and then, as itself, starts a new recording |
| `CaptureRuns.RefusedPressIsServedIff` | `src-tauri/src/capture_control.rs:154-170` | a press turned away and not served by then is served before the holder gives the lock up exactly when that holder may still drain |
| `CaptureRuns.IpcHolderActsForNobody` | `src-tauri/src/capture_control.rs:274-306` | while a blocking IPC call holds the lock nobody acts for any press: such a call never drains |
| `CaptureRuns.AnIpcHolderStrandsAPress` | `src-tauri/src/capture_control.rs:274-306` | a run of it: a press that meets a blocking stop is left marked when everyone has finished |
| `CaptureRuns.ConsentWasRead` | `src-tauri/src/audio_cmds.rs:425-442` | an actor past its consent check has read consent as given itself, since it was spawned |
| `CaptureRuns.StartProvenance` | `src-tauri/src/capture_control.rs:112-122` | the engine goes from idle to active only at the start operation of a direct press or an IPC start that holds the lock and had itself read consent as given; no replay or tick starts one |
| `CaptureRuns.NoStartingWhenFree` | `src-tauri/src/capture_control.rs:210-258` | no start is left announced once the lock is free |
| `CaptureRuns.OverlayStepIff` | `src-tauri/src/overlay.rs:116-174` | one operation parts the overlay from the last broadcast exactly when it is a resync writing an event that claims otherwise |
| `CaptureRuns.OverlayFollowsIff` | `src-tauri/src/overlay.rs:116-174` | over every run the overlay claims what the last broadcast claims all along exactly when no resync hands it an event that claims otherwise |
| `CaptureRuns.OverlayFollowsWithoutResync` | `src-tauri/src/overlay.rs:116-153` | in a run without resyncs the overlay always claims what the last broadcast claims |
| `CaptureRuns.AResyncCanLeaveAStaleOverlay` | `src-tauri/src/overlay.rs:166-174` | the run: a resync that read an announced start writes it after the start failed |
| `CaptureRuns.HolderProgresses` | `src-tauri/src/capture_control.rs:193-258` | each operation of the lock's holder brings its release nearer |
| `CaptureRuns.OthersDoNotHinder` | `src-tauri/src/capture_control.rs:159-207` | nobody but a press storing the flag can push the release away |
| `CaptureRuns.TheLoopEnds` | `src-tauri/src/capture_control.rs:193-258` | so the drain loop ends: without new stores, at most Rank operations of the holder free the lock, and if it could still drain every press stored before has been served by then |
| `CapturePasses.APassHoldsTheLock` | `src-tauri/src/capture_control.rs:193-207` | a pass does not give the lock up before it looks at the flag again |
| `CapturePasses.APassLeaves` | `src-tauri/src/capture_control.rs:112-258` | over every run and interleaving, by the time a pass looks at the flag again it has shut both sources if it read the engine active, for a direct press and for a replay alike; it has started, announced, exactly for a direct press that read it idle and consent as given; otherwise the engine records exactly if it did before; and the last broadcast is the truth about that, but for a replay with nothing to stop |
| `CapturePasses.ACallLeaves` | `src-tauri/src/capture_control.rs:274-306` | when a blocking call gives the lock up a stop has shut both sources and idle is shown; a start has brought up each source that was not recording, announced unless the engine was read active; and the last broadcast is the truth about what it left |
| `CapturePasses.TheDisplayIsTheWatchdogs` | `src-tauri/src/capture_watchdog.rs:147-187` | over every run of the protocol the last broadcast and the counter are what the debounce makes of its ticks, observed or blind, and of everyone else's broadcasts, spelled out from the engine |
| `ChatModel.LookupsAgreeIff` | `src-tauri/src/chat_cmds.rs:271-290` | the backend's search by question and the window's search for the last waiting card settle the same entry exactly when the last waiting card asks that question |
| `ChatModel.SettlingMarksTheLast` | `src-tauri/src/chat_cmds.rs:271-290` | settling a card marks exactly one entry with the outcome, the last waiting one that asks its question, or none if none does |
| `ChatModel.OpenQuestionAppends` | `src-tauri/src/chat_cmds.rs:271-290` | what appending one entry does to the last waiting question |
| `ChatModel.WhiteIs` | `src-tauri/src/chat_cmds.rs:838-875` | what counts as blank in a failed turn's detail, by code point |
| `ChatSession.SharedChat.constructor` | `src-tauri/src/chat_cmds.rs:650-690` | a new session has an empty log, transcript and slot |
| `ChatSession.SharedChat.ResolvePermissionEntry` | `src-tauri/src/chat_cmds.rs:271-290` | the backward search settles the last waiting entry for the question and leaves the rest |
| `ChatSession.SharedChat.FlushDelta` | `src-tauri/src/chat_cmds.rs:702-716` | held-back text joins the streamed text and is emitted once; empty text does nothing |
| `ChatSession.SharedChat.HandleItem` | `src-tauri/src/chat_cmds.rs:747-876` | each completed item makes its record, log entry and event, and nothing else changes |
| `ChatSession.SharedChat.EndTurn` | `src-tauri/src/chat_cmds.rs:838-875` | a turn result spends the interrupt, and records an error only when it failed without being stopped |
| `ChatSession.SharedChat.Resolve` | `src-tauri/src/chat_cmds.rs:159-172` | a taken card is recorded once with its outcome and its entry settled |
| `ChatSession.SharedChat.ScheduleChatDistill` | `src-tauri/src/chat_cmds.rs:244-252` | only the first claim schedules, and it schedules the transcript as it stands |
| `ChatSession.SharedChat.HandleExit` | `src-tauri/src/chat_cmds.rs:879-924` | an exit denies the open card, speaks only if not reaped, and then decides the distill |
| `ChatSession.SharedChat.DenyPending` | `src-tauri/src/chat_cmds.rs:150-183` | a stop or a reap takes the open card, denies it and records that |
| `ChatSession.SharedChat.Send` | `src-tauri/src/chat_cmds.rs:462-486` | a send records and logs the message whatever its write does, and opens the turn only if the write succeeded |
| `ChatSession.SharedChat.Cancel` | `src-tauri/src/chat_cmds.rs:494-513` | a cancel denies the card, marks the turn as interrupted and queues the interrupt |
| `ChatSession.SharedChat.PermissionRespond` | `src-tauri/src/chat_cmds.rs:520-590` | an answer takes only the matching card, puts it back when the write fails and records it as the user's otherwise |
| `ChatSession.SharedChat.Reap` | `src-tauri/src/chat_cmds.rs:194-198` | a reap denies the card as closed and marks the session reaped |
| `ChatSession.SharedChat.WishForDistill` | `src-tauri/src/chat_cmds.rs:602-607` | a restart's wish sets its flag and nothing else |
| `ChatSession.SharedChat.RunPump` | `src-tauri/src/chat_cmds.rs:693-745` | the loop leaves exactly the session that serving its arrivals in order leaves |
| `ChatSession.ByteLengthAdds` | `src-tauri/src/chat_cmds.rs:713-741` | the pump's buffer is measured in UTF-8 bytes: lengths add up, one character takes one to four by its code point |
| `ChatRuns.PumpRefinesEagerIff` | `src-tauri/src/chat_cmds.rs:702-741` | over every run of items, timeouts, deaths, sends, stops, answers, reaps and restarts the coalescing pump does what one that emits each delta at once does, with the same events in order up to joining neighbouring deltas, exactly when no command tells the window something while text is held back |
| `ChatRuns.EverythingElseAgrees` | `src-tauri/src/chat_cmds.rs:702-741` | whatever the commands do, log, transcript, card, lines, distills and streamed text agree; only the order of events is ever at stake |
| `ChatRuns.PumpCoalescesIff` | `src-tauri/src/chat_cmds.rs:693-741` | once the exit is handled nothing is outstanding and the two agree outright, under that same guard |
| `ChatRuns.AnAnswerOvertakesText` | `src-tauri/src/chat_cmds.rs:562-588` | the input that fails it: an answer given over held-back text is told to the window first |
| `ChatRuns.HeldBackIff` | `src-tauri/src/chat_cmds.rs:702-741` | text is held at the end of a run exactly when some delta brought it and no timeout, completed item, exit or full buffer has flushed since |
| `ChatRuns.AClosedChannelDropsTextIff` | `crates/kodabi-llm/src/chat.rs:18-21` | Exited is the last thing a channel carries; should it close without one, streamed text is lost exactly when a delta brought some and nothing has flushed since |
| `ChatRuns.RunFiles` | `src-tauri/src/chat_cmds.rs:462-924` | over every such run the transcript is exactly the records told from the moves alone, in order |
| `ChatRuns.RunQueues` | `src-tauri/src/chat_cmds.rs:462-590` | over every such run the child is sent exactly the user, allow, deny, interrupt and acknowledgement lines told from the moves and from which writes succeed, in order |
| `ChatRuns.AnAllowLineIsTheUsersIff` | `src-tauri/src/chat_cmds.rs:537-563` | a tool is let run, with a given input, exactly where the user allowed the card that waited with that input and the answer was written |
| `ChatRuns.LinesMatchRecords` | `src-tauri/src/chat_cmds.rs:537-590` | the allow lines name the requests the transcript records as allowed, as often and in the same order, and every refusal recorded as the user's was sent as a denial |
| `ChatRuns.RunTells` | `src-tauri/src/chat_cmds.rs:702-924` | over every such run the events, under a pump that emits at once, are exactly those told from the moves, in order |
| `ChatRuns.TheWindowIsTold` | `src-tauri/src/chat_cmds.rs:693-924` | so an ended session whose run kept the order has told the window exactly that, up to joining neighbouring deltas |
| `ChatRuns.SchedulesIff` | `src-tauri/src/chat_cmds.rs:239-252` | an exit schedules a distill exactly when it is handled and no app exit had reaped the session before, also where it is handled inside a restart, between the wish and the reap |
| `ChatRuns.DistillsIff` | `src-tauri/src/chat_cmds.rs:239-252` | over every run of a session at most one distill is scheduled, exactly then, and with a command as one step, it is given every record of the run |
| `ChatView.ResolvePermissionEntry` | `src/useChatSession.ts:90-111` | the window's backward search settles the last card still waiting |
| `ChatView.OpIff` | `src/useChatSession.ts:113-197` | from a window in step, an operation keeps it in step exactly when its guard holds: text only during a turn, no turn or session ending with partial text, a send that went through |
| `ChatView.SnapshotAgreesIff` | `src-tauri/src/chat_cmds.rs:119-145` | a window in step shows the real snapshot, which asks the process, exactly when the process lives or its exit has been handled |
| `ChatView.SnapshotEqualsReplay` | `src/useChatSession.ts:74-197` | over every run that meets the guards, replaying the emitted events gives the window a fresh snapshot would, but for one taken between the process's death and its handling |
| `ChatView.AnEndedSessionIsQuiet` | `src/useChatSession.ts:74-197` | a snapshot of a session whose process is gone shows it ended with no turn under way, and so does the exit once told |
| `ChatView.OpensInStep` | `src/useChatSession.ts:74-87` | a window that just opened a session is in step |
| `ChatView.AStoppedTurnPartsThem` | `src/useChatSession.ts:171-178` | a turn stopped mid-text parts the two: the backend keeps the streamed text, the window drops it |
| `ChatView.PumpIsOps` | `src-tauri/src/chat_cmds.rs:693-745` | the pump's session is the one those operations leave, so the replay law holds of it |
| `ChatPermission.StepKeepsInv` | `src-tauri/src/chat_cmds.rs:520-590` | the card is always in exactly one place: slot, command, exit handler, or recorded |
| `ChatPermission.AtMostOneRecord` | `src-tauri/src/chat_cmds.rs:150-180` | over every interleaving a request id gets at most one permission record |
| `ChatPermission.RecordsAreFinal` | `src-tauri/src/chat_cmds.rs:879-902` | no later step changes or removes a record |
| `ChatPermission.DenialIsTheDefault` | `src-tauri/src/chat_cmds.rs:537-578` | a record allows only where the user allowed that request and the write to the child succeeded |
| `ChatPermission.SlotHoldsIff` | `src-tauri/src/chat_cmds.rs:552-562` | once the exit handler has looked, the slot holds a card exactly when the write of its answer failed after that look and no later answer or denial took it |
| `ChatPermission.EveryRequestIsRecordedIff` | `src-tauri/src/chat_cmds.rs:879-902` | once the exit is handled and no command is under way, a request lacks its one record exactly when such a late failed write happened to it in the run |
| `ChatPermission.RecordsStop` | `src-tauri/src/chat_cmds.rs:879-924` | once the exit is handled, with no command under way and the slot empty, no step records anything |
| `ChatPermission.CanStillRecordIff` | `src-tauri/src/chat_cmds.rs:537-588` | once the exit is handled some continuation adds a record exactly when a command is under way or a card waits in the slot |
| `ChatPermission.TheDistillMissesARecordIff` | `src-tauri/src/chat_cmds.rs:879-924` | the transcript the exit handler schedules a distill for can still grow exactly when a command held a card as the handler finished |
| `ChatPermission.TheDistillMissesAtMostOne` | `src-tauri/src/chat_cmds.rs:879-924` | and over every run it misses at most one record, of that card |
| `ChatPermission.ARecordCanFollowTheExit` | `src-tauri/src/chat_cmds.rs:552-588` | the input: an answer written before the exit handler looks is recorded after it is done |
| `ChatPermission.ACardCanComeBackLate` | `src-tauri/src/chat_cmds.rs:552-562` | the run in which that happens |
| `LedgerWorker.CountTellsNewDirt` | `src-tauri/src/ledger_state.rs:801-823` | comparing how many projects are dirty before and after a job tells whether one is newly dirty |
| `LedgerWorker.LedgerLoop.constructor` | `src-tauri/src/ledger_state.rs:768-784` | the loop starts clean, unarmed and owing no backfill |
| `LedgerWorker.LedgerLoop.FlushSnapshots` | `src-tauri/src/ledger_state.rs:1187-1195` | a flush rewrites the files of the dirty projects whose write succeeds, leaves the failed ones dirty and calls those without a folder written |
| `LedgerWorker.LedgerLoop.HandleJob` | `src-tauri/src/ledger_state.rs:860-942` | each job changes contents, dirt, files, the backfill flag and its answers as Handled says |
| `LedgerWorker.ToldIff` | `src-tauri/src/ledger_state.rs:860-942` | a job is announced exactly when it is a machine's change that touched something or a restore that brought entries back |
| `LedgerWorker.LedgerLoop.ServeJob` | `src-tauri/src/ledger_state.rs:799-830` | a served job also moves the two timers |
| `LedgerWorker.LedgerLoop.Intrude` | `crates/kodabi-mcp/src/tools/waive_action_item.rs:94-119` | a change by the chat's own process moves the shared contents, writes those files once as well as it can, and leaves the worker's dirt and timers alone |
| `LedgerWorker.LedgerLoop.ServeEvent` | `src-tauri/src/ledger_state.rs:785-841` | one turn of the loop, or one such change |
| `LedgerWorker.LedgerLoop.RunWorker` | `src-tauri/src/ledger_state.rs:785-841` | the loop leaves exactly the state its polls and the changes between them call for and stops at the disconnect |
| `LedgerWorker.FlushAgreesIff` | `crates/kodabi-core/src/ledger/snapshot.rs:240-306` | what a flush does to each file; a project it calls written agrees with its file exactly when its folder is there or it has nothing to record |
| `LedgerWorker.ServedAgreesIff` | `src-tauri/src/ledger_state.rs:785-841` | one event leaves a project dirty or its file current exactly when it is safe for it: a flush finds its folder, a change marks what it alters, a restore reads truly, an outside change writes what it alters; a restore into an empty ledger whatever came before |
| `LedgerWorker.CleanFilesAreCurrentIff` | `src-tauri/src/ledger_state.rs:785-841` | over every run of the worker and of the chat's process a clean project's file holds its current contents all along exactly when every event is safe for it |
| `LedgerWorker.ADeletedFolderIsNotSaved` | `crates/kodabi-core/src/ledger/snapshot.rs:252-254` | the input that fails it: with its folder deleted a project ends clean and unarmed, with contents and no file |
| `LedgerWorker.AnUnmarkedChangeIsNotSaved` | `crates/kodabi-core/src/ledger/store.rs:556-566` | the other: a change that marks nothing, as claiming what is mine already does, leaves the file stale and no timer |
| `LedgerWorker.AnOutsideChangeIsNotSaved` | `crates/kodabi-mcp/src/tools/waive_action_item.rs:114-119` | the third: an outside change whose write fails leaves a clean project with a stale file and no timer |
| `LedgerWorker.TimersAreOrdered` | `src-tauri/src/ledger_state.rs:777-794` | with a clock that does not go back, the oldest change is never after the newest, and a timer runs only for dirty projects |
| `LedgerWorker.ArmedIffDirtyAfterAJob` | `src-tauri/src/ledger_state.rs:821-829` | after every job the debounce is armed exactly when some project is dirty |
| `LedgerWorker.UnarmedDirtIsAFailedFlush` | `src-tauri/src/ledger_state.rs:816-834` | dirt with no timer only comes from a timed-out flush that could not write it, with nothing served since |
| `LedgerWorker.NoNewDirtNoExtension` | `src-tauri/src/ledger_state.rs:810-829` | a job that dirties no further project leaves both timers alone |
| `LedgerWorker.DeadlineIsCapped` | `src-tauri/src/ledger_state.rs:786-789` | the deadline is never past the oldest change plus the cap |
| `LedgerWorker.TheTimersAreTheLatest` | `src-tauri/src/ledger_state.rs:810-829` | over every run, while the timer runs its two instants are those of the latest look whose job dirtied a clean project or armed the timer, and of the look that armed it |
| `LedgerWorker.TheQuietWindow` | `src-tauri/src/ledger_state.rs:785-834` | with the timer running, a look at an empty queue stops it exactly when the quiet time has passed since that latest look or the cap since the arming one, and until then changes nothing, so nothing is written sooner |
| `LedgerWorker.UnarmedLooksDoNothing` | `src-tauri/src/ledger_state.rs:785-834` | with no timer a look at an empty queue changes nothing |
| `LedgerWorker.FlushedAtTheFirstEmptyLook` | `src-tauri/src/ledger_state.rs:785-834` | an armed change is flushed no later than the first look at an empty queue from the cap on |
| `LedgerWorker.DisarmingWrites` | `src-tauri/src/ledger_state.rs:826-839` | when the timer stops, each waiting project is still dirty because its write failed, or its file holds its contents (none if its folder is gone), or a restore replaced the ledger |
| `LedgerWorker.StopsTheTimerIff` | `src-tauri/src/ledger_state.rs:785-834` | a running timer is stopped by a job exactly when it leaves nothing dirty, and by a look at an empty queue exactly when the deadline has come |
| `LedgerWorker.ABusyQueueOutrunsTheCap` | `src-tauri/src/ledger_state.rs:790-793` | while every look finds a job that neither flushes nor restores, whatever it is and however late, the timer stands, dirt only grows and the worker writes no file |
| `LedgerWorker.OneProjectIsNeverWritten` | `src-tauri/src/ledger_state.rs:790-793` | an input: one project changed at every look is never written |
| `Startup.StepKeepsInv` | `src-tauri/src/ledger_state.rs:633-646` | every step of any sender, the worker or a reconcile keeps the queue, answer, order and seed invariants |
| `Startup.RestoreRunsFirst` | `src-tauri/src/ledger_state.rs:633-646` | under every interleaving the worker serves the queue in order and its first job, and only restore, runs on the database as opened |
| `Startup.BackfillIsOwedOnce` | `src-tauri/src/ledger_state.rs:905-917` | the backfill question is answered true exactly for the first question, and only if the restore left the ledger empty |
| `Startup.SeedsAtMostOnce` | `src-tauri/src/index_state.rs:593-616` | a session seeds at most once, and only a ledger that came up empty |
| `Startup.SeedsIff` | `src-tauri/src/index_state.rs:593-616` | once the first reconcile is over the session has seeded exactly when the restore left the ledger empty and the answer to that reconcile's question was heard |
| `Startup.SeedsAreOwed` | `src-tauri/src/index_state.rs:593-616` | the session is seeded exactly by a reconcile that ends owing a seed |
| `Startup.TheSeedIsQueuedLast` | `src-tauri/src/index_state.rs:593-616` | the seed's job is queued as its reconcile ends, after that reconcile's question and everything else it queued, with nothing of it to follow; a reconcile that owes none queues nothing at its end |
| `Startup.AJobIsQueued` | `src-tauri/src/index_state.rs:596-612` | a forwarded job goes to the end of the queue under its reconcile, anyone else's likewise |
| `Startup.AsksBeforeForwarding` | `src-tauri/src/index_state.rs:586-602` | nothing a reconcile queues is ahead of its own question |
| `Startup.ATimeoutLosesTheSeed` | `src-tauri/src/ledger_state.rs:394-413` | the run: a reply that times out spends the flag, and no later question is answered true |
| `Digest.DigestBook.constructor` | `src-tauri/src/ledger_cmds.rs:617-650` | nothing is recorded on a new device |
| `Digest.DigestBook.Record` | `src-tauri/src/ledger_cmds.rs:731-745` | storing sets the payload before the marker, and only a heard reply counts as recorded |
| `Digest.DigestBook.ComputeIfDue` | `src-tauri/src/ledger_cmds.rs:617-711` | one gated call checks, computes, records and only then writes the note |
| `Digest.StepKeepsInv` | `src-tauri/src/ledger_cmds.rs:617-749` | every call, whatever fails in it, keeps the chain of windows and the notes in line with the recorded runs |
| `Digest.OneNotePerDay` | `src-tauri/src/ledger_cmds.rs:689-710` | each note's day is later than every earlier note's: at most one note per local day over all callers and failures |
| `Digest.NotesComeFromStoredRuns` | `src-tauri/src/ledger_cmds.rs:706-710` | every note is a non-empty digest whose recording was heard to succeed |
| `Digest.ANoteIsWrittenIff` | `src-tauri/src/ledger_cmds.rs:689-710` | a call writes a note exactly when it computed items on a due day, heard them stored, and the vault took the note, which is that digest |
| `Digest.ThePayloadIsTheLatest` | `src-tauri/src/ledger_cmds.rs:731-745` | over every run the stored payload is the one of the latest call that stored any |
| `Digest.TheMarkerIsTheGreatestStamp` | `src-tauri/src/ledger_cmds.rs:731-745` | and the marker is the greatest stamp of the calls stored down to it |
| `Digest.TheCardIsOfItsDay` | `src-tauri/src/ledger_cmds.rs:617-768` | whatever came before, the card is of the call's own day: it lists what the call computed, or, while the marker's day is not over, the latest stored payload if a call of that same day stored it, and nothing otherwise |
| `Digest.NoDayTwice` | `src-tauri/src/ledger_cmds.rs:658-687` | no day lies in the windows of two recorded digests |
| `Digest.ADayIsSkippedIff` | `src-tauri/src/ledger_cmds.rs:617-749` | a day between the first and the last recorded digest lies in no window exactly when a run described an earlier day and was stamped on it or later |
| `Digest.WindowsTile` | `src-tauri/src/ledger_cmds.rs:658-749` | when every run is stamped on the day it describes, each such day lies in exactly one window |
| `Digest.TheCardHoldsAllDay` | `src-tauri/src/ledger_cmds.rs:658-666` | after a day's digest is recorded every later call that day shows it, and changes nothing |
| `Digest.MidnightSkipsADay` | `src-tauri/src/ledger_cmds.rs:624-735` | the run: midnight between the two clock reads leaves a day no digest reports |
| `Digest.ABackwardStampRepeatsANote` | `src-tauri/src/ledger_cmds.rs:735-735` | the run: a clock set back between the two reads writes a day's note twice |
| `Digest.DueAgainIff` | `src-tauri/src/ledger_cmds.rs:617-666` | after a stored digest its day is due again exactly when the stamp falls on an earlier day |
| `StableSort.Sort` | `src/commitmentGroups.ts:168-168` | sorting permutes, whatever the comparison |
| `StableSort.SortSorts` | `src/commitmentGroups.ts:168-168` | under a consistent comparison the result is in order |
| `StableSort.SortIsStable` | `src/commitmentGroups.ts:168-168` | and rows that tie keep their order |
| `StableSort.StableSortIsUnique` | `src/commitmentGroups.ts:168-168` | and it is the only arrangement that is sorted and stable, so any engine's stable sort returns it |
| `Commitments.CompareIsSymmetric` | `src/commitmentGroups.ts:122-142` | asking the other way round gives the opposite answer |
| `Commitments.CompareIsAnOrderIff` | `src/commitmentGroups.ts:122-142` | compare is a strict weak order on a list of rows exactly when no row crosses two rows of the other kind in its rank |
| `Commitments.OneKindPerRankIsAnOrder` | `src/commitmentGroups.ts:112-142` | so it is one where dated and undated rows never share a rank; ranks 3 to 5 hold undated rows only |
| `Commitments.NeedsReviewRowsCanCycle` | `src/commitmentGroups.ts:112-142` | three needs-review rows, each before the next |
| `Commitments.ACycleCannotBeSorted` | `src/commitmentGroups.ts:122-142` | no arrangement of a cycle is in order |
| `Commitments.ArrangeCommitments` | `src/commitmentGroups.ts:151-172` | the loop and the grouping give the groups, the shelf and the settled rows |
| `Commitments.TheArrangementPermutes` | `src/commitmentGroups.ts:151-172` | groups and shelf together are a permutation of the entries |
| `Commitments.SplittingKeepsOrder` | `src/commitmentGroups.ts:155-163` | the live rows and the shelf keep the order the entries came in |
| `Commitments.GoingKeepsOrder` | `src/commitmentGroups.ts:165-169` | and so do the rows of one direction, before they are sorted |
| `Commitments.EachGroupIsItsDirection` | `src/commitmentGroups.ts:41-48` | groups come mine, waiting, unassigned, none empty, each with its own rows and heading |
| `Commitments.AGroupHoldsARowIff` | `src/commitmentGroups.ts:144-164` | a row is in its direction's group exactly when it is an entry that is not snoozed or whose snooze has lapsed |
| `Commitments.TheShelfHoldsARowIff` | `src/commitmentGroups.ts:158-160` | and on the shelf exactly when it is snoozed and that has not lapsed |
| `Commitments.GroupsComeOutSorted` | `src/commitmentGroups.ts:165-170` | where no row of a group crosses two others of it, the group is in order and is the only stable such arrangement |
| `Commitments.TheKindsComeInOrder` | `src/commitmentGroups.ts:112-142` | there needs-review rows lead, then overdue, dated, stale, aging and fresh ones; within a kind days come soonest first, rows without a day quietest first, and what still ties by the text shown |
| `Triage.TriageWatermark` | `src/commitmentGroups.ts:281-295` | the loop stops at the first outstanding row of the sorted batch |
| `Triage.BelowTheWatermarkIsDealt` | `src/commitmentGroups.ts:253-295` | every row strictly below the marker is reviewed or no longer active, ties or not |
| `Triage.WatermarkIsTheGreatest` | `src/commitmentGroups.ts:253-295` | no instant with everything up to it dealt with lies above the marker |
| `Triage.WatermarkIsMonotone` | `src/commitmentGroups.ts:281-295` | reviewing or settling more never moves the marker back |
| `Triage.WatermarkHidesIff` | `src/commitmentGroups.ts:290-293` | the marker covers an outstanding row exactly when, at the earliest outstanding instant, it ties with a dealt row that comes first in the batch |
| `Triage.DistinctInstantsHideNothing` | `src/commitmentGroups.ts:256-266` | with distinct instants no outstanding row is covered |
| `Triage.ATieHidesARow` | `src/commitmentGroups.ts:290-293` | two rows of one instant, one reviewed: the marker covers both |
| `Triage.ArrangeTriage` | `src/commitmentGroups.ts:224-251` | the Map loop and the two sorts give the strip |
| `Triage.StripOffersIff` | `src/commitmentGroups.ts:224-234` | the strip offers a row, under its source note, exactly when the last look is known and the row is an entry enrolled after it |
| `Triage.StripIsOldestFirst` | `src/commitmentGroups.ts:234-250` | no group is empty, groups and the rows of each come oldest first, and a group is headed by the title and day of the first of its new entries as given |
| `Triage.StripKeepsEachRow` | `src/commitmentGroups.ts:228-240` | each group holds exactly its note's new entries, each as often as given |
| `Triage.OwnKeepsOrder` | `src/commitmentGroups.ts:228-240` | a note's new rows keep the order they came in, before they are sorted |
| `Triage.StripHasOneGroupANote` | `src/commitmentGroups.ts:228-240` | no note has two groups |
| `Triage.NextStripDropsIff` | `src/commitmentGroups.ts:224-295` | feeding the marker back, the next strip drops an outstanding row exactly in that tie case |
| `Search.ParseSnippet` | `src/useSearch.ts:84-104` | the loop returns the parse of the snippet, and ends |
| `Search.ParsingOnlyStrips` | `src/useSearch.ts:84-104` | on any input the segment texts are the snippet with exactly the paired sentinels removed, character by character |
| `Search.ParseOfRender` | `src/useSearch.ts:84-104` | parsing the rendering of sentinel-free segments gives their normal form |
| `Search.CanonicalSegmentsRoundTrip` | `src/useSearch.ts:84-104` | a list with no empty segment and no two plain ones in a row comes back exactly |
| `Search.AnEmptyMarkParts` | `src/useSearch.ts:95-99` | an empty match between two plain texts leaves no segment but still parts them |
| `Search.TermsAreTheRuns` | `src/useSearch.ts:137-140` | the terms are, in order, the folded white-space-free runs of the query that hold a word character, so the prefix term is the last of them |
| `Search.HighlightTerms` | `src/useSearch.ts:136-176` | the loop returns a highlighting of the whole text |
| `Search.HighlightIsLossless` | `src/useSearch.ts:146-175` | its segments spell the text |
| `Search.MarksAreMatches` | `src/useSearch.ts:117-161` | each marked segment is spelled, folded character by character, by a term of its length; no word character comes right before it, and none right after unless the term is the last; and no earlier term occurs there |
| `Search.PlainHasNoMatch` | `src/useSearch.ts:151-163` | at no position left plain does any term so occur |
| `Search.HighlightIsUnique` | `src/useSearch.ts:144-175` | a text has only one such highlighting: greedy from the left, first matching term, plain runs merged |
| `Markup.LinkLandsInTheParens` | `src/textareaCaret.ts:110-117` | a link keeps the text around it and puts the caret between the empty parentheses |
| `Markup.AlreadyWrappedIff` | `src/textareaCaret.ts:127-134` | the guard holds exactly when one marker, and not two, stands on each side of the selection |
| `Markup.WrapChangesTheSides` | `src/textareaCaret.ts:119-147` | a wrap keeps the selected text selected, takes the marker off both sides where one and not two stands on each, and puts one on each side otherwise |
| `Markup.UnwrapThenWrap` | `src/textareaCaret.ts:135-147` | unwrap then wrap is the identity on text and selection |
| `Markup.WrapTwiceIff` | `src/textareaCaret.ts:119-147` | wrapping twice is the identity exactly when the first press unwrapped, or no marker touched the selection on either side |
| `Markup.AStrayMarkerBlocksTheToggle` | `src/textareaCaret.ts:127-147` | a marker on one side only: the second press wraps again |
| `Markup.LineStartIff` | `src/textareaCaret.ts:153-153` | the search finds the start of the line exactly outside the caret at 0 before a leading newline |
| `Markup.PrefixKeepsTheTextIff` | `src/textareaCaret.ts:153-163` | the pieces a prefix is put together from are the whole text exactly outside that case |
| `Markup.ALeadingNewlineIsDoubled` | `src/textareaCaret.ts:153-163` | there the newline comes out twice |
| `Markup.PrefixActsPerLine` | `src/textareaCaret.ts:150-163` | the result has the lines of the text, with the prefix on each line of the block up to the end of the selection |
| `Markup.EachLineHasThePrefix` | `src/textareaCaret.ts:150-163` | each line of the selection it leaves is the old line where that starts with the prefix, or the prefix followed by the old line, and the text around it is kept |
| `Markup.PrefixIsIdempotent` | `src/textareaCaret.ts:150-163` | a non-empty newline-free prefix is idempotent on the selection it returns, in every case |
| `Markup.AnEmptyKeyKeepsTheTextIff` | `src/textareaCaret.ts:119-163` | an empty wrap falls through to an empty prefix and keeps the text exactly outside the caret-at-0 case |
| `Markup.AKeyDoesOneThing` | `src/textareaCaret.ts:99-150` | a key that links does nothing else, and one that wraps does not prefix |
| `NoteGroups.GroupNotes` | `src/noteGroups.ts:71-101` | the loop cuts the notes, in order, into non-empty maximal runs of one label with their keys |
| `NoteGroups.TheCutIsUnique` | `src/noteGroups.ts:71-101` | there is only one such cut |
| `NoteGroups.TwoKeysCollideIff` | `src/noteGroups.ts:90-97` | two groups share a key exactly when, of the notes that open them, one is the first of its label and its month reads as the other's suffixed key |
| `NoteGroups.KeysCollideIff` | `src/noteGroups.ts:90-97` | told from the list of notes alone: some two groups share a key exactly when one note opens the first run of its label, another opens a run with n earlier ones, and the first one's month key is the second one's with #n |
| `NoteGroups.KeysAreDistinct` | `src/noteGroups.ts:90-97` | so keys are pairwise distinct whenever no month before the current one holds a #, however many runs a month opens |
| `NoteGroups.KeysAreSpelled` | `src/noteGroups.ts:90-97` | a key is recent or the opening note's month, and from the second run of a label on that, # and the decimal number of runs before |
| `NoteGroups.AMalformedMonthRepeatsAKey` | `src/noteGroups.ts:90-97` | two malformed months whose groups share a key |
| `NoteGroups.WellFormedMonthsAreNamed` | `src/noteGroups.ts:107-111` | a well-formed month is labelled by its name and year |
| `NoteGroups.MonthNumberIff` | `src/noteGroups.ts:107-111` | the month's characters read as a number exactly where they are digits, or one digit with a plus or a space before it or a point or a space after it |
| `NoteGroups.LabelsNameOneMonth` | `src/noteGroups.ts:107-111` | distinct well-formed months have distinct labels |
| `NoteGroups.RecentIff` | `src/noteGroups.ts:79-81` | comparing well-formed months as text compares them as months, so Recent holds exactly this month and later ones |

## Left out

- One broadcast, with the tray, the window event and the overlay's copy behind it, is one step, and so is the start of both devices; the window between the two writes of a broadcast is not modelled.
- Poisoned locks, panics, and the time before the controllers exist: initialised state is assumed.
- Tray icons and copy, notifications, window placement, device capture, spill files and transcription: user interface and I/O. The engine is the health of its two sources.
- The watchdog's polling interval and its thread: a tick is an action that may happen at any time.
- `CaptureRuns.NoPressIsLost` and `CaptureRuns.TickServesStranded` say what a run has done, not that the scheduler will run a tick; `CaptureRuns.TheLoopEnds` counts the holder's own operations, not time.
- `ChatView.SnapshotEqualsReplay`: a send is one atomic step, events arrive in order and once, and hydration starts from a snapshot; loss or duplication around hydration, chat ids and the mount effects are not modelled.
- `ChatPermission.EveryRequestIsRecordedIff` assumes what the CLI does, that it waits for one answer before it asks again; without that a second request overwrites the slot. `ChatPermission.TheDistillMissesARecordIff` and `ChatPermission.TheDistillMissesAtMostOne` assume the same; `ChatPermission.CanStillRecordIff` does not.
- Chat process spawning, the headless distill itself and tool-use summaries: foreign calls, their results are inputs.
- `ChatRuns.DistillsIff` and the other run theorems of that module take a command as one step among the pump's, and a restart as two. `ChatPermission` has the finer steps, and `ChatPermission.ARecordCanFollowTheExit` the record that lands after a distill because of them.
- `ChatView.OpIff` measures the window against a snapshot that counts the process as running until its exit is handled; the real one asks the process, and `ChatView.SnapshotAgreesIff` says exactly when the two are the same.
- `LedgerWorker.CleanFilesAreCurrentIff`: snapshot files change only at flushes, the worker's or the chat process's. A folder that is gone is noticed by the next flush, a hand edit of a snapshot file is not modelled. A change of the chat's process is one step with its flush, and it opens the database anew each time, so a write that failed is not retried.
- `Startup.RestoreRunsFirst`: changes by the chat's process are not interleaved with the startup. They only move entries that exist, so they cannot make an empty ledger non-empty or the other way round, which is all the restore and the backfill question ask.
- The ledger's entries, evidence and transition rules: a job carries the project contents it leads to and which of them it leaves unmarked. Draining legacy overrides is a change with any contents; marker jobs touch no project, so they only look.
- What a restore parses from the vault's snapshot files is an input of the run, malformed files included.
- The index worker's rebuild, embedding sweep and the predicate that picks which notes to backfill.
- Digest contents and classification, settings, and indexing the written note. `Digest.OneNotePerDay` and the window lemmas assume a fixed time zone in which a later instant is never on an earlier day, and that a call's stamp is not on a day before the one it describes; a marker that does not parse is not modelled, because only the digest writes it.
- A failed digest call dates its empty digest by a fresh clock read; the model dates it by the call's first.
- A digest job whose reply times out is served at once in the model; the queue serves it before it answers the next call's question, so no later call can tell the difference.
- Text collation and the parsing of calendar days are abstract orders; timestamps are ordered keys, as RFC 3339 instants in UTC are (section 5.1 of RFC 3339).
- `StableSort.SortSorts` needs a consistent comparison; for an inconsistent one the language leaves the order open, and only the permutation is claimed of such a group.
- Upper and lower case: folding is assumed to keep a text's length, and characters outside the basic plane are single characters.
- `Markup.PrefixActsPerLine` follows the code in testing the last line only up to the end of the selection.
- Markup selections are assumed to lie in the text, as a text area's do.
- `NoteGroups.KeysCollideIff` assumes that today's date starts with a digit; month numbers written with white space other than a plain space are read as unnamed.
- Workload sentences, day formatting, settled-row copy, palette and theme code, query tickets, the distill in-flight claims: finite case splits or easier than the cores above.
