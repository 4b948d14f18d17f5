# Verified models of nodeterm's core state machines

This project models seven machines of the terminal's core and proves what they
keep over whole runs or for all inputs. The source keeps most of them as objects
that are updated in place; here each of those is a class whose methods are proved
against specification functions, and the theorems are about those functions.

- **Subagent cards** (`Subagent*.dfy`). Two redundant hook paths become one card
  per child. `SubagentRules` states the rules, `SubagentLifecycle` is the class,
  `SubagentLedger` and `SubagentBounds` count calls, keys and releases,
  `SubagentQueue` says when the queue passes its cap, `SubagentTurns` what turns and
  sessions leave and that calls of one type are taken in order, `SubagentView` folds the
  emitted events through a consumer of keys and `SubagentDrawing` through one of labels,
  `SubagentPairing` shows that every order of signals pairs calls and children, and
  `SubagentLabels` is a run in which a label is lost.
- **Canvas authority and reflector** (`Canvas*.dfy`). `CanvasModel` is one project
  as atomic steps, `CanvasAuthority` the class over all projects,
  `CanvasDurability` ties content, file and op log together over every run,
  `CanvasEdits` says which outside edits the file loses, `CanvasTimers` when a write starts,
  `CanvasSync` is the reflector and `CanvasOrder` the order of ops.
- **Agent status mirror** (`Mirror*.dfy`, `InboxFeed.dfy`, `StatusMirror.dfy`).
  The reducer, whole and field by field (`MirrorFields`), ageing and restarts, whole
  lives of an entry, the feed's retention, and the class holding all of it.
- **Launch planner** (`LaunchTokenizer`, `LaunchGrammar`, `PosixShell`, `WindowsArgv`,
  `LaunchPlan`). The launch field against its grammar, two quoting schemes against the
  parsers that undo them (sections 2.2 and 2.3 of the POSIX.1-2017 Shell Command
  Language, and the backslash and quote rules of CommandLineToArgvW), and the plan.
- **Codex rollout paging** (`CodexRecords`, `CodexPaging`, `ChatPanel`). The forward
  parser against a backward specification, byte windows that recombine to the
  file, and the chat panel's own merge of pages.
- **Rotating board log** (`BoardLog`, `BoardLogStore`) and **session copies**
  (`SessionCopy`).

The model follows the code where it does less than its comments or a reader would
expect. For each case the exact condition is proved, and an input that shows it:

- The board log's header promises at most 8 MiB and one line on disk, and each file at
  most 4 MiB. The bound is checked in UTF-16 units and kept in bytes, so lines outside
  ASCII break the second (`BoardLogStore.FilePassesItsBoundExactlyWhen`), and lines of
  more than two bytes a unit the first (`RunPassesTwoBoundsExactlyWhen`,
  `NarrowLinesKeepThePromise`, and the run of `TwoBoundsAndALineArePassed`). A write that
  fails right after a rotation leaves no current file, and a read then shows
  nothing of the history that is kept (`BoardLogStore.MissingAfterAFailedWrite`).
- A turn end the tracker acts on, between a child's ack and its start, clears the waiting
  call, and the child's card then has no label
  (`SubagentPairing.TurnEndBetweenAckAndStartLosesLabel`, and the run of
  `SubagentLabels.LabelCanBeLost`). The queue of waiting calls passes its cap where
  pairing puts calls back (`SubagentQueue.QueuePassesItsCapExactlyWhen`, and the
  run of `QueueCanPassItsCap`).
- An outside edit adopted during a write, with no op left to write after it, is
  overwritten on disk while the project reads as clean (`CanvasEdits.StepKeepsSaved`,
  and the run of `ForgottenIsReachable`).
- The chat panel lets an older page's answer stand over a newer one of the same call
  (`ChatPanel.PanelIsWholeFileExactlyWhen`, in terms of answers
  `PanelShowsLastAnswersExactlyWhen`, and the file of `OlderAnswerWinsOnThePanel`).

`dafny verify dfyconfig.toml` checks the whole project.

## Model

| member | source | states |
|---|---|---|
| SubagentView.ScreenIsExact | src/core/claude-subagent-lifecycle.ts:112-286 | over every run of one session in which no full table drops anything drawn, folding all emitted events shows exactly the working cards and the drawn waiting calls after every event, both for a consumer that knows `supersedes` and for one that ignores it |
| SubagentView.StepView | src/core/claude-subagent-lifecycle.ts:112-286 | one event keeps that exactness if and only if no full table drops something drawn at that event; nothing else, in any order, breaks it |
| SubagentView.StepGood | src/core/claude-subagent-lifecycle.ts:112-286 | every event keeps the ids in their name spaces, each call in one place and the table sound, which is what exactness needs next |
| SubagentView.BindView | src/core/claude-subagent-lifecycle.ts:313-344 | a pairing together with the start and the superseded end its caller sends moves the view by exactly what it releases, whichever consumer folds it |
| SubagentView.NativeStartView | src/core/claude-subagent-lifecycle.ts:181-199 | a native start shows the child's key, removes what it replaces, and changes no other key |
| SubagentView.AckView | src/core/claude-subagent-lifecycle.ts:201-220 | an ack's corrections leave the view exact |
| SubagentView.ToolEndView | src/core/claude-subagent-lifecycle.ts:233-259 | a tool-path end, re-keyed or not, correcting a wrong pairing or not, leaves the view exact |
| SubagentView.EndOrder | src/core/claude-subagent-lifecycle.ts:239-251 | in a corrected end either the pairing's own events or the superseded end is empty, so their order does not matter |
| SubagentView.TurnEndView | src/core/claude-subagent-lifecycle.ts:261-286 | a turn end's reconciled ends leave exactly the surviving cards in the view |
| SubagentDrawing.LabelsAreExact | src/core/claude-subagent-lifecycle.ts:112-407 | over every run in which no full table drops anything drawn, a consumer that keeps the type and label of each start it is handed shows every working card under that card's type and label and every drawn waiting call under that call's, and nothing else, whether or not it knows `supersedes` |
| SubagentDrawing.StepExplained | src/core/claude-subagent-lifecycle.ts:173-385 | each start that goes out says the type and label of its card, and its `supersedes` is exactly the drawn call the card took with it; whatever else is drawn afterwards was so before |
| SubagentDrawing.StepSent | src/core/claude-subagent-lifecycle.ts:370-407 | every event handed on is of the same node, vendor and session; starts keep the proof of the event; children's keys go with the native signal and calls' with the tool path; ends say their card's or call's type |
| SubagentDrawing.BindTold | src/core/claude-subagent-lifecycle.ts:307-385 | a binding with its caller's events tells every card it changes that works, and no other |
| SubagentView.ReleasedAreCalls | src/core/claude-subagent-lifecycle.ts:181-199 | a native start never releases its own key |
| SubagentPairing.PairingConverges | src/core/claude-subagent-lifecycle.ts:181-220 | for truthful acks and exact ends, fresh tool ids and room in the tables, at every point of every interleaving an acknowledged child's card holds its own call, and its own label if the call never left the table |
| SubagentPairing.OrderlyRunsPairEverything | src/core/claude-subagent-lifecycle.ts:181-350 | when each ack follows its PreToolUse and no event that takes an acknowledged call out comes (turn ends of other sessions or before native hooks are none), every acknowledged and started child shows its own call and label |
| SubagentPairing.AckedCallsStay | src/core/claude-subagent-lifecycle.ts:201-286 | in such runs an acknowledged child's call stays waiting or held |
| SubagentPairing.StaysUnlessTakenOut | src/core/claude-subagent-lifecycle.ts:222-286 | a call that is in the table, or is issued now, is there after the event if and only if the event is not a turn end of this native session while no card holds the call, nor the call's own end while it waits once |
| SubagentPairing.BindOwn | src/core/claude-subagent-lifecycle.ts:313-344 | binding one child's call breaks no other acknowledged child's pair |
| SubagentPairing.BindLabels | src/core/claude-subagent-lifecycle.ts:313-350 | binding keeps every call with the label it was issued under, wherever the call moves |
| SubagentPairing.TurnEndBetweenAckAndStartLosesLabel | src/core/claude-subagent-lifecycle.ts:261-286 | between a child's ack and its start, with any session ids, a turn end leaves the child's card with its own call, and with no label if and only if it takes the call out; else with the waiting label |
| SubagentLabels.LabelCanBeLost | src/core/claude-subagent-lifecycle.ts:261-286 | a run from nothing, truthful, with fresh ids and room, orderly up to the turn end after the ack, in which a call issued with any label leaves its child's card with that call and no label |
| SubagentBounds.StepKeepsSound | src/core/claude-subagent-lifecycle.ts:173-368 | no event in any order breaks: one card per child, at most 128 cards, at most 64 hints, no hint for a child that has a card |
| SubagentBounds.RunKeepsSound | src/core/claude-subagent-lifecycle.ts:92-94 | the same over every run from nothing |
| SubagentBounds.StepKeepsSinglePlace | src/core/claude-subagent-lifecycle.ts:173-259 | with fresh tool ids a call is never in two places, whatever arrives |
| SubagentBounds.EveryCallHasOnePlace | src/core/claude-subagent-lifecycle.ts:173-259 | over every run with fresh tool ids each call id sits in at most one place: waiting once or on one card |
| SubagentBounds.LoadStaysBounded | src/core/claude-subagent-lifecycle.ts:173-344 | over every run in which no ack, exact end or consumed hint names a call that is nowhere, waiting plus held calls never exceed 64 + 128 |
| SubagentBounds.StepKeepsLoad | src/core/claude-subagent-lifecycle.ts:173-344 | one event keeps calls waiting or held within 64 + 128 if the call it names is still waiting or held, though `bind` puts calls back uncapped |
| SubagentQueue.QueuePassesItsCapExactlyWhen | src/core/claude-subagent-lifecycle.ts:307-344 | for a queue within its cap, one event takes it past 64 if and only if it holds 64 and the event, an ack or an exact end of a mispaired card, binds a card that holds another call while no waiting call leaves: the named call is not waiting and nobody else holds it, or its holder finds no free call; and it then holds 65 |
| SubagentQueue.QueueCanPassItsCap | src/core/claude-subagent-lifecycle.ts:173-220 | a run from nothing with fresh ids, in which every named call is still waiting or held, ends with 65 waiting calls |
| SubagentQueue.BindQueue | src/core/claude-subagent-lifecycle.ts:313-344 | a binding lengthens the queue by one exactly under that condition, and never otherwise |
| SubagentBounds.ReleasedAtMostOncePerOpening | src/core/claude-subagent-lifecycle.ts:96-101 | over every run, across sessions, a key's releases plus its drawings still open never exceed its openings, which never exceed its starts: a call that starts once is released at most once |
| SubagentBounds.EvictFromIsVictim | src/core/claude-subagent-lifecycle.ts:359-368 | eviction of a table one over its bound takes the oldest idle card, or the oldest card when all work, and only that one |
| SubagentBounds.NativeStartCounts | src/core/claude-subagent-lifecycle.ts:181-199 | what a native start does to the places, drawings and releases of every key, eviction included |
| SubagentBounds.AckCounts | src/core/claude-subagent-lifecycle.ts:201-220 | an ack loses no call and doubles none; only a call nobody knew is new |
| SubagentBounds.ToolEndCounts | src/core/claude-subagent-lifecycle.ts:233-259 | what an end releases and removes, key by key, for the card it ends and the calls it corrects |
| SubagentBounds.TurnEndCounts | src/core/claude-subagent-lifecycle.ts:261-286 | a turn end empties the queue and releases each drawn call and each card it ends once |
| SubagentBounds.HintsLeft | src/core/claude-subagent-lifecycle.ts:194-195 | after a native start no hint is left for that child and every other hint stands |
| SubagentLedger.BindConserves | src/core/claude-subagent-lifecycle.ts:307-344 | binding moves a call from wherever it is and puts the card's own call back: no call is lost or doubled, only an unknown one is new, and what stops being drawn is exactly what is released |
| SubagentLedger.BindNextConserves | src/core/claude-subagent-lifecycle.ts:290-305 | taking the next waiting call moves it; no other count changes |
| SubagentRules.NextFor | src/core/claude-subagent-lifecycle.ts:292-300 | a child never takes a call that some hint reserves |
| SubagentTurns.NextIsFirstInLine | src/core/claude-subagent-lifecycle.ts:288-305 | a typed child takes the oldest free call of its type, or, with none, the oldest free call without a type; an untyped child the oldest free call at all; lines of other types stand |
| SubagentTurns.ChildTakesTheFront | src/core/claude-subagent-lifecycle.ts:181-199 | a child starting without an ack gets the front call of its type's line with its label, and the line moves up by one |
| SubagentTurns.CallJoinsTheEnd | src/core/claude-subagent-lifecycle.ts:173-179 | a call joins the end of its type's line |
| SubagentTurns.GivesBackToTheFront | src/core/claude-subagent-lifecycle.ts:307-350 | a call given up waits first in the queue, not drawn, with the card's type and label; the card takes the other's label and keeps a type of its own |
| SubagentTurns.OwnerTakesTheNext | src/core/claude-subagent-lifecycle.ts:327-342 | a card whose call is taken from it takes the next one of the queue, the call given back standing first |
| SubagentTurns.AckIsRemembered | src/core/claude-subagent-lifecycle.ts:201-209 | an ack that comes first is kept as the child's newest, the others stand, and of 64 the oldest goes for a new one |
| SubagentTurns.TurnEndSettles | src/core/claude-subagent-lifecycle.ts:261-286 | a turn end empties the queue and, with an inventory, leaves working exactly the cards it lists, each other one ended and released; without one no card changes |
| SubagentTurns.SessionsStayApart | src/core/claude-subagent-lifecycle.ts:114-171 | a start or ack of another session finds nothing of the old one, its other ends change nothing, and the end of a session leaves nothing |
| SubagentTurns.SessionAndLatch | src/core/claude-subagent-lifecycle.ts:161-182 | a session id is filled in once and kept; a child's start latches the session as native for good, and calls told then are not drawn |
| SubagentTurns.WaitingEndIsTold | src/core/claude-subagent-lifecycle.ts:252-258 | the end of a waiting call takes it out of the queue and is handed on exactly if the call is drawn |
| SubagentRules.EvictKeepsLast | src/core/claude-subagent-lifecycle.ts:359-368 | eviction never takes the card just added |
| SubagentLifecycle.ClaudeSubagentLifecycle.constructor | src/core/claude-subagent-lifecycle.ts:104-110 | no node is tracked and nothing has been released |
| SubagentLifecycle.ClaudeSubagentLifecycle.State | src/core/claude-subagent-lifecycle.ts:161-171 | another session starts over, a missing session id is filled in, and every other node is untouched |
| SubagentLifecycle.ClaudeSubagentLifecycle.FindNext | src/core/claude-subagent-lifecycle.ts:292-300 | the two searches give the first free call of an equal type, else the first where a type is missing |
| SubagentLifecycle.ClaudeSubagentLifecycle.BindNext | src/core/claude-subagent-lifecycle.ts:292-305 | the queue splice and the card's fields, in place, are the rule's table, with the rule's releases |
| SubagentLifecycle.ClaudeSubagentLifecycle.Bind | src/core/claude-subagent-lifecycle.ts:313-344 | the in-place moves between queue and cards are the rule's table, corrective events and releases |
| SubagentLifecycle.ClaudeSubagentLifecycle.Evict | src/core/claude-subagent-lifecycle.ts:359-368 | the eviction loop leaves the cards the rule leaves |
| SubagentLifecycle.ClaudeSubagentLifecycle.ToolStart | src/core/claude-subagent-lifecycle.ts:173-179 | push, cap and latch as the rule has them |
| SubagentLifecycle.ClaudeSubagentLifecycle.NativeStart | src/core/claude-subagent-lifecycle.ts:181-199 | table, emitted events and releases of a native start, in place |
| SubagentLifecycle.ClaudeSubagentLifecycle.Ack | src/core/claude-subagent-lifecycle.ts:201-220 | table, emitted events and releases of an ack, in place |
| SubagentLifecycle.ClaudeSubagentLifecycle.NativeEnd | src/core/claude-subagent-lifecycle.ts:222-231 | an end of an unknown child is dropped; a known card stops and is released once |
| SubagentLifecycle.ClaudeSubagentLifecycle.ToolEnd | src/core/claude-subagent-lifecycle.ts:233-259 | table, re-keyed end, corrections and releases of a tool-path end, in place |
| SubagentLifecycle.ClaudeSubagentLifecycle.EndIfGone | src/core/claude-subagent-lifecycle.ts:268-274 | one card stops, is released and is ended exactly when it works and the inventory no longer lists it |
| SubagentLifecycle.ClaudeSubagentLifecycle.EndGone | src/core/claude-subagent-lifecycle.ts:266-274 | the loop over the cards ends and releases exactly the working ones the inventory no longer lists |
| SubagentLifecycle.ClaudeSubagentLifecycle.EndWaiting | src/core/claude-subagent-lifecycle.ts:275-286 | the drawn waiting calls are ended and released in order |
| SubagentLifecycle.ClaudeSubagentLifecycle.TurnEnd | src/core/claude-subagent-lifecycle.ts:261-286 | table, events and releases of a turn end, in place |
| SubagentLifecycle.ClaudeSubagentLifecycle.Apply | src/core/claude-subagent-lifecycle.ts:114-135 | the dispatcher hands on the rule's events, keeps the rule's table for that node, releases the rule's keys and touches no other node |
| CanvasDurability.FileIsAPrefixOfTheOrder | src/core/canvas-authority.ts:236-365 | in every run from first contact (no outside edit during a write): content is the fold of every accepted op over the content read, the file is the fold of a prefix of them, what is missing is exactly `unflushed`, which is empty if and only if the project is neither dirty nor writing, and unwritten content has a write or a timer pending unless stopping; nothing is both adopting and held |
| CanvasDurability.StepKeepsInv | src/core/canvas-authority.ts:221-483 | each step alone keeps that |
| CanvasDurability.RetiredOnlyWhenWritten | src/core/canvas-authority.ts:315-337 | an op leaves `unflushed` only when a snapshot holding it landed, and a project is let go only when the file holds its content |
| CanvasDurability.WriteRetiresWritten | src/core/canvas-authority.ts:327-337 | a landed write retires exactly the ops its snapshot held, and the file then holds them |
| CanvasDurability.LandedDurable | src/core/canvas-authority.ts:327-355 | a landed write moves the file by exactly the ops its snapshot held; a failed one loses nothing and leaves a retry pending unless stopping |
| CanvasDurability.FlushKeeps | src/core/canvas-authority.ts:315-326 | a flush starts a write of everything unwritten, or lets a clean unshared project go, and keeps the invariant |
| CanvasEdits.StepKeepsSaved | src/core/canvas-authority.ts:449-471 | with outside edits at any time, a step keeps clean content what the file holds if and only if it is not an edit of a governed project that has a write of something else in flight, nothing dirty or unflushed, and a published difference that changes nothing over the edit |
| CanvasEdits.CleanIsSaved | src/core/canvas-authority.ts:315-471 | over every run without such an edit, clean content is what the file holds |
| CanvasEdits.EchoesChangeAllOrNothing | src/core/canvas-authority.ts:462-467 | the echoes of a published difference over clean content leave the project as it is if each changes nothing there, and else log something and dirty it |
| CanvasEdits.AdoptedEditChangesNothing | src/core/canvas-authority.ts:455-467 | an edit that had to adopt the project first then finds itself already in the content: no content and no op changes |
| CanvasEdits.ForgottenEditIsOverwritten | src/core/canvas-authority.ts:324-337 | after such an edit the write lands over it: the project is clean and holds the edit, the file holds the snapshot |
| CanvasEdits.ForgottenIsReachable | src/core/canvas-authority.ts:315-471 | from a project nobody has touched, for every op that changes something and any two edits that differ, published as ops that change nothing over content in place, the run ends with the first edit in the file, the second held, and nothing owed |
| CanvasTimers.EveryRunIsTimed | src/core/canvas-authority.ts:219-355 | over every run, stopping and outside edits included: timers run only for dirty content, none beside a pending retry, dirty content waits for a timer or a write, a failed project is retried, and an unshared one is held only while it owes the file something |
| CanvasTimers.WriteStartsExactlyWhen | src/core/canvas-authority.ts:302-355 | a write starts exactly when a timer, a flush or unsharing asks for one, none is in flight and the content is dirty; it carries all of it and clears the timers |
| CanvasTimers.RetryOwnsTheNextWrite | src/core/canvas-authority.ts:219-233 | while a retry is pending no op and no edit arms a timer or starts a write |
| CanvasTimers.AttemptsCountFailures | src/core/canvas-authority.ts:327-355 | the attempt number counts the failures since a write landed |
| CanvasTimers.TouchAdopts | src/core/canvas-authority.ts:260-301 | a governed project that is touched is held or being read, a load adopts it at once, and a read that fails or comes after unsharing leaves nothing |
| CanvasTimers.UngovernedIsLeftAlone | src/core/canvas-authority.ts:420-470 | no op, load or edit reaches a project that is not shared, or after stopping |
| CanvasTimers.StoppingArmsNothing | src/core/canvas-authority.ts:488-500 | after stopping begins no timer is armed, not even by a write that fails |
| CanvasOrder.LogIsTheStampedOrder | src/core/canvas-authority.ts:258-305 | however ops interleave with the first read, writes and edits, the ops content is folded from stand in strictly rising stamp order, and while the read is pending the queue is exactly those accepted so far |
| CanvasOrder.CastsAreTheLog | src/core/canvas-sync.ts:152-178 | end to end: whatever is cast at the reflector, the ops it tells the authority of one project make a stamped run, so that project's content is their fold in stamp order |
| CanvasOrder.HeardRises | src/core/canvas-sync.ts:137-162 | of any one project the listener hears ops at strictly rising places |
| CanvasOrder.StepInOrder | src/core/canvas-authority.ts:410-424 | each step keeps that order, queued and unflushed ops included |
| CanvasOrder.ApplyAllRises | src/core/canvas-authority.ts:282-284 | applying the queue over the content read logs a rising sequence, without the ops that change nothing |
| CanvasSync.OneOrderForEveryone | src/core/canvas-sync.ts:167-248 | over every run of casts the listener hears each op once in strictly rising order, every client receives the same ops in the same order, and no launch or core voucher reaches the listener or a client that is no owner |
| CanvasSync.EveryCopyIsItsCast | src/core/canvas-sync.ts:84-248 | over every run of casts the k-th op sent to the listener and to each client is the k-th accepted cast: its project, its repaired body, place k, its tag and position bounded; it is vouched for if and only if the cast was trusted and the client is an owner, and then it carries the cast's launch, and none otherwise |
| CanvasSync.ClampKeepsVerdicts | src/core/canvas-sync.ts:84-104 | bounding `seen` changes no verdict against a remove ordered before the op |
| CanvasSync.Reflector.constructor | src/core/canvas-sync.ts:135-162 | the order starts at nothing, every inbox empty |
| CanvasSync.Reflector.FanOut | src/core/canvas-sync.ts:117-129 | every client gets exactly one copy, vouched for owners of a trusted cast and stripped for everyone else |
| CanvasSync.Reflector.Ingest | src/core/canvas-sync.ts:194-247 | a refused cast changes nothing; an accepted one is stamped once, told and delivered as the specification's cast |
| CanvasAuthority.Governed.constructor | src/core/canvas-authority.ts:272-281 | a fresh record over the content, nothing owed, no timer |
| CanvasAuthority.Governed.ClearTimers | src/core/canvas-authority.ts:214-217 | no timer is left and nothing else changes |
| CanvasAuthority.Governed.Schedule | src/core/canvas-authority.ts:221-234 | both flush timers are pending unless stopping or backing off |
| CanvasAuthority.Governed.ApplyTo | src/core/canvas-authority.ts:243-249 | an op that changes nothing is not logged and dirties nothing; any other is applied, logged and scheduled |
| CanvasAuthority.Governed.ApplyQueued | src/core/canvas-authority.ts:283 | the loop applies the queued ops in order over the content read, each exactly once |
| CanvasAuthority.Governed.WriteLanded | src/core/canvas-authority.ts:328-333 | exactly the ops the snapshot held are retired, in place |
| CanvasAuthority.Governed.WriteFailed | src/core/canvas-authority.ts:339-354 | everything is kept, dirty again, one retry pending unless stopping |
| CanvasAuthority.Governed.Rebase | src/core/canvas-authority.ts:460-464 | the loop leaves the edit with every unflushed op folded over it, in order |
| CanvasAuthority.CanvasAuthority.constructor | src/core/canvas-authority.ts:193-201 | nothing is held, adopted or queued for any project |
| CanvasAuthority.CanvasAuthority.Release | src/core/canvas-authority.ts:252-256 | only an unshared project with nothing owed is let go; others are untouched |
| CanvasAuthority.CanvasAuthority.Install | src/core/canvas-authority.ts:258-285 | the queue is applied over the content in order and emptied; an unshared or unreadable project is not held |
| CanvasAuthority.CanvasAuthority.Adopt | src/core/canvas-authority.ts:289-305 | one adoption at a time, seeded ones without a read; other projects are untouched |
| CanvasAuthority.CanvasAuthority.Flush | src/core/canvas-authority.ts:315-326 | at most one write in flight, of everything unwritten, with the timers cleared |
| CanvasAuthority.CanvasAuthority.ReadDone | src/core/canvas-authority.ts:296-302 | a finished read installs, a failed one leaves the project unheld |
| CanvasAuthority.CanvasAuthority.QuietFired | src/core/canvas-authority.ts:224-227 | a fired quiet timer is gone and flushes |
| CanvasAuthority.CanvasAuthority.MaxFired | src/core/canvas-authority.ts:228-233 | a fired maximum timer is gone and flushes |
| CanvasAuthority.CanvasAuthority.RetryFired | src/core/canvas-authority.ts:349-354 | a fired retry is gone and flushes |
| CanvasAuthority.CanvasAuthority.WriteDone | src/core/canvas-authority.ts:327-355 | a landing retires, reschedules or releases; a failure backs off |
| CanvasAuthority.CanvasAuthority.OnReflected | src/core/canvas-authority.ts:410-424 | an accepted op is applied or queued in order, an ungoverned or refused one is ignored |
| CanvasAuthority.CanvasAuthority.Publish | src/core/canvas-authority.ts:462-465 | the loop of published ops comes back as reflected ops, in order, over content already in place |
| CanvasAuthority.CanvasAuthority.AdoptOutsideEdit | src/core/canvas-authority.ts:449-472 | the edit with the unwritten ops over it is the content before its difference echoes, and a write is owed only if ops are unflushed |
| CanvasAuthority.CanvasAuthority.FlushLeft | src/core/canvas-authority.ts:478 | the loop flushes every project that left and no other |
| CanvasAuthority.CanvasAuthority.AdoptJoined | src/core/canvas-authority.ts:482 | the loop adopts every project that joined and no other |
| CanvasAuthority.CanvasAuthority.SharedChanged | src/core/canvas-authority.ts:474-483 | every project makes exactly its own sharing step |
| MirrorRuns.EveryReachableEntryIsSound | src/core/agent-status-mirror.ts:591-821 | over all runs of events, ageing, restarts, seeds, hibernation, naming and sweeps: an open picker or outstanding ticket shows as waiting or blocked, an inferred idle is a done, a pending session start or an expired state has no state, nothing restored is verified |
| MirrorRuns.EvidenceIsTheLastCommit | src/core/agent-status-mirror.ts:630-803 | over runs of the reducer the state an entry carries and all its evidence are what the last event that met the condition for committing left of the entry it found: blocked, none, waiting or its own state, verified exactly if it was a verified state event, dated by it, under its script revision |
| MirrorRuns.VerifiedHasItsProof | src/core/agent-status-mirror.ts:630-655 | a verified entry that started from nothing has its verified event in the run, at its own time |
| MirrorRuns.PickerHoldsThroughRuns | src/core/agent-status-mirror.ts:671-682 | over runs of events alone, while nothing closes it, a picker, its session, state and evidence stand |
| MirrorRuns.PickerLeavesExactlyWhen | src/core/agent-status-mirror.ts:656-821 | in every sound entry a move takes the open picker down if and only if it is an event that closes it without raising it again, ageing past the horizon, a restart or a clear |
| MirrorRuns.PickerStaysInLife | src/core/agent-status-mirror.ts:591-842 | through any life a picker stays up until one of those moves |
| MirrorRuns.TicketLeavesExactlyWhen | src/core/agent-status-mirror.ts:656-821 | a ticket leaves if and only if its result or a reset of the session arrives, or by ageing, a restart or a clear |
| MirrorRuns.TicketStaysInLife | src/core/agent-status-mirror.ts:591-842 | through any life a ticket is outstanding until one of those moves |
| MirrorRuns.SeedOnlyFills | src/core/agent-status-mirror.ts:2277-2308 | a seed touches no state and overwrites nothing known; it fills agent, session and account exactly where there is neither state nor session and no other agent, and makes an entry already past its horizon where there was none |
| MirrorRuns.HibernationIsOneFlag | src/core/agent-status-mirror.ts:2232-2245 | hibernating or waking changes that flag alone, and only hibernating makes an entry, a bare one |
| MirrorRuns.SweepEndsOnlyTheSilent | src/core/agent-status-mirror.ts:2503-2525 | working becomes done exactly after twenty minutes without an event, and nothing else changes |
| MirrorEntry.ReduceKeepsAttention | src/core/agent-status-mirror.ts:656-688 | one event keeps attention held, given that picker events are the node's own agent going to waiting |
| MirrorEntry.PickerHolds | src/core/agent-status-mirror.ts:671-682 | only its matching answer or a reset of its session touches a held picker; of the rest only the tickets beside it may change |
| MirrorEntry.TicketLeavesOnlyOnItsResult | src/core/agent-status-mirror.ts:656-670 | an outstanding ticket leaves if and only if its own result or a reset of the entry's session arrives |
| MirrorEntry.TicketsOnlyBesideAsks | src/core/agent-status-mirror.ts:656-670 | a ticket is outstanding only where a picker or another ticket was open |
| MirrorEntry.EvidenceMovesAsOne | src/core/agent-status-mirror.ts:630-655 | an event leaves all of the evidence alone or commits all of it as its own |
| MirrorEntry.CommitsExactlyWhen | src/core/agent-status-mirror.ts:630-803 | an event commits if and only if, seen beforehand, it is no idle prompt of another start, leaves no open picker open, and is a state event beside outstanding tickets or else the node's own session boundary or state past the idle and hold-off rules; the state is then blocked beside tickets, none at a boundary, waiting for an uninterrupted done over an open ask, and else the event's own, with all of its evidence; otherwise all of it stands |
| MirrorFields.WhoAfter | src/core/agent-status-mirror.ts:728-741 | an event past every hold says who the node is wherever it says anything, keeps the rest and the name, and sets or clears the turn; any other leaves all of it |
| MirrorFields.AwaitingAfter | src/core/agent-status-mirror.ts:753-769 | a request for input is open until a state event neither asks again nor finishes over it, or a boundary |
| MirrorFields.PickerAfter | src/core/agent-status-mirror.ts:671-685 | the picker after an event: the open one while the event neither starts, ends, interrupts nor renews its session nor answers it, else the one the event raises, else none |
| MirrorFields.TicketsAfter | src/core/agent-status-mirror.ts:656-670 | the tickets after an event are exactly those out or joining beside an open ask, minus the one it settles and all at a reset, none twice |
| MirrorFields.CancelledTurnEnds | src/core/agent-status-mirror.ts:561-588 | exactly a parent session's turn cancelled for a known reason becomes a done, interrupted if the user did it |
| MirrorFields.LateWorkingIsHeldOff | src/core/agent-status-mirror.ts:770-784 | within three seconds of a done a working is taken for the same turn unless it opens a turn or session, and from then on is not |
| MirrorFields.FirstIdleIsItsOwn | src/core/agent-status-mirror.ts:599-604 | after a vouched session start an idle prompt settles the node as done, not inferred, exactly if it is that session's and agent's own and vouched for; one of another changes nothing |
| MirrorEntry.ReduceKeepsEvidence | src/core/agent-status-mirror.ts:591-803 | one event keeps the claims an entry makes about its state consistent |
| MirrorAgeing.AgeTwice | src/core/agent-status-mirror.ts:830-842 | ageing at t and then at t' is ageing at t' |
| MirrorAgeing.AgeAllTwice | src/core/agent-status-mirror.ts:880-915 | the same for all nodes, and the file built from aged memory is the file built from memory not aged |
| MirrorAgeing.LiveSetIsOnlyForTheExpired | src/core/agent-status-mirror.ts:2580-2590 | while no entry is past its state horizon the set of existing nodes changes nothing, so not asking for it is safe |
| MirrorAgeing.RestartIsTransparent | src/core/agent-status-mirror.ts:1640-1690 | save at t, load at t', save again gives the nodes a direct save at t' gives, apart from the added `restored` mark |
| MirrorAgeing.RestoredIsNeverProof | src/core/agent-status-mirror.ts:1640-1690 | whatever the file said, a reloaded entry is marked, unverified and consistent |
| MirrorAgeing.AgedKeeps | src/core/agent-status-mirror.ts:810-842 | ageing keeps who the node is, its clock and marks, all of a fresh entry and none of an expired state, and drops it exactly past thirty days, gone, or unknown |
| MirrorAgeing.LoadedKeeps | src/core/agent-status-mirror.ts:1640-1690 | a node saved and loaded is who it was, under its clock, hibernated as before, with its state exactly while that is fresh or it hibernates; it is lost exactly when unknown or too old |
| MirrorAgeing.RestartKeepsNodes | src/core/agent-status-mirror.ts:880-1690 | the same for every node of the file |
| InboxFeed.TrimInboxFeed | src/core/agent-status-mirror.ts:1084-1103 | the two loops keep the newest `cap` events and, of the older ones, exactly each node's newest done and newest open ask |
| InboxFeed.TrimKeepsExactly | src/core/agent-status-mirror.ts:1084-1103 | a trim keeps, in order, exactly the newest `cap` events and each node's last finished turn and last open ask |
| InboxFeed.FreshKeepsExactly | src/core/agent-status-mirror.ts:2573-2575 | ageing the feed keeps, in order, exactly the events within the horizon |
| InboxFeed.AckedExactly | src/core/agent-status-mirror.ts:2466-2475 | acknowledging resolves exactly the node's finished turns, in place |
| InboxFeed.IncrementalIsBatch | src/core/agent-status-mirror.ts:1451-1458 | trimming after each append gives the feed one trim of the whole history gives |
| InboxFeed.TrimAbsorbs | src/core/agent-status-mirror.ts:1454-1458 | appending to a trimmed feed and trimming is trimming the untrimmed one with the append |
| InboxFeed.TrimKeepsNewest | src/core/agent-status-mirror.ts:1089-1095 | each node's newest done and newest open ask survive |
| InboxFeed.TrimIsIdempotent | src/core/agent-status-mirror.ts:1084-1103 | a trimmed feed is not trimmed further |
| InboxFeed.TrimIsBounded | src/core/agent-status-mirror.ts:1084-1103 | at most the cap and two events per node are kept |
| InboxFeed.AckTrimCommute | src/core/agent-status-mirror.ts:2466-2475 | acknowledging before or after the cut gives the same feed |
| InboxFeed.AgeTrimCommute | src/core/agent-status-mirror.ts:2573-2575 | while the clock does not go back, ageing the feed and trimming it commute |
| InboxFeed.AgedFeedStaysTrimmed | src/core/agent-status-mirror.ts:2573-2575 | ageing a trimmed feed leaves a trimmed feed in whatever order its times are |
| StatusMirror.Mirror.constructor | src/core/agent-status-mirror.ts:1107-1119 | nothing is known of any node and the feed is empty |
| StatusMirror.Mirror.RecordAgentEvent | src/core/agent-status-mirror.ts:1770-1846 | exactly the named node's entry is reduced |
| StatusMirror.Mirror.Flush | src/core/agent-status-mirror.ts:2573-2597 | memory is aged, the file is the one memory before ageing would give whether or not the live set was asked for, and the feed stays one trim of a history |
| StatusMirror.Mirror.AgeFeed | src/core/agent-status-mirror.ts:2573-2575 | events past the horizon leave the feed, which stays one trim of what is left of the history |
| StatusMirror.Mirror.AgeMemory | src/core/agent-status-mirror.ts:2591-2595 | the loop ages every entry and drops exactly those that age to nothing |
| StatusMirror.Mirror.BuildFile | src/core/agent-status-mirror.ts:880-915 | the loop writes exactly the nodes that outlive ageing, without any proof |
| StatusMirror.Mirror.LoadPersisted | src/core/agent-status-mirror.ts:1640-1707 | only empty memory is seeded, with exactly the restorable nodes and the trimmed feed, and a feed with distinct ids leaves a valid mirror that numbers on past it |
| StatusMirror.Mirror.LoadFeed | src/core/agent-status-mirror.ts:1688-1707 | the reloaded feed is one trim of the file's, and the running number is at least every id's, so later ids are fresh |
| StatusMirror.Mirror.SeedNodeIdentities | src/core/agent-status-mirror.ts:2277-2308 | the loop fills identities in order, never touching a session id, a state, another agent's entry or an unknown node |
| StatusMirror.SeedAllExactly | src/core/agent-status-mirror.ts:2277-2308 | seeding distinct nodes seeds exactly those listed that may exist, each from its own entry, and touches no other |
| StatusMirror.Mirror.SetNodeHibernated | src/core/agent-status-mirror.ts:2232-2245 | the flag is set, creating a bare entry only when switched on |
| StatusMirror.Mirror.SweepStaleWorking | src/core/agent-status-mirror.ts:2503-2525 | exactly the nodes working too long without an event become done, with their clocks left alone, and are returned |
| StatusMirror.Mirror.PushInboxEvent | src/core/agent-status-mirror.ts:1451-1458 | a fresh id is given, and the feed is still exactly one trim of everything pushed |
| StatusMirror.Mirror.MarkRead | src/core/agent-status-mirror.ts:2466-2475 | the loop resolves exactly the node's unresolved finished turns and says whether there were any |
| StatusMirror.Mirror.AckDone | src/core/agent-status-mirror.ts:2466-2486 | after it the feed is one trim of the acknowledged history |
| LaunchTokenizer.ParseTrustedLaunchCommand | src/core/agent-launch.ts:274-343 | the character loop is the grammar's scan |
| LaunchTokenizer.ParseInvertsPrint | src/core/agent-launch.ts:274-343 | single-quoting each word and joining by spaces parses back to the same argv, if and only if the first word is non-empty and does not begin with `-` |
| LaunchTokenizer.ScanRefusesExactlyOperators | src/core/agent-launch.ts:333 | a field is refused by the scan if and only if a shell operator stands outside quotes and escapes; line breaks are white space before they are operators |
| LaunchTokenizer.AcceptedHasNoOperators | src/core/agent-launch.ts:269-343 | whatever is accepted has no operator outside quotes and a program that is not a flag |
| LaunchGrammar.ParseReadsTheWords | src/core/agent-launch.ts:274-343 | a field parses to an argv if and only if it is written in pieces (white space, bare characters, escapes, stretches in either quotes) that mean exactly those words, and the argv can be launched |
| LaunchGrammar.PlainFieldParses | src/core/agent-launch.ts:274-343 | words written bare, apart by any white space, parse to those words unless the first begins with `-` |
| WindowsArgv.WindowsNativeArg | src/core/agent-launch.ts:544-562 | the loop with its backslash counter writes the quoted form |
| WindowsArgv.LineRoundTrips | src/core/agent-launch.ts:543-584 | every argument list comes back from the joined line by the CommandLineToArgvW rules, with either treatment of doubled quotes |
| WindowsArgv.QuotedOnlyWhereNeeded | src/core/agent-launch.ts:544-546 | an argument goes bare if and only if it is not empty and has neither white space nor quotes |
| WindowsArgv.ReadBody | src/core/agent-launch.ts:546-561 | reading a quoted body gives back the value, however backslashes and quotes fall in it |
| PosixShell.CommandRoundTrips | src/core/agent-launch.ts:483-485 | a POSIX shell reads the joined quoted tokens back as exactly those tokens, whatever they contain |
| LaunchPlan.ShellReceivesTheLaunch | src/core/agent-launch.ts:629-647 | the planned command reads as exactly the logical launch's executable and arguments |
| LaunchPlan.ProcessReceivesTheArguments | src/core/agent-launch.ts:584-592 | a native process takes its argument line apart into exactly the launch's arguments |
| LaunchPlan.LaunchFieldReachesTheShell | src/core/agent-launch.ts:345-481 | for every accepted launch field, the argv parsed from it reaches the shell as its first words, the program after any builtin substitution |
| LaunchPlan.PrintedFieldReachesTheShell | src/core/agent-launch.ts:274-481 | so any launchable argv, written into the field word by word in quotes, reaches the shell |
| LaunchPlan.PromptIsSeparable | src/core/agent-launch.ts:411-480 | a prompt changes nothing else: the same words with the prompt put in at one place after the field's own arguments, or held back for standard input |
| LaunchPlan.PlannedExactlyWhen | src/core/agent-launch.ts:345-440 | a launch is planned if and only if the field parses, the agent grants the mode, resume or session asked for, no custom agent wants its prompt on standard input, and neither a word nor the command is too long |
| LaunchPlan.PromptIsDelivered | src/core/agent-launch.ts:431-647 | a prompt is delivered once: on standard input exactly for a builtin that takes it there, else among the words the shell reads |
| LaunchPlan.PromptIsIntroduced | src/core/agent-launch.ts:431-480 | which word stands before a prompt and where both stand, for each way an agent takes one |
| LaunchPlan.ResumeReachesTheShell | src/core/agent-launch.ts:389-412 | a resumed session is named in what the shell reads, between the field's own words and the mode's flags |
| LaunchPlan.SessionsDiffer | src/core/agent-launch.ts:391-427 | no two sessions are resumed or minted by the same words |
| LaunchPlan.NativeFitsExactlyWhen | src/core/agent-launch.ts:584-586 | a native argument line is refused exactly when it is too long with its program |
| LaunchPlan.DaemonFlagOnce | src/core/agent-launch.ts:372-386 | the no-daemon flag is added exactly once, exactly for codex where the host says so and the field does not decide itself |
| CodexRecords.ParseCodexChatRecords | src/core/codex-chat.ts:156-271 | the forward loop with its call table and in-place results gives one message for each record that says or calls something, in order, with its offset and time, and its role and text, or its id, name, argument and the newest later answer before the next call of that id; carries on the newest outputs that come before any call of theirs; and takes model and effort from the last turn stated |
| CodexRecords.RenderTells | src/core/codex-chat.ts:156-271 | so does the backward specification that paging is stated in |
| CodexRecords.NewestTurnDecides | src/core/codex-chat.ts:258-263 | of two parts the newer decides model and effort, if it states a turn at all |
| CodexRecords.Compose | src/core/codex-chat.ts:156-271 | reading two parts is reading the older one with what the newer leaves over |
| CodexRecords.CalledOutput | src/core/codex-chat.ts:246-252 | one more output of a call changes exactly the last message of that call |
| CodexRecords.UncalledOutput | src/core/codex-chat.ts:253-257 | an output nobody there called changes no message |
| CodexRecords.CarryIsOverlay | src/core/codex-chat.ts:156-271 | for call ids used by one call each, rendering with newer outputs in hand is rendering alone and laying them over, the newer winning |
| CodexRecords.CarriedOn | src/core/codex-chat.ts:253-257 | what is left for older pages is the page's own left-overs and the newer outputs nobody in it called |
| CodexPaging.ParseCodexChatWindow | src/core/codex-chat.ts:290-319 | a window gives the complete lines after its lookbehind, keyed by absolute offset, and the cursor of the first of them, or says it has none |
| CodexPaging.CollectRecords | src/core/codex-chat.ts:303-309 | the scanning loop finds exactly the buffer's non-empty lines from a position on |
| CodexPaging.RecordsAreLines | src/core/codex-chat.ts:303-309 | every record is a line of the buffer, keyed by its place and decoded from its bytes up to its newline |
| CodexPaging.RecordsRise | src/core/codex-chat.ts:303-309 | records stand in the order of their lines, none twice |
| CodexPaging.LinesAreRecords | src/core/codex-chat.ts:303-309 | every line that is not empty has its record |
| CodexPaging.WindowSplitsFile | src/core/codex-chat.ts:280-309 | a window's cursor is a line start strictly before its end, where the file's records split into the older ones and the window's |
| CodexPaging.AnswersExactlyWhen | src/core/codex-chat.ts:294-299 | a window answers if and only if it starts at 0 or holds a newline before its last byte |
| CodexPaging.PagesAreTheFile | src/core/codex-chat.ts:280-309 | for every chain of windows down to 0, each line of the file is read exactly once, at its own offset |
| CodexPaging.PagingIsWholeFileParsing | src/core/codex-chat.ts:253-319 | with carried outputs laid over older pages, newer winning, the pages show what parsing the whole file shows, for call ids used by one call each |
| ChatPanel.PanelPrepends | src/renderer/lib/chatPaging.ts:46-75 | with no output before its call, an older page is shown as the specification shows it if and only if every tool of it whose result is held has none of its own, or that same one |
| ChatPanel.PanelPrependsExactlyWhen | src/renderer/lib/chatPaging.ts:46-75 | without that condition too: exactly when every tool gets by claiming what overriding would give it |
| ChatPanel.PanelIsWholeFileExactlyWhen | src/renderer/lib/chatPaging.ts:103-240 | for every file, every chain of windows and call ids used by one call each, the panel, which shows the newest page as parsed and merges older ones, shows the whole file if and only if every older page agrees: its tools, with what newer pages left the panel, and what they leave over to be due |
| ChatPanel.OpensAsSpecified | src/renderer/lib/chatPaging.ts:103-113 | the first read shows and holds what the specification does, whatever the page |
| ChatPanel.PanelShowsLastAnswersExactlyWhen | src/renderer/lib/chatPaging.ts:103-240 | with answers after their calls that is: for every call the oldest page that answers it ends on the same answer as the file |
| ChatPanel.PanelIsWholeFileParsing | src/renderer/lib/chatPaging.ts:103-240 | in particular where every call is answered at most once, after it |
| ChatPanel.OlderAnswerWinsOnThePanel | src/renderer/lib/chatPaging.ts:44-61 | a file of three lines and two windows, one call answered twice with the boundary between the answers, which the panel does not show as the whole file |
| BoardLog.ParseLines | src/core/board-log.ts:83-99 | the loop, the reversal and the cap give the newest entries of the file, newest first, skipping what does not read |
| BoardLog.AppendAddsOne | src/core/board-log.ts:75-81 | writing one line adds exactly that entry, clamped, to what the file reads as |
| BoardLog.ClampIsStable | src/core/board-log.ts:41-47 | clamping twice is clamping once, keeps the start of the text and every other field, and changes a text exactly when it is over the limit |
| BoardLog.StoredAdd | src/core/board-log.ts:83-99 | a file read in two parts at a line end is the two parts' entries in order |
| BoardLogStore.LocalLog.constructor | src/core/board-log.ts:110-114 | a log without files |
| BoardLogStore.LocalLog.RotateIfLarge | src/core/board-log.ts:156-164 | the current file moves over the previous one when the incoming line would pass the bound and the rename succeeds, and nothing changes otherwise |
| BoardLogStore.LocalLog.Append | src/core/board-log.ts:124-143 | the two files after each combination of failures, and true exactly when the entry was written |
| BoardLogStore.LocalLog.Read | src/core/board-log.ts:167-200 | a read, stopping early or joining, is the newest entries of the one log the readable files make up; nothing when the current file cannot be read |
| BoardLogStore.FilesHoldTheEnd | src/core/board-log.ts:124-164 | after any run of appends, with any failures, the two files hold a contiguous end of the entries reported written, in whole lines |
| BoardLogStore.ReadsLikeOneLog | src/core/board-log.ts:167-200 | after any run a read is empty while there is no current file, and otherwise the newest entries reported written, newest first, as many as asked for and as far as the files reach |
| BoardLogStore.MissingAfterAFailedWrite | src/core/board-log.ts:124-164 | the current file goes missing exactly when a rotation is followed by a write that fails |
| BoardLogStore.FilesStayBounded | src/core/board-log.ts:145-164 | while renames succeed neither file passes a bound that every line fits, in whatever script |
| BoardLogStore.PairHoldsTheBound | src/core/board-log.ts:145-164 | once rotated, the two files hold more than 4 MiB |
| BoardLogStore.RotatedPairIsBetween | src/core/board-log.ts:20-37 | with ASCII lines no longer than the bound, a rotated pair holds more than 4 MiB and at most 8 MiB |
| BoardLogStore.FilePassesItsBoundExactlyWhen | src/core/board-log.ts:145-164 | of a file within its bound, the file after an append passes it if and only if the line alone does, when the log rotates or there was none, and else the line's bytes do not fit; a line of ASCII that does not rotate always fits |
| BoardLogStore.BoundIsPassedByOtherScripts | src/core/board-log.ts:128-159 | a line that just fills the file in units takes it past its bound if and only if it is not ASCII |
| BoardLogStore.PairPassesItsBoundExactlyWhen | src/core/board-log.ts:20-37 | after an append the two files hold more than 8 MiB and the line if and only if they held more than 8 MiB before and the log does not rotate, or it rotates a file that alone did |
| BoardLogStore.RunOverfills | src/core/board-log.ts:145-164 | over every run of successful appends each file is past its bound by exactly what the last append to it overfilled, at most the longest line |
| BoardLogStore.RunPassesTwoBoundsExactlyWhen | src/core/board-log.ts:20-37 | over every run of successful appends the two files hold more than 8 MiB and the longest line if and only if the last append and the last one before the newest rotation overfilled their files by more than that line together |
| BoardLogStore.NarrowLinesKeepThePromise | src/core/board-log.ts:20-37 | lines of at most two bytes a unit, none over 8 MiB, keep the two files within 8 MiB and the longest line over every such run |
| BoardLogStore.PairCanPassTwoBoundsAndALine | src/core/board-log.ts:20-37 | for every ASCII line and every line of at least twice its units and the other's in bytes, filling a file, passing its bound, and doing so again after the rotation leaves more than 8 MiB and the longest line |
| BoardLogStore.TwoBoundsAndALineArePassed | src/core/board-log.ts:20-37 | such a run exists, every append succeeding, for a codec that reads every entry back |
| SessionCopy.ComparePrefix | src/core/claude-session-copy.ts:53-65 | for every chunk size, two reused buffers answer by the measured sizes and the bytes read, a file that shrank since included |
| SessionCopy.PrefixStateOf | src/core/claude-session-copy.ts:42-72 | for files that hold still the answer is the definition on byte sequences: absent, identical, prefix or diverged |
| SessionCopy.Accounts.CopyClaudeSession | src/core/claude-session-copy.ts:82-107 | a copy that succeeds leaves the source's bytes under the target account; any other answer changes nothing |
| SessionCopy.Accounts.Append | src/core/claude-session-copy.ts:11-16 | not an operation of this file but what it states of the CLI: a transcript only grows, under the account that runs |
| SessionCopy.HistoryIsNeverLost | src/core/claude-session-copy.ts:11-16 | over any run of appends and switches, landed, failed or refused, what an account held is a prefix of what it holds later |
| SessionCopy.PartedForGood | src/core/claude-session-copy.ts:11-16 | two histories that have parted stay parted, and every later switch between them is refused |
| SessionCopy.SwitchIsRefusedOnlyToKeepHistory | src/core/claude-session-copy.ts:82-107 | a switch is refused if and only if the target holds bytes the source does not continue |
| SessionCopy.SwitchAnswers | src/core/claude-session-copy.ts:82-107 | a switch answers copied, nothing to copy, failed or refused, each under exactly its own condition on the two histories and the copy's landing |
| SessionCopy.ThereAndBack | src/core/claude-session-copy.ts:11-16 | switching away, growing there and switching back leaves the same longer history under both accounts |

## Left out

- SubagentView.ScreenIsExact: one session at a time; a node whose session changes starts a new table while old cards stay with consumers, and nothing is claimed across that change.
- SubagentPairing.PairingConverges: the guess by subagent type before any ack is a heuristic, so nothing is claimed about which child an unacknowledged call goes to.
- SubagentLifecycle.ClaudeSubagentLifecycle.Apply: cards, waiting calls and hints are values inside the node's fields rather than objects of their own, so aliasing between two references to one card object is not modelled; `isNative`, `forgetNode` and `clear` are omitted.
- CanvasDurability.FileIsAPrefixOfTheOrder: leaves out outside edits adopted during a write, which CanvasEdits.StepKeepsSaved settles exactly.
- CanvasAuthority.CanvasAuthority.AdoptOutsideEdit: an edit without a baseline ends here in an adoption, and what follows once the read is done is a second such step; the reducer, the order's verdict and the published difference are parameters; the answer for the shell is omitted, the strip of execution fields is the identity, and the overlay of a save or load onto the workspace (edges, board configuration, execution fields) is not modelled.
- CanvasDurability.RetiredOnlyWhenWritten: the file changes only by the authority's writes and by edits it is told of; others writing it while it is unshared are not modelled.
- CanvasSync.Reflector.Ingest: the shape guard and the sanitizers of a mutation's content are one parameter, a throwing listener and clients joining or leaving mid-run are omitted.
- MirrorRuns.EveryReachableEntryIsSound: assumes that picker events are the node's own agent going to waiting, which the hook normalizer, not part of this model, provides.
- InboxFeed.IncrementalIsBatch: asks resolved between trims change what is protected, so the flags are fixed here; acknowledging finished turns is covered by InboxFeed.AckTrimCommute.
- StatusMirror.Mirror.RecordAgentEvent: resolving question and approval cards, the event handed on to the renderer, producing inbox events, titles, activity lines, questions stashed for approvals, usage and settings blocks and the change listeners.
- StatusMirror.Mirror.LoadPersisted: what a node is doing now, and entries or events of a malformed shape.
- LaunchPlan.ProcessReceivesTheArguments: PowerShell's own quoting around the argument line, the resolver of executables and the encoded `cmd` wrapper; PowerShell takes more characters as quotes than the source escapes.
- LaunchPlan.ShellReceivesTheLaunch: validation of the intent, resolution of the agent's configuration and the capability probes are parameters.
- CodexRecords.ParseCodexChatRecords: JSON decoding of a line, and its timestamp, is a function from bytes to a record; the unpaged read, which leaves keys, ids and carried outputs out of the same loop, is omitted.
- ChatPanel.PanelIsWholeFileParsing: re-reading the tail, the panel's guards against repeated keys and cursors that do not move, and dropping what is held at the start of the file.
- CodexPaging.PagingIsWholeFileParsing: the reader that grows a window until it answers is represented by the chain of windows that answered.
- BoardLog.AppendAddsOne: JSON is a codec with a round trip whose lines hold no newline and are not blank at either end.
- BoardLogStore.FilesHoldTheEnd: a write is all or nothing.
- BoardLogStore.LocalLog.Append: logs on a remote host, which are never rotated, and writes cut short.
- BoardLogStore.LocalLog.Read: the tail of a remote log, and the change watcher.
- SessionCopy.Accounts.CopyClaudeSession: the sidecar directories, the temporary file and its atomic rename, and accounts linked to one directory other than by having one name.
- Text is sequences of characters or code units throughout; UTF-8 decoding, JSON, base64 and regular expressions are not modelled.
- Timers are pending or not and times are integers; debounce lengths, promises and real file I/O are not modelled.
