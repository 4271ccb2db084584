# Verified model of the NDX agent server

This project models the parts of the NDX agent server in which several things
happen at once, or in which text, paths and tables are transformed, and proves what
they keep. `dafny verify dfyconfig.toml` checks all of it.

**The turn scheduler** (`TurnScheduler`, `TurnExclusion`, `TurnExclusionLimits`,
`ClaimLedger`, `ClaimPresence`, `RunGuard`, `RunGuardLimits`, `DrainProgress`,
`ChainProgress`, `QueueAttention`, `DrainLimits`, `ClaimRuns`, `MessageRuns`, on top of
`RequestQueue`, `QueueHistory`, `QueueContents` and `SessionRow`). One session is a machine of
interleaved steps: every handler of a socket message, every drain, every chain of
follow-up turns and every branch compaction is a thread, and a step takes one thread
from one `await` to the next. What a thread has read of the session row may be stale
when it acts. Main results, for every interleaving:

- exactly which steps break the exclusion of turns, exactly which leave a row running
  with nobody live, and that all others keep both;
- exactly which steps leave a claimed queue item without an owner, and that in all
  other runs a claimed item has one owner in one role;
- in every run, a claimed item leaves the queue by its handler's step only after exactly
  one turn was started for it since the claim, and an interrupt of a running turn is
  marked on the row whatever else happens in between;
- exactly which step makes the run guard lose its one holder, and that otherwise at most
  two items of a session are claimed;
- exactly which steps leave a waiting request without a handler that will still look at
  the queue, and that no launched run ends without handing the queue on;
- a bound, computed from the state, on the length of runs without new messages, unless
  turns of a chain's first item throw after their end or cannot be started: then a
  request is claimed and given back for ever;
- runs that show each failure: three ways to two live turns, a stranded claim, three
  claims at once, three ways to a forgotten request, and two endless loops.

**Streams and requests** (`SseFrames`, `ThinkFilter`, `ThinkStreaming`, `ThinkBlocks`,
`ReasoningText`, `ToolCalls`, `ArgumentSplitter`, `RetryDriver`, `RetryLimits`). Frames follow section 9.2.6 of the
WHATWG HTML standard with a double line feed as the only terminator. Chunked reading
equals reading at once; what is shown of a message with thinking, and when reasoning comes
out whole, is told for every cutting, and so it shows that a block behind shown text loses
that text unless it comes with it in one delta; the argument
splitter and the comma-join are inverse under an exact condition; the retry driver is
bounded and orderly for every script of provider replies, and over any number of calls
falls back to the other input mode at most once.

**Paths** (`PathAlgebra`, `PathMapping`, `HostPaths`). Strings stand for lists of components; the
string operations are shown to act on those lists, which gives idempotence, the inverse
law of join and relative, containment in the workspace, the round trips between
container, host and project names, and where every path goes, case by case.

**History and tables** (`TurnHistory`, `TurnDeletion`, `UsageTotals`, `RecordedUsage`,
`TranscriptBudget`, `HookEffects`, `SessionGrants`, `CursorScan`, `CursorLaws`,
`ContextUsage`). Turn ranges, deletion and the history view; rebuilt against recorded
totals; the greedy transcript; the merge of hook effects; grants over the session tree;
and the self-check's cursor, with the exact commits it misses.

Loops that update variables are methods with invariants, proved equal to a function;
classes keep the fields the program updates in place. Everything outside the program
is a parameter: what a provider answers, what a hook does, how many tokens a text
takes, random ids (which are required to be new), times, and the order in which
handlers get to run. `JsText` holds strings as the server's language treats them.

## Model

| member | source | states |
|---|---|---|
| `TurnExclusion.StepKeepsExclusion` | packages/ndx/src/agent/session/updateSession.ts:8-17 | a step of any handler keeps at most one turn or compaction live, with the row saying so, if and only if it is not an end that belongs to no live turn while another is live |
| `TurnExclusion.RunKeepsExclusion` | packages/ndx/src/agent/session/updateSession.ts:4-66 | over every interleaving without such an end, the exclusion holds at the end |
| `TurnExclusion.TurnsExclude` | apps/ndx/src/server/agent/connection.ts:308-340 | from a new or a branched session, at most one turn or compaction lies between its start and its end: the compare-and-set excludes, not the guard, which is read before an await and taken after it |
| `TurnExclusionLimits.BranchFailureEndsTwice` | packages/ndx/src/agent/session/branchSession.ts:77-93 | a failed branch compaction ends its turn twice; a turn started in between loses its running flag and a second one starts |
| `TurnExclusionLimits.TurnEndsTwice` | packages/ndx/src/agent/turnloop/request/index.ts:117-118 | a turn whose end event throws is ended again by the failure path, after another input has started |
| `TurnExclusionLimits.UnacceptedInterruptClearsLiveTurn` | apps/ndx/src/server/agent/connection.ts:409-433 | an interrupt between the start of a turn and its registration is not accepted, and completing it clears the flag of the live turn |
| `TurnExclusion.StepKeepsBacked` | packages/ndx/src/agent/turnloop/request/index.ts:126-135 | a step leaves a running row with nobody live if and only if the only live turn throws before its input is recorded or cannot be ended any more, the message that branches the session off throws before it launches the compaction, or neither end of a failed compaction reaches the row |
| `TurnExclusion.RunningMeansLive` | packages/ndx/src/agent/session/updateSession.ts:4-66 | over every run with neither such a step nor a stray end, from the creation of a session or of a branch, an existing row says running exactly while a turn or compaction is between its start and its end |
| `TurnExclusion.HistoryOpensAtRest` | packages/ndx/src/agent/session/deleteSessionTurn.ts:43-47 | over every run without a stray end, history can be changed only while no turn or compaction is live |
| `TurnExclusion.EndThenScopeOpensHistory` | packages/ndx/src/agent/turnloop/base/failure/index.ts:17-56 | history stays closed from the end of a registered turn until it closes its scope, and is then open if and only if the end completed an interrupt or none was asked for |
| `ClaimLedger.StepKeepsLedger` | packages/ndx/src/agent/turnloop/index.ts:99-155 | a step leaves every claimed item with exactly one owner, running or successor, if and only if it is none of the four kinds listed by `Lost`: a throwing broadcast after a claim, by a drain or at the end of a turn; a session that cannot be read for the claimed request; a chain that stops with a successor in hand |
| `ClaimLedger.RunKeepsLedger` | packages/ndx/src/agent/turnloop/index.ts:75-155 | the ledger over every run that loses no claim |
| `ClaimLedger.ClaimsHaveOneOwner` | packages/ndx/src/agent/turnloop/index.ts:75-155 | in every run that loses no claim, a claimed item has exactly one owner in exactly one role, and some handler is still under way: finished chains leave no claim |
| `ClaimLedger.RunKeepsBooks` | packages/ndx/src/agent/turnloop/index.ts:75-155 | over every run, lost claims included, no item has two owners, and what is owned and still queued is claimed |
| `ClaimRuns.TakenWasRun` | packages/ndx/src/agent/turnloop/index.ts:112-133 | over every run, lost claims and failures included: when a handler's own step takes a claimed item out of the queue of an existing session, that handler had claimed the item and, since then, set the idle session running for it exactly once |
| `ClaimRuns.StartedAtMostOnce` | packages/ndx/src/agent/turnloop/index.ts:112-122 | over every run no handler starts a second turn for an item it claimed once |
| `ClaimRuns.GivenBackForAReason` | packages/ndx/src/agent/turnloop/index.ts:108-149 | a claim is given back only by a chain whose turn for it failed, which saw the session gone or running, or which has come to its limit |
| `MessageRuns.InterruptIsMarked` | apps/ndx/src/server/agent/connection.ts:400-433 | an interrupt that read a running session, not compacting unless a deletion sends it, marks the row as interrupted, with the time of the request set, before it is done, among any steps of all other handlers, unless a call of its own throws or the session is deleted |
| `MessageRuns.InterruptIsRefused` | apps/ndx/src/server/agent/connection.ts:400-408 | one that read no session or a compacting one never touches the row |
| `MessageRuns.InterruptReadsRow` | apps/ndx/src/server/agent/connection.ts:400-411 | what an interrupt goes by is whether the session was running when it was read |
| `MessageRuns.InterruptFindsNoTurn` | apps/ndx/src/server/agent/connection.ts:409-413 | nor does a client's that read a session not running, if no turn is registered by the time it goes on |
| `MessageRuns.InputStartsTurn` | apps/ndx/src/server/agent/connection.ts:308-345 | an input to an idle session whose guard is free, when its calls succeed, takes the guard and starts its turn |
| `MessageRuns.InputIsRefused` | apps/ndx/src/server/agent/connection.ts:303-310 | an input to a session that is gone or running, or whose guard is taken, changes nothing |
| `MessageRuns.QueuedRequestStartsTurn` | apps/ndx/src/server/agent/connection.ts:221-251 | a request queued for an idle session with nothing queued and the guard free is claimed and gets its turn, with the guard taken |
| `MessageRuns.TurnRunsToItsEnd` | packages/ndx/src/agent/turnloop/request/index.ts:126-135 | a started turn registers for interrupts and runs to its end, which leaves the row idle; one that saw an interrupt completes it |
| `MessageRuns.NextRequestStartsTurn` | packages/ndx/src/agent/turnloop/index.ts:123-154 | after any turn, of an input or of a chain below its limit, the request claimed or offered at its end gets the next turn in an idle session, and the item of the turn that is over is gone |
| `MessageRuns.BranchCompacts` | packages/ndx/src/agent/session/branchSession.ts:50-81 | the message that branches a session off leaves it running in the phase of compaction, and the compaction leaves it idle |
| `RunGuard.StepKeepsOneHolder` | apps/ndx/src/server/agent/requestQueueSocket.ts:71-89 | a step brings a second drain, chain or turn, or parts the guard from its holder, if and only if an input that found the guard free takes it when it is taken |
| `RunGuard.RunKeepsOneHolder` | apps/ndx/src/server/agent/requestQueueSocket.ts:166-201 | over every run, the guard is taken throughout exactly while its one holder is under way, if and only if no input of the run does that |
| `RunGuard.OneHolderClaims` | packages/ndx/src/agent/turnloop/index.ts:99-155 | with one holder at most two items of a session are claimed, the one it runs and the one it goes on with, and none while the guard is free |
| `RunGuard.AtMostTwoClaims` | packages/ndx/src/agent/turnloop/index.ts:75-155 | the same at the end of every run that loses no claim and in which no input takes a taken guard |
| `RunGuard.GuardExcludesTurns` | apps/ndx/src/server/agent/connection.ts:308-340 | in every run in which no input takes a taken guard at most one handler runs a turn, even if stray ends clear the row's flag |
| `RunGuardLimits.FreedGuardLetsThreeBeClaimed` | apps/ndx/src/server/agent/connection.ts:308-345 | a reachable state with three claimed items, each owned: an input refused by the row has freed the guard under the turn that runs, and a drain works beside it |
| `ClaimPresence.StepKeepsPresent` | packages/ndx/src/agent/turnloop/index.ts:107-134 | items being run stay queued as long as clients do not delete owned items and no broadcast or read of the session throws after a claim |
| `ClaimPresence.TameRunsLoseNothing` | packages/ndx/src/agent/turnloop/index.ts:99-155 | runs in which clients, sockets and reads of the session behave so lose no claim |
| `ClaimPresence.DeletedItemStrandsSuccessor` | packages/ndx/src/agent/turnloop/index.ts:123-133 | in any state where a chain is running an item, deleting that item strands the successor claimed at the end of the turn: the early return does not release it |
| `DrainProgress.QuietStepPays` | apps/ndx/src/server/agent/requestQueueSocket.ts:166-201 | every step of the server alone lowers a lexicographic measure, of starts and ends still to come and of steps between them, unless a chain sends its first item, claimed for it by a drain or at the end of an input's turn, back from a session that may be idle |
| `DrainProgress.QuietRunsStop` | apps/ndx/src/server/agent/requestQueueSocket.ts:166-201 | without new messages, and unless the turn of a chain's first item throws after its end or cannot be started by an idle session, the restart loop stops: the number of steps is bounded by a number computed from the state the run begins in |
| `DrainProgress.QuietRunsAreBounded` | apps/ndx/src/server/agent/requestQueueSocket.ts:166-201 | for all quiet runs, the bound grows only with the number of items so sent back: an endless run sends items back without end |
| `DrainLimits.ThrowingTurnsGoRound` | packages/ndx/src/agent/turnloop/index.ts:113-124 | the restart loop does not stop when such a turn throws after its end: from a reachable state there are quiet runs of any length, each eleven steps claiming, running and giving back the same request |
| `DrainLimits.RefusedStartsGoRound` | packages/ndx/src/agent/turnloop/index.ts:113-124 | the same when an idle session refuses the start |
| `ChainProgress.StepHandsOver` | apps/ndx/src/server/agent/requestQueueSocket.ts:75-89 | a launched run that ends in a step either finds nothing queued or goes on as a drain holding the guard |
| `ChainProgress.LaunchedRunHandsOver` | apps/ndx/src/server/agent/requestQueueSocket.ts:75-89 | over every run, no launched turn or chain stops without handing over |
| `ChainProgress.ChainsAreBounded` | packages/ndx/src/agent/turnloop/index.ts:139-149 | in every run a chain never comes to more than 100 turns |
| `ChainProgress.TurnNumberMoves` | packages/ndx/src/agent/turnloop/index.ts:99-149 | a chain begins at turn one and goes on only from a completed turn to the next; that such a turn was really started is `ClaimRuns.TakenWasRun` |
| `QueueAttention.StepKeepsAttended` | apps/ndx/src/server/agent/requestQueueSocket.ts:166-201 | a step leaves a runnable request of an idle session without any handler that will still look at the queue if and only if it is one listed by `Forgets`: a request queued after a stale read of a running row or while the guard is held, a throwing broadcast or read before the look, an end by an unaccepted interrupt or a branch compaction, an insertion or edit with nobody watching |
| `QueueAttention.RunKeepsAttended` | apps/ndx/src/server/agent/requestQueueSocket.ts:75-89 | a run keeps every waiting request attended throughout if and only if no step of it is one of those |
| `QueueAttention.ForgottenByAStep` | apps/ndx/src/server/agent/requestQueueSocket.ts:75-89 | a session that comes to rest with a request waiting has lost it in one of those steps |
| `DrainLimits.StaleReadForgetsRequest` | apps/ndx/src/server/agent/connection.ts:224-249 | a run of the first kind: the message read the row while a turn ran, and queued after the turn was over |
| `DrainLimits.CompactionForgetsRequest` | apps/ndx/src/server/agent/connection.ts:221-251 | a run of another: a request queued while a branch is being compacted, which looks at no queue when it ends |
| `DrainLimits.HeldGuardForgetsRequest` | apps/ndx/src/server/agent/requestQueueSocket.ts:174-200 | a run of a third: a request queued while a drain that found nothing still holds the guard, with no stale read, turn or compaction |
| `SessionRow.HistoryAfterEnd` | packages/ndx/src/agent/session/deleteSessionTurn.ts:43-47 | a turn that ends by itself leaves a requested interrupt on the row and history closed; completing the interrupt opens it |
| `SessionRow.FirstRequestCounts` | packages/ndx/src/agent/session/interruptSession.ts:22-44 | the time of the first interrupt request stays through further requests, the end and the completion, until the next start clears it |
| `SessionRow.SessionTable.StartTurn` | packages/ndx/src/agent/session/updateSession.ts:4-42 | compare-and-set: starts exactly a known session that is not running, and tells the failures apart; other rows unchanged |
| `SessionRow.SessionTable.EndTurn` | packages/ndx/src/agent/session/updateSession.ts:44-66 | the whole row after an end, whether or not it was running |
| `SessionRow.SessionTable.UpdateTurnPhase` | packages/ndx/src/agent/session/interruptSession.ts:4-20 | only the phase changes |
| `SessionRow.SessionTable.RequestInterrupt` | packages/ndx/src/agent/session/interruptSession.ts:22-44 | first request time kept, completion cleared, phase kept unless given |
| `SessionRow.SessionTable.CompleteInterrupt` | packages/ndx/src/agent/session/interruptSession.ts:46-69 | row idle, request cleared, completion time set |
| `RequestQueue.Registry.Insert` | packages/ndx/src/agent/requestQue/index.ts:83-112 | the new item, its text rewritten, at its position, the other items in order, other sessions unchanged |
| `RequestQueue.Registry.UpdateText` | packages/ndx/src/agent/requestQue/index.ts:114-120 | rewrites the text of an unclaimed item and changes nothing else; a claimed or missing one is refused |
| `RequestQueue.Registry.Update` | packages/ndx/src/agent/requestQue/index.ts:122-137 | the same for text, model and attachments |
| `RequestQueue.Registry.Delete` | packages/ndx/src/agent/requestQue/index.ts:139-149 | exactly the item is gone; an emptied queue is not stored |
| `RequestQueue.Registry.ClaimNextRunnable` | packages/ndx/src/agent/requestQue/index.ts:151-176 | the queue after dropping empty head items and marking the item returned |
| `RequestQueue.Registry.ReleaseClaim` | packages/ndx/src/agent/requestQue/index.ts:178-183 | only the claim mark goes |
| `RequestQueue.Registry.CompleteClaim` | packages/ndx/src/agent/requestQue/index.ts:185-187 | removes the item, claimed or not |
| `RequestQueue.StoredIsRead` | packages/ndx/src/agent/requestQue/index.ts:189-195 | what is stored for a session is read back, other sessions keep their queues, and a session has an entry exactly when its queue is not empty |
| `RequestQueue.Registry.Clear` | packages/ndx/src/agent/requestQue/index.ts:197-199 | the session has no items; others keep theirs |
| `RequestQueue.Registry.Items` | packages/ndx/src/agent/requestQue/index.ts:201-203 | exactly the items at the unclaimed places, in rising order, each once; they are those a client may edit |
| `RequestQueue.VisibleIsEditable` | packages/ndx/src/agent/requestQue/index.ts:114-137 | an item is shown to clients if and only if an edit of it is not refused |
| `RequestQueue.Registry.HasItems` | packages/ndx/src/agent/requestQue/index.ts:205-207 | whether anything is queued, claimed items included, unlike in what clients see |
| `RequestQueue.Place` | packages/ndx/src/agent/requestQue/index.ts:96-110 | front, before, after or end; an unknown neighbour means the end |
| `RequestQueue.DropEmptyHead` | packages/ndx/src/agent/requestQue/index.ts:153-164 | drops exactly the longest prefix of unclaimed empty items |
| `RequestQueue.ClaimTakesFirstRunnable` | packages/ndx/src/agent/requestQue/index.ts:165-175 | a claim takes the first unclaimed runnable item of what is left, and there is one exactly when something is claimed |
| `RequestQueue.InsertedIsUnique` | packages/ndx/src/agent/requestQue/index.ts:83-112 | fresh ids stay unique |
| `RequestQueue.IdsOfClaim` | packages/ndx/src/agent/requestQue/index.ts:151-176 | a claim only prunes ids, and marks exactly the item it returns |
| `QueueHistory.IdsConserved` | packages/ndx/src/agent/requestQue/index.ts:83-207 | over any sequence of operations, ids ever inserted are the disjoint union of removed, cleared, pruned and present ones, each present once |
| `QueueHistory.PrunedWereEmpty` | packages/ndx/src/agent/requestQue/index.ts:153-164 | only unclaimed items without text and attachments are pruned |
| `QueueHistory.SurvivorsKeepOrder` | packages/ndx/src/agent/requestQue/index.ts:83-207 | items that were there before and are there after keep their relative order |
| `QueueHistory.ClaimedItemFrozen` | packages/ndx/src/agent/requestQue/index.ts:114-187 | while present and not released, a claimed item is neither changed nor claimed again |
| `QueueContents.InsertedWhereAsked` | packages/ndx/src/agent/requestQue/index.ts:96-110 | a new item stands first, last, or right beside its anchor, and last when the anchor is not queued; all others stay in their places |
| `QueueContents.EditedAsAsked` | packages/ndx/src/agent/requestQue/index.ts:122-137 | at every place: an edit changes the unclaimed item with that id, to its text and model and to the attachments kept and added that the model takes, and nothing else |
| `QueueContents.OnlyMarksChange` | packages/ndx/src/agent/requestQue/index.ts:139-187 | nothing but an insertion brings an item, and nothing but an edit changes more of one than the mark of its claim |
| `SseFrames.ReadFrames` | packages/ndx/src/common/responseapi/responses.ts:119-133 | for every cutting of the text into chunks, the frames are those of the whole text and the buffer is its unfinished rest |
| `SseFrames.SplitContinues` | packages/ndx/src/common/responseapi/responses.ts:125-127 | more text only extends the unfinished rest |
| `SseFrames.FramesRebuildText` | packages/ndx/src/common/responseapi/responses.ts:125-127 | frames and rest joined by the terminator are the text |
| `SseFrames.FramesHoldNoTerminator` | packages/ndx/src/common/responseapi/responses.ts:125-127 | no frame holds a double line feed |
| `SseFrames.ParseDataFrame` | packages/ndx/src/common/protocol/sse.ts:1-11 | the data lines of a frame, joined; none when there is no data line |
| `SseFrames.PrintParse` | packages/ndx/src/common/protocol/sse.ts:1-11 | printing a payload as data lines and parsing gives it back if and only if no line but the last ends in a carriage return |
| `SseFrames.OtherLinesDoNotCount` | packages/ndx/src/common/protocol/sse.ts:1-11 | a line of another field, wherever it stands in a frame, does not change the payload |
| `ThinkFilter.OutputTextFilter.PushDelta` | packages/ndx/src/common/responseapi/responses.ts:313-351 | the loop computes the recursive filter, text, hidden parts and flags; what that is for a text with tags is told by the rows of `ThinkBlocks` |
| `ThinkFilter.OutputTextFilter.PassOne` | packages/ndx/src/common/responseapi/responses.ts:318-349 | one pass takes the text through the next tag, or all of it |
| `ThinkFilter.ReadText` | packages/ndx/src/common/responseapi/responses.ts:211-248 | the visible content after a stream of deltas |
| `ThinkStreaming.UnopenedThinking` | packages/ndx/src/common/responseapi/responses.ts:211-248 | for text closed by a tag never opened: whatever the cutting, what is shown at the end is the answer if no delta ends inside the tag, and the whole message otherwise |
| `ThinkStreaming.ExplicitThinking` | packages/ndx/src/common/responseapi/responses.ts:211-248 | for an explicit block and every cutting: the answer is shown if no delta ends inside the closing tag, even if one ends inside the opening tag; otherwise nothing is shown, or the whole message if deltas end inside both tags |
| `ThinkStreaming.PlainAnswer` | packages/ndx/src/common/responseapi/responses.ts:211-248 | a message without thinking is shown as it is, whatever the cutting |
| `ThinkStreaming.StrippedAtOnce` | packages/ndx/src/common/responseapi/responses.ts:361-369 | stripping each of the three whole messages leaves the same answer |
| `ThinkBlocks.BlockIsCutOut` | packages/ndx/src/common/responseapi/responses.ts:318-343 | whatever follows and whatever was shown: text in front of a block is shown, what the block holds is reported as reasoning, and the filter goes on behind the block |
| `ThinkBlocks.BlocksAreStripped` | packages/ndx/src/common/responseapi/responses.ts:361-369 | any number of blocks between visible parts, stripped in one go: all visible parts are left, in order, and the reasoning is what the blocks held, in order |
| `ThinkBlocks.StrayClose` | packages/ndx/src/common/responseapi/responses.ts:333-349 | a closing tag never opened is shown behind shown text, with all that follows; before anything is shown, what it closes is reasoning |
| `ThinkBlocks.UnclosedBlock` | packages/ndx/src/common/responseapi/responses.ts:318-323 | a block never closed hides the rest of the text and reports it |
| `ThinkBlocks.BlocksInFirstDelta` | packages/ndx/src/common/responseapi/responses.ts:211-248 | a stream whose first delta holds all the blocks shows what stripping leaves, and then what plain text comes |
| `ThinkBlocks.ThinkingAfterText` | packages/ndx/src/common/responseapi/responses.ts:211-248 | a block behind shown text, for every cutting: what is shown in the end is the stripped message if the delta that closes the block is the first with any text; otherwise the text in front is taken back when the closing tag comes, and with it all that follows if the block was opened in an earlier delta; the cuttings inside tags are told too |
| `ReasoningText.ReasoningOnlyGrows` | packages/ndx/src/common/responseapi/responses.ts:180-188 | the reasoning text reported so far is a prefix of every later one, for deltas and summaries in any order |
| `ReasoningText.RepeatedSummary` | packages/ndx/src/common/responseapi/responses.ts:293-301 | the text ends with the summary just added, and adding it again changes nothing |
| `ReasoningText.CuttingIsKept` | packages/ndx/src/common/responseapi/responses.ts:180-188 | for every cutting into deltas and summaries, the whole text comes out if and only if no non-empty summary meets a non-empty text before it that ends with it or begins it |
| `ReasoningText.CuttingMatters` | packages/ndx/src/common/responseapi/responses.ts:293-301 | a cutting that does not: a doubled character in two pieces |
| `ToolCalls.ReadToolCalls` | packages/ndx/src/common/responseapi/responses.ts:191-210 | the calls kept and the calls announced |
| `ToolCalls.EveryIdIsKeptOnce` | packages/ndx/src/common/responseapi/responses.ts:203-210 | every id of the stream is kept, and kept once |
| `ToolCalls.AnnouncedIsKept` | packages/ndx/src/common/responseapi/responses.ts:191-210 | announced and kept calls are the same list if and only if no event repeats an id that is new with it |
| `ToolCalls.NextIsKept` | packages/ndx/src/common/responseapi/responses.ts:203-210 | a further call is kept if and only if it has no id or one that no call before it had |
| `ToolCalls.EventsAreKeptAsOne` | packages/ndx/src/common/responseapi/responses.ts:203-210 | what is kept does not depend on how the calls came in events |
| `ToolCalls.NextIsAnnounced` | packages/ndx/src/common/responseapi/responses.ts:191-195 | a further call of an event is announced if and only if it has no id or one that no call kept before the event had |
| `ArgumentSplitter.SplitCodeArguments` | packages/ndx/src/common/responseapi/responses.ts:801-840 | the loop computes the pieces between separating commas, a blank last piece dropped |
| `ArgumentSplitter.ArgumentsOfJoin` | packages/ndx/src/common/responseapi/responses.ts:801-840 | splitting the comma-join of a list gives the list back if and only if every part but the last ends outside quotes and escapes, no part holds a separating comma and the last is not blank |
| `ArgumentSplitter.JoinArguments` | packages/ndx/src/common/responseapi/responses.ts:801-840 | joining the arguments gives the input back if and only if the text after the last separating comma is not blank, or there is no text |
| `ArgumentSplitter.WrittenArguments` | packages/ndx/src/common/responseapi/responses.ts:801-840 | a list of texts in either kind of quotes, bare texts and escaped characters is given back from its comma-join: commas inside quotes or behind a backslash do not cut |
| `RetryDriver.ProviderInputs.RequestModelResponse` | packages/ndx/src/common/responseapi/request.ts:55-301 | the nested loops compute the driver's decisions for every script of provider replies and aborts, and touch only this provider's memory |
| `RetryDriver.ProviderInputs.TryInput` | packages/ndx/src/common/responseapi/request.ts:80-301 | the attempt loop for one input mode |
| `RetryDriver.ProviderInputs.HandleReply` | packages/ndx/src/common/responseapi/request.ts:136-299 | what one reply leads to, and that a mode is remembered exactly on a fallback |
| `RetryDriver.ProviderInputs.RequestBodies` | packages/ndx/src/common/responseapi/request.ts:51-59 | modes not remembered, in preferred order; the preferred one when all are |
| `RetryDriver.ProviderInputs.Remember` | packages/ndx/src/common/responseapi/request.ts:365-369 | one mode more for this key, other keys unchanged |
| `RetryLimits.CallsAreBounded` | packages/ndx/src/common/responseapi/request.ts:71-301 | at most two requests per input mode and four in all |
| `RetryLimits.CallsAreOrderly` | packages/ndx/src/common/responseapi/request.ts:71-301 | the same input is sent again only after a passing fault, the other only after a rejection and not in strict mode, and then never the first again |
| `RetryLimits.CallsRemember` | packages/ndx/src/common/responseapi/request.ts:146-165 | the memory only grows, by modes the provider rejected in this call, and by every refused one; strict calls add nothing |
| `RetryLimits.RememberedIsNotSent` | packages/ndx/src/common/responseapi/request.ts:55-59 | a remembered mode is not sent unless both are, and then only the preferred one |
| `RetryLimits.CallsAreJustified` | packages/ndx/src/common/responseapi/request.ts:186-247 | a returned response is the last reply and has text or a tool call; a failed call's cause is its last reply, which could not be retried; a call is aborted only if the signal was set before its next request, in the catch of its last one, or in the wait after it with attempts left |
| `RetryLimits.CallsFollowTheirScript` | packages/ndx/src/common/responseapi/request.ts:80-301 | a call returns if and only if its last reply is useful; every request was sent before any signal, and a signal set in a catch or a wait stops the call there |
| `RetryLimits.CalmCallsReturn` | packages/ndx/src/common/responseapi/request.ts:184-247 | without any abort signal a call returns its last reply if that is useful, and fails with it otherwise |
| `RetryLimits.FirstInputSent` | packages/ndx/src/common/responseapi/request.ts:51-59 | a request with attachments is sent as an array first, one without as text, unless only that mode is remembered |
| `RetryLimits.RefusalIsNotFinal` | packages/ndx/src/common/responseapi/request.ts:163-183 | unless strict, a call with nothing remembered fails on a refused input only after the other mode was refused too |
| `RetryLimits.AtMostOneFallback` | packages/ndx/src/common/responseapi/request.ts:55-59 | over any number of calls for a provider at most one sends both input modes, and none once a mode is remembered |
| `PathAlgebra.PosixNormalize` | packages/ndx/src/common/server-path/pathMapping.ts:249-269 | the component loop computes the normal form |
| `PathAlgebra.PosixRelative` | packages/ndx/src/common/server-path/pathMapping.ts:239-247 | the loop computes the steps up to the common prefix and down |
| `PathAlgebra.ParseRender` | packages/ndx/src/common/server-path/pathMapping.ts:249-269 | a normal path is what its rendering stands for |
| `PathAlgebra.ParseIsNormal` | packages/ndx/src/common/server-path/pathMapping.ts:249-269 | every string stands for a normal path: no empty or `.` component, `..` only in front and only when relative |
| `PathAlgebra.NormalizeIsIdempotent` | packages/ndx/src/common/server-path/pathMapping.ts:249-269 | normalising twice is normalising once, for every string |
| `PathAlgebra.NormalizedAbsolute` | packages/ndx/src/common/server-path/pathMapping.ts:249-269 | a normalised absolute path is the root, or holds no empty, `.` or `..` component |
| `PathAlgebra.CleanIsNormalize` | packages/ndx/src/common/server-path/pathMapping.ts:194-199 | cleaning is normalising: there is no final slash to remove but the root's |
| `PathAlgebra.JoinBelow` | packages/ndx/src/common/server-path/pathMapping.ts:231-233 | joining plain components appends them |
| `PathAlgebra.JoinRelative` | packages/ndx/src/common/server-path/pathMapping.ts:231-247 | joining the relative path from one absolute path to another gives the other, cleaned; for all absolute paths, clean or not |
| `PathMapping.AcceptedIsWithinWorkspace` | packages/ndx/src/common/server-path/pathMapping.ts:69-77 | for every configured workspace: accepted is exactly what maps to a path with the workspace's components and perhaps more, the first not beginning with two dots; an accepted path lies within the workspace if and only if both or neither are absolute, hence always when the workspace is absolute |
| `PathMapping.RelativeWorkspaceAcceptsOutside` | packages/ndx/src/common/server-path/pathMapping.ts:69-77 | a relative workspace accepts the absolute paths that have its components, which lie outside it |
| `PathMapping.ContainerPathIsKept` | packages/ndx/src/common/server-path/pathMapping.ts:127-141 | paths at or below the container root are mapped to themselves |
| `PathMapping.WorkspacePathIsKept` | packages/ndx/src/common/server-path/pathMapping.ts:69-77 | paths below the workspace are accepted as they are, unless their first name begins with two dots |
| `PathMapping.DefaultWorkspaceIsInside` | packages/ndx/src/common/server-path/pathMapping.ts:29-38 | the default workspace lies inside any absolute container root but `/`, so the round trips apply to it |
| `PathMapping.NameRoundTrip` | packages/ndx/src/common/server-path/pathMapping.ts:87-114 | name to path to name is the identity for a valid project name if and only if it does not begin with two dots |
| `PathMapping.DescendantsHaveProjects` | packages/ndx/src/common/server-path/pathMapping.ts:79-114 | a path below the workspace belongs to the project of its first name; the workspace itself is refused where a directory below it is needed |
| `PathMapping.HostPathIsMapped` | packages/ndx/src/common/server-path/pathMapping.ts:143-146 | a host path is mapped to the container path with the same components below the root, whatever the workspace, for roots that lie apart |
| `PathMapping.HostAndBack` | packages/ndx/src/common/server-path/pathMapping.ts:116-146 | container to host to container leads from any workspace to the directory `workspace` below the container root, and is the identity if and only if that is the workspace; for roots that lie apart, and for paths that trimming and the volumes leave alone |
| `PathMapping.HostRoundTrip` | packages/ndx/src/common/server-path/pathMapping.ts:34-43 | so for every workspace inside the container root: a path of it comes back as it was if and only if the workspace is configured, or left, as `workspace` |
| `HostPaths.MountedPathIsMapped` | packages/ndx/src/common/server-path/pathMapping.ts:143-146 | for a host root on a Windows drive: the path below the drive's WSL mount, `/mnt`, the drive letter in lower case and the root's components, is mapped to the same below the container root, so `/mnt/f/dev/ndx2/volume/workspace/ndx2` to `/ndx/workspace/ndx2` |
| `HostPaths.HostPathInAnyCase` | packages/ndx/src/common/server-path/pathMapping.ts:143-146 | a path below the host root, of a Unix host or a Windows drive, with the root written in any case, is mapped to the same below the container root, the names below as they are |
| `HostPaths.ForeignPath` | packages/ndx/src/common/server-path/pathMapping.ts:148-152 | a path below neither root nor the mount stays as it is, or is refused if and only if it has a drive letter before a slash |
| `HostPaths.RelativePathIsKept` | packages/ndx/src/common/server-path/pathMapping.ts:127-152 | a relative path without a drive letter is not below any root |
| `HostPaths.RelativePathIsWalked` | packages/ndx/src/common/server-path/pathMapping.ts:61-67 | a relative path is read from the workspace: as many directories up as it says, then down |
| `TurnHistory.TurnsPartition` | packages/ndx/src/agent/session/sessionTurnRange.ts:9-19 | turns partition the rows after the first user row |
| `TurnHistory.EveryTurnIsARange` | packages/ndx/src/agent/session/sessionTurnRange.ts:9-19 | the range of a turn's input is that turn, for every turn |
| `TurnHistory.ListSessionHistoryTurns` | apps/ndx/src/server/agent/history.ts:113-139 | the loop lists one view per turn: its events through its first answer |
| `TurnHistory.ViewEndsAtAnswer` | apps/ndx/src/server/agent/history.ts:113-139 | the view of a turn is its events through its first answer, which is shown too, and all of them when it has none |
| `TurnHistory.DeletionRemovesOneTurn` | packages/ndx/src/agent/session/deleteSessionTurn.ts:14-41 | deleting a turn's rows takes exactly that turn out of the turns and out of the history view |
| `TurnHistory.DeletionKeepsOtherRanges` | packages/ndx/src/agent/session/deleteSessionTurn.ts:14-41 | every other turn keeps its range; the deleted one has none |
| `TurnHistory.RowsThroughTurnIsPrefix` | packages/ndx/src/agent/session/sessionTurnRange.ts:21-31 | rows through a turn are the prefix that ends with it |
| `TurnHistory.FindLastCompactIndex` | packages/ndx/src/agent/compact/index.ts:260-268 | the last row that marks a compaction |
| `TurnHistory.ContextRowsAreSuffix` | packages/ndx/src/agent/compact/index.ts:101-108 | the context is the suffix from the latest mark, with no mark after its first row |
| `TurnHistory.CompactSourceIsSuffix` | packages/ndx/src/agent/session/sessionTurnRange.ts:33-47 | previous compact and source rows make up that suffix; there is a previous compact exactly when a row marks one or the first row is a note without text, which the two tests in the code judge differently |
| `TurnDeletion.AgentDatabase.DeleteSessionTurn` | packages/ndx/src/agent/session/deleteSessionTurn.ts:14-47 | refused, unknown or deleted, and in the last case the rows of that session without the turn, other sessions' rows unchanged, and as totals the user rows and the tokens at or after each session's first user row, whatever the order of the sessions |
| `TurnDeletion.DeleteKeepsOtherSessions` | packages/ndx/src/agent/session/deleteSessionTurn.ts:22-30 | deleting rows of one session by id leaves other sessions' rows, ids shared or not |
| `UsageTotals.CalculateTurnContextUsageStats` | packages/ndx/src/agent/compact/index.ts:220-254 | the rebuild loop |
| `UsageTotals.RebuildCountsAfterFirstUser` | packages/ndx/src/agent/compact/index.ts:220-254 | however sessions are interleaved in the table, the tokens are those of all rows at or after their session's first user row |
| `UsageTotals.RebuildCountsUsers` | packages/ndx/src/agent/compact/index.ts:220-254 | the turn count is the number of user rows |
| `UsageTotals.AverageRoundsUp` | packages/ndx/src/agent/compact/index.ts:220-254 | the average is the exact one rounded up |
| `RecordedUsage.TurnContextUsage.Record` | packages/ndx/src/agent/compact/index.ts:196-218 | one finished turn added, average rounded up, first record inserted |
| `RecordedUsage.TurnContextUsage.Rebuild` | packages/ndx/src/agent/compact/index.ts:182-194 | the totals of the rows, whatever was stored |
| `RecordedUsage.RecordCountsTurn` | packages/ndx/src/agent/compact/index.ts:196-205 | a record counts its turn through the answer, whatever was stored before and since |
| `RecordedUsage.RecordCountsWindow` | packages/ndx/src/agent/compact/index.ts:196-205 | what a record counts by ids, on the session as it was then, is what of the turn lies in that window in the session as it is now |
| `RecordedUsage.RecordingsAgainstRebuilt` | packages/ndx/src/agent/compact/index.ts:196-254 | every turn recorded once, in any order and while the table was growing: recorded and rebuilt totals differ by exactly the rows stored after their turn's answer, and are the same triple, average included, if and only if those weigh nothing |
| `TranscriptBudget.GroupRows` | packages/ndx/src/agent/compact/index.ts:349-361 | groups partition the rows in order, each one turn |
| `TranscriptBudget.CompactTranscript` | packages/ndx/src/agent/compact/index.ts:323-347 | the greedy pass: texts of some entries, in their order and each once, within the budget, and all other entries counted as omitted |
| `TranscriptBudget.ShownFits` | packages/ndx/src/agent/compact/index.ts:323-347 | the texts shown never take more than the budget, for any token function |
| `TranscriptBudget.ShownOrOmitted` | packages/ndx/src/agent/compact/index.ts:323-347 | what the pass shows are texts of entries at rising places, the full text only of an important one, and shown plus omitted is all entries |
| `TranscriptBudget.EachChoiceIsForced` | packages/ndx/src/agent/compact/index.ts:323-347 | an omitted entry would not fit beside all that is shown, and a shortened important one would not fit in full where it stands |
| `HookEffects.MergeNDXHookEffects` | packages/ndx/src/agent/hook/index.ts:288-337 | the merge loop computes the fold of the effects |
| `HookEffects.MergeIsHomomorphism` | packages/ndx/src/agent/hook/index.ts:288-337 | merging merged parts is merging everything at once, for every cutting into parts |
| `HookEffects.MergedSingles` | packages/ndx/src/agent/hook/index.ts:288-337 | of all effects merged, the first request for a next turn wins, and the last value of the single fields |
| `HookEffects.MergedLists` | packages/ndx/src/agent/hook/index.ts:288-337 | the lists of all effects are put one after the other |
| `HookEffects.MergedFlags` | packages/ndx/src/agent/hook/index.ts:288-337 | one effect that interrupts is enough, and one that stops |
| `HookEffects.RunNDXHooks` | packages/ndx/src/agent/hook/index.ts:210-242 | every hook that runs gets the context as the effects before its own left it; no effect but the last stops, and fewer hooks run than there are only if the last stops; the effect kept is the batch merge of theirs |
| `HookEffects.HookState.ApplyEffect` | packages/ndx/src/agent/hook/index.ts:394-416 | what the next hook sees |
| `HookEffects.MergedMessages` | packages/ndx/src/agent/hook/index.ts:394-416 | applying the merged effect shows the messages the last hook left if and only if no effect replaces the messages after another has appended some |
| `HookEffects.MergedRest` | packages/ndx/src/agent/hook/index.ts:394-416 | everything but the messages is always the same |
| `HookEffects.ContextAfterHooks` | packages/ndx/src/agent/hook/index.ts:394-416 | after the hooks have run, every part of the context but the messages is what the last hook to set it set |
| `HookEffects.LateReplaceBringsBack` | packages/ndx/src/agent/hook/index.ts:288-337 | a replacement after an append: the merged effect brings the appended message back |
| `SessionGrants.HasGrantedAncestor` | apps/ndx/src/server/agent/connection.ts:931-941 | stops on every parent graph, cycles included, and is true if and only if some proper ancestor is granted |
| `SessionGrants.ChainIsAncestors` | apps/ndx/src/server/agent/connection.ts:931-941 | walking up until a session is met again finds exactly the ancestors |
| `SessionGrants.SocketServer.RequireSessionGrant` | apps/ndx/src/server/agent/connection.ts:906-929 | accepts exactly a granted session or an existing one below a granted ancestor |
| `SessionGrants.SocketServer.AttachSessionGrant` | apps/ndx/src/server/agent/connection.ts:865-904 | grants exactly roots and sessions below a granted ancestor, of the project named |
| `SessionGrants.SocketServer.DeleteSession` | apps/ndx/src/server/agent/connection.ts:663-683 | a session of the project named and all below it are gone, and no client keeps a grant on it; any other request changes nothing |
| `SessionGrants.StepKeepsGood` | apps/ndx/src/server/agent/connection.ts:865-941 | create, branch, attach, delete and disconnect keep: every grant on an existing sub-session has a granted proper ancestor |
| `SessionGrants.RunKeepsGood` | apps/ndx/src/server/agent/connection.ts:865-941 | the same over every sequence of steps |
| `SessionGrants.AccessComesFromRoot` | apps/ndx/src/server/agent/connection.ts:906-941 | in every reachable state every session has a root, and a client may use an existing session if and only if the root of its tree is granted to it |
| `SessionGrants.AccessIsRootAccess` | apps/ndx/src/server/agent/connection.ts:865-941 | in every such state a sub-session may be attached, under its project, if and only if the root of its tree is granted; any root may be |
| `SessionGrants.RootGrantMoves` | apps/ndx/src/server/agent/connection.ts:865-904 | the grant on a root comes exactly by creating it, by branching it off a session the client may use, or by attaching it under its project, and goes exactly when the client disconnects |
| `CursorScan.Selfcheck.ExtractCandidates` | packages/ndx/src/agent/selfcheck/run.ts:116-137 | one batch upserted and the cursor moved; the count is the number of new candidates |
| `CursorScan.Selfcheck.UpsertCandidate` | packages/ndx/src/agent/selfcheck/run.ts:390-413 | a known candidate keeps its status and attempts |
| `CursorScan.Selfcheck.AnalyzePendingCandidates` | packages/ndx/src/agent/selfcheck/run.ts:172-221 | the first eligible candidates, in the order of their creation, get one attempt each; answers, new checks and known checks are counted |
| `CursorLaws.BatchMovesCursor` | packages/ndx/src/agent/selfcheck/run.ts:116-137 | in whatever order rows were committed, a finished batch moves the cursor over exactly its rows |
| `CursorLaws.StepKeepsCovered` | packages/ndx/src/agent/selfcheck/run.ts:116-137 | a step puts a key out of reach if and only if it commits its row at or below the cursor while no candidate has the key and no row beyond the cursor brings it, or deletes the last row beyond the cursor that brings a key of a row left behind without a candidate |
| `CursorLaws.StepKeepsScanned` | packages/ndx/src/agent/selfcheck/run.ts:116-137 | the candidates hold those of a scan up to the cursor until, exactly, a row with a new key is committed at or below it |
| `CursorLaws.StepKeepsExact` | packages/ndx/src/agent/selfcheck/run.ts:116-137 | they are those of that scan until, exactly, that happens, a run stops half-way after making a new candidate, or the rows a candidate comes from are deleted |
| `CursorLaws.StepKeepsFromRows` | packages/ndx/src/agent/session/deleteSessionTurn.ts:24-31 | a candidate is left without a row if and only if a deletion takes its last |
| `CursorLaws.RunsKeep` | packages/ndx/src/agent/selfcheck/run.ts:116-170 | over every sequence of commits, deletions and runs the cursor only moves forward, and the relations of the candidates to the rows and to the scan up to the cursor last as long as no such step occurs |
| `CursorLaws.RunsKeepCovered` | packages/ndx/src/agent/selfcheck/run.ts:116-170 | over every sequence of runs no key is ever out of reach if and only if no step hides one |
| `CursorLaws.OrderedIsNeverLate` | packages/ndx/src/agent/selfcheck/run.ts:116-137 | rows committed in the order of their ids are never at or below the cursor, whatever is deleted in between |
| `CursorLaws.CaughtUp` | packages/ndx/src/agent/selfcheck/run.ts:116-170 | once no key lies beyond the cursor, the candidates hold those of one scan of everything, whatever the order of the commits and whatever runs stopped, unless a step hid a key; and they are exactly those unless a deletion took the last row of one |
| `CursorLaws.RunsCatchUp` | packages/ndx/src/agent/selfcheck/run.ts:116-137 | each finished run takes a whole batch off what is left |
| `CursorLaws.AnalysesAreBounded` | packages/ndx/src/agent/selfcheck/run.ts:172-221 | every candidate is analysed at most three times over all runs |
| `CursorLaws.AnalyzedAt` | packages/ndx/src/agent/selfcheck/run.ts:172-221 | what a run does to the candidate at each place: the pending and failed ones with attempts left get the verdicts in order, as far as limit and verdicts go; all others stay |
| `CursorLaws.FailuresAreRetried` | packages/ndx/src/agent/selfcheck/run.ts:172-221 | a candidate whose analyses fail is tried in three runs, and then no more |
| `CursorLaws.TallyCounts` | packages/ndx/src/agent/selfcheck/run.ts:172-221 | the counts of a run: answers that could be read, new checks, checks known before |
| `CursorLaws.LateRowIsMissed` | packages/ndx/src/agent/selfcheck/run.ts:118-130 | a hidden key never becomes a candidate, unless another row brings it |
| `CursorLaws.LateRowHides` | packages/ndx/src/agent/selfcheck/run.ts:118-136 | a run in which a key is hidden |
| `ContextUsage.PrefixPreviewMatches` | packages/ndx/src/agent/contextusage/index.ts:132-142 | true exactly when the preview is a non-empty prefix of the messages' texts |
| `ContextUsage.MessageTokenParts` | packages/ndx/src/agent/contextusage/index.ts:124-130 | the counts are those of the messages' own texts, with any preview or none |
| `ContextUsage.CalculateContextUsage` | packages/ndx/src/agent/contextusage/index.ts:36-53 | the totals, independent of the preview |
| `ContextUsage.CalculateDetailedContextUsage` | packages/ndx/src/agent/contextusage/index.ts:55-98 | the detailed totals are the simple ones and the parts add up to them; system messages and the first user message make the first two parts |
| `ContextUsage.NotCompactingFits` | packages/ndx/src/agent/contextusage/index.ts:100-122 | not compacting means request and required tokens fit the context |
| `ContextUsage.LimitDecides` | packages/ndx/src/agent/contextusage/index.ts:100-122 | the limit is the one asked for, between 1 and 99 percent, or 88; below it a request that leaves the required tokens is not compacted |

## Left out

- TurnScheduler: the scheduler's modules are modelled on values, one step of one thread at a time, instead of methods over the module-level guard set and the row; update in place and aliasing inside one step are not captured.
- TurnScheduler: the hook that claims at the end of a turn is taken to be the only claiming one; a second claiming hook would lose its claim in the merge, which keeps the first request.
- TurnScheduler: the interior of a live turn is left to arbitrary steps (phases, new items, deletions, a throw, an end by interrupt at any time); model calls, tools and compaction inside a turn are not modelled. A throwing update of the row is one that changes nothing.
- TurnScheduler: sessions do not share state here, so one session is modelled; sub-agent sessions and the waiting loop of session deletion are not.
- RequestQueue: the socket bridges around the registry only add broadcasts; the questions to a client that wait for an answer are not modelled.
- RequestQueue: how texts are rewritten to take internal markers out is a parameter; ids are parameters that must be new; references to stored items that callers hold are not modelled.
- RetryDriver: one call for a provider at a time; two calls in flight could both fall back before either is remembered. Observers that throw count as a throwing request. Delays and the timeout timer appear only as the abort signal.
- ThinkBlocks: in a stream cut anywhere, messages with one block are characterised; those with several only when the first delta holds them all.
- ReadText: does not model the removal of textual tool calls at the end of a stream, which is text matching on tool tags.
- ToolCalls: announcing the textual tool calls found at the end of a stream is not modelled.
- SseFrames: decoding of bytes, and the parsing of a payload as JSON, are not modelled.
- PathMapping: letter case is ASCII only; the paths of user home, NDX home and attachments are not modelled, and the defaults of the two roots are taken as filled in. Line ends in a host root, which the pattern for drive letters does not match, are left out of the WSL form.
- HostAndBack: stated for host and container roots of which neither lies within the other, where the search order of the mapping would decide, and for paths that the mapping of volumes leaves alone, as it does with all paths at or below the container root.
- ListSessionHistoryTurns: does not model titles, status, iteration summaries and the leading compact events of the view, which are texts and counters read from the contents of rows.
- UsageTotals: the average is the exact quotient rounded up; floating-point division of very large totals is not modelled.
- TranscriptBudget: the budget covers the shown texts, not the separators between them nor the closing note about omitted entries, which the program does not count either. How an entry's texts are made up is a parameter.
- HookEffects: fields that are not part of the effect type are not modelled, nor are timeouts and failures of hook processes, which give an effect with a diagnostic.
- SessionGrants: the table does not change during one search for an ancestor.
- CursorScan: both scans are one scan over rows that are relevant or not and give candidates; which issues make a candidate is a parameter, and so is the verdict on one. The lock between runs is taken to hold.
- ContextUsage: percentages are a parameter compared with the limit; decimal fractions are exact instead of floating point.
- PostgreSQL, the vector search, `fetch`, file access, logging, the tokenizer, settings, the user interface and the launcher are not part of this model; they would add easy members or none.
