# Flit's server, verified

Flit is a coding agent: a Go server runs sessions, each a numbered log of
events from which everything else (the branches of the conversation, the chat
the model sees, the queue of messages, the session's row) can be rebuilt. This
project models the parts of the server whose correctness is a statement about
whole runs, and proves those statements.

## The session log

* `Events`, `Branches`, `Chat`, `Context` and `Compact` are the code that reads
  a log: the branch tree and its paths, rebuilding the chat, cutting it down to
  what a compaction leaves, and choosing where a compaction cuts. The loops are
  methods, proved equal to functions; what the results mean is proved about the
  functions.
* `Model` is a session as a state machine. A step is one operation under the
  session's lock, or one step of a turn's goroutine, so a run is any
  interleaving of sends, edits of queued messages, forks, switches, compaction
  requests, interrupts, shutdowns, restarts, other events, and turns cut off
  anywhere. `Session` is the class that does it in place, over a `Store` that
  takes events only in sequence; every method is proved to do to its state
  exactly what the machine's step does.
* `Conversations`, `Histories`, `Invariant`, `Turns`, `Forking` and
  `Reachable` define what a branch's conversation is without the code's paths
  and limits (`OnPath` walks the fork points), prove that the code reads that,
  and carry an inductive invariant through every step.
* `Live`, `Queues`, `Summaries`, `Guarantees` and `Requests` hold the results
  over every run: what is live is what the log says; queued messages are
  conserved, in order and with their latest text; branches are isolated; forks
  keep their prefix; every summary has the moment it was begun, and stays true
  on every branch; rebuilt chats, and those a summary is asked for with, are
  well formed.
* `Content`, `Operations`, `Replies` and `Outcomes` say what each operation does
  to the conversation, word for word and in every run: what is sent is said or
  waits, what waits is said in order, a reply and its results are shown as they
  came in whatever else happened meanwhile, and a fork, a switch, a restart, the
  end of a turn and a compaction asked for do what they are for.

The well-formedness result is an equivalence. `buildMessages` never forgets
which call ids have had a result, and providers reuse ids, so the chat is well
formed exactly when no call that is given up on carries an id some earlier
result has (`Chat.NoStaleCalls`). Distinct ids are enough
(`Context.DistinctCallsNeverStale`), and `Reuse` runs a session in which reuse
breaks it.

Sequence numbers are int64 in the source, and a path's own branch has the
largest int64 as its limit; results that go through a path say
`|log| <= MAX_INT64`.

## The other components

* `Attach`: clients that replay a log and then follow it, through a bounded
  channel, interleaved in any way with the appender and each other.
* `Slots` and `Limiter`: the limiter of concurrent model calls. `Slots` is the
  state machine whose steps are the sections run under the mutex, with every
  gate ever made, so that a captured gate could be stale; `Limiter` is the code
  over objects changed in place, each method proved to take its state by the
  step of the same name.
* `Watchdog`: the timer that gives up a quiet model call, on a virtual clock.
* `Calendar`, `Schedule`, `CronText` and `CronForms`: the Gregorian calendar over
  wall-clock nanoseconds at a fixed offset of whole minutes, the searches for a
  schedule's next time, and the text of cron expressions. `CronNext` skips
  months, days and hours and is proved to return what a minute-by-minute scan of
  its window returns. `CronForms` tells what a field's text lists by how it is
  written. Four facts about the code are stated because its comments
  suggest otherwise: a day field that starts with a star is taken for no
  restriction even when a step follows, so `0 0 */2 * */2` runs every day
  (`CronText.SteppedRunsAnyway`); the five-year window loses leap days around a
  century, and nothing else that ever matches (`Schedule.WhoIsMissed`); a step
  that takes a field's loop past the largest int64 shifts by a negative number,
  and nothing else in an expression panics (`CronText.ParsePanics`,
  `CronText.LargestStepPanics`); and the product of an interval's number and
  unit may wrap around into the range that is accepted (`Schedule.EveryWraps`).
* `CronRuns`, `Ticks` and `Scheduler`: which slots are run, over ticks, rescans,
  runs by hand, restarts, clocks that jump backwards, and stores that fail to
  take a run's start or its end. `Ticks` says which runs there are to be: what
  each of these adds for one job, no more and no less. An end that is not recorded frees the job all the
  same, so the store can have two rows of a job that say running while only one
  is; `CronRuns.OneRunningRow` says exactly when.
* `InsertDiff`: the diff printed before a config file is extended, with
  `patch`'s own reading of it. Applied to `a` it gives `b` followed by whatever
  of `a` greedy marking did not find; that is `b` if and only if `a`'s lines are
  a subsequence of `b`'s. No header then counts zero lines of `a`, so where such
  a hunk would go does not matter.
* `Arguments`: the repair of JSON strings, against a lenient reading of them
  (section 7 of RFC 8259).

Run `dafny verify dfyconfig.toml` to check everything.

## Model

| member | source | states |
|---|---|---|
| Branches.Tree.constructor | server/internal/branches/branches.go:47-53 | the tree is the one its events record, in order |
| Branches.Tree.Add | server/internal/branches/branches.go:56-67 | only a branch not there yet is added, with the event's number as its birth; the tree afterwards is named in full |
| Branches.Tree.Get | server/internal/branches/branches.go:70-73 | a branch is found exactly when the tree has it |
| Branches.TreeIs | server/internal/branches/branches.go:47-67 | the tree holds the root and exactly the branches the log makes, each with the parent, fork point, kind, message and birth number of the first event that makes it |
| Branches.TreeOrder | server/internal/branches/branches.go:47-67 | branches are listed once each, in the order they were made, the root first |
| Branches.Tree.Ancestry | server/internal/branches/branches.go:89-104 | the loop ends and gives the branch, its parents and the root, even where parents are missing or form a cycle |
| Branches.Tree.Path | server/internal/branches/branches.go:114-122 | one limit per branch of the ancestry: the largest int64 for the branch itself, and for every other the fork point of the branch after it |
| Branches.Filter | server/internal/branches/branches.go:138-146 | keeps, in order, the events the path contains |
| Branches.AncestryDistinct | server/internal/branches/branches.go:89-104 | whatever the tree holds, an ancestry has no repeats and ends at the root |
| Branches.LimitsMeanOnPath | server/internal/branches/branches.go:107-129 | the limits agree with walking up from the branch and never past a fork point |
| Branches.PathMeansOnPath | server/internal/branches/branches.go:114-129 | a path includes an event exactly when that walk reaches the event's branch |
| Branches.LimitsDecrease | server/internal/branches/branches.go:107-122 | limits strictly decrease away from the branch |
| Branches.PathsAgree | server/internal/branches/branches.go:126-129 | if one event of branch p numbered q is in a's history, a and p have the same history up to q |
| Branches.GrowthKeepsPaths | server/internal/branches/branches.go:56-67 | adding branches changes no existing branch's history |
| Branches.NewEventsStay | server/internal/branches/branches.go:126-129 | an event recorded after a branch was made is in that branch's history only if recorded on it |
| Chat.Flush | server/internal/agent/history.go:24-31 | adds one result for each pending call whose id is not marked done, in order |
| Chat.BuildMessages | server/internal/agent/history.go:17-77 | the in-place loop computes the chat the specification rebuilds |
| Chat.DropEmpty | server/internal/agent/history.go:67-76 | drops exactly the assistant messages that say and call nothing |
| Content.UserShown | server/internal/agent/history.go:17-77 | whatever was logged before, a whole user message is shown as its text, after all that was shown before |
| Content.UsersShown | server/internal/agent/history.go:17-77 | several are shown as their texts, in order |
| Content.ReplyShown | server/internal/agent/history.go:17-77 | a reply whose calls all have results is shown with its text, its calls in order with their names and arguments, and each result under its call's id, after all that was shown before; one that says and calls nothing is not shown |
| Content.CutReplyShown | server/internal/agent/history.go:24-61 | where results are missing the calls without one are shown as not run, in order, when their ids are like no other |
| Chat.RebuiltChatWellFormed | server/internal/agent/history.go:17-77 | for every log in the order turns record, cut off anywhere: each call of the rebuilt chat has exactly one result before the next message, no result is without its call and no assistant message is empty, if and only if no call given up on has an id that already carries a result |
| Context.FindLastCompaction | server/internal/agent/history.go:80-88 | the newest compaction without an error |
| Context.CutUpTo | server/internal/agent/history.go:130-136 | the leading events numbered at most seq |
| Context.BuildContext | server/internal/agent/history.go:93-127 | what stays after a compaction: all later events and, where they start inside a turn, the messages of the request before them |
| Context.NothingOldShown | server/internal/agent/history.go:104-106 | if the first message started after the cut is a user's, or none is, what is shown is exactly what comes after the cut |
| Context.OldShownOnlyInside | server/internal/agent/history.go:100-127 | an event numbered at most the cut is shown only if the first message started after the cut is not a user's, and only if it is of the last user message before the cut |
| Context.ContextScans | server/internal/agent/history.go:93-127 | a cut that falls before a message leaves a log in turn order again |
| Context.DistinctCallsNeverStale | server/internal/agent/history.go:22-61 | distinct call ids suffice for well-formedness at every point of a log |
| Context.ReusedIdsBreakTheChat | server/internal/agent/history.go:22-61 | the history of a provider that numbers calls afresh in each reply, cut off in the second, is rebuilt to a chat that is not well formed |
| Reuse.ReusedIdsReached | server/internal/agent/history.go:22-61 | a run of a session, whatever its settings, whose model is shown that history: sent, answered by a call and its result, answered by a call of the same id, and stuck |
| Compact.ChooseCut | server/internal/agent/compact.go:113-144 | the loop finds the cut the specification chooses |
| Compact.LoopFinds | server/internal/agent/compact.go:113-127 | the starts found are exactly the user starts after the previous summary, and the replies started since the last of them, each once and in order |
| Compact.CutsMakeProgress | server/internal/agent/compact.go:113-144 | every cut lies strictly beyond the previous one and directly before a message start, or after the last event when no turn must be kept |
| Compact.CutsCoverAMessage | server/internal/agent/compact.go:113-144 | and covers the start of a message that no summary covered before |
| Compact.CutKeepsTurns | server/internal/agent/compact.go:128-143 | if more user messages than keep start after the previous summary, exactly keep of them start after the cut; otherwise all but the first, unless it cuts inside the running turn, and then exactly its last reply starts after it; the number of turns kept that is recorded is that number, or 1 inside a turn |
| Compact.NothingToSummarize | server/internal/agent/compact.go:113-144 | there is no cut if and only if no more user messages start after the previous summary than must be kept, and the running turn has started fewer than two replies |
| Compact.LatestRequestKept | server/internal/agent/history.go:93-127 | while a message starts after the cut, the model still sees every event of the latest request |
| Compact.OldShownExactly | server/internal/agent/history.go:93-127 | of what a summary covers, an event is shown if and only if the cut falls inside a turn and it is of the request that turn answers |
| Compact.CutKeepsRequest | server/internal/agent/compact.go:113-144 | whatever is logged later, a cut that must keep a turn keeps the latest request, whole |
| Histories.PrefixGood | server/internal/agent/branch.go:60-117 | what a fork takes of a history keeps every property the rebuild relies on |
| Histories.NewestCoversMost | server/internal/agent/history.go:80-88 | the newest compaction reaches furthest |
| Histories.GoodChat | server/internal/agent/history.go:17-127 | a history that keeps the invariant gives a chat that is well formed exactly when no call of what is shown is stale |
| Conversations.CodeReadsHistory | server/internal/agent/branch.go:41-47 | the events the code reads for a branch are the branch's history by definition |
| Conversations.CodeReadsMessages | server/internal/agent/branch.go:72-84 | so are the messages a fork looks its message up in |
| Conversations.AgreeUpTo | server/internal/branches/branches.go:107-146 | two branches that share any event of p have p's conversation in common up to it |
| Conversations.LaterEventsDoNotMatter | server/internal/branches/branches.go:107-146 | later events change no conversation below their numbers |
| Conversations.TreeOfPrefix | server/internal/agent/branch.go:23-30 | the tree of a log's first k events is the part of the log's tree made by then |
| Conversations.Isolation | server/internal/branches/branches.go:107-146 | whatever follows, a branch's conversation grows by exactly the events recorded on it |
| Forking.NewBranchConversation | server/internal/agent/branch.go:60-117 | a new branch's conversation is its parent's up to the fork |
| Forking.BranchedSound | server/internal/agent/branch.go:95-108 | making a branch and switching to it keeps the invariant, and changes no other branch's history |
| Forking.ForkPoint | server/internal/agent/branch.go:72-94 | a fork leaves the active path at a point of that path, after its parent was made |
| Forking.ForkKeepsCore | server/internal/agent/branch.go:60-117 | a fork keeps the invariant |
| Turns.StartReplyKeepsCore | server/internal/agent/turn.go:162-167 | starting a reply keeps the invariant |
| Turns.EndReplyKeepsCore | server/internal/agent/turn.go:266-292 | so does its end, whole or cut off |
| Turns.StartCallKeepsCore | server/internal/agent/turn.go:312-318 | so does recording a call, in the reply's order |
| Turns.EndCallKeepsCore | server/internal/agent/turn.go:324-341 | so does a result, in the same order |
| Turns.CutFits | server/internal/agent/compact.go:164-193 | the cut a compaction starts from covers more than every compaction before it and ends where a message starts |
| Turns.BeginCompactionKeepsCore | server/internal/agent/compact.go:164-193 | starting a compaction, in a turn or between turns, keeps the invariant |
| Turns.EndCompactionKeepsCore | server/internal/agent/compact.go:194-267 | so does recording its summary or its failure, whatever was logged meanwhile |
| Reachable.SendKeepsCore | server/internal/agent/session.go:248-296 | sending keeps the invariant |
| Reachable.SwitchKeepsCore | server/internal/agent/branch.go:120-136 | switching keeps it |
| Reachable.RequestCompactKeepsCore | server/internal/agent/compact.go:358-381 | asking for a compaction keeps it |
| Reachable.EndTurnKeepsCore | server/internal/agent/turn.go:65-99 | ending a turn, and what that starts, keeps it |
| Reachable.RestartKeepsCore | server/internal/agent/manager.go:100-117 | a restart keeps it |
| Reachable.RunKeepsCore | server/internal/agent/session.go:140-182 | every run keeps it: each branch's history is in turn order with unique messages and clean, advancing compactions, and the active one has got as far as the turn says |
| Live.RunReplays | server/internal/agent/session.go:140-182 | after any run the queue, tree and row rebuilt from the log are the live ones, numbers are 1 to the last, and a turn runs exactly when the logged state is working or waiting |
| Live.RunGrows | server/internal/store/store.go:587-635 | a log is only ever added to |
| Live.OneBranchPerTurn | server/internal/agent/turn.go:103-346 | while a turn runs, everything logged is on the branch it started on, which stays active |
| Queues.QueueConserved | server/internal/agent/queue.go:18-106 | at every moment each queued message is in exactly one place: waiting, cancelled or delivered, and only once |
| Queues.DeliveredOnce | server/internal/agent/queue.go:85-106 | a delivery is followed by exactly one user message, whole, on the same branch, with the text its queued message was last given |
| Queues.DeliveredInOrder | server/internal/agent/queue.go:85-106 | a message is delivered only after all queued before it were delivered or cancelled |
| Queues.WaitInOrder | server/internal/agent/queue.go:18-53 | messages wait in the order they came, each with its latest text |
| Queues.IdleQueueWasCutShort | server/internal/agent/turn.go:77-98 | an idle session has messages waiting only after a turn was interrupted or cut short by a shutdown or restart, with no turn since |
| Guarantees.BranchesIsolated | server/internal/branches/branches.go:1-10 | over every run, an existing branch's conversation only grows, and only by what is recorded on that branch |
| Guarantees.ForkKeepsPrefix | server/internal/agent/branch.go:57-117 | when a fork returns, its branch has exactly the active path's conversation up to its fork point (before the message when it is edited, at its end when it is answered again), and after that only the edited message, whole |
| Guarantees.EverySummaryHasItsStart | server/internal/agent/compact.go:164-267 | every compaction that took effect in a reachable session was begun by some operation, on the branch it is recorded on, covering what the cut then chosen covers, and the turn waited for it until it was recorded |
| Guarantees.SummariesStayTrue | server/internal/agent/history.go:79-127 | in every reachable session, on every branch, what a compaction of its path covers is exactly what it covered on the active path when it was begun |
| Guarantees.SummaryIsOfItsStart | server/internal/agent/compact.go:164-267 | whenever a turn waits for a summary, ending the compaction now records one that covers what the active path held when it was begun |
| Guarantees.SummaryPlusContext | server/internal/agent/history.go:93-127 | in every reachable session, on every branch with a summary, what the newest covered when it was begun, plus the events still shown in full, is the branch's whole history; nothing else is shown unless the first message after the summary is a reply, and then exactly the request it answers |
| Guarantees.ChatsWellFormed | server/internal/agent/history.go:17-127 | in every reachable session the chat rebuilt for any branch is well formed exactly when no call shown is stale |
| Guarantees.DistinctCallsWellFormed | server/internal/agent/history.go:17-127 | with distinct call ids on the path it always is |
| Guarantees.CompactionsAdvance | server/internal/agent/compact.go:164-172 | on every path each compaction covers strictly more than the one before, and less than its own number |
| Guarantees.TurnKeepsItsRequest | server/internal/agent/turn.go:133-159 | after a compaction inside a turn the model still sees every event of the latest user message |
| Requests.SummaryRequestWellFormed | server/internal/agent/compact.go:194-217 | whenever a compaction begins in a reachable session, the chat sent for its summary, request included, is well formed if and only if no call shown is stale, and so always with distinct call ids |
| Requests.SummaryRequestCovers | server/internal/agent/compact.go:164-217 | what the previous summary covers and what is shown in full for the next make up everything the next covers, a message that was not covered among it; all else shown is the request those events work on |
| Requests.BegunKeepsTurns | server/internal/agent/compact.go:113-144 | in every reachable session, a compaction that begins leaves as many turns as are to be kept where there are more since the newest one |
| Operations.SendWaits | server/internal/agent/session.go:256-263 | in every run, what is sent while a turn runs adds one event with that text and client under an id no queued message had, and nothing to the conversation; a blank text changes nothing |
| Operations.BlankMeans | server/internal/agent/session.go:249-262 | a text is blank if and only if nothing is left of it once both its ends are trimmed |
| Operations.SendSays | server/internal/agent/session.go:264-296 | in every run, what is sent while no turn runs makes the active branch's conversation go on by the texts that waited, in order, and then that text unless blank, word for word; nothing waits any more, and a turn is started |
| Operations.SentIsSaid | server/internal/agent/queue.go:18-106 | a text sent while a turn runs that is delivered and was not changed is a whole user message with that text |
| Operations.UpdateLogged | server/internal/agent/queue.go:55-72 | a change to a waiting message is logged as it was asked for; one to a message that does not wait changes nothing |
| Operations.BoundarySays | server/internal/agent/turn.go:117-123 | at every boundary of a turn but the first, the conversation goes on by the texts that waited, in order, and nothing waits any more |
| Operations.CallsThenQueue | server/internal/agent/turn.go:117-123 | so it does once a reply's calls all have their results; a reply that called nothing has no next boundary |
| Operations.EndSays | server/internal/agent/turn.go:65-99 | in every run, how a turn ended is logged first; then a compaction asked for during it is begun if it ended done, or else what waits is said and answered, unless it was interrupted or the server is going away: then what waits goes on waiting |
| Operations.AskedIsBegun | server/internal/agent/turn.go:65-99 | a compaction asked for while a turn runs, whatever else happens, is begun by that turn before its next request, or noted to have nothing to compact, or begun when the turn ends done |
| Operations.IdleCompaction | server/internal/agent/compact.go:358-381 | with no turn running it is begun if and only if there is a model and some user message starts after the newest compaction |
| Operations.InterruptEnds | server/internal/agent/session.go:346-354 | an interrupted turn may end at once, and leaves what waits in the queue |
| Operations.QuestionShows | server/internal/agent/session.go:455-510 | while a call asks somebody the session is waiting, with the question logged, and working again after |
| Operations.FailureCoversNothing | server/internal/agent/compact.go:194-267 | a summary that fails is logged with its error and changes neither what is covered nor what was said |
| Replies.ReplySaid | server/internal/agent/turn.go:160-341 | a reply as it comes in, whatever else happens to the session meanwhile, is shown with its text, its calls and their results after all that was shown before |
| Replies.CutReplySaid | server/internal/agent/history.go:24-61 | while results are missing, with those calls shown as not run |
| Outcomes.ForkSays | server/internal/agent/branch.go:60-117 | in every run, a fork is made if and only if no turn runs, nothing waits and the active path holds the message whole, from the user; its conversation is the path's up to the message and the new text in its place, or the message included, and a turn is started |
| Outcomes.ForkLogged | server/internal/agent/branch.go:80-117 | the branch is logged under the message's own branch and the number it leaves it at, with what kind it is and of which message, and then the switch to it |
| Outcomes.SwitchShows | server/internal/agent/branch.go:120-136 | a switch shows the other branch's conversation, and nothing happens while a turn runs or for a branch that is not there |
| Outcomes.RestartKeeps | server/internal/agent/manager.go:100-117 | a restart keeps the conversation, the branches and what waits; a session left in a turn is marked stuck, and no other is touched |
| Outcomes.RowSaysLast | server/internal/store/store.go:587-635 | in every run each column of the row (state, tokens, context length, role, branch, worktree) holds what the last event that sets it set it to, or what it held at first |
| Session.Store.AppendEvent | server/internal/store/store.go:587-635 | the event and the row's columns change together, and only for the next number in sequence |
| Session.Store.EventsOfKinds | server/internal/store/store.go:645-652 | exactly the events of the kinds, in order |
| Session.SelectEnough | server/internal/agent/queue.go:18-36 | the queue and the tree are rebuilt from their own kinds of event alone |
| Session.Session.AppendLocked | server/internal/agent/session.go:140-182 | one event, numbered and placed on the active branch or the one switched to, and the live copy and tree changed as the row is |
| Session.Session.AppendUserMessageLocked | server/internal/agent/session.go:309-320 | start, text and end of the message |
| Session.Session.StartTurnLocked | server/internal/agent/session.go:323-336 | working, with a turn at its first step boundary |
| Session.Session.StartCompactionLocked | server/internal/agent/compact.go:385-398 | working, with a compaction run |
| Session.Session.EditQueue | server/internal/agent/queue.go:40-53 | only the first message of that id is changed or removed, and whether it was there is reported |
| Session.Session.UpdateQueuedMessage | server/internal/agent/queue.go:55-72 | refused without a trace when the message is not waiting; otherwise logged and applied |
| Session.Session.DeliverQueuedLocked | server/internal/agent/queue.go:85-106 | the loop makes every queued message a user message, in order, and empties the queue; it returns the first event's number and the first message's id, or neither |
| Session.Session.LoadQueue | server/internal/agent/queue.go:18-36 | the queue is the one the log records |
| Session.Session.SendMessage | server/internal/agent/session.go:248-296 | queued while a turn runs, delivered after the queue otherwise, refused only when there is nothing to say; the number returned is the first event's |
| Session.Session.PathEvents | server/internal/agent/branch.go:41-47 | the events of the kinds that the active branch's path contains |
| Session.FindMessage | server/internal/agent/branch.go:76-84 | the last start and the last end of a message |
| Session.Session.ForkFrom | server/internal/agent/branch.go:60-117 | refused while busy or with messages waiting, or unless a whole user message of the path is named; otherwise the new state is the fork's, on the message's own branch |
| Session.Session.SwitchBranch | server/internal/agent/branch.go:120-136 | refused while busy or for an unknown branch; nothing is logged for the active one |
| Session.Session.CutNow | server/internal/agent/compact.go:367-378 | the cut of the active path after its newest compaction |
| Session.Session.Compact | server/internal/agent/compact.go:358-381 | noted while a turn runs; refused without a model or a cut; otherwise a run starts |
| Session.Session.InterruptTurn | server/internal/agent/session.go:346-354 | only a running turn is cancelled |
| Session.Session.EndTurnWith | server/internal/agent/turn.go:65-99 | the end is logged, and then a compaction asked for, or the queue, starts what follows, except after an interrupt or in a shutdown |
| Session.Session.Reload | server/internal/agent/manager.go:100-117 | what is loaded is the row, and the queue and tree of the log; a session left mid-turn is stuck |
| Session.Session.StepBoundary | server/internal/agent/turn.go:117-123 | the queue joins the conversation at every step boundary but the first |
| Session.Session.CompactionStarts | server/internal/agent/compact.go:164-193 | the cut is fixed and noted, or there is none: logged only when somebody asked |
| Session.Session.CompactionEnds | server/internal/agent/compact.go:194-267 | the summary up to the cut, or the error covering nothing |
| Session.Session.CallsStart | server/internal/agent/turn.go:312-318 | all calls of a reply are recorded, in order, before any runs |
| Session.Session.CallsRun | server/internal/agent/turn.go:324-341 | results are recorded in the order of the calls |
| Attach.RunKeeps | server/internal/agent/session.go:184-235 | under every interleaving each client's channel is the run of the log after what it was handed, and it is closed rather than left with a gap |
| Attach.SendsTheLog | server/internal/agent/session.go:184-235 | what a client has been sent is the log from where it asked, in order, without gap or repeat |
| Attach.SentFromWhereAsked | server/internal/agent/session.go:184-235 | a client that asks from a number is sent the events from that number on, whatever happens meanwhile |
| Attach.DroppedWhenFull | server/internal/agent/session.go:171-180 | a client is dropped when an event comes while 4096 others wait for it, and at no other time |
| Attach.StoppedFellBehind | server/internal/agent/session.go:214-235 | one told to attach again once fell that far behind, and was first given all that waited for it |
| Attach.CaughtUp | server/internal/agent/session.go:214-234 | a client with nothing left to drain that was not dropped has everything |
| Attach.AttachAgainContinues | server/internal/agent/session.go:218-222 | attaching again where a slow client was told to continues exactly: together, one run of the log |
| Attach.NeverStuck | server/internal/agent/session.go:184-235 | a client that is neither stopped nor caught up always has a step, and each brings it nearer |
| Attach.Replay | server/internal/agent/session.go:200-216 | the paged loops send everything from the first number to what was logged at the start |
| Slots.EnteredInv | server/internal/llm/limit.go:48-70 | a call is admitted at once exactly when nobody waits and the limit allows, and goes to the end of the line otherwise |
| Slots.CancelledInv | server/internal/llm/limit.go:76-87 | a waiting call that gives up leaves the line as it was without it; one given a slot meanwhile passes it on |
| Slots.ReleasedInv | server/internal/llm/limit.go:143-154 | the first release hands the slot on, and a second does nothing |
| Slots.PumpInv | server/internal/llm/limit.go:157-167 | a pump hands out exactly the slots there are, to the first in line, and touches no other model |
| Slots.ForgetInv | server/internal/llm/limit.go:171-175 | dropping an idle gate loses nobody: every call that captured it is over |
| Slots.RunInv | server/internal/llm/limit.go:48-184 | every interleaving keeps the books, the order of arrival and the captured gates |
| Slots.Accounting | server/internal/llm/limit.go:48-184 | inUse counts the calls given a slot and not done; an unfinished call's gate is the one in the map; a model has a gate exactly while somebody uses or awaits it |
| Slots.FirstComeFirstServed | server/internal/llm/limit.go:59-100 | while a call waits no later call for the same model has been given a slot |
| Slots.RisesWithin | server/internal/llm/limit.go:48-88 | calls in flight rise only up to the limit then in force |
| Slots.NeverOverLimit | server/internal/llm/limit.go:10-16 | a limit that stays the same is never exceeded |
| Slots.ChangedFills | server/internal/llm/limit.go:91-100 | Changed hands out every free slot, in whatever order it walks the map |
| Slots.PumpFills | server/internal/llm/limit.go:143-167 | a release, a granted call that gives up, and Changed each leave nobody waiting with a slot free under the limit looked up, whatever it was before |
| Slots.NoSlotLost | server/internal/llm/limit.go:157-184 | while a limit has not changed since the start, or since the last of these, nobody waits with a slot free |
| Limiter.RemoveWaiter | server/internal/llm/limit.go:177-184 | the first occurrence of the waiter is taken out and nothing else |
| Limiter.Limiter.Acquire | server/internal/llm/limit.go:48-70 | the state machine's arrival, and the gate and waiter captured |
| Limiter.Limiter.Ready | server/internal/llm/limit.go:72-75 | a granted call holds its slot and is handed its release |
| Limiter.Limiter.GiveUp | server/internal/llm/limit.go:76-87 | the state machine's cancellation, at the captured gate |
| Limiter.Limiter.Release | server/internal/llm/limit.go:143-154 | any release handed out, called at any time: the state machine's release, at the gate looked up by key, which is always there the first time |
| Limiter.Limiter.Pump | server/internal/llm/limit.go:157-167 | the loop grants as the state machine's pump does |
| Limiter.Limiter.Forget | server/internal/llm/limit.go:171-175 | an idle gate leaves the map |
| Limiter.Limiter.Changed | server/internal/llm/limit.go:91-100 | every gate in the map is pumped |
| Limiter.Limiter.InUse | server/internal/llm/limit.go:104-114 | the calls holding a slot, and the length of the line |
| Watchdog.AlwaysWatching | server/internal/llm/llm.go:392-453 | while a call runs and until it gives up, the watchdog's deadline is the last sign of life plus the current limit, and it is set or about to be looked at |
| Watchdog.LimitIs | server/internal/llm/llm.go:402-424 | in every run the limit is the stall limit from the first token or progress report on, if there is one, and the first-byte limit before; and the last sign of life is the last one heard |
| Watchdog.DeadlineIs | server/internal/llm/llm.go:402-453 | so the timer is set for the last sign heard plus that limit, or has gone off, and is not set when there is no limit |
| Watchdog.GivesUpOnce | server/internal/llm/llm.go:424-453 | it gives up at most once, and only on a call that was quiet for a limit |
| Watchdog.LookDecides | server/internal/llm/llm.go:424-453 | in every run a look gives up if and only if the call has been quiet for its limit; otherwise the timer is set for the last sign of life plus the limit |
| Watchdog.QuietCallsEnd | server/internal/llm/llm.go:402-453 | in every run a call that stays quiet is given up by the next look once the timer has gone off at its deadline or later, whatever looks were pending |
| Watchdog.Watcher.ArmLocked | server/internal/llm/llm.go:402-422 | the timer is set for the current limit, unless there is none, the call is not running or it was given up |
| Watchdog.Watcher.AliveAt | server/internal/llm/llm.go:470-477 | the sign is noted before the timer is set, so the new phase's limit counts |
| Watchdog.Watcher.FireAt | server/internal/llm/llm.go:426-453 | the look sets the timer again, gives up, or does nothing the second time |
| Calendar.YearLength | server/internal/cron/schedule.go:440-462 | years have 366 days exactly when the Gregorian rule makes them leap years |
| Calendar.DateReadsBack | server/internal/cron/schedule.go:440-462 | every date that exists is read back from its day number as it is |
| Calendar.DateCountsDays | server/internal/cron/schedule.go:265-268 | putting a date back some days on counts days, across months and years |
| Calendar.NextMonth | server/internal/cron/schedule.go:445-446 | the first of the next month comes right after the days of this one |
| Calendar.Thursdays | server/internal/cron/schedule.go:426-428 | days of the week are those of the calendar: 1 January 1970 and every seventh day from it is a Thursday |
| Schedule.CronNext | server/internal/cron/schedule.go:440-462 | returns what a minute-by-minute scan of the window returns: no skip of a month, day or hour jumps over a match |
| Schedule.CronNextIsLeast | server/internal/cron/schedule.go:440-462 | that is the least whole minute strictly after t that matches, and none only when the window has none |
| Schedule.WhoIsMissed | server/internal/cron/schedule.go:23-25 | for every expression with a minute and an hour and every time: the search finds nothing if and only if no day of the calendar ever matches, or only 29 February does and no such time lies in the window |
| Schedule.LeapDayNear | server/internal/cron/schedule.go:23-25 | the window has no such time only if one of the next four years is divisible by 100 and not by 400 |
| Schedule.MonthSkip | server/internal/cron/schedule.go:445-446 | going to the first of the next month skips no match |
| Schedule.DaySkip | server/internal/cron/schedule.go:447-448 | nor does going to the next midnight |
| Schedule.HourSkip | server/internal/cron/schedule.go:449-454 | nor does going to the next hour |
| Schedule.LeapDayMissed | server/internal/cron/schedule.go:23-25 | and there it happens: from March 2096 the search for 29 February finds nothing, although 2104 has one |
| CronText.CronField | server/internal/cron/schedule.go:370-424 | a field's text, part by part: the values of its stars, numbers, ranges, names and steps, the first part that is none of these, or a step that takes the index past the largest int64, where the shift panics |
| CronText.FieldAccepted | server/internal/cron/schedule.go:370-424 | a field is accepted if and only if every part of its list is a star, a range or a number within bounds, with a step that fits |
| CronText.FieldPanics | server/internal/cron/schedule.go:370-424 | reading a field panics if and only if some part of its list has a step that takes the index past the largest int64 and every part before it is read |
| CronText.ParsePanics | server/internal/cron/schedule.go:343-367 | reading an expression panics if and only if one of its fields does and every field before it is read |
| CronText.LargestStepPanics | server/internal/cron/schedule.go:419-421 | an expression whose days of the month are a star with the largest int64 as step does |
| CronText.FieldMeans | server/internal/cron/schedule.go:370-424 | the bits of an accepted field are exactly the values its parts reach, all within its bounds |
| CronForms.PartReads | server/internal/cron/schedule.go:385-421 | told by how it is written: x lists x; x-y lists i if and only if it lies from x to y; *, x and x-y with /s list every s-th from their start, x up to the field's end; a part is read if and only if its numbers or names are ones of the field, in order, and the step is a number from 1 |
| CronForms.EveryText | server/internal/cron/schedule.go:385-415 | every text is written in one of these ways |
| CronForms.FieldReads | server/internal/cron/schedule.go:370-424 | a field written as a list of parts is accepted if and only if each can be used, and lists exactly what any of them lists |
| CronForms.EveryField | server/internal/cron/schedule.go:385 | every field is such a list |
| CronForms.SplitJoined | server/internal/cron/schedule.go:385 | splitting takes apart what was joined |
| CronForms.NumeralReads | server/internal/cron/schedule.go:376-383 | a decimal numeral reads as its number, with zeros before it or a sign too, if it fits an int64 |
| CronForms.OnlyNumerals | server/internal/cron/schedule.go:376-383 | and nothing else reads as a number |
| CronForms.MonthsRead | server/internal/cron/schedule.go:339-342 | the k-th month's name reads as k, and there are no other names |
| CronForms.WeekdaysRead | server/internal/cron/schedule.go:339-342 | the names of weekdays read as 0, Sunday, to 6 |
| CronForms.NumberReads | server/internal/cron/schedule.go:373-384 | in every field a number within its bounds reads as itself |
| CronForms.RunsOnSomeDays | server/internal/cron/schedule.go:344-368 | min hour * * a-b runs at that minute and hour on the days of the week from a to b, and at no other time |
| CronText.ParseCron | server/internal/cron/schedule.go:343-367 | the five fields in order, the first without bits deciding; 7 is Sunday too, and a field is a star if its text starts with one |
| CronText.ParsedAndMissed | server/internal/cron/schedule.go:343-462 | every expression that is accepted names an hour and a minute, so the search misses only those that match no day, and leap days |
| CronText.StarredFieldsIgnored | server/internal/cron/schedule.go:365-438 | if both day fields start with a star, every day of the months named runs, whatever steps or lists follow the stars |
| CronText.RestrictedFields | server/internal/cron/schedule.go:425-438 | otherwise a day runs if it is one the fields that do not start with a star name: either of them if neither does |
| CronText.SteppedRunsAnyway | server/internal/cron/schedule.go:365-438 | a star with step 2 in both day fields runs on Friday 2 January 1970, which neither field names |
| Schedule.IntervalNext | server/internal/cron/schedule.go:220-240 | for every interval that is accepted, whole minutes or not, there is a next slot, the least strictly after t: slots are the minutes its multiples since midnight fall in, starting again at each midnight |
| Schedule.WholeIntervalSlots | server/internal/cron/schedule.go:220-240 | for an interval of whole minutes these are its multiples since midnight |
| Schedule.EveryMeans | server/internal/cron/schedule.go:106-116 | the interval accepted lies between a minute and a day and is the product written but for multiples of 2 to the 64; it is the product if and only if that lies there, and a number too large for an int64 is refused |
| Schedule.EveryWraps | server/internal/cron/schedule.go:106-116 | every 3749353613647812 minutes is accepted and runs every minute |
| Schedule.DailyNext | server/internal/cron/schedule.go:265-278 | the least slot strictly after t, and none if and only if no day is named |
| Schedule.DailyMeans | server/internal/cron/schedule.go:265-278 | a slot is that hour and minute, on the dot, of a day of the week that is named |
| Schedule.IntervalAfterIsLeast | server/internal/cron/schedule.go:220-240 | the minute of the first multiple of the interval at or after the next minute, or the next midnight, is the least slot strictly after t |
| Schedule.DailyAfterIsLeast | server/internal/cron/schedule.go:265-278 | the first of the next nine days that is named and not past gives the least slot, and there is none exactly when no day is named |
| CronRuns.MissedIsUnused | server/internal/scheduler/scheduler.go:209-225 | a slot caught up on has not been used and lies after the file was written |
| CronRuns.RestartInv | server/internal/store/cron.go:139-169 | what a new server reads back covers every slot ever recorded, and leaves no run in progress |
| CronRuns.RunAllInv | server/internal/scheduler/scheduler.go:90-301 | every run of the scheduler keeps the books, whatever the clock says and whichever runs the store takes |
| CronRuns.SlotsUsedOnce | server/internal/scheduler/scheduler.go:159-301 | recorded slots of a job, other than by hand, strictly increase across ticks, rescans, restarts and backward clocks |
| Ticks.TickRunsWhatIsDue | server/internal/scheduler/scheduler.go:227-239 | in every run, a tick that walks the jobs once each gives every job that is due exactly one new run, for its slot, going if the job was free and skipped if not, if the store takes it; uses the slot up and sets the next to the schedule's next after now; and leaves every other job as it was |
| Ticks.TickSetsNext | server/internal/scheduler/scheduler.go:200-205 | in every run, that next slot is the first after now and after the slot just used, for every kind of schedule |
| Ticks.OnlyWarrantedRuns | server/internal/scheduler/scheduler.go:159-239 | in every run, a tick runs only jobs that are due, enabled and not broken, a start only jobs whose file says so, and nothing else runs a job but a request by hand |
| Ticks.StartCatchesUp | server/internal/scheduler/scheduler.go:90-109 | in every run, a server that starts gives each job whose file it reads exactly one run, for the latest slot within its window, after its file and after every slot it has a run for, if there is one, it may run and the store takes the row, and none otherwise; and then waits for the first slot not past and not used |
| Ticks.ByHandRuns | server/internal/scheduler/scheduler.go:459-477 | in every run, a request by hand adds exactly one run of a job that is there, whole and free, enabled or not, and uses no slot; any other changes nothing |
| Ticks.ScanFollowsFiles | server/internal/scheduler/scheduler.go:159-197 | in every run, a scan runs nothing; a job whose file is unchanged is left alone, a new or changed one is read again and keeps its run, and one without a file stays only while it runs |
| Ticks.EndFreesItsJob | server/internal/scheduler/scheduler.go:342-368 | in every run, a run that ends frees its job, its row says how it ended, and nothing else changes |
| CronRuns.OneRunAtATime | server/internal/scheduler/scheduler.go:243-368 | at most one run of a job is going, whichever runs and ends the store takes |
| CronRuns.OneRunningRow | server/internal/scheduler/scheduler.go:342-368 | the store has at most one run of a job as running if and only if no run whose end it did not take, since the server started, stands beside another such or one still going |
| CronRuns.NoneLostOneRow | server/internal/scheduler/scheduler.go:342-368 | so it never has two if it takes every end |
| CronRuns.LostEndTwoRows | server/internal/scheduler/scheduler.go:355-363 | a run whose end is not recorded, and a second one: two rows that say running |
| CronRuns.OneCatchUp | server/internal/scheduler/scheduler.go:90-109 | starting up adds at most one run of each job |
| CronRuns.MissedIsGreatest | server/internal/scheduler/scheduler.go:209-225 | for a schedule whose next times are the least, the slot picked is the greatest at or before now and after the window's start, last slot and file time, or none when there is none, if and only if the slots in between end within the steps allowed |
| CronRuns.MinutesEnd | server/internal/scheduler/scheduler.go:209-225 | slots a minute or more apart do, for windows up to that many minutes |
| CronRuns.CronIsSteady | server/internal/cron/schedule.go:440-462 | a cron expression is such a schedule, over windows up to its lookahead |
| CronRuns.KindIsSteady | server/internal/cron/schedule.go:220-315 | so are intervals, times of day and one-shots, over every window |
| CronRuns.CatchesUp | server/internal/scheduler/scheduler.go:209-225 | for every kind of schedule and a window of up to 100000 minutes, the slot picked is the greatest at or before now and after the window's start, last slot and file time, or none when there is none |
| Scheduler.Scheduler.Missed | server/internal/scheduler/scheduler.go:209-225 | the loop picks the slot the specification picks |
| Scheduler.Scheduler.NextSlot | server/internal/scheduler/scheduler.go:200-205 | from the last slot on when that is later than t |
| Scheduler.Scheduler.StartLocked | server/internal/scheduler/scheduler.go:243-301 | the slot is used up, and a run recorded: running, or skipped behind one still going |
| Scheduler.Scheduler.FireDueLocked | server/internal/scheduler/scheduler.go:227-239 | each job is walked once, in whatever order, and each that is due runs for one slot and waits for the first after now |
| Scheduler.Scheduler.RescanLocked | server/internal/scheduler/scheduler.go:159-197 | unchanged files are left alone, changed ones scheduled anew, and jobs without a file dropped once they are not running; nothing happens if the directory cannot be read |
| Scheduler.Scheduler.Start | server/internal/scheduler/scheduler.go:90-109 | a start from the store's runs, catching up once |
| Scheduler.Scheduler.LoadLastSlots | server/internal/store/cron.go:141-158 | per job, the latest slot recorded other than by hand |
| Scheduler.Scheduler.FailUnfinished | server/internal/store/cron.go:162-169 | runs left running are failed and nothing else changes |
| Scheduler.Scheduler.RunByHand | server/internal/scheduler/scheduler.go:459-477 | the files are read again, and then a missing, broken or running job is refused; the last slot is left alone |
| Scheduler.Scheduler.Finish | server/internal/scheduler/scheduler.go:342-368 | the run's end is recorded if the store takes it, and the job is free again in any case |
| InsertDiff.Diff | server/cmd/flit/configcmd.go:106-174 | applying the hunks to a, each exactly where its header says and with its counts, gives b and what is left of a; hunks are in order with a line between them and hold everything new; a line of b is shown if and only if a new line is within three lines of it; the result is b if and only if a is a subsequence of b, and then every header counts a line of a |
| InsertDiff.HunkHasOldLine | server/cmd/flit/configcmd.go:134-170 | once greedy marking finds anything of a in b, no hunk is without a line of a |
| InsertDiff.GreedyFindsAll | server/cmd/flit/configcmd.go:109-119 | greedy marking finds all of a exactly when a's lines are b's with some left out |
| InsertDiff.HunkEnd | server/cmd/flit/configcmd.go:139-155 | a hunk ends after a new line that no other follows within six lines |
| InsertDiff.Mark | server/cmd/flit/configcmd.go:109-119 | a line is marked new exactly when greedy matching passes it by |
| InsertDiff.Number | server/cmd/flit/configcmd.go:123-133 | each line's number in a |
| InsertDiff.PatchGives | server/cmd/flit/configcmd.go:106-174 | hunks laid out so always apply |
| InsertDiff.ShownNearNew | server/cmd/flit/configcmd.go:119-154 | no context is left out and none is shown for nothing: a line is shown exactly when a new one is within three lines |
| Arguments.RepairArguments | server/internal/llm/args.go:16-44 | valid arguments are left alone; others are rewritten by the scanner |
| Arguments.ScannersInStep | server/internal/llm/args.go:20-42 | scanning the output ends where scanning the input does |
| Arguments.ChangedOnlyIfForbidden | server/internal/llm/args.go:38-40 | only unescaped control bytes inside strings change anything |
| Arguments.NoneForbiddenMeans | server/internal/llm/args.go:20-42 | that condition position by position |
| Arguments.MeaningKept | server/internal/llm/args.go:12-15 | strings decode to the same characters before and after, and everything outside them is the same |
| Arguments.RepairedOnce | server/internal/llm/args.go:16-44 | a second pass changes nothing |
| Arguments.NothingRawLeft | server/internal/llm/args.go:12-44 | read as a decoder reads it, what comes out has no unescaped control byte in a string, and the input comes out unchanged if and only if it has none |

## Left out

- Failed appends: every append succeeds. An append that fails between the events of one operation leaves the live state and the log apart until the session is loaded again.
- The database, protobuf and migrations: the store is a sequence and a row, updated together. Times, titles, clients' names and the fields of events no modelled code reads are dropped.
- Concurrency inside one locked section, and goroutine scheduling: a step is atomic, and runs are arbitrary sequences of steps.
- The model's output, prompts and permissions, tools, token estimates and reasoning settings: arbitrary values. What decides that a turn stops (step limits, errors, the model) is arbitrary too; a turn may end stuck or done at any step.
- Subscribers of the live session: `Session.Session` does not hold them; `Attach` has its own appender.
- Ids: `newID` is taken never to repeat and is a counter.
- The llama.cpp cache keys of a branch, export, ratings and transcripts: readers of paths that add nothing to what paths mean.
- `Watchdog.Fired`: what a timer that had already gone off does after its call finished is not modelled.
- `Chat.BuildMessages`: keeps a call's arguments as the model sent them; `SafeArguments`, which replaces invalid ones, needs the JSON library. Validity is a parameter of `Arguments.RepairArguments` for the same reason.
- The English forms of schedules and `@daily` and its like: an interval's number is in `Schedule.Every`; the rest (times of day, day names, dates and delays) is read into the schedules modelled, and a one-shot's time is arbitrary. The 64-bit masks of a cron expression are sets of their bits.
- Daylight saving time and offsets that are not whole minutes: the branch of `CronNext` for a repeated hour is there and never taken.
- `Scheduler.Scheduler.StartLocked`: a one-shot's file is not written back and no session is started; the run goes on until `Finish`.
- `Scheduler.Scheduler.Finish`: finds the job by the run's name, where the source keeps the job it started from; a job with a run going is never dropped (`CronRuns.SweptInv`), so it is the same one. Archiving, notifications and the run's session are left out.
- `InsertDiff.Diff`: returns hunks rather than text; the two header lines and line splitting are left out.
- `Session.Session.AppendLocked`: subscribers (see above) and the times kept with events and rows are left out.
- `Session.Session.SendMessage`: an untitled session's title is left out.
- `Session.Session.EndTurnWith`: an append that fails, and what is noted for runs nobody attends, are left out.
- `Session.Session.Reload`: the patterns allowed for the session and its other settings are not loaded.
- `Session.Session.CompactionEnds`: the summary call is a parameter: its text, or the error that kept it from one.
- `Watchdog.Watcher.FireAt`: the report made before giving up, and its trace, are left out.
