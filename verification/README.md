# Arbor: a verified model

Arbor is a desktop application for working with many git worktrees and coding agents at once. This project
models the parts of it that transform data or run protocols, and proves what they promise.

- **Side-by-side diff** (`DiffEngine`, `DiffReplay`, `DiffAccounting`, `DiffWindow`): a list of hunks over two texts
  becomes display rows. A hunk list is *ordered* if its ranges are disjoint, non-empty and in range, and *valid* if
  also the unchanged stretches between hunks are equal line by line. A row carries the two hidden counts of a
  collapsed stretch as a field, beside the text that shows them. Statements about the right column are the
  statements about the left column of the mirrored diff (`FlipRows`, `FlipHunks`, `Mirror`).
- **Diff document** (`DiffDocument`, `DiffBlocks`, `DiffWrap`, `Zonemap`): files joined with an index, re-wrapped to a width, and
  summarised as marker spans. Reading files and computing hunks are parameters (`Sources`).
- **Agent activity** (`AgentActivity`, `AgentWindow`, `AgentReconcile`): messages update a session map, from which the
  state of every worktree is derived. `AgentRuns` is the transition system in which messages, background jobs and
  refreshes of the worktree records interleave; `AgentEpochs`, `AgentCheckpoints`, `AgentTurns`, `AgentMessages`,
  `AgentJobs` and `AgentRefresh` prove what every run keeps. A refresh copies the records when it starts and, unless another one has started since,
  writes the copies back when it ends. The run's log is a record for the statements only: no step reads it.
- **Agent chat** (`AgentChat`, `ChatTranscript`, `ChatRecord`, `ChatTokens`): the event state machine of a chat session. Text is a
  sequence of UTF-8 bytes, the unit in which streamed text is counted.
- **Daemon connection** (`DaemonConnection`, `DaemonRuns`): connection attempts and their completions in any order.
- **Command palette** (`CommandPalette`) and **percent codec** (`PercentCodec`).

Classes mirror the objects the program updates in place. Each of their methods is proved equal to a function on
values, and the lemmas are about those functions.

Where the code does not meet the property one would expect, one lemma gives a failing run or input and another says
exactly when the property holds:

| expected | fails in | holds exactly if |
|---|---|---|
| a current activity epoch means a waiting worktree | `SaturatedEpochsMislead` | `TrustedExactly`: the epoch is below 2^64 - 1 |
| a superseded outcome is not applied | `SupersededOutcomeApplied` | `SupersededAppliedExactly` |
| a worktree shows the newest of all its turns | `RefreshLosesTurn` | `SurvivorsAreAllExactly`, with `TurnsMatchSurvivors` for what it shows then |
| the last activity never falls back | `RefreshLowersActivity` | `ActivityKeptExactly` |
| only the latest connection attempt is heeded | `WrappedEpochIsMistaken` | `HeededExactly`: modulo 2^64 |
| the connected client is one of the base URL | `SilencedConnectionLeavesOldClient` | `InStepExactly`, and for one step `StepInStepExactly` |
| the panel shows the cumulative token totals | `MessageDuringTurnLosesTokens` | `SumsFollowTotals`, `PanelFollowsTotals`; `OrdinaryTurnsBalance` for the usual turns |
| percent-decoding never panics | `EuroSignPanics` | `PanicsExactly` |
| only two hexadecimal digits make an escape | `SignedEscapeDecodes` | `StrictExactly` |

In valid UTF-8 a percent sign is never followed by a continuation byte, so there only the end of the slice matters.

`dafny verify dfyconfig.toml` checks everything.

## Model
| member | source | states |
|---|---|---|
| DiffEngine.BuildSideBySideDiffLines | crates/arbor-gui/src/diff_engine.rs:121-203 | Two cursors walk the hunk list and append, for each hunk, the unchanged stretch before it and its changed rows, then the stretch after the last one; no rows at all for an empty hunk list. The result, for any hunk list, is the specification `SideBySideRows` that the lemmas below are about. |
| DiffEngine.DiffLines.Push | crates/arbor-gui/src/diff_engine.rs:326-345 | A row is appended to the shared list and nothing already there changes. |
| DiffEngine.PushDiffLine | crates/arbor-gui/src/diff_engine.rs:326-345 | One row is appended, numbered from 1 on the sides that have an index, with the display text of those lines and empty text on the other side. |
| DiffEngine.PushCollapsedGapLine | crates/arbor-gui/src/diff_engine.rs:265-277 | One row is appended that states both hidden counts and has no line numbers. |
| DiffEngine.PushContextDiffLines | crates/arbor-gui/src/diff_engine.rs:279-324 | The common part of two ranges is appended pairwise; what is left of the longer side follows as removed or added rows. |
| DiffEngine.PushHunkContextLines | crates/arbor-gui/src/diff_engine.rs:205-263 | Of an unchanged stretch the first `lead` and the last `trail` lines of each side are appended, with a collapsed row between them exactly if a line is hidden on some side. |
| DiffEngine.PushHunkLines | crates/arbor-gui/src/diff_engine.rs:161-184 | A hunk becomes one row per line of its longer side: modified while both sides last, then removed or added. |
| DiffEngine.GapTextTellsCount | crates/arbor-gui/src/diff_engine.rs:265-277 | The text of a collapsed row determines the count it states, so the two counts a row carries in the model are no more than what its two texts say. |
| DiffEngine.GapTextReads | crates/arbor-gui/src/diff_engine.rs:265-277 | The digits in the text of a collapsed row read back as the count of hidden lines. |
| DiffEngine.DisplayedLine | crates/arbor-gui/src/diff_engine.rs:347-357 | A displayed line is the line up to its last character that is no line end, with every tab as four spaces in its place and nothing else changed. |
| DiffReplay.ReplayForward | crates/arbor-gui/src/diff_engine.rs:121-345 | Meaning preserved: for every valid non-empty hunk list, reading the rows in order over the old lines (copy, skip, take the right text, copy the hidden lines of a collapsed row) rebuilds exactly the new lines. |
| DiffReplay.ReplayBackward | crates/arbor-gui/src/diff_engine.rs:121-345 | The same rows read in the mirror rebuild the old lines from the new ones. |
| DiffReplay.Mirror | crates/arbor-gui/src/diff_engine.rs:121-345 | Exchanging the two texts and the sides of the hunks exchanges the two columns (and added with removed) and changes nothing else, for any hunk list. |
| DiffReplay.ReplayAppend | crates/arbor-gui/src/diff_engine.rs:121-203 | Replay composes: rows that turn one piece of text into another and rows that do so for the next piece can be laid end to end. |
| DiffAccounting.LinesAccountedFor | crates/arbor-gui/src/diff_engine.rs:121-345 | For every ordered, in-range, non-empty hunk list, even with unequal unchanged stretches, each line of each text is covered by exactly one row of its column, numbered there or counted in a collapsed row; numbers strictly increase and are in range. |
| DiffAccounting.ReadingAccounts | crates/arbor-gui/src/diff_engine.rs:205-263 | A column whose numbers follow on from the lines and hidden counts above them accounts for every line once. |
| DiffAccounting.DiffLineStats | crates/arbor-core/src/changes.rs:187-197 | The loop over the hunks sums their old and new lengths. |
| DiffAccounting.RowsMatchStats | crates/arbor-gui/src/diff_engine.rs:161-184 | For valid hunks the removed and modified rows are as many as the deletions counted on the same hunks, the added and modified rows as many as the additions. |
| DiffWindow.ContextWindow | crates/arbor-gui/src/diff_engine.rs:140-200 | A line of either text has a row of its own if and only if it lies in a hunk or within DIFF_HUNK_CONTEXT_LINES of one, both directions, for every ordered hunk list. |
| DiffWindow.HunkLinesNeverHidden | crates/arbor-gui/src/diff_engine.rs:161-184 | Whatever row accounts for an old line inside a hunk numbers it: changed lines are never folded away. |
| DiffWindow.NewLinesNeverHidden | crates/arbor-gui/src/diff_engine.rs:161-184 | The same for the new lines inside a hunk. |
| DiffWindow.EveryRowFaithful | crates/arbor-gui/src/diff_engine.rs:205-345 | With valid hunks every number stands beside its line's display text, a context row has both numbers and shows equal lines or is a collapsed row, and a collapsed row hides equally many lines, at least one, on each side. |
| DiffDocument.BuildFileDiffLines | crates/arbor-gui/src/diff_engine.rs:49-65 | A new file is compared with nothing on the left, a removed one with nothing on the right; a side that cannot be read is an error. |
| DiffDocument.BuildWorktreeDiffDocument | crates/arbor-gui/src/diff_engine.rs:7-47 | Header and rows of each changed file, in order, with the index from path to header row; the first error discards the document. |
| DiffDocument.ErrorStays | crates/arbor-gui/src/diff_engine.rs:14-46 | If some prefix of the file list fails, the whole list fails with that prefix's error. |
| DiffDocument.IndexPointsAtBlocks | crates/arbor-gui/src/diff_engine.rs:14-46 | A path is indexed exactly if it is a changed file's, and its index is where the block of the last file with that path starts. |
| DiffDocument.DocumentPlainHeaders | crates/arbor-gui/src/diff_engine.rs:19-27 | No header row of a built document has right text, which is why wrapping may drop it. |
| DiffBlocks.FileFailsExactly | crates/arbor-gui/src/diff_engine.rs:49-65 | A file fails if and only if a text it needs cannot be read, with that text's error, the old one's first; a new file needs no old text and a removed one no new text. |
| DiffBlocks.FileShown | crates/arbor-gui/src/diff_engine.rs:28-65 | A file's block is its header and then rows that turn the file's old text into its new one and mirrored back, for every diff the differ reports; it is the single row that says so if and only if the differ reports no hunks. |
| DiffBlocks.DocumentShowsFiles | crates/arbor-gui/src/diff_engine.rs:14-46 | The document is one block for each changed file, in list order and with nothing between them: the file's header, then rows none of which is a header and that show exactly that file's change. |
| DiffBlocks.DocumentFailsExactly | crates/arbor-gui/src/diff_engine.rs:14-46 | The document fails if and only if some file does, with the error of the first that does. |
| DiffBlocks.HeaderTellsFile | crates/arbor-gui/src/diff_engine.rs:16-27 | A header row determines the change kind and the path. |
| DiffWrap.SplitDiffTextChunks | crates/arbor-gui/src/diff_view.rs:537-567 | The loop over characters cuts the text after every `width` characters; an empty text is one empty chunk. |
| DiffWrap.ChunksShape | crates/arbor-gui/src/diff_view.rs:537-567 | There are exactly max(1, ceil(n / width)) chunks, all of full width except possibly the last, and they join to the text. |
| DiffWrap.ChunksShrink | crates/arbor-gui/src/diff_view.rs:537-567 | Splitting at a greater width never gives more chunks. |
| DiffWrap.WrapDiffLine | crates/arbor-gui/src/diff_view.rs:504-535 | One row becomes as many as its longer side has chunks; a header is split at twice the width over both columns. |
| DiffWrap.WrapLineKeeps | crates/arbor-gui/src/diff_view.rs:504-535 | The rows a line wraps to keep its kind, carry its numbers on the first only and join back to its texts; their number is the larger of the two texts' quotients, at least one. |
| DiffWrap.WrapLineCells | crates/arbor-gui/src/diff_view.rs:504-535 | Row i of a wrapped row shows on each side exactly the i-th stretch of column width of that side's text; a header's text runs over both columns and its right side is empty. |
| DiffWrap.WrappedCells | crates/arbor-gui/src/diff_view.rs:480-535 | So does every row of the wrapped document, found from its raw row's mapped start. |
| DiffWrap.WrapDiffDocumentLines | crates/arbor-gui/src/diff_view.rs:480-502 | All rows are wrapped in order and each path's index is moved to the wrapped start of its raw row. |
| DiffWrap.WrapSlices | crates/arbor-gui/src/diff_view.rs:485-501 | Raw row i owns a non-empty slice of the wrapped document between two mapped starts, and that slice is the row's own wrapping; the slices end with the document. |
| DiffWrap.WrapStartsIncrease | crates/arbor-gui/src/diff_view.rs:485-501 | The raw-to-wrapped row map is strictly increasing. |
| DiffWrap.WrapShrinks | crates/arbor-gui/src/diff_view.rs:480-535 | The wrapped document never gets longer when the width grows. |
| DiffDocument.IndexSurvivesWrapping | crates/arbor-gui/src/diff_view.rs:480-502 | At every width a path's index in the wrapped document is the first row of the header built for the last file with that path, and the rows of that header spell it out in full. |
| DiffDocument.SlicesKeepRows | crates/arbor-gui/src/diff_view.rs:480-535 | In a built document every raw row, headers included, can be read back in full from its slice of the wrapped one. |
| DiffDocument.WrappedLinesAccountedFor | crates/arbor-gui/src/diff_view.rs:480-535 | Line accounting holds after wrapping too, in both columns and at every width. |
| DiffDocument.FlipWrap | crates/arbor-gui/src/diff_view.rs:504-535 | Without headers, wrapping treats the two columns alike: exchanging them before or after wrapping is the same. |
| DiffWrap.WrappedLength | crates/arbor-gui/src/diff_view.rs:480-502 | The wrapped document is as long as the sum over its rows of the larger of the two quotients (headers at twice the width), at least one each, and a row starts at the sum over the rows before it. |
| Zonemap.BuildZonemapMarkerSpans | crates/arbor-gui/src/diff_view.rs:383-407 | The spans paint each row in its own marker colour and no other row, in order, disjoint, and touching spans differ in colour. |
| Zonemap.SpansUnique | crates/arbor-gui/src/diff_view.rs:383-407 | Ordered maximal spans are determined by the row-to-colour map they paint, so the map and the spans can be recovered from each other. |
| Zonemap.MarkersTellKinds | crates/arbor-gui/src/diff_view.rs:431-439 | Only context rows have no marker colour, and the colours tell the other kinds apart. |
| AgentActivity.BestMatchIsDeepest | crates/arbor-gui/src/agent_activity.rs:169-176 | The match by greatest textual length is a worktree that contains the directory and is nested in none deeper; there is none only if no worktree contains the directory. |
| AgentActivity.DeepestIsBest | crates/arbor-gui/src/agent_activity.rs:169-176 | Conversely the deepest containing worktree, if there is one, is the match. |
| AgentActivity.DeriveStates | crates/arbor-gui/src/agent_activity.rs:163-199 | Folding the sessions in whatever order the map yields them gives each worktree: working if one of its sessions works, else waiting, with the latest time stamp. |
| AgentWindow.ArborWindow.AdvanceAgentActivityEpoch | crates/arbor-gui/src/agent_activity.rs:445-453 | The path's epoch goes up by one, stopping at the greatest 64-bit value, and no other path's changes. |
| AgentWindow.ArborWindow.EpochIsCurrent | crates/arbor-gui/src/agent_activity.rs:455-461 | True exactly if the epoch is the path's own, 0 for a path never seen. |
| AgentWindow.ArborWindow.TakeSlot | crates/arbor-gui/src/agent_activity.rs:364-370 | The path is in flight afterwards; the caller is told whether it was not before. |
| AgentWindow.ArborWindow.ReleaseSlot | crates/arbor-gui/src/agent_activity.rs:373-374 | The path, and nothing else, leaves the in-flight set. |
| AgentWindow.ArborWindow.SweepWorktrees | crates/arbor-gui/src/agent_activity.rs:201-237 | One pass over the worktrees updates state, time stamp and epoch of each and collects the requests; the derived entry is consumed on the way. |
| AgentWindow.ArborWindow.ReconcileWorktreeAgentActivity | crates/arbor-gui/src/agent_activity.rs:156-244 | New state and requests of one reconciliation. |
| AgentWindow.ArborWindow.ApplyAgentWsSnapshot | crates/arbor-gui/src/agent_activity.rs:112-129 | The session map is replaced and the worktrees reconciled without requests for transitions. |
| AgentWindow.ArborWindow.ApplyAgentWsUpdate | crates/arbor-gui/src/agent_activity.rs:131-145 | The entries are inserted and the worktrees reconciled with requests for transitions. |
| AgentWindow.ArborWindow.ApplyAgentWsClear | crates/arbor-gui/src/agent_activity.rs:147-154 | One session is removed and the worktrees reconciled without requests. |
| AgentWindow.ArborWindow.ApplyAgentWaitingTransitionResult | crates/arbor-gui/src/agent_activity.rs:801-859 | An outcome changes its worktree only if its epoch is current and the worktree exists and waits; then the turn, the stuck counter and, after a commit, the summaries are set. |
| AgentWindow.ArborWindow.FinishRefresh | crates/arbor-gui/src/worktree_refresh.rs:290-373 | New records are made of what was copied when the refresh started, with the later of the copied and git's last activity, take the place of the old ones and are reconciled; no background work is asked for. |
| AgentReconcile.SweepIsPointwise | crates/arbor-gui/src/agent_activity.rs:201-237 | With distinct paths the in-place sweep does to each worktree what the rule for one worktree says, leaves the epochs of other paths alone, and its requests are exactly those of worktrees that went from working to waiting. |
| AgentReconcile.ReconcileRefinesSpec | crates/arbor-gui/src/agent_activity.rs:156-244 | After reconciling, each worktree is working if a session whose deepest worktree it is works, waiting if it has sessions and none works, idle otherwise; its last activity does not go back. |
| AgentReconcile.EpochsCountChanges | crates/arbor-gui/src/agent_activity.rs:209-216 | A worktree whose state changes has its epoch raised by one, or left at 2^64 - 1 once it is there; the epoch of any other worktree stays. |
| AgentReconcile.ReconcileSettles | crates/arbor-gui/src/agent_activity.rs:156-244 | After any reconciliation every worktree is in the state its sessions dictate. |
| AgentReconcile.ReconcileTwice | crates/arbor-gui/src/agent_activity.rs:156-244 | Reconciling again changes no worktree and no epoch and asks for nothing. |
| AgentEpochs.CurrentMeansWaiting | crates/arbor-gui/src/agent_activity.rs:206-236 | In every interleaving, a request whose epoch is still current, short of the counter's limit, means its worktree is still waiting. |
| AgentEpochs.RequestsDistinct | crates/arbor-gui/src/agent_activity.rs:206-236 | In every interleaving two requests for one path share an epoch if and only if the earlier one was issued at the limit of the counter. |
| AgentEpochs.AppliedIsLatest | crates/arbor-gui/src/agent_activity.rs:801-832 | In every interleaving an outcome below the limit that would be applied belongs to the latest request for its path. |
| AgentEpochs.WaitingThroughout | crates/arbor-gui/src/agent_activity.rs:206-236 | A job whose epoch is current below the limit has found its worktree waiting at every moment since the request was issued: nothing, snapshots, clears and refreshes included, has changed the state in between. |
| AgentEpochs.SupersededAppliedExactly | crates/arbor-gui/src/agent_activity.rs:801-832 | The outcome of a superseded request is applied if and only if it was issued at the limit and its worktree happens to be waiting. |
| AgentEpochs.SupersededOutcomeApplied | crates/arbor-gui/src/agent_activity.rs:801-832 | That happens to a window that starts with an empty epoch map, after enough starts and stops. |
| AgentEpochs.TrustedExactly | crates/arbor-gui/src/agent_activity.rs:445-461 | For every reachable run and every job: that its epoch being current means a waiting worktree, now and after whatever follows, holds if and only if the epoch is below the limit of the counter. |
| AgentEpochs.SaturatedEpochsMislead | crates/arbor-gui/src/agent_activity.rs:445-453 | The limit is reached from an empty epoch map: after 2^64 starts and stops a request is issued at it, and when the agent starts again the request still looks current while its worktree works. |
| AgentCheckpoints.SlotsMatchHolders | crates/arbor-gui/src/agent_activity.rs:355-376 | In every interleaving the in-flight set is exactly the set of paths with a job between taking and releasing the slot, and at most one job per path is there. |
| AgentCheckpoints.CommitsSawCurrentEpoch | crates/arbor-gui/src/agent_activity.rs:364-405 | A job that committed had read its own epoch as current after it took the slot and before it gave it back. |
| AgentCheckpoints.NoSlotLeftBehind | crates/arbor-gui/src/agent_activity.rs:355-417 | When all jobs have ended, by whatever exit, the in-flight set is empty. |
| AgentJobs.CommitsWereAllowed | crates/arbor-gui/src/agent_activity.rs:322-417 | In every interleaving a job that committed was asked for while no outpost was active, was told that checkpoints are allowed, found its epoch current before taking the slot and found something to commit. |
| AgentJobs.JobsWereAsked | crates/arbor-gui/src/agent_activity.rs:773-799 | Every job was asked for by a message that issued the very request it carries. |
| AgentJobs.CheckpointGoesThrough | crates/arbor-gui/src/agent_activity.rs:355-417 | A window just started has a run in which a checkpoint is committed and its two summaries are shown. |
| AgentJobs.AppliedExactly | crates/arbor-gui/src/agent_activity.rs:815-832 | In every interleaving an outcome below the counter's limit is applied if and only if its epoch is still current, and at the limit if and only if its worktree waits. |
| AgentJobs.ReportSetsSummaries | crates/arbor-gui/src/agent_activity.rs:847-852 | An applied report sets the worktree's diff summary and divergence to what the job's commit gave, and leaves them alone if the job did not commit. |
| AgentTurns.RunLengthIsLongest | crates/arbor-gui/src/agent_activity.rs:834-842 | The reference run length is the longest stretch of equal diff summaries at the newest end. |
| AgentTurns.TurnsMatchSurvivors | crates/arbor-gui/src/agent_activity.rs:829-845 | In every interleaving, refreshes included, a worktree shows the newest five of its surviving turns, those not applied between the start and the end of a refresh that completed, and its stuck counter is one less than the newest run of equal summaries over all of them, however long. |
| AgentTurns.SurvivorsAreAllExactly | crates/arbor-gui/src/worktree_refresh.rs:195-227 | The surviving turns of a worktree are all turns ever applied to it if and only if none was applied between the start and the end of a refresh that completed. |
| AgentTurns.TurnsMatchHistory | crates/arbor-gui/src/agent_activity.rs:829-845 | Then the newest five and the stuck counter are those of all turns ever applied. |
| AgentJobs.TurnsAreSupplied | crates/arbor-gui/src/agent_activity.rs:829-832 | In every interleaving each turn recorded has the diff summary its job was told, and no other, and the time of the job's request or, if it has none, the worktree's last activity when the job reported. |
| AgentJobs.StuckCountIsTold | crates/arbor-gui/src/agent_activity.rs:829-845 | In every interleaving the turns shown have the summaries the jobs of the surviving turns were told, newest first, and the stuck counter counts how often the newest of those repeats. |
| AgentTurns.SurvivorsRefreshed | crates/arbor-gui/src/worktree_refresh.rs:325-340 | The end of a refresh leaves exactly the turns that had survived when it started. |
| AgentRefresh.RefreshLosesTurn | crates/arbor-gui/src/worktree_refresh.rs:195-373 | A turn applied while a refresh is under way is gone when it ends: a window just started ends with one turn applied and none shown. |
| AgentTurns.AppliedAtMostOnce | crates/arbor-gui/src/agent_activity.rs:773-859 | No job's outcome is applied twice. |
| AgentTurns.StatesFollowSessions | crates/arbor-gui/src/agent_activity.rs:112-244 | From the first message on, in every interleaving of messages, refreshes and jobs, every worktree shows the state its sessions dictate. |
| AgentMessages.SessionsAreTold | crates/arbor-gui/src/agent_activity.rs:112-154 | In every interleaving a session is in the map if and only if some entry since the last snapshot, that snapshot included, names it and no clear of it came later, or it was there at the start and no message was about it; it is as the newest such entry has it. |
| AgentMessages.StatesFollowMessages | crates/arbor-gui/src/agent_activity.rs:112-244 | From the first message on, every worktree's state is given by the history of messages alone: working if they tell of a working session whose deepest worktree it is, waiting if they tell of others, idle if of none. |
| AgentMessages.RequestsExactly | crates/arbor-gui/src/agent_activity.rs:224-236 | A message issues a request if and only if it is an update and some worktree goes from working to waiting by it; the request carries the epoch just reached, the latest time of the worktree's sessions and whether no outpost is active. |
| AgentRefresh.ActivityKeptExactly | crates/arbor-gui/src/worktree_refresh.rs:351-373 | In every interleaving a step lowers a worktree's last activity, or removes it, if and only if it ends a refresh and the time copied when the refresh started, git's and those of all its sessions are earlier or missing. |
| AgentRefresh.RefreshLowersActivity | crates/arbor-gui/src/worktree_refresh.rs:229-373 | That happens: a session that comes and goes while a refresh is under way raises the last activity, and the end of the refresh takes it away. |
| AgentRefresh.RefreshRetiresExactly | crates/arbor-gui/src/worktree_refresh.rs:315-373 | Once a message has been received, the end of a refresh changes no worktree's state, but raises its epoch, and so makes its outstanding request stale, if and only if the state copied when the refresh started is another. |
| AgentRefresh.RefreshCarriesOver | crates/arbor-gui/src/worktree_refresh.rs:308-350 | The end of a refresh leaves each worktree the diff summary copied when it started, and the divergence copied or listed, as the listing says. |
| AgentChat.AgentChatSession.constructor | crates/arbor-gui/src/agent_chat.rs:44-63 | A fresh session: idle, no messages, all counters zero. |
| AgentChat.AgentChatSession.SendMessage | crates/arbor-gui/src/agent_chat.rs:494-521 | A typed message is appended as the user's and the session is working; an empty one changes nothing. |
| AgentChat.AgentChatSession.ApplyEvent | crates/arbor-gui/src/agent_chat.rs:682-878 | Each event changes the session as the step function says; only the exit event closes the stream. |
| AgentChat.AgentChatSession.AppendChunk | crates/arbor-gui/src/agent_chat.rs:728-761 | Streamed text goes to an assistant message at the end, or starts one. |
| AgentChat.AgentChatSession.CompleteTurn | crates/arbor-gui/src/agent_chat.rs:782-832 | The last assistant message is credited with the turn's tokens, estimated from the streamed bytes if usage did not grow. |
| ChatTranscript.TranscriptConserved | crates/arbor-gui/src/agent_chat.rs:698-871 | In any run the assistant messages together hold exactly the last snapshot's assistant text followed by every chunk since. |
| ChatTranscript.AssistantsStayApart | crates/arbor-gui/src/agent_chat.rs:728-761 | If no snapshot has two assistant messages in a row, no reachable transcript does. |
| ChatTranscript.OnlyTheLastChanges | crates/arbor-gui/src/agent_chat.rs:698-871 | Between snapshots the transcript never shrinks and everything before its last message stays. |
| ChatRecord.EveryoneIsHeard | crates/arbor-gui/src/agent_chat.rs:494-521 | In any run the user's messages are, in order, those of the last snapshot, then every message sent and every echo that does not repeat the user's last word; the errors likewise; and any other role keeps what the snapshot has. |
| ChatRecord.CallsAreKept | crates/arbor-gui/src/agent_chat.rs:763-772 | In any run the tool calls recorded are those of the last snapshot, then each that arrived while the assistant had the last word, in order. |
| ChatRecord.LastSetterWins | crates/arbor-gui/src/agent_chat.rs:698-871 | In any run the status, the totals and the transport label are those of the last input that sets them. |
| ChatRecord.AccountIsOfTheTurn | crates/arbor-gui/src/agent_chat.rs:774-832 | In any run the turn's account holds the totals at its last start and the bytes streamed since it last started or completed. |
| ChatRecord.AnswersStay | crates/arbor-gui/src/agent_chat.rs:813-827 | A message credited with a turn names the session's transport and model unless it named others before, and never changes what it names until a snapshot. |
| ChatTokens.TurnEffect | crates/arbor-gui/src/agent_chat.rs:682-832 | Whatever is received or sent up to a TurnCompleted, short of a snapshot: the totals are the last reported, and the per-message sums change by the turn's credit less the counts it overwrites if the assistant has the last word, and not at all otherwise. |
| ChatTokens.SumsFollowTotals | crates/arbor-gui/src/agent_chat.rs:682-832 | Over any run of turns, from any session in balance, the sums equal the cumulative totals after every turn if and only if every turn fits, a condition on its inputs: who has the last word, the totals it starts and ends with, what it streams and what it overwrites. |
| ChatTokens.OrdinaryTurnsBalance | crates/arbor-gui/src/agent_chat.rs:682-832 | Over any run of turns before each of which someone else has spoken and between which usage does not change, the sums equal the totals after every turn if and only if each turn either ends in the assistant's text and advances usage, or does not and leaves usage as it was. |
| ChatTokens.OpenedTurnIsOrdinary | crates/arbor-gui/src/agent_chat.rs:774-781 | A turn opened by a message, with no usage reported before its one start, is of that kind, whatever else arrives in it. |
| ChatTokens.PanelFollowsTotals | crates/arbor-gui/src/center_panel.rs:1155-1168 | Over any run of turns, also from a restored session, the panel shows the cumulative totals after every turn if and only if every turn fits the panel, whose fallback hides what is missing until something is credited. |
| ChatTokens.TokensTelescope | crates/arbor-gui/src/center_panel.rs:1155-1168 | Over any run of turns from a fresh session in which the assistant has the last word of each, the panel ends at the cumulative totals if and only if in every turn the input total does not fall and the output total grows (or nothing was streamed). |
| ChatTokens.SumsAgainstTotals | crates/arbor-gui/src/center_panel.rs:1155-1168 | In such turns the sums never fall behind the cumulative totals; one turn that does not advance makes them differ for good. |
| ChatTokens.MessageDuringTurnLosesTokens | crates/arbor-gui/src/agent_chat.rs:494-521 | A message sent while a turn still streams leaves nobody to credit: two turns that each use one token more end with the panel at half of the totals. |
| DaemonConnection.ArborWindow.BeginDaemonConnectAttempt | crates/arbor-gui/src/daemon_connection_ui.rs:27-31 | The epoch goes up by one modulo 2^64 and is returned. |
| DaemonConnection.ArborWindow.ConnectToSshDaemon | crates/arbor-gui/src/daemon_connection_ui.rs:397-416 | A new attempt: the old tunnel is dropped and the start of a new one is under way. |
| DaemonConnection.ArborWindow.ConnectToDaemonEndpoint | crates/arbor-gui/src/daemon_connection_ui.rs:498-534 | A stale continuation does nothing; otherwise the base URL is set and either a listing is under way with the stored token, or the client could not be made and none is connected. |
| DaemonConnection.ArborWindow.FinishTunnel | crates/arbor-gui/src/daemon_connection_ui.rs:417-455 | A stale tunnel is dropped; otherwise it is kept and probed, or the connection is given up. |
| DaemonConnection.ArborWindow.FinishProbe | crates/arbor-gui/src/daemon_connection_ui.rs:457-496 | Unless stale, the connection goes on through a ready tunnel, or the tunnel is stopped. |
| DaemonConnection.ArborWindow.FinishListing | crates/arbor-gui/src/daemon_connection_ui.rs:534-597 | Unless stale, success and a missing token install the client; other refusals disconnect and stop the attempt's tunnel. |
| DaemonRuns.HeededExactly | crates/arbor-gui/src/daemon_connection_ui.rs:421-424 | In every interleaving a completion passes its epoch check if and only if the number of attempts made since its own is a multiple of 2^64, so below 2^64 attempts only the latest is heeded. |
| DaemonRuns.SupersededWritesNothing | crates/arbor-gui/src/daemon_connection_ui.rs:397-597 | Over every interleaving of fewer than 2^64 attempts, nothing a superseded attempt ends with changes the window or starts more work. |
| DaemonRuns.InstalledClientIsCurrent | crates/arbor-gui/src/daemon_connection_ui.rs:534-597 | When the latest attempt's listing ends, the client installed is one of the current base URL with the token stored for it, reached through the open tunnel if the attempt opened one, a missing token asks for that same key, and the repository to create in is opened or kept pending; other refusals leave no client, no label and no tunnel of the attempt. |
| DaemonRuns.TasksServeRequests | crates/arbor-gui/src/daemon_connection_ui.rs:397-534 | In every interleaving what is under way for an attempt has the endpoint, label, key and repository of the request that began it. |
| DaemonRuns.RequestsBegin | crates/arbor-gui/src/daemon_connection_ui.rs:498-534 | A request is a new attempt, and its work is under way unless no client can be made. |
| DaemonRuns.AttemptsGoOn | crates/arbor-gui/src/daemon_connection_ui.rs:417-496 | The latest attempt goes on if and only if its tunnel opened, or the tunnel answers and a client can be made. |
| DaemonRuns.TunnelLeftExactly | crates/arbor-gui/src/daemon_connection_ui.rs:417-597 | When the latest attempt ends that went through a tunnel, the tunnel is left if and only if the attempt connected or no client could be made for the tunnel's own address; if it did not connect, a notice says so. |
| DaemonRuns.ClientsComeFromTheBaseUrl | crates/arbor-gui/src/daemon_connection_ui.rs:397-597 | In every interleaving of fewer than 2^64 attempts, any step that changes the client removes it or installs one of the current base URL. |
| DaemonRuns.StepInStepExactly | crates/arbor-gui/src/daemon_connection_ui.rs:397-597 | In every interleaving of fewer than 2^64 attempts, a step leaves the client, if any, one of the base URL if and only if it settles the client, or moves the URL to the client's own, or finds them in step and does not move the URL to another. |
| DaemonRuns.InStepExactly | crates/arbor-gui/src/daemon_connection_ui.rs:397-597 | In every interleaving of fewer than 2^64 attempts, the client, if any, is one of the base URL if and only if every step that moved the URL away from it has since been followed by one that mends it. |
| DaemonRuns.AnsweredMeansInStep | crates/arbor-gui/src/daemon_connection_ui.rs:397-597 | In every interleaving of fewer than 2^64 attempts, it is enough that the connection that last set the base URL has had its answer. |
| DaemonRuns.SilencedConnectionLeavesOldClient | crates/arbor-gui/src/daemon_connection_ui.rs:457-496 | Without that answer it need not be: an SSH attempt that times out after superseding an unanswered connection leaves the older client beside the newer base URL, with nothing under way. |
| DaemonRuns.WrappedEpochIsMistaken | crates/arbor-gui/src/daemon_connection_ui.rs:27-31 | After 2^64 more attempts a superseded completion is taken for the latest: the window keeps its tunnel. |
| CommandPalette.WordsAreMaximalRuns | crates/arbor-gui/src/command_palette.rs:989-992 | Splitting at every other character and dropping empty pieces gives the maximal runs of ASCII letters and digits, in order. |
| CommandPalette.TitleWordPrefixMatch | crates/arbor-gui/src/command_palette.rs:984-1013 | The single greedy pass answers true if and only if the tokens can be assigned to words at strictly increasing positions, each a prefix of its word. |
| CommandPalette.NextMatch | crates/arbor-gui/src/command_palette.rs:998-1005 | The first word from the given position on that starts with the token is found, and taking it loses no assignment. |
| CommandPalette.TakeWord | crates/arbor-gui/src/command_palette.rs:998-1005 | Giving the first fitting word to the first token never turns an assignable query into one that is not, nor the reverse. |
| CommandPalette.Palette.RememberAction | crates/arbor-gui/src/command_palette.rs:339-345 | Remembering an action on the list of a history gives the list of the longer history. |
| CommandPalette.MostRecentlyUsedIsOrdered | crates/arbor-gui/src/command_palette.rs:339-345 | The unbounded list holds each action of the history once, ordered by its last use. |
| CommandPalette.RecentIsPrefix | crates/arbor-gui/src/command_palette.rs:339-345 | After any history the kept list is the first 20 entries of the unbounded one and has no repetition: truncating at each step loses nothing. |
| PercentCodec.PercentEncode | crates/arbor-daemon-client/src/client.rs:530-544 | The loop over bytes gives the encoding the lemmas below are about. |
| PercentCodec.PercentDecode | crates/arbor-daemon-client/src/client.rs:546-563 | The loop ends on every input with the decoded bytes, or with nothing where the slice panics. |
| PercentCodec.RoundTrip | crates/arbor-daemon-client/src/client.rs:530-563 | Decoding the encoding of any byte string gives it back. |
| PercentCodec.EncodedInjective | crates/arbor-daemon-client/src/client.rs:530-544 | Different byte strings have different encodings. |
| PercentCodec.RoundTripAnyCase | crates/arbor-daemon-client/src/client.rs:546-563 | So does decoding any text that differs from the encoding only in the case of the digits of its escapes. |
| PercentCodec.EncodedIsCanonical | crates/arbor-daemon-client/src/client.rs:530-544 | Encoding yields only unreserved characters and percent signs followed by two uppercase hexadecimal digits, and never escapes an unreserved character (RFC 3986 sections 2.1 and 2.3). |
| PercentCodec.UnreservedAsListed | crates/arbor-daemon-client/src/client.rs:534-536 | The bytes left alone are exactly the letters, digits and marks listed in section 2.3 of RFC 3986. |
| PercentCodec.DigitsAsListed | crates/arbor-daemon-client/src/client.rs:538-539 | The digits written in escapes are those of base 16, in order, and read back as what they stand for. |
| PercentCodec.EncodesBackExactly | crates/arbor-daemon-client/src/client.rs:530-563 | Encoding what was decoded gives the text back if and only if the text is in that form, so the encodings are exactly those texts. |
| PercentCodec.PanicsExactly | crates/arbor-daemon-client/src/client.rs:551-552 | Decoding panics if and only if somewhere the two bytes after a percent sign (with at least two left) do not start and end between characters. |
| PercentCodec.EuroSignPanics | crates/arbor-daemon-client/src/client.rs:551-552 | It does on a percent sign, a letter and a euro sign. |
| PercentCodec.StrictExactly | crates/arbor-daemon-client/src/client.rs:551-557 | Where it does not panic, decoding agrees with RFC 3986 section 2.1 if and only if no percent sign is followed by a plus sign and a hexadecimal digit, which the integer parser also accepts. |
| PercentCodec.SignedEscapeDecodes | crates/arbor-daemon-client/src/client.rs:551-557 | A percent sign, a plus sign and the digit 5 decode to one byte, where section 2.1 leaves three. |

## Left out

- The diff algorithm and its post-processing, ropes, git and file reads: hunks and lines are inputs; rope lines and diff tokens are taken to be the same sequence.
- Lengths, counts, token totals and time stamps are unbounded; only the two epoch counters have their 64-bit behaviour.
- AgentActivity.DeriveStates: paths are sequences of components; paths that are not in normal form are not modelled.
- AgentEpochs.CurrentMeansWaiting: says nothing at the limit of the counter, where it fails (TrustedExactly); `AppliedIsLatest` stops there too (SupersededAppliedExactly).
- The list of worktrees, its order included, is fixed during a run and its paths are distinct. A refresh whose listing names other worktrees is not a step; in the program a worktree missing from a listing, also because listing its repository failed, loses its record.
- A refresh that another one supersedes is taken to be given up at once; the program also drops its task and compares an epoch.
- Pull requests, ports, processes, agent tasks and session lists that a refresh carries over or reloads, and the diff summaries reloaded after it.
- run_agent_auto_checkpoint is a sequence of interleaved steps, one per access to shared state, rather than one method; holding a mutex is a single step, and a poisoned mutex is not modelled.
- Requests do not carry the repository root and the task text, which only shape the commit message and the notification rules; whether notifications are allowed is an input to a job, and their delivery and de-duplication are not modelled.
- The return value of reconciliation, which also depends on the clock, and legacy session identifiers.
- The diff summary and the divergence read after a commit are inputs of the commit step.
- Tokens per second, the start time of a turn, and a session removed while its stream is open.
- ChatTokens.TokensTelescope: is about turns in which the assistant has the last word, because other turns can make up at the end for what was wrong in between; `SumsFollowTotals` and `PanelFollowsTotals` are about all turns. A snapshot replaces the session and starts a new run.
- DaemonRuns.SupersededWritesNothing: holds below 2^64 attempts, because it is false beyond (WrappedEpochIsMistaken).
- Other writers of the daemon client and URL (settings, configuration refresh, automatic start, terminal errors) and the authentication dialog's own submission; stored tokens do not change during a run.
- Whether a client can be made for a URL is an input of the step that connects; parsing the URL is not modelled. Two notices are shortened.
- What is restored from a session listing, and which repository the create dialog opens on.
- Ranking of palette entries, substring matching and initialisms.
- PercentCodec.PercentDecode: returns bytes; turning them into text replaces invalid UTF-8, which never happens to the decoding of an encoded text.
- Rendering, scrolling, colours, themes, chat input editing, LAN daemons, stores, the Procfile parser and connection history.
