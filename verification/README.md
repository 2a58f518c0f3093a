# Paintress: verified models of its stateful cores

Paintress drives expeditions of a coding agent, exchanges D-Mails with other tools through
directories, and keeps an event log. This project models the parts of it whose correctness depends
on whole histories rather than on one function body, and proves what those parts are for.
`dafny verify dfyconfig.toml` checks everything.

The models follow the source's form. What the source changes in place is a class with the same
fields; every method is tied by its postcondition to a specification function or to steps of a
transition system. Where several processes or a crash can interfere, the transition system
(`Step`, `Run`) has one atomic step per SQL statement, file rename, channel operation or finished
command, and every failure is a choice of the environment; the theorems quantify over all
sequences of steps.

| module | what it models |
|---|---|
| `Wrappers`, `Sequences`, `Text`, `Sorting` | missing values, facts about sequences, and the parts of Go's `strings` and `sort` packages the other modules need |
| `Substitution`, `Blocks`, `Template` | prompt templates: two-pass substitution in any map order, conditional blocks, and the engine that combines them |
| `JsonExtract` | recovery of a JSON value from a model's reply, against the grammar of RFC 8259 (sections 2, 4, 5 and 7) |
| `Calendar`, `RunLock` | RFC 3339 timestamps as text (sections 5.1 and 5.6), and the lease lock that compares them as text |
| `Outbox` | the staging table that is flushed into two directories |
| `Worktree` | the worktree pool |
| `EventStore`, `Recorder`, `Projection` | day-sharded event log, causation chains and sequence numbers, read model and snapshots |
| `Waves`, `WaveEvents` | the two wave read models and when they agree |
| `Insight`, `InsightLedger` | the insight ledger's printer, parser and writer |
| `ReviewGate` | the review section of a pull request body |
| `Breaker`, `Reserve`, `Aggregate` | circuit breaker, model fallback, failure streaks |

## Where the code is narrower than its comments

- The comment at `internal/harness/filter/registry.go:148` says that conditional blocks can be
  nested. The outer tag is paired with the first closing tag. A block nested in the first branch has
  its intended meaning exactly under the condition of `Blocks.NestedIff`, which needs the outer
  condition to hold; one nested in the else branch exactly under that of `Blocks.ElseNestedIff`, which
  needs it to fail. So neither is safe for all variables (`Blocks.NestingIsUnsafe`,
  `Blocks.ElseNestingIsUnsafe`). These lemmas are about texts that hold no tag when they are joined;
  `Blocks.SplitTagIsRead` shows that contents without tags can form one. A tag whose first `}`
  belongs to the closing tag makes a round panic, exactly as `Blocks.CrashIff` says, and with it the
  loop, also after well-formed blocks (`Blocks.LoopPanics`).
- The two-pass substitution protects values from being expanded again, but text between two
  references can imitate a token. `Substitution.TwoPassIff` is the exact condition, for all texts and
  all pairs of map orders; `Substitution.MarkerCollision` is a failing family with its orders.
- `SendDMail` returns nil when its flush delivered any row. Other processes can stage and flush between
  its Stage and its BEGIN: `Outbox.SendAmidOthers` says exactly for which tables at BEGIN a nil result
  means that the own mail was delivered, and for which an error means that it was not. No condition on
  the table before the call is enough (`Outbox.AnotherStageMasks`); without interference
  `Outbox.SendMeansDeliveredIff` gives one.
- RFC3339Nano drops trailing zeros of the fraction, so text order is not time order. `Calendar.FormatOrder`
  names exactly the pairs that are reversed; `RunLock.EarlyRemovalHappens` shows that a lease can be
  taken 999999999 nanoseconds early, and `RunLock.LeasesAreExclusive` that it is never a second or more.
- The watermark comment at `internal/eventsource/store_file.go:92-97` leaves overlapping numbers to
  the caller. `Projection.ReplayIsExactIff` is the exact condition, `Projection.RestoreDrift` the
  exact error. Timestamps that merely do not run against sequence numbers are not enough
  (`Projection.TiedEventsSwap`).
- An append can write its event and then report an error, so that the recorder keeps its old cause.
  `Recorder.ChainsAreUnbrokenIff`: a session's chain is unbroken if and only if no recorder of the
  session wrote again after such an append without being opened anew.
- The insight writer promises that appending is idempotent by title; it is exactly for nonempty
  single-line titles (`InsightLedger.AppendTwiceIff`).
- The two wave read models differ when a failing report follows a success or a report precedes its
  specification, exactly as `WaveEvents.ModelsAgreeIff` says.

## Model

| member | source | states |
|---|---|---|
| Blocks.OneRound | internal/harness/filter/registry.go:150-189 | A round of the conditional loop that goes on leaves a text at least eleven characters shorter, so the loop ends on every template. |
| Blocks.ProcessConditionals | internal/harness/filter/registry.go:149-190 | The loop computes the fixpoint of its rounds, or panics where a round slices with inverted bounds. |
| Template.ExpandTemplate | internal/harness/filter/registry.go:128-144 | Panics exactly when the conditional loop does; otherwise the result comes from the two passes for some pair of unrelated iteration orders, and it is the simultaneous substitution whenever keys, values and text are clean and nothing is forged. |
| Substitution.TwoPassIsSimultaneous | internal/harness/filter/registry.go:133-143 | For all pairs of iteration orders the two passes equal one left-to-right simultaneous substitution, if keys, values and text are clean and no text between two references can be taken for the inside of a token. |
| Substitution.TwoPassIff | internal/harness/filter/registry.go:133-143 | The two passes are one simultaneous substitution for all pairs of iteration orders if and only if nothing in the text is forged; keys do not hold the marker. |
| Substitution.UnmarkedIsUnforged | internal/harness/filter/registry.go:136 | A result without the marker text means that nothing is forged. |
| Substitution.SubstIsStructural | internal/harness/filter/registry.go:127-143 | On printed segments the simultaneous substitution replaces exactly the bound references by their values verbatim; inserted values are never expanded again. |
| Blocks.ConditionalsFrom | internal/harness/filter/registry.go:146-190 | The loop on a printed sequence of unnested blocks renders each block by its own condition, after any prefix that is already rendered. |
| Blocks.ConditionMeans | internal/harness/filter/registry.go:168-188 | An unbound key and the values "" and "false" choose the else branch, every other value the first branch. |
| Template.ExpandIsStructural | internal/harness/filter/registry.go:127-190 | A well-formed template never panics, and whatever the iteration orders its expansion is the structural rendering followed by simultaneous substitution. |
| Template.TemplateRenders | internal/harness/filter/registry.go:127-190 | For a template given as a tree of text, references and conditionals: no panic, and whatever the iteration orders the result is the chosen branches with every bound reference replaced by its value. |
| Blocks.CrashIff | internal/harness/filter/registry.go:155-168 | A round panics if and only if the first brace after the opening tag is the one that ends the first closing tag. |
| Blocks.LoopPanics | internal/harness/filter/registry.go:149-190 | The whole loop panics on any well-formed blocks followed by such a tag. |
| Blocks.NestedIff | internal/harness/filter/registry.go:146-189 | One block in the first branch of another, each with an optional else branch, is rendered as intended if and only if the outer condition holds and either the inner one holds or the outer else branch equals the inner one followed by the rest. |
| Blocks.ElseNestedIff | internal/harness/filter/registry.go:146-189 | One block in the else branch of another, with an optional else branch of its own, is rendered as intended if and only if the outer condition fails and either nothing follows the inner block or the inner block's last branch is the chosen one. |
| Blocks.NestingIsUnsafe | internal/harness/filter/registry.go:148-189 | Every block nested in a first branch is rendered wrongly for some variables. |
| Blocks.ElseNestingIsUnsafe | internal/harness/filter/registry.go:148-189 | Every block nested in an else branch is rendered wrongly for some variables. |
| Blocks.SplitTagIsRead | internal/harness/filter/registry.go:168-188 | Tag-free contents that form a tag when the inner tags between them are removed are read as that tag. |
| Substitution.MarkerCollision | internal/harness/filter/registry.go:136-142 | For any two different clean keys there is a text and a pair of orders that give a wrong result. |
| JsonExtract.ExtractJSON | internal/session/json_sanitize.go:51-97 | Returns the value cut at the first bracket of either kind, or the whole text if there is none. |
| JsonExtract.ScanValue | internal/session/json_sanitize.go:66-96 | The scanning loop with its three variables returns exactly what the step-by-step bracket automaton consumes from the start on, the rest of the text if it never stops. |
| JsonExtract.StringIsNeutral | internal/session/json_sanitize.go:69-85 | No JSON string, whatever brackets, quotes and escapes it holds, changes the scanner's depth or leaves it inside a string. |
| JsonExtract.ValueIsNeutral | internal/session/json_sanitize.go:66-95 | Scanning any printed JSON value inside brackets brings the scanner back to the same depth without stopping, for both kinds of bracket. |
| JsonExtract.ExtractPrinted | internal/session/json_sanitize.go:48-97 | For every valid object or array, every bracket-free prefix and every suffix, extraction returns exactly the printed value. |
| JsonExtract.FencedIsStripped | internal/session/json_sanitize.go:30-46 | A fenced block with any tag line and surrounding spaces is reduced to its trimmed contents, even when these hold further fences. |
| JsonExtract.SanitizeFenced | internal/session/json_sanitize.go:13-46 | A fenced value, with any tag line and spaces around it, is returned exactly if the parser accepts it, and is an error otherwise. |
| JsonExtract.SanitizeProse | internal/session/json_sanitize.go:18-27 | For a value in prose without brackets before it: the trimmed reply if it parses as a whole, else exactly the value if that parses, else an error. |
| Calendar.DateTextIncreases | internal/eventsource/store_file.go:47 | Date texts have one length and their text order is the order of the days. |
| Calendar.FormatMeans | internal/session/run_lock_store.go:75-83 | The text of an instant shows its UTC date, its time of day in hours, minutes and seconds, and "Z" or a point and the nanoseconds without zeros at the end. |
| Calendar.NextDate | internal/eventsource/store_file.go:47 | The date of every day is the civil date after that of the day before, with the Gregorian months and leap years. |
| Calendar.FormatOrder | internal/session/run_lock_store.go:75-83 | Text order of two RFC3339Nano instants is time order except exactly when both lie in one second and one trimmed fraction is a proper prefix of the other, where it is reversed. |
| Calendar.FormatWithinSecond | internal/session/run_lock_store.go:127-134 | A text comparison is never wrong by a second or more. |
| RunLock.RunLockStore.TryAcquire | internal/session/run_lock_store.go:68-105 | Without interference: the stale row goes, the row is inserted if the key is then free, the answer names the holder of the row, other keys are untouched. |
| RunLock.RunLockStore.Release | internal/session/run_lock_store.go:108-123 | Only the holder's own row is deleted, and an error is reported if and only if there was none. |
| RunLock.RunLockStore.IsHeld | internal/session/run_lock_store.go:127-140 | Reports a row that has not expired by text comparison, and its holder. |
| RunLock.CleanAndInsert | internal/session/run_lock_store.go:73-92 | In the interleaved model, a call that is not disturbed gets the lease, until its expiry, exactly when the key has no row or its row's expiry sorts before now; otherwise nothing changes but the end of the call. |
| RunLock.OtherSteps | internal/session/run_lock_store.go:107-123 | Of the other steps a release frees the key and marks exactly the holder's grants of it, and a call that dies leaves the table alone. |
| RunLock.LeasesAreExclusive | internal/session/run_lock_store.go:68-105 | Over all interleavings of the clock and the separate statements: an unreleased lease with a second to go is the row in the table and is reported as held, no two such leases share a key, and no key was granted again a second or more before such a lease's expiry. |
| RunLock.LateReleaseIsHarmless | internal/session/run_lock_store.go:107-123 | In every reachable state a release leaves a lease with a second to go in the table and reported as held if and only if it names another key or another holder; a successor with the same holder loses its row. |
| RunLock.StaleLeaseIsTaken | internal/session/run_lock_store.go:66-92 | A lease that expired a second ago never blocks a new holder and is not reported as held. |
| RunLock.StaleIff | internal/session/run_lock_store.go:73-76 | The clean-up removes a row if and only if it has expired and the pair is not anomalous, or it has not expired and the pair is. |
| RunLock.EarlyRemovalHappens | internal/session/run_lock_store.go:73-76 | The bound of one second cannot be improved: in every second there is a lease that is removed 999999999 nanoseconds early. |
| Outbox.FlushedMeansDelivered | internal/session/outbox_store.go:101-236 | In every reachable state, whatever writes fail and wherever crashes and rollbacks fall, a flushed row has exactly its data in both directories, what is in outbox/ went through archive/, and retry counts stay within three. |
| Outbox.ArchiveFirst | internal/session/outbox_store.go:187-203 | At the very step that changes a file of outbox/, archive/ already holds the same content. |
| Outbox.NoLoss | internal/session/outbox_store.go:96-300 | Until it is staged again a staged content stays in the table or is delivered, unless its row was purged after three counted attempts. |
| Outbox.RowLeaves | internal/session/outbox_store.go:240-300 | A row leaves the table only if it is flushed, with both files in place, and pruned, or if it has exactly three counted attempts and is purged. |
| Outbox.ThreeFlushesSuffice | internal/session/outbox_store.go:80-82 | Without re-staging, after three committed flushes and one more for every retry update whose failure was ignored, every row is flushed or has three attempts. |
| Outbox.FlushMeans | internal/session/outbox_store.go:152-228 | Row by row: below three attempts an unflushed row is flushed if both files are written, and has one attempt more if a write fails and the update works; all others stay; when the flush succeeds and what it counts. |
| Outbox.FoldSettles | internal/session/outbox_store.go:185-228 | The flush loop, in any row order, settles every pending row by its own fate, counts exactly the deliveries, and fails as a whole if and only if some item's fate is fatal. |
| Outbox.OutboxStore.StageMail | internal/session/outbox_store.go:97-115 | Staging is the upsert step: the row holds the new data, unflushed, with no attempts. |
| Outbox.OutboxStore.SelectPending | internal/session/outbox_store.go:152-175 | Exactly the pending rows, each once, with their data. |
| Outbox.OutboxStore.FlushItem | internal/session/outbox_store.go:187-208 | One item's file writes and updates are a run of atomic steps for every fate, and the row is settled by that fate. |
| Outbox.OutboxStore.Flush | internal/session/outbox_store.go:121-236 | A flush is a run of the transition system; it reports success if and only if the connection, BEGIN and SELECT work and either nothing is pending or no fate is fatal and COMMIT works; then it settles every pending row and returns the number of deliveries; otherwise the table is unchanged. |
| Outbox.OutboxStore.PruneFlushedRows | internal/session/outbox_store.go:240-266 | Afterwards a row is there if and only if it was there unflushed, and unchanged; returns how many went; a failing vacuum is reported with the count. |
| Outbox.OutboxStore.DeadLetterCount | internal/session/outbox_store.go:277-285 | The number of rows that a purge would remove; zero if and only if a purge would change nothing. |
| Outbox.OutboxStore.PurgeDeadRows | internal/session/outbox_store.go:289-300 | Afterwards a row is there if and only if it was there flushed or with fewer than three attempts, and unchanged; the table shrinks by the returned number. |
| Outbox.OutboxStore.SendDMail | internal/session/dmail.go:53-89 | Without other processes: stages, announces, flushes and records, stops at the first error, and reports an error also if the flush delivers nothing at all; the table is settled accordingly. |
| Outbox.SendDeliversAlone | internal/session/dmail.go:67-78 | Without other processes, a successful send delivered its own mail at the first attempt when no other mail was pending. |
| Outbox.NilMeansDeliveredIff | internal/session/dmail.go:67-78 | For all fates of all mails, a nil result means that the own mail is delivered if and only if, in the table at BEGIN, it has been delivered already or no other mail is pending. |
| Outbox.ErrorMeansUndeliveredIff | internal/session/dmail.go:67-78 | For all fates of all mails, an error of the flush means that the own mail is not marked as delivered if and only if another process had not delivered it before BEGIN. |
| Outbox.SendAmidOthers | internal/session/dmail.go:53-78 | For all steps of other processes between Stage and BEGIN that do not stage the same name: the row at BEGIN holds the mail and is flushed only with both files in place, or it was delivered and pruned, or purged as dead; and both conditions above apply to that table. |
| Outbox.AnotherStageMasks | internal/session/outbox_store.go:117-140 | From every table, another process that stages a mail before BEGIN makes a nil result possible without the own delivery. |
| Outbox.SendMeansDeliveredIff | internal/session/dmail.go:67-78 | Without other processes, a nil result means that the own mail was delivered, for all fates of all mails, if and only if no other mail was pending before the call. |
| Worktree.PathsDiffer | internal/session/worktree.go:91-93 | Different workers have different path names, for any number of workers. |
| Worktree.NameIs | internal/session/worktree.go:91-93 | A worker's directory is "worker-" and its number, counted from one, with leading zeros only up to three digits. |
| Worktree.PoolConserves | internal/session/worktree.go:78-224 | Over all interleavings and outcomes, idle paths, paths in hands and drained paths partition the created paths without duplicates; a path has at most one holder. |
| Worktree.SendNeverBlocks | internal/session/worktree.go:107-190 | Whoever has a path in hand can always send it: the channel is never full, also after Shutdown. |
| Worktree.CancelMeans | internal/session/worktree.go:113-224 | A call is cancelled only while it waits for a path, and Shutdown ends only when no path is idle. |
| Worktree.RestIsFull | internal/session/worktree.go:146-194 | When every call has returned, every holder has released and nothing was drained, all created paths are idle again, whatever failed on the way. |
| Worktree.WorktreePool.Init | internal/session/worktree.go:78-112 | Creates the first worktrees up to the first failing command and reports success if and only if all were created; a run of the transition system. |
| Worktree.WorktreePool.ForceRecycle | internal/session/worktree.go:169-192 | On every branch the path goes back on the channel. |
| Worktree.WorktreePool.AcquireContext | internal/session/worktree.go:119-139 | Returns a healthy or recycled path that left the channel, or an error with all paths back on the channel. |
| Worktree.WorktreePool.Release | internal/session/worktree.go:151-165 | On every branch the path goes back on the channel; an error is reported if and only if both the reset and the recycling failed. |
| Worktree.WorktreePool.Shutdown | internal/session/worktree.go:197-224 | Drains exactly the idle paths and reports success if and only if every removal and the pruning worked. |
| Sorting.StableSortIs | internal/eventsource/store_file.go:181-184 | Being sorted and keeping the order within each key determine a stable sort's result. |
| Sorting.FilterSort | internal/eventsource/store_file.go:169-184 | Filtering and stable sorting commute. |
| EventStore.FileEventStore.Append | internal/eventsource/store_file.go:33-80 | An invalid event rejects the whole batch; success if and only if the fault is not reached, and then the day files hold the longer log, for every order of writing the days; a failing write leaves exactly the lines before it, a failing sync exactly the files up to it, and of every day a prefix. |
| EventStore.FileEventStore.LoadEvents | internal/eventsource/store_file.go:131-186 | For every order of reading the day files: the stable timestamp sort of the appended events later than the bound. |
| EventStore.FileEventStore.LoadAll | internal/eventsource/store_file.go:83-85 | The stable timestamp sort of everything appended, as if there were one file. |
| EventStore.FileEventStore.LoadSince | internal/eventsource/store_file.go:88-90 | Exactly the events with a timestamp strictly after the given time, all for the zero time, in the order of LoadAll. |
| EventStore.FileEventStore.LoadAfterSeqNr | internal/eventsource/store_file.go:98-113 | The part of LoadAll above the number, sorted stably by number. |
| EventStore.FileEventStore.LatestSeqNr | internal/eventsource/store_file.go:117-129 | An upper bound of all stored numbers that is attained, or zero. |
| EventStore.DayContents | internal/eventsource/store_file.go:45-49 | All events of one instant lie in the file of its day, in append order, and nowhere else. |
| EventStore.ZeroTimeIs | internal/eventsource/store_file.go:165-169 | The time for which nothing is filtered is the first instant of the year 1. |
| EventStore.InOrderLogIsLoaded | internal/eventsource/store_file.go:82-85 | When timestamps never decrease, loading returns the append order itself. |
| EventStore.OrderedPartIsLoaded | internal/eventsource/store_file.go:181-184 | Any class of events appended in timestamp order is loaded in append order, whatever else was appended in between. |
| Recorder.ResumeFindsTail | internal/eventsource/recorder.go:32-46 | Scanning the loaded events from the end finds the event the session appended last. |
| Recorder.OtherSteps | internal/eventsource/recorder.go:32-53 | Opening a session's recorder, anew or after a restart, starts it at the event its session appended last; closing forgets it. |
| Recorder.ChainsAreUnbrokenIff | internal/eventsource/recorder.go:61-84 | Over all interleavings of recorders, failed appends, appends that report an error after writing, and restarts: a session's events form one causation list, equally one without forks, if and only if no recorder of the session wrote again after such an append without being opened anew. |
| Recorder.ChainsAreUnbroken | internal/eventsource/recorder.go:61-84 | If appends that report an error write nothing, every session's events form one causation list without forks, in every history. |
| Recorder.NumbersAreUnique | internal/eventsource/recorder.go:61-84 | In every history, forked or not, each session's numbers increase, and numbers and IDs are never reused; failures only leave gaps. |
| Recorder.UnreportedWriteForks | internal/eventsource/store_file.go:65-74 | The condition fails for every recorder that goes on at once after a write that is reported as failed. |
| Recorder.SeqCounter.AllocSeqNr | internal/eventsource/seq_counter.go:57-66 | Returns a number above the latest one and makes it the latest. |
| Recorder.LatestIsHighest | internal/eventsource/seq_counter.go:55-94 | Over every history the numbers handed out increase and stay at or below the latest number, which is the last one handed out unless the counter was raised. |
| Recorder.SeqCounter.InitializeAt | internal/eventsource/seq_counter.go:82-94 | Afterwards the next number is beyond the start, and the counter has not gone back. |
| Recorder.SessionRecorder.constructor | internal/eventsource/recorder.go:32-53 | Resumes after the last loaded event of its session, or at the start of a chain. |
| Recorder.SessionRecorder.Record | internal/eventsource/recorder.go:63-84 | Allocation then append, as two steps of the transition system, for every fault of the store; on success exactly the stamped event is added and becomes the next cause; a failing write only consumes a number, and a failing sync leaves the recorder behind its event. |
| Projection.ProjectionApplier.Apply | internal/session/projection_applier.go:25-28 | The state moves by one event's effect. |
| Projection.ProjectionApplier.Rebuild | internal/session/projection_applier.go:31-37 | The state is the projection of the given events, whatever it was before. |
| Projection.CountersFrom | internal/session/projection.go:48-105 | From any state, each counter of the projection grows by the number of events of its kind, and the flushed count by the sum over the flush events. |
| Projection.ProjectionMeans | internal/session/projection.go:40-105 | From nothing, each counter is the number of places in the log with its event, and a field that no event sets has its zero value. |
| Projection.LatestFields | internal/session/projection.go:49-78 | The last-expedition fields, the last issue and the gradient level are those of the latest event that sets them. |
| Aggregate.ProjectedStreak | internal/session/projection.go:48-71 | The projection's failure streak is the number of failed results since the last success, parse errors not counted. |
| Projection.RebuildAndSave | internal/usecase/rebuild.go:15-52 | The projector holds the full replay, and the snapshot pairs it with the counter's watermark, or with zero if the counter cannot be read; failed loads change nothing, failed saves leave no snapshot. |
| Projection.Restore | internal/session/projection_applier.go:45-48 | A restored snapshot followed by the store's tail above its number. |
| Projection.ReplayIsExactIff | internal/eventsource/store_file.go:92-113 | Snapshot events followed by the tail are the whole log in replay order if and only if the cut is clean: numbers split at the watermark, no later event is older, and the later events are in number order when read by time. |
| Projection.SnapshotPlusTail | internal/usecase/rebuild.go:30-52 | A snapshot taken while no Record is under way, restored at any later point of any continuation, gives the state of a full replay, if the log read by time is in number order. |
| Projection.RestoreDrift | internal/eventsource/store_file.go:94-97 | For every log and watermark, in each of the eight counters: earlier events numbered above the watermark are counted twice, later ones numbered at or below it are missed, nothing else is miscounted. |
| Projection.OverlappingRecordIsLost | internal/usecase/rebuild.go:16-41 | A Record that took its number before the watermark was read and was stored after the log was loaded is missing from every later restored state: whatever else is stored, each counter of its kind is too small, and all eight counters fall short by exactly the events stored late. |
| Projection.TiedEventsSwap | internal/eventsource/store_file.go:109-111 | Two events of one instant stored against number order are replayed in different orders by the full replay and by the tail, with different results. |
| Waves.ProjectWaveState | internal/harness/policy/wave_projection.go:17-127 | The two passes give, in the order of first specifications, each step's own fold over the mails. |
| Waves.ProjectionMeans | internal/harness/policy/wave_projection.go:17-127 | In terms of the mails alone: one wave for each specified one, in the order of the first specifications, with that mail's title and steps, a repeated step as last defined, one attempt per report and the status below. |
| Waves.StepOutcome | internal/harness/policy/wave_projection.go:73-110 | A step is completed if and only if the last report on it has a blank or low severity, and failed if and only if it has any other and no later mail is feedback on the step. |
| Waves.TouchedSteps | internal/harness/policy/wave_projection.go:66-111 | After the second pass each step is the fold of the reports and feedback about that step alone. |
| Waves.StepHistory | internal/harness/policy/wave_projection.go:73-110 | A step has one attempt per report; it is completed if its last report is a success, failed if that is a failure without later feedback, and pending otherwise. |
| Waves.RegisteredWaves | internal/harness/policy/wave_projection.go:28-64 | Exactly the specified waves are registered, each as its first specification defines it, in the order of these. |
| Waves.SpecsMayComeFirst | internal/harness/policy/wave_projection.go:28-30 | The projection equals its value on the specifications followed by all other mails. |
| Waves.InterleavingIsIrrelevant | internal/harness/policy/wave_projection.go:28-111 | Two mail sequences with the same specifications in order and the same other mails in order have the same projection. |
| Waves.ComputePendingSteps | internal/domain/wave_projection.go:39-47 | The steps that are not completed, in order. |
| Waves.IsComplete | internal/domain/wave_projection.go:29-36 | True if and only if the wave has steps and no pending ones. |
| Waves.ExpeditionTargetsFromWaves | internal/harness/policy/expedition_target.go:9-33 | One target for each pending step of each wave, in order. |
| Waves.TargetsMean | internal/harness/policy/expedition_target.go:9-33 | The targets are those of all steps that are not completed, once each, by wave and then by step, with ID, titles and acceptance from the wave and the step. |
| WaveEvents.WaveStepProgress.Apply | internal/domain/wave_step_progress.go:36-90 | One event's effect on the whole model; every wave in the order keeps its entry. |
| WaveEvents.WaveStepProgress.PendingTargets | internal/domain/wave_step_progress.go:99-120 | One target for each pending step in registration order and definition order. |
| WaveEvents.EventsMean | internal/domain/wave_step_progress.go:25-90 | In terms of the events alone: a wave for each registered one, in that order, with the steps of its first registration, each completed if and only if a successful or skipped expedition on it comes later. |
| WaveEvents.EventTargetsMean | internal/domain/wave_step_progress.go:99-120 | The targets are those of the registered steps that are not completed, with ID and recorded title. |
| WaveEvents.TitlesMean | internal/domain/wave_step_progress.go:49-60 | Registering a wave records the titles of its steps and changes no others. |
| WaveEvents.EventModelIs | internal/domain/wave_step_progress.go:25-90 | In terms of the mails behind the events: first specification defines the wave, and a step is completed exactly when a success was reported after it. |
| WaveEvents.CompletedIff | internal/harness/policy/wave_projection.go:87-110 | In the mail model a step is completed exactly when its last report is a success. |
| WaveEvents.ModelsAgreeIff | internal/domain/wave_step_progress.go:92-120 | Both models hand out the same targets in the same order if and only if for every specified step "some success after the specification" and "the last report is a success" coincide. |
| WaveEvents.WellOrderedModelsAgree | internal/harness/policy/expedition_target.go:7-33 | They agree whenever specifications precede reports and no failure follows a success of the same step. |
| Insight.SortKeys | internal/domain/insight.go:70-74 | Exactly the map's keys, in ascending order. |
| Insight.SortedKeysUnique | internal/domain/insight.go:68-74 | The printed order does not depend on the iteration order of the map. |
| Insight.EntryMarkdown | internal/domain/insight.go:58-85 | The text of an entry: heading with title, blank line, one line for each axis in order, one line for each extra field in the order of its keys. |
| Insight.ParsedIsFaithful | internal/domain/insight.go:111-175 | Whatever the text, the parser returns only entries that survive printing. |
| Insight.BodyRoundTripIff | internal/domain/insight.go:57-178 | Printing a body and parsing it returns the same entries if and only if every entry is faithful: titled, single-line values, extra keys nonempty, free of stars, of axis names and of lines that read as headings, extra values nonempty. |
| InsightLedger.FormatEntry | internal/domain/insight.go:58-80 | The printed entry with its extra fields in sorted order; alone in a body it is parsed back to the same entry if and only if it is faithful. |
| InsightLedger.MarshalBody | internal/domain/insight.go:101-107 | The entries in order with sorted extra fields and the right separators; the written body is parsed back to the same entries if and only if all of them are faithful. |
| InsightLedger.SplitIff | internal/domain/insight.go:95-120 | Splitting a marshalled file returns its header and body if and only if the header holds no delimiter. |
| InsightLedger.InsightWriter.Append | internal/session/insight_writer.go:29-80 | For every file and entry: a file without its delimiters or a failed write changes nothing and is reported, a known title changes nothing and succeeds, otherwise the file is the marshalled form of the old entries and the new one. |
| InsightLedger.InsightWriter.Read | internal/session/insight_writer.go:83-94 | Reading a ledger returns exactly its entries. |
| InsightLedger.AppendKeepsLedger | internal/session/insight_writer.go:26-80 | Appending a storable entry to a ledger leaves a ledger with at most that entry more. |
| InsightLedger.AppendTwiceIff | internal/session/insight_writer.go:26-58 | For every file and every entry, appending the entry again changes nothing if and only if its title is nonempty and on one line. |
| InsightLedger.FileIsLedger | internal/session/insight_writer.go:14-80 | At every moment of every history of appends of storable entries the file is read back as the accepted entries, first one of each title, in order of acceptance. |
| InsightLedger.LedgerKeepsFirsts | internal/session/insight_writer.go:51-58 | After any sequence of appends the titles are pairwise distinct and the entries are exactly the first ones of their titles, in order. |
| ReviewGate.StatusLineIsPlain | internal/domain/review_status.go:18-34 | No status line, for any counters, can be mistaken for the end of the section. |
| ReviewGate.SectionSays | internal/domain/review_status.go:18-34 | The section holds "**SKIPPED**", "**PASSED**" or "**NOT RESOLVED**" exactly in the case of a skipped, a passed or an unresolved gate. |
| ReviewGate.ProgressIsShown | internal/domain/review_status.go:27-30 | From a section that is not skipped the cycle and the limit can be read back, in this order. |
| ReviewGate.AppendReplaces | internal/domain/review_status.go:74-86 | The section takes the place of the old one, between the text before it and the text from the next heading on. |
| ReviewGate.LastWriterWins | internal/domain/review_status.go:73-86 | Rewriting twice equals rewriting once with the second section, for every body and all statuses. |
| ReviewGate.SurroundingsSurvive | internal/domain/review_status.go:73-86 | The text in front of the gate and from the next heading on is unchanged. |
| Breaker.CircuitBreaker.TryAllow | internal/platform/circuit_breaker.go:73-108 | A round grants when the circuit is not open or the deadline has passed, moving to half-open, and otherwise sleeps until the deadline on the current channel. |
| Breaker.CircuitBreaker.RecordProviderError | internal/platform/circuit_breaker.go:132-157 | A tripping error opens the circuit, doubles the capped backoff and replaces the channel; others change nothing. |
| Breaker.CircuitBreaker.RecordSuccess | internal/platform/circuit_breaker.go:160-172 | Closes the circuit and resets the backoff; the channel is replaced if and only if the circuit was not closed. |
| Breaker.BackoffAndGrants | internal/platform/circuit_breaker.go:67-157 | In every history the backoff is 30 seconds times two to the number of trips since the last close, capped at ten minutes, and every grant since the latest trip came after its deadline unless a success closed the circuit. |
| Breaker.TripHolds | internal/platform/circuit_breaker.go:73-157 | After a trip in any run, and until the next report, no grant comes before the provider's reset time or, without one, before the time of the trip plus the backoff, and a check after that is granted. |
| Breaker.SleeperComesThrough | internal/platform/circuit_breaker.go:73-121 | A caller refused before the deadline sleeps until it on the current channel, and is granted when it checks again after it. |
| Breaker.SuccessCloses | internal/platform/circuit_breaker.go:67-172 | After a success in any run the circuit is closed, every caller who is awake is granted, and the backoff starts from thirty seconds again. |
| Breaker.NoLostWakeup | internal/platform/circuit_breaker.go:57-121 | A caller still asleep on an open channel has missed no close and no re-trip, and its timer fires at the current deadline or at most a second later. |
| Breaker.ChangesWakeSleepers | internal/platform/circuit_breaker.go:57-62 | Every trip and every close closes the channel that sleepers watch. |
| Reserve.ReserveParty.NextAvailableModel | internal/harness/policy/reserve.go:117-135 | The first eligible model, primary before reserves, or none. |
| Reserve.ReserveParty.OnRateLimitDetected | internal/harness/policy/reserve.go:137-151 | A hit is counted, the active model cools for thirty minutes, and the first eligible model takes over if there is one. |
| Reserve.ReserveParty.ForceReserve | internal/harness/policy/reserve.go:172-182 | The same switch without counting a hit. |
| Reserve.ReserveParty.TryRecoverPrimary | internal/harness/policy/reserve.go:155-168 | Back to the primary if and only if its cooldown is over. |
| Reserve.FirstEligibleIs | internal/harness/policy/reserve.go:114-135 | No model is found if and only if none is eligible; a found one is eligible and everything before it is not. |
| Reserve.SwitchMeans | internal/harness/policy/reserve.go:114-182 | A switch cools the active model for thirty minutes and hands over to the first configured model that is neither active nor cooling, if there is one. |
| Reserve.ActiveModelIsBest | internal/harness/policy/reserve.go:137-182 | Over any history with nondecreasing time the active model is configured, and it is cooling only if at its latest hit every other configured model was cooling too. |
| Reserve.StartsBest | internal/harness/policy/reserve.go:32-43 | A new party satisfies this. |
| Aggregate.ExpeditionAggregate.CompleteExpedition | internal/domain/expedition_aggregate.go:76-104 | An unknown status is refused without effect; otherwise the streak moves and one completion event with exactly the reported fields is produced. |
| Aggregate.CompletionReachesWaves | internal/domain/wave_step_progress.go:62-90 | The event of a successful or skipped expedition completes exactly its own step of its own wave in the event read model; that of any other expedition changes nothing. |
| Aggregate.ReactionsHappen | internal/domain/expedition_aggregate.go:106-208 | After any run, a question for escalation fires exactly when none has fired and the failures since the last success reach the threshold, and a retry is granted exactly for a retryable class with fewer than two since the reset. |
| Aggregate.ExpeditionAggregate.ShouldEscalate | internal/domain/expedition_aggregate.go:109-115 | Fires at the threshold and marks the streak as escalated. |
| Aggregate.ExpeditionAggregate.DecideRecovery | internal/domain/expedition_aggregate.go:189-208 | Retries while attempts remain for a retryable class and halts otherwise. |
| Aggregate.StreaksAgreeIff | internal/domain/expedition_aggregate.go:93-101 | In every history the aggregate's streak is at least the replayed projection's, with equality if and only if no parse error occurred since the last success. |
| Aggregate.BoundedReactions | internal/domain/expedition_aggregate.go:106-213 | At most one escalation between two successes and at most two retries between two resets. |

## Left out

- RunLock.RunLockStore.TryAcquire: describes the call without interference and without failing statements; with interference the final query for the holder may find no row, which the source reports as an error and the interleaved model treats as a call that did not acquire.
- EventStore.FileEventStore.Append: a failing write leaves whole lines; torn or corrupt lines are not modelled.
- Blocks.NestedIff: one block in one branch of another; deeper nesting and blocks in both branches are not characterised.
- EventStore.FileEventStore.LoadEvents: read errors are left out; the sort of the file names does not matter, because the result is proved for every reading order.
- Worktree.WorktreePool.Init: is called once per pool; a second Init would create the same paths again and overfill the channel.
- Worktree.WorktreePool.Release: is called by a process that holds the path; releasing a path twice would put it on the channel twice.
- Worktree.WorktreePool.AcquireContext: a call that finds an empty channel waits in the interleaved model, while the method describes calls that return; the source's choice between a waiting path and a cancelled context is the parameter `cancelFirst`.
- Recorder.SessionRecorder.Record: always has a sequence counter; recorders without one (before the cutover) assign no numbers, and the 64-bit width of numbers is not modelled.
- Recorder.ChainsAreUnbroken: assumes one live recorder per session, fresh event IDs, first events without a cause, and timestamps that do not decrease within a session; Recorder.ChainsAreUnbrokenIff and Recorder.NumbersAreUnique assume the same.
- Recorder.ResumeFindsTail: the expedition emitter (`internal/usecase/emitter.go`), whose batches share one cause, is not part of this model.
- Aggregate.ExpeditionAggregate.CompleteExpedition: the bug report text of the event is left out, because no read model uses it.
- Projection.Restore: the source provides the two halves, restoring a serialized state and loading the tail; no caller in the repository puts them together yet. Payload and state serialization is opaque.
- Substitution.TwoPassIff: keys that themselves hold the marker text are left out of the equivalence; there a torn token could be the token of another key.
- InsightLedger.FileIsLedger: histories with entries that cannot be stored faithfully are left out; what one such Append writes is InsightWriter.Append, and when it repeats is AppendTwiceIff.
- InsightLedger.InsightWriter.Read: header decoding errors are left out.
- InsightLedger.InsightWriter.Append: the YAML header is opaque text, and a header that does not parse and a lock that cannot be taken are left out.
- Breaker.CircuitBreaker.TryAllow: the loop around it, which sleeps and retries, is the Check and Wake steps of the interleaved model; cancellation only wakes a caller.
- Aggregate.ExpeditionAggregate.DecideRecovery: the class of the failure reasons is a parameter, and the cooldown durations are left out.
- Timestamps are nanoseconds in one time zone within the years 0000 to 9999; reading the clock is a parameter.
- SQLite, fsync, rename and directory listing are atomic steps on maps; a ROLLBACK that cannot be sent because the context is cancelled is not modelled.
- Texts are sequences of characters; the byte scanners do not look inside multi-byte characters, whose bytes are never brackets, quotes, backslashes or line ends.
- Hashing, UUIDs, logging, tracing, metrics, the command line, status output, MCP dispatch and the external programs (git, gh, shell, dev server, notifier) are left out; only success or failure of a command matters.
- Pruning by file age and other programs that delete outbox files are left out; they invalidate the directory invariants by design.
- The remaining policy helpers (cutover, claim registry, gradient gauge, retry budget, strategy cycle) would only add one-branch members.
