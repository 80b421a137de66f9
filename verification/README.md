# aikey-proxy: a Dafny model of its hard core

aikey-proxy is a local gateway in front of LLM providers. It numbers every usage event, keeps it in a
write-ahead log (WAL) until a collector confirms it, feeds request content to a detector child over a
pipe, extracts token counts from streamed responses, and walks a chain of fallback upstreams. This
project models the parts where something can silently go wrong over a long run, and proves what they
keep.

| file | what it models |
|---|---|
| `SeqAlloc.dfy`, `LaneAlloc.dfy` | durable reserve-ahead numbering, and its split into per-organization lanes |
| `Outbox.dfy`, `Delivery.dfy`, `DeliveryLoss.dfy`, `DeliveryProgress.dfy` | the two upload cursors and the prune rules; the whole client, on files that can tear, against an abstract collector; exactly when a record is lost, and how one gets through |
| `Drain.dfy` | one drain pass of the usage pump |
| `Reconcile.dfy` | gap reconciliation: classification, re-send budget, write-off, convergence |
| `Text.dfy`, `DeadLetter.dfy` | the dead-letter file, byte for byte |
| `ContentWal.dfy` | rotation, eviction and pruning of the content outbox |
| `Pipe.dfy`, `PipeProgress.dfy` | frames from concurrent writers on one child pipe, across spawn generations; what gets through and who is turned away |
| `FilterPool.dfy`, `ContentVersion.dfy` | dispatch around dead workers; the pool's cache epoch |
| `Accumulator.dfy`, `AnthropicStream.dfy` | one-pass token extraction against whole-body scans |
| `Chain.dfy`, `ChainMeaning.dfy`, `ChainServe.dfy`, `Cooldown.dfy`, `Activity.dfy` | candidate selection, the attempt loop, cooldown and switch-back |
| `Common.dfy` | types the other files share |

An object the program updates in place is a class whose methods are proved against a function on the
object's abstract value; a protocol is a step function over events, and the main results hold for every
sequence of events. Disk writes, network answers, clocks, health bits and decoders enter as parameters or
events with no restriction on their values. A WAL or dead-letter write may stop at any byte, and a crash may cut a
WAL file at any byte; a state write is atomic and a failed one leaves the old value;
a closed pipe accepts nothing and the first write error of the buffered writer is sticky.

## Where the code does less than its comments say

The lemmas named with each of these show it, at an input or for a whole family of them, and say when the
promise does hold.

- A record appended behind a line without its newline cannot be read, and a prune that sees only legible
  lines deletes it, settled or not (`DeliveryLoss.TornTailLoses`). It is safe while no write lands behind
  such a line (`DeliveryLoss.NoGlueNoLoss`). At any state, an unsettled record can be lost exactly when a file
  fit for pruning holds it illegibly and above its legible numbers (`DeliveryLoss.LossPossibleIff`). One that a
  higher legible number covers is accounted for after all, so landing on a torn tail is not by itself a loss
  (`Delivery.PruneSafety`).
- A batch that fails retryably is offered again by the next drain only if no later batch of the same pass
  ended; otherwise it falls below the sent cursor (`Drain.RetryOvertaken`, `Drain.StillDue`).
- Lanes whose sanitized names coincide share a state file and hand out the same number twice
  (`LaneAlloc.SharedFileReuses`, `LaneAlloc.NeverReuseIffSeparate`).
- An empty gap listing ends a pass before the re-send budget is pruned, so a number that left the missing
  set keeps its count and may be given up on its return (`Reconcile.HealedButGivenUp`,
  `Reconcile.EmptyListingKeepsBudget`). The budget table is kept per source, so two organizations on one
  source charge each other's equal numbers (`Reconcile.OrgsShareBudget`) and clear each other's different ones,
  so that neither is ever written off (`Reconcile.OrgsPostponeWriteOff`). When it counts an organization's own
  re-sends is in `Reconcile.OwnBudgetIff`; with one organization the gap closes (`Reconcile.Converges`).
- A dead-letter write that lands behind an unterminated line loses its entry (`DeadLetter.OpenLineLoses`,
  `DeadLetter.WriteAddsEntryIffClean`), and a pass that cannot rewrite the file leaves its deliveries to be
  made again (`DeadLetter.Conservation`).
- Bytes of a failed content write are on disk but not counted against the size limit, and the next entry
  behind them is illegible (`ContentWal.TornBytesAreNotCounted`, `ContentWal.WholeWritesKeepTheLimit`).
- One ill-typed field makes the one-pass accumulator drop a whole frame, where each scan drops only its own
  field (`Accumulator.IllTypedFieldLosesUsage`, `Accumulator.AgreesIffWholeOrSilent`); the scans also strip the
  `data:` prefix in two ways (`Accumulator.StripsAgreeIff`, `Accumulator.DisagreementShows`).
- Pure plus cached input is the OpenAI total only while cached does not exceed the total
  (`Accumulator.CachedAboveTotal`, `Accumulator.TotalIsPureAndCachedIff`); the Anthropic link can fail
  when an event only the legacy scan can decode comes last (`AnthropicStream.IllTypedModelBreaksTheLink`,
  `AnthropicStream.LinkedIff`).
- Two pools with different content share an epoch when one worker's report is the other pool's token list
  (`ContentVersion.ReportOfTokensCollides`, `ContentVersion.EqualEpochsIff`).
- A pin of one member of a route group is matched against all bindings of the key, whatever their group
  (`Chain.MemberPinLeavesGroup`, `Chain.MemberPinGroupIff`).
- A fault cools every hop with the same key, asked or not, and hops of one virtual key without binding ids
  share a key when their credentials are equal (`ChainServe.SharedKeyIff`, `ChainServe.CoolsOnlyTheFailedIff`).
- A hop a request stuck to is first in the try order and is therefore recorded as the primary when it serves,
  so the next request does not stick (`ChainServe.StickinessIsSpent`, `ChainServe.RememberedIff`). And a request
  that does not stick starts at the primary only if that is not cooling (`ChainServe.PrimaryFirstIff`).
- A dead worker is nudged by a request within as many as there are workers, unless it is the only one, which
  `pick` never looks at (`FilterPool.NudgedWithin`, `FilterPool.LoneWorkerIsNotNudged`).
- Taking a cooldown snapshot drops hops in the last second of their spell, not only expired ones
  (`Cooldown.SnapshotIsNeutralIff`).

## Model

| member | source | states |
|---|---|---|
| SeqAlloc.Load | internal/events/seqalloc.go:134-155 | a readable state file yields a non-negative mark; absent and empty read as zero, anything else is an error |
| SeqAlloc.Open | internal/events/seqalloc.go:63-79 | starting succeeds exactly when the file is readable, and the first number to hand out is above the reserved mark |
| SeqAlloc.StateFile.WriteAtomic | internal/events/seqalloc.go:162-192 | a write either replaces the mark or leaves the old one |
| SeqAlloc.SeqAllocator.Next | internal/events/seqalloc.go:84-101 | the next number, unless a new block is due and cannot be written; the new block in the file, and the whole new state |
| SeqAlloc.SeqAllocator.Close | internal/events/seqalloc.go:116-131 | shrinks the mark to the last number used, or leaves everything when the write fails, and when it does which |
| SeqAlloc.NeverReuse | internal/events/seqalloc.go:63-131 | over every order of hand-outs, failed writes, closes, crashes and restarts, all numbers handed out strictly increase and lie above the first mark |
| SeqAlloc.StartsIff | internal/events/seqalloc.go:134-155 | a process starts exactly on a file that is absent, empty or holds a non-negative number |
| SeqAlloc.NothingFromUnreadable | internal/events/seqalloc.go:134-155 | on any other file no run hands out a number or touches the file |
| SeqAlloc.Consecutive | internal/events/seqalloc.go:84-101 | a process whose writes go through hands out its next number and those after it, none left out |
| SeqAlloc.StartsAboveTheMark | internal/events/seqalloc.go:63-101 | on a file that reads as hi those are hi + 1, hi + 2 and so on |
| SeqAlloc.BoundedBurn | internal/events/seqalloc.go:30-40 | between two consecutive hand-outs at most one block is skipped per ungraceful exit, and none when all exits are graceful |
| SeqAlloc.QuietRun | internal/events/seqalloc.go:84-131 | a run that hands nothing out moves the mark only by its ungraceful exits |
| LaneAlloc.SanitizeLane | internal/events/seqalloc_lane.go:67-80 | the loop keeps letters, digits, hyphen and underscore, replaces the rest, and names the empty lane |
| LaneAlloc.PathsApart | internal/events/seqalloc_lane.go:62-80 | two lanes share a path exactly when they sanitize alike, and no lane has the legacy path |
| LaneAlloc.SafeKeysAreSeparate | internal/events/seqalloc_lane.go:67-80 | non-empty keys over the file-name alphabet never collide |
| LaneAlloc.LaneAllocator.For | internal/events/seqalloc_lane.go:110-147 | a new lane is seeded from the legacy mark, durably and with an owed floor, or refused with nothing changed |
| LaneAlloc.LaneOpensIff | internal/events/seqalloc_lane.go:110-147 | a lane can be used exactly when it is open, or its file reads, or it has none and the legacy mark reads and, above zero, can be written |
| LaneAlloc.LaneContinuesLegacy | internal/events/seqalloc_lane.go:110-147 | a lane without a file hands out the number after the legacy mark and owes the server that mark |
| LaneAlloc.LaneAllocator.Next | internal/events/seqalloc_lane.go:150-156 | the whole new state after allocating on a lane, created if need be |
| LaneAlloc.OpenLaneHandsOut | internal/events/seqalloc_lane.go:150-156 | an open lane hands out its next number unless a new block is due and cannot be written |
| LaneAlloc.LaneAllocator.Close | internal/events/seqalloc_lane.go:184-194 | every lane is closed as if alone, whatever the others do and in whatever order, while lanes have their own files |
| LaneAlloc.CallIsLocal | internal/events/seqalloc_lane.go:110-194 | a call changes its own lane only, never another lane's file or the legacy file |
| LaneAlloc.LaneNeverReuse | internal/events/seqalloc_lane.go:67-156 | over every run each lane's numbers strictly increase, and a newly seeded lane stays above all legacy numbers |
| LaneAlloc.LaneAboveLegacyRun | internal/events/seqalloc_lane.go:110-147 | whatever the legacy allocator went through, a lane seeded from the file it left stays above every number it handed out |
| LaneAlloc.FailureIsLocal | internal/events/seqalloc_lane.go:150-156 | whatever happens on one lane, another lane's next hand-out is the same |
| LaneAlloc.SharedFileReuses | internal/events/seqalloc_lane.go:67-80 | two colliding lane names hand out 1, 2, 2 |
| LaneAlloc.NeverReuseIffSeparate | internal/events/seqalloc_lane.go:62-156 | over a set of keys every run from every directory avoids reuse if and only if no two keys sanitize alike |
| Outbox.AdvanceIsMax | internal/events/reporter.go:786-799 | the sent cursor is the maximum of its old value and the numbers marked |
| Outbox.ContentReporter.UploadBatch | internal/events/content_reporter.go:262-336 | for each outcome what becomes of the sent cursor, the confirmed cursor and the failure count, and whether the batch is to be retried |
| Outbox.PruneConfirmedContentWAL | internal/events/content_wal.go:302-333 | a file goes if and only if it can be removed, is not the open one, is readable, has entries, and every entry has a source with a confirmed mark at or above its number; the rest stay in order, each as often as before, and those gone are counted |
| Outbox.PruneConfirmedWAL | internal/events/reporter.go:808-858 | the same for the usage WAL, entry by entry: numbered ones at or below their mark, legacy ones with a seen id, at least one numbered |
| Outbox.PrunedIsConfirmed | internal/events/content_wal.go:302-333 | either rule deletes a numbered entry only at or below its source's confirmed mark |
| Delivery.PruneSafety | internal/events/reporter.go:808-858 | over every run with failures, torn writes, crashes and restarts, each numbered record whose file was pruned is held by the collector as that record, or ledgered, unless it was illegible there and above every legible number of its source |
| Delivery.NothingVanishes | internal/events/content_wal.go:302-333 | a numbered record that reached the WAL is there, settled at the collector, given up by eviction or an unsynced crash, or was so exposed when pruned |
| Delivery.StoredIsTheRecord | internal/events/reporter.go:1091-1109 | a number never acknowledges another record than the one it was stamped on, and only a record that was legible is ever stored |
| DeliveryProgress.DeliveredAndPruned | internal/events/reporter.go:808-858 | on either stream a record written to a new file, rotated away, uploaded and acknowledged is at the collector and its file is pruned |
| DeliveryProgress.AppendReads | internal/events/wal.go:86-245 | a whole write to a new file reads back as that record |
| DeliveryProgress.UncutSurvives | internal/events/wal.go:205-270 | a file a crash does not cut is as it was after it |
| DeliveryProgress.OutcomeMoves | internal/events/content_reporter.go:262-336 | which outcomes move the sent cursor on each stream, and that only an acceptance moves the confirmed one |
| DeliveryProgress.EvictGivesUp | internal/events/content_wal.go:155-181 | an evicted file takes its records with it and they count as given up |
| DeliveryLoss.TornTailLoses | internal/events/wal.go:86-135 | a run in which a crash tears a line, the restart appends to the same file, and the prune deletes the new record unsettled |
| DeliveryLoss.LossPossibleIff | internal/events/reporter.go:808-858 | at every state of every run, uploads, honest replies, rotation and prunes can delete an unsettled record if and only if a file fit for pruning holds it illegibly above its legible numbers |
| DeliveryLoss.GlueExposes | internal/events/wal.go:211-245 | every append of the highest number onto a torn tail in an otherwise prunable file puts its record in that place |
| DeliveryLoss.NoGlueNoLoss | internal/events/wal.go:86-135 | while no write lands behind an unended line, every pruned record is settled and every appended one can be read, is settled or was given up |
| Drain.Reporter.MarkProcessed | internal/events/reporter.go:786-799 | advances the cursor and the set of legacy ids by exactly the group |
| Drain.Reporter.UploadGroup | internal/events/reporter.go:1006-1136 | what each outcome does to both cursors; everything but a retryable failure ends and marks the group |
| Drain.Reporter.GroupBatch | internal/events/reporter.go:734-760 | the batch split by destination and lane, in order, without what has no destination |
| Drain.Reporter.UploadPending | internal/events/reporter.go:734-784 | every entry of the batch that has a destination is offered exactly once, at most once when cancelled, each group whole and in order |
| Drain.Reporter.DrainOnce | internal/events/reporter.go:599-675 | one pass that was not cancelled offers every due numbered entry to exactly one upload, the entries of a group in WAL order, and every unseen legacy entry with a destination and an id of its own exactly once; nothing else is offered; a cancelled one offers a first part; cursors, confirmed marks and seen ids afterwards are those of the uploads that ended |
| Drain.OneDestinationOneLane | internal/events/reporter.go:734-784 | an upload has one destination and one lane, is not empty and not over the batch size |
| Drain.StillDue | internal/events/reporter.go:658-668 | an entry is still due after a pass exactly when every ended number of its source is below it |
| Drain.RetryOvertaken | internal/events/reporter.go:658-668 | a pass of the code itself, with batch size one, after which the batch that failed retryably is out of the drain's reach |
| Drain.OvertakenLog | internal/events/reporter.go:658-668 | the contract of a pass leaves that log only |
| Reconcile.Reconciler.Classify | internal/events/reconcile.go:286-340 | each listed number is held back, lost, given up or re-sent, in order, with none dropped |
| Reconcile.Reconciler.RunWindow | internal/events/reconcile.go:263-400 | the window's effect on the re-send budget, and exactly which numbers are posted as lost |
| Reconcile.PostsSucceedIff | internal/events/reconcile.go:341-393 | when the posts of a window go through, by the listed numbers and their counts |
| Reconcile.Reconciler.ReconcilePass | internal/events/reconcile.go:259-403 | one organization's part of a pass runs window after window, each on the table the last one left, and stops exactly at a failed or empty listing, a complete one, a failed post or the cap, which decides whether it was ok |
| Reconcile.PartIsDetermined | internal/events/reconcile.go:259-403 | the replies leave one way for a part to run |
| Reconcile.Reconciler.ReconcileAgainst | internal/events/reconcile.go:230-403 | a pass over all organizations of the source in the collector's order, all on one table, ended by the first error; it is ok exactly when every part was, and counts those the cap ended |
| Reconcile.OrgsOfMeans | internal/events/reconcile.go:254-257 | exactly the organizations the collector names with this source, each as often as named |
| Reconcile.ResendWALSeqs | internal/events/reconcile.go:527-577 | the numbers reported re-sent are exactly the wanted ones whose first WAL entry has a destination and whose group ended |
| Reconcile.BudgetCountsResends | internal/events/reconcile.go:286-393 | over every history the budget of a number is the count of ended re-sends since which it stayed listed |
| Reconcile.WriteOffSafety | internal/events/reconcile.go:286-393 | a number is posted as lost if and only if it is listed, above the owed floor, and absent from the WAL or re-sent at least three times while listed |
| Reconcile.ResentIff | internal/events/reconcile.go:300-340 | a number is charged as re-sent if and only if it is listed, above the owed floor, in the WAL, re-sent less than three times while listed, and its re-send ended |
| Reconcile.FailedPostWritesOffOnlyAbsent | internal/events/reconcile.go:341-393 | when the first post fails only absent numbers were posted |
| Reconcile.EmptyListingKeepsBudget | internal/events/reconcile.go:263-285 | an empty listing leaves the budget, a non-empty one without the number resets it |
| Reconcile.OwnBudgetIff | internal/events/reconcile.go:281-340 | throughout a history the table counts an organization's own re-sends of a number if and only if every other organization's window leaves that number alone |
| Reconcile.HealedButGivenUp | internal/events/reconcile.go:263-300 | a number that healed before an empty listing is given up on its return, and re-sent after a non-empty one |
| Reconcile.OrgsShareBudget | internal/events/reconcile.go:281-300 | a number is given up for an organization for which it was never re-sent, after three re-sends for another |
| Reconcile.OrgsPostponeWriteOff | internal/events/reconcile.go:281-300 | two organizations whose refused listings share no number are re-sent in every pass, and none of their numbers is ever given up |
| Reconcile.RoundIsWindow | internal/events/reconcile.go:263-400 | a round of the convergence argument is a window of the code: same re-sends, same table, same write-offs |
| Reconcile.LeavesInTime | internal/events/reconcile.go:139-403 | a listed number leaves the missing set within its remaining budget plus one window |
| Reconcile.WindowCleared | internal/events/reconcile.go:139-403 | four windows clear at least one full listing |
| Reconcile.Converges | internal/events/reconcile.go:139-403 | any missing set of one organization is empty after four windows per listing's worth of numbers |
| Text.SplitJoin | internal/events/dead_letter.go:377-380 | splitting a join gives the parts back |
| Text.JoinSplit | internal/events/dead_letter.go:274 | joining a split gives the text back |
| DeadLetter.ReplayDeadLetter | internal/events/dead_letter.go:255-396 | for any bytes and any delivery outcomes the rewritten file holds every entry that is malformed or was not delivered, byte-identical and in order, and one entry less for each delivery; all tallies add up; a failed rewrite leaves the file |
| DeadLetter.EventsMean | internal/events/dead_letter.go:398-406 | the event tallies count the events of a usage entry and the payloads of a compliance entry |
| DeadLetter.RewriteRoundTrip | internal/events/dead_letter.go:373-388 | writing entries and reading them back is the identity, with nothing left open at the end |
| DeadLetter.RewriteIsIdentity | internal/events/dead_letter.go:373-388 | on a clean file without blank lines a pass that delivers nothing leaves every byte |
| DeadLetter.WriteAddsEntryIffClean | internal/events/dead_letter.go:181-202 | an append adds exactly its own entry if and only if the file ends cleanly |
| DeadLetter.Conservation | internal/events/dead_letter.go:181-396 | over every run of writes and replays that fail anywhere, while no write lands behind an open line, nothing written is lost: it is on disk or delivered; and the two sides are equal exactly when no write left a part behind and every pass that delivered rewrote the file |
| DeadLetter.OpenLineLoses | internal/events/dead_letter.go:181-202 | from every balanced state, a write that stops short makes the next whole write neither on disk nor delivered |
| ContentWal.ContentWAL.EvictBeyondCap | internal/events/content_wal.go:155-181 | drops exactly the oldest files beyond the cap |
| ContentWal.ContentWAL.EnsureFile | internal/events/content_wal.go:127-150 | keeps, rotates or opens a file, or leaves none open when opening fails |
| ContentWal.ContentWAL.Append | internal/events/content_wal.go:85-121 | the whole new state after an append, however it meets the disk, legible or not |
| ContentWal.AppendLands | internal/events/content_wal.go:85-181 | a successful append is in the open file, eviction included, and is legible exactly when that file did not end in a failed write's bytes |
| ContentWal.AppendDrops | internal/events/content_wal.go:123-181 | an append starts a new file exactly when none is open or the line does not fit behind what is there, and drops exactly the oldest files beyond the cap |
| ContentWal.NoEvictionBelowCap | internal/events/content_wal.go:155-181 | a run of no more appends than there may be files evicts nothing |
| ContentWal.RestartStartsNewFile | internal/events/content_wal.go:123-150 | after a restart the first append starts a file of its own |
| ContentWal.PruneKeepsInv | internal/events/content_wal.go:302-333 | a prune keeps every bound and never removes the open file |
| ContentWal.PruneTakesOut | internal/events/content_wal.go:302-333 | a prune takes out the confirmed files but the open one, and nothing else |
| ContentWal.BoundedOutbox | internal/events/content_wal.go:85-181 | over every run of appends, failures, prunes and restarts: at most the capped number of files, each within the byte limit of complete entries or holding one, and every evicted entry older than every surviving one |
| ContentWal.TornBytesAreNotCounted | internal/events/content_wal.go:108-121 | for all limits and every torn size short of the line, a run whose file of two entries exceeds the limit on disk by just those bytes |
| ContentWal.WholeWritesKeepTheLimit | internal/events/content_wal.go:108-150 | every run without a torn write keeps every file of several entries within the limit on disk, and every entry legible |
| Pipe.StepConservesBytes | internal/apphook/childhook.go:878-917 | accepted, buffered and unsent bytes always make up the sent frames plus the one in progress |
| Pipe.FrameIntegrity | internal/apphook/childhook.go:140-160 | under any interleaving the pipe holds whole frames and then at most one prefix; a torn frame is never whole; an accepted caller's frame is in, a rejected one has no byte in |
| Pipe.NothingAfter | internal/apphook/childhook.go:637-654 | after a torn frame, or once a broken session's last admitted write is over, no byte is ever added |
| Pipe.FlushMovesNothing | internal/apphook/childhook.go:817-833 | shutdown's flush never pushes part of a frame |
| Pipe.StepRetiresByTimeout | internal/apphook/childhook.go:637-654 | a session is closed only as broken, after some caller's write timeout, or by restart and shutdown |
| Pipe.ChildReadsWholeFrames | internal/apphook/childhook.go:878-917 | the child decodes exactly the finished payloads in order, plus at most the one just completed |
| Pipe.EveryGeneration | internal/apphook/childhook.go:444-474 | every spawn generation of every run keeps its frames whole |
| Pipe.StaleCallersCannotTouchFresh | internal/apphook/childhook.go:637-654 | from every reachable hook, all that goroutines holding an older session do after a respawn leaves the fresh session as spawned |
| Pipe.ReachIsNotRegained | internal/apphook/childhook.go:444-474 | a generation nobody holds any more never changes again |
| PipeProgress.WholeWriteIsAccepted | internal/apphook/childhook.go:878-917 | on every reachable healthy session, however the writer splits the frame between buffer and pipe, once nothing is left to hand on the pipe has taken exactly that frame, the caller is told so, and the session is free and healthy again |
| PipeProgress.DirectWrite | internal/apphook/childhook.go:893-909 | writing straight through is such a way |
| PipeProgress.BufferedWrite | internal/apphook/childhook.go:893-909 | filling the buffer and flushing it in pieces is another |
| PipeProgress.ErrorIsReported | internal/apphook/childhook.go:893-917 | an error of the pipe becomes the caller's verdict |
| PipeProgress.ErrorIsSticky | internal/apphook/childhook.go:893-909 | and that of every later caller of the session, without a byte more |
| PipeProgress.TimeoutRetires | internal/apphook/childhook.go:637-654 | a caller whose deadline expires while its frame is written leaves the session broken and closed |
| PipeProgress.RetiredTurnsAway | internal/apphook/childhook.go:878-884 | a newcomer on a broken session is told of the timeout, or that its payload is too large |
| PipeProgress.RetiredWhileWaiting | internal/apphook/childhook.go:885-898 | so is one that was waiting for the permit, and one whose deadline expires while it waits |
| PipeProgress.RespawnServes | internal/apphook/childhook.go:444-474 | whatever became of earlier sessions, a caller that loads the session after a respawn gets its whole frame into the new child |
| PipeProgress.SwapTakesAway | internal/apphook/childhook.go:444-474 | a session swapped out can be loaded by nobody any more and is closed by who took it |
| FilterPool.Pool.Pick | internal/apphook/filterpool.go:93-117 | the worker picked, the workers nudged and the new cursor, for every cursor, health and pool size, the empty pool included |
| FilterPool.PicksHealthy | internal/apphook/filterpool.go:93-117 | while some worker is healthy the picked one is; those nudged are unhealthy and nudged once |
| FilterPool.PicksFirstHealthy | internal/apphook/filterpool.go:99-117 | it is the first healthy one from behind the cursor on, and those nudged are the ones passed over, in order |
| FilterPool.NoneHealthy | internal/apphook/filterpool.go:93-117 | with no worker healthy the one at the cursor is returned all the same, and every worker is nudged |
| FilterPool.Requests | internal/apphook/filterpool.go:119-122 | consecutive requests on one pool make the picks the next rows are about |
| FilterPool.FairWhenUniform | internal/apphook/filterpool.go:93-117 | while all workers are healthy, or all dead, from request to request, as many requests as workers are served by each exactly once |
| FilterPool.NudgedWithin | internal/apphook/filterpool.go:72-117 | a worker unhealthy through as many requests as workers is nudged by one of them if and only if it is not the only worker |
| FilterPool.LoneWorkerIsNotNudged | internal/apphook/filterpool.go:94-98 | a single worker is returned by every pick of any run and nudged by none |
| ContentVersion.ChildContent.Publish | internal/apphook/contentversion.go:276-315 | a failed or empty poll withdraws the token, a report publishes its fingerprint |
| ContentVersion.ChildContent.State | internal/apphook/contentversion.go:194-211 | a degraded child states nothing, whatever token is in hand |
| ContentVersion.PoolContentVersion | internal/apphook/contentversion.go:379-413 | the loop computes the pool epoch |
| ContentVersion.EpochIsOfTheSet | internal/apphook/contentversion.go:379-413 | the epoch is known exactly when every healthy worker can state its content and some worker does, and it depends on the token set only |
| ContentVersion.EpochKnownIff | internal/apphook/contentversion.go:379-413 | the epoch is known exactly when every healthy worker is not degraded and has a version, and some worker does |
| ContentVersion.EqualEpochsIff | internal/apphook/contentversion.go:172-175 | with a collision-free fingerprint, epochs are equal exactly when token sets are or one pool's single report is the other pool's token list |
| ContentVersion.ReportOfTokensCollides | internal/apphook/contentversion.go:379-413 | such a report does collide |
| Accumulator.ExtractTokens | internal/provider/openai.go:82-137 | the totals of the first usage object of the stream |
| Accumulator.ExtractCachedInput | internal/provider/openai.go:243-273 | the last positive cached count |
| Accumulator.ExtractReasoning | internal/provider/openai.go:280-310 | the last positive reasoning count |
| Accumulator.ExtractModel | internal/provider/openai.go:321-345 | the first non-empty model |
| Accumulator.ExtractStopReason | internal/provider/openai.go:350-385 | the last non-empty stop reason |
| Accumulator.FirstSomeIsFirst | internal/provider/openai.go:82-137 | the totals come from the first frame with usage and no earlier one has any |
| Accumulator.LastPositiveIsLast | internal/provider/openai.go:243-310 | the cached and reasoning counts are those of the last frame with a positive one |
| Accumulator.FirstNonEmptyIsFirst | internal/provider/openai.go:321-345 | the model is that of the first frame naming one |
| Accumulator.LastNonEmptyIsLast | internal/provider/openai.go:350-385 | the stop reason is that of the last frame giving one |
| Accumulator.ExtractTokenBreakdown | internal/provider/openai.go:224-236 | the five scans put together |
| Accumulator.FrameYields | internal/provider/openai.go:140-236 | what one frame with counts yields, for all counts in either set of names, top-level or nested |
| Accumulator.PayloadOf | internal/provider/openai.go:85-94 | an object behind the prefix, with or without a space, or bare, is the payload of its line |
| Accumulator.StreamAcc.Feed | internal/provider/stream_accumulator.go:135-179 | what one frame does to the accumulator, field by field |
| Accumulator.StreamAcc.Result | internal/provider/stream_accumulator.go:181-188 | the pure input is set from the raw total and the cached count, clamped at zero |
| Accumulator.StreamAcc.FeedStreamLine | internal/provider/stream_accumulator.go:194-199 | a raw line is stripped and fed |
| Accumulator.OnePassIsWholeBody | internal/provider/stream_accumulator.go:111-188 | for every stream of plain lines (single-prefixed object lines that are well typed or of no interest, and lines without counts), with results asked for anywhere, the one-pass form equals the five scans |
| Accumulator.WholeFrames | internal/provider/stream_accumulator.go:135-188 | for every sequence of well-typed decoded frames the one-pass result equals the five scans |
| Accumulator.DisagreementShows | internal/provider/stream_accumulator.go:135-188 | every line from which the two forms read different things gives different results, alone or before one more frame |
| Accumulator.AgreesIffWholeOrSilent | internal/provider/stream_accumulator.go:139-152 | for every line, when both forms read the same from it, in terms of the typing of its fields and its prefix |
| Accumulator.IllTypedFieldLosesUsage | internal/provider/stream_accumulator.go:139-152 | a frame whose model is not a string: seven output tokens for the scans, none for the accumulator |
| Accumulator.StripsAgreeIff | internal/provider/openai.go:85-94 | the two prefix strips give the same payload exactly when one prefix and at most one space precede it |
| Accumulator.TotalIsPureAndCachedIff | internal/provider/provider.go:29-33 | pure plus cache buckets equals the total exactly when cached does not exceed it |
| Accumulator.CachedAboveTotal | internal/provider/openai.go:224-236 | a frame with more cached than prompt tokens breaks the sum |
| AnthropicStream.ExtractTokens | internal/provider/anthropic.go:89-125 | the legacy totals of a stream |
| AnthropicStream.ExtractTokenBreakdown | internal/provider/anthropic.go:190-233 | the breakdown of a stream |
| AnthropicStream.MessageYields | internal/provider/anthropic.go:89-233 | what a start and a delta event yield in both readings |
| AnthropicStream.FeedAll | internal/provider/stream_accumulator.go:70-109 | feeding the accumulator line by line gives that same breakdown, for every stream |
| AnthropicStream.MessageAcc.Feed | internal/provider/stream_accumulator.go:74-107 | what one frame does to the accumulator |
| AnthropicStream.LinkedIff | internal/provider/provider.go:29-33 | for every stream, legacy input is pure input plus both cache buckets and outputs agree, if and only if the last start and the last end the legacy scan decodes are decoded by both or repeat the count of the last ones that are |
| AnthropicStream.TotalIsPureAndCached | internal/provider/provider.go:29-33 | so it is for every stream without an event only the legacy scan decodes |
| AnthropicStream.OnlyLegacyBreaksTheLink | internal/provider/anthropic.go:97-110 | after a stream that is still linked, such an event breaks the link exactly when it changes the legacy count |
| AnthropicStream.IllTypedModelBreaksTheLink | internal/provider/anthropic.go:97-110 | a start event whose model is not a string: five input tokens for the legacy scan, none for the breakdown |
| Chain.CollapseOauthGroups | internal/proxy/candidate_chain.go:421-440 | the loop computes the collapsed candidates |
| Chain.CollapseIsSound | internal/proxy/candidate_chain.go:421-459 | one row per pool, of maximal rank, all rows without a pool in order, nothing invented |
| Chain.DuplicatePriority | internal/proxy/candidate_chain.go:368-388 | ambiguous exactly when two members of one route group share a priority, and which priority |
| Chain.StableSortSorts | internal/proxy/candidate_chain.go:329-331 | the order is sorted by priority, a permutation, and stable |
| Chain.StableOrderIsUnique | internal/proxy/candidate_chain.go:329-331 | any stable sort gives this chain |
| Chain.ChainFrom | internal/proxy/candidate_chain.go:158-343 | the selection, pin and error paths included |
| Chain.UnpinnedChain | internal/proxy/candidate_chain.go:259-343 | an unpinned chain is non-empty, sorted, unambiguous, with one best row per pool; and exactly when there is none |
| ChainMeaning.UnpinnedMeans | internal/proxy/candidate_chain.go:259-343 | for every key with bindings: there is no binding exactly when none has the requested protocol, letter by letter up to case; a chain holds bindings of that protocol only, all outside pools, one per pool and that a serviceable one if the pool has one, in ascending priority without a clash; an ambiguity names a priority two members share |
| ChainMeaning.AmbiguousMeans | internal/proxy/candidate_chain.go:368-388 | the priority reported is that of the first row that shares one |
| ChainMeaning.PoolKeepsFirstBest | internal/proxy/candidate_chain.go:421-459 | of a pool's rows the first among the most serviceable stays |
| ChainMeaning.PinnedIff | internal/proxy/candidate_chain.go:182-257 | when a pin restricts the key, by its source, reference, group and provider, and to which binding |
| ChainMeaning.OwnHop | internal/proxy/candidate_chain.go:158-175 | a key without bindings is its own single hop |
| ChainMeaning.FailoverIff | internal/proxy/candidate_chain.go:108-110 | a second upstream may be tried exactly when no pin restricts the key, there is one, and the first hop is in a route group |
| ChainMeaning.HopKeyIs | internal/proxy/candidate_chain.go:485-498 | a hop is known by its binding id, or else by virtual key and credential |
| Chain.ChainIsOwn | internal/proxy/candidate_chain.go:158-343 | every chain is non-empty and made of the route's own bindings |
| Chain.PinOnlyRestricts | internal/proxy/candidate_chain.go:182-257 | a pin leaves one matching hop or leaves the chain as it is |
| Chain.MemberPinStaysInGroup | internal/proxy/candidate_chain.go:188-203 | the pinned hop is in the pinned group if every matching binding is |
| Chain.MemberPinLeavesGroup | internal/proxy/candidate_chain.go:188-203 | otherwise a match outside the group takes the pin once it is listed first |
| Chain.MemberPinGroupIff | internal/proxy/candidate_chain.go:188-203 | for the bindings as given, the pinned hop is in the pinned group exactly when the first match is |
| Chain.PinnedNeverFailsOver | internal/proxy/candidate_chain.go:108-110 | a chain that may fail over is the administrator's own chain and starts in a route group |
| ChainServe.OrderCandidates | internal/proxy/chain_serve.go:397-427 | the try order is sticky, then available, then cooling hops, each in the administrator's order |
| ChainServe.OrderPermutes | internal/proxy/chain_serve.go:397-427 | ordering loses and repeats nothing |
| ChainServe.AllCoolingKeepsOrder | internal/proxy/chain_serve.go:378-396 | when every hop is cooling the chain is walked in the administrator's order |
| ChainServe.PrimaryFirstIff | internal/proxy/chain_serve.go:378-427 | a request that does not stick tries the primary first exactly when the primary is not cooling or every hop is |
| ChainServe.WalkChain | internal/proxy/chain_serve.go:147-376 | the attempt loop over a given order, with the same promise |
| ChainServe.ServeManagedChain | internal/proxy/chain_serve.go:91-376 | from observing the request to the answer: relays the first hop of the try order able to serve unless the budget runs out first, otherwise reports the last genuine fault; which hops were asked; what both stores hold afterwards |
| ChainServe.AskedOnce | internal/proxy/chain_serve.go:147-296 | each hop is asked at most once, in order, and those asked are those that could be |
| ChainServe.OutcomeIsDetermined | internal/proxy/chain_serve.go:147-376 | that promise leaves one outcome |
| ChainServe.RelayedIff | internal/proxy/chain_serve.go:147-296 | the client gets the answer of hop k if and only if it is the first that is neither a fault nor a missing model and the budget lasts up to it |
| ChainServe.ExhaustedTells | internal/proxy/chain_serve.go:320-376 | otherwise the status of the last hop that failed, or 502 |
| ChainServe.ServedIfAnyCan | internal/proxy/chain_serve.go:147-427 | whatever the bands, if any candidate can serve and the budget lasts, the client is served |
| ChainServe.FaultIsGenuine | internal/proxy/chain_serve.go:298-352 | the terminal status is that of the last hop that genuinely failed, never a model-mapping rejection |
| ChainServe.OnlyFaultsCool | internal/proxy/chain_serve.go:298-318 | a spell is only ever started under the key of a hop that was asked and genuinely failed |
| ChainServe.CooledByItsKey | internal/proxy/chain_serve.go:290-318 | whether any hop is cooling after a walk is decided by the last hop asked under its key, so newly cooling means a hop of that key failed |
| ChainServe.LastAnswerDecides | internal/proxy/chain_serve.go:290-318 | after an answer its hop's key is clear, after a fault it cools for the administrator's maximum or the shorter time the upstream names |
| ChainServe.CoolsOnlyTheFailedIff | internal/proxy/chain_serve.go:290-318 | walks cool failed hops only, if and only if no two hops of the chain share a key |
| ChainServe.SharedKeyIff | internal/proxy/candidate_chain.go:485-498 | hops of one virtual key without binding ids share a key exactly when their credentials are equal |
| ChainServe.RememberedIff | internal/proxy/chain_serve.go:290-296 | within the idle gap and the stickiness bound, the next request sticks to the hop that served exactly when it was neither first in the order nor the primary |
| ChainServe.StickyIsFirst | internal/proxy/chain_serve.go:397-427 | a sticky hop is always first in the order |
| ChainServe.StickinessIsSpent | internal/proxy/chain_serve.go:117-296 | when the hop a request sticks to answers, it is relayed from the first position, and the next request on the key does not stick, whatever its policy and time |
| ChainServe.StoreIsRun | internal/proxy/chain_serve.go:290-310 | a walk's effect on the store is the store's own run over its faults and its success |
| Cooldown.CooldownStore.NoteFailure | internal/proxy/binding_cooldown.go:81-117 | which failures cool, and until when, in terms of the maximum and the evidence |
| Cooldown.CooldownStore.NoteSuccess | internal/proxy/binding_cooldown.go:123-130 | a success clears the hop |
| Cooldown.CooldownStore.TakeSnapshot | internal/proxy/binding_cooldown.go:155-168 | the remaining whole seconds of what is left, and what is dropped |
| Cooldown.CoolingIsEarned | internal/proxy/binding_cooldown.go:81-150 | over every run a hop cools only after a genuine fault of its own with no success since, never past the configured maximum |
| Cooldown.SpellLasts | internal/proxy/binding_cooldown.go:81-150 | a deadline stays until another fault, a success, or a snapshot in its last second |
| Cooldown.SnapshotIsNeutralIff | internal/proxy/binding_cooldown.go:152-168 | a snapshot leaves later cooling as it was exactly outside the last second |
| Activity.ChainActivityStore.ObserveRequest | internal/proxy/chain_activity.go:110-142 | when the request sticks and to what, in terms of the entry, and the new entry |
| Activity.ChainActivityStore.NoteServed | internal/proxy/chain_activity.go:148-159 | the new entry, created if missing |
| Activity.RunRecords | internal/proxy/chain_activity.go:110-159 | over every run an entry records the key's last activity, last non-sticky decision and last non-primary hop |
| Activity.BoundedStickiness | internal/proxy/chain_activity.go:110-142 | a sticky answer comes within the idle gap and the stickiness bound and names the last hop served, not the primary |
| Activity.ProbedWithinBound | internal/proxy/chain_activity.go:131-134 | at every request there is a non-sticky decision less than the bound ago |
| Activity.OnlyOwnEventsCount | internal/proxy/chain_activity.go:110-159 | a key's entry, and so every decision on it, depends on that key's own events only |

## Left out

- 64-bit overflow of sequence numbers, counters and durations: integers are unbounded.
- LaneAlloc.LaneAllocator.Next: holds the lanes' allocators by value, so sharing one allocator object between callers is not modelled.
- Delivery.PruneSafety: is stated for a source with one lane, because the cursors are keyed by source only while numbering is per lane.
- Persistence of owed floors across restarts: the floors live in memory only.
- The content reporter's drain loop, automatic reconcile, automatic replay, backoff and their timing: they only schedule the modelled steps.
- Declaring a stream switch to the server and clearing its floor: one request with one outcome.
- ContentWal.BoundedOutbox: assumes that removing a file succeeds and that names sort by creation, as the file naming intends.
- DeliveryLoss.LossPossibleIff: takes lines that run together to be unreadable, as an unfinished JSON object followed by anything is, and leaves out the reader's cap on line length.
- ContentWal.AppendLands: a failed write that lacks only its newline leaves a readable line, which this file-level model does not list as an entry; `Delivery` does.
- Reconcile.Converges: is stated for one organization of a source, because with two it fails (`Reconcile.OrgsPostponeWriteOff`).
- Pipe.FrameIntegrity: does not model the pending-request table, the read loop or which generation it marks degraded.
- Pipe.ChildReadsWholeFrames: the frame encoding is a parameter, because the package that owns it is not part of this model.
- Reconcile.Reconciler.RunWindow: runs alone; a manual pass beside an automatic one, between whose classifying and charging the lock is released, is not modelled.
- FilterPool.NudgedWithin: what a worker's own round trip does for its recovery is not modelled.
- FilterPool.Pool.Pick: sees one health snapshot per pick, and the cursor does not wrap at 64 bits.
- Accumulator.StripsAgreeIff: treats ASCII white space only.
- The event-stream parser that feeds the accumulator in production, and responses that are not streamed.
- Chain.ChainFrom: folds ASCII letters only; log lines and the group named in the ambiguity error are not modelled.
- ChainServe.ServeManagedChain: response bodies, headers and per-attempt timeouts are not modelled.
- Which responses count as failover faults and what cooldown evidence a header carries: both are parameters.
- HTTP clients, credentials, configuration, admin endpoints, license checks, JSON encoding and SQLite stores.
