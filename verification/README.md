# What this project proves

CodeWide keeps agent transcripts as append-mostly files of JSON lines and serves them through a relay.
This project models four parts of it in Dafny and proves what they promise.

1. **The transcript offset index** (`crates/agent-index`). A transcript is a log of records, some of
   which mark a turn boundary: a start, a terminal, a rollback of *n* turns. `Transcript.Stack` is the
   reference meaning: a forward fold that pushes on a start, pops on a rollback and closes the newest
   turn on its terminal or on the next start. `LogicalTurns.Items` adds the records that are turns by
   themselves. Everything that answers "which turns survive, and over which bytes" is compared with
   those two folds: the batched forward scan with its tombstones, the tail bootstrap and the backfill
   that grows coverage to the left, the anchor recovery, the two reverse visitors and the block-wise
   byte scan under them, the table reads, the cold pages, and the reads of a frozen prefix of a file that
   keeps growing. Crashes are counted: each operation gets the number of transactions that still
   succeed, and its contract speaks of every such number and says which is enough.
2. **The relay** (`apps/relay`): the enrollment window, the route and invitation registry, and the
   ticket rendezvous, each as interleaved atomic steps of a state machine.
3. **Thread-list paging** (`catalog.rs`): a cursor codec and keyset paging over rows that may change
   between pages.
4. **Usage pricing** (`usage.rs`): saturating sums of costs, and a recursive rewrite of JSON that
   must not depend on prices it finds.

A file that changes its state in place is a class here (`IndexStore`, `Lane`, `Scan`, `Window`,
`World`, `Relay`, `Registry`), loops stay loops over updated variables or array buffers, and codecs, cursors and
sort orders are functions.

## Reading the index proofs

`Extent(indexed, first)` says what a checkpoint stands for: the indexed lines and the first covered
one. `ForwardScan.AtRest(tables, extent)` holds between any two transactions. It is spelled out for a
reader by the `Runs.RestShows…` lemmas: rows from `indexed_from` on are exactly the surviving turns
with their ranges, summaries are the fold of the records in the range, tombstones are exactly the turns
that rollbacks removed, records tile the coverage, ids lead to their turns. `ForwardScan.Kept` is carried
beside it: every covered line was accepted and its content committed, so it is in both content tables.

The conditions that appear in the contracts, all of them properties of the log or of the observations:

- `Tiled`: records follow each other without gaps (proved of every file by `BlockScan.RecordsTile`).
- `Exclusive`: no record is both a boundary and a standalone turn.
- `ReadsAlike`: the exact condition under which the reverse scans list the surviving turns, see below.
  `Orderly` is a plain sufficient one: `Exclusive`, `NoForeign` (no terminal of another turn arrives
  while a turn is open) and `NoOpenRollback` (no positive rollback while a turn is open). `Apart` is
  what a bootstrap of a large file or an anchor recovery needs to begin at a clean line: no standalone
  turns at all, or `NoForeign` and `Exclusive`. A file small enough for a full scan does not need it.
- `UniqueIds`: an id starts one turn only; used where `turns_by_id` or an anchor is.
- `History`: a file is appended to, or replaced under a new (device, inode). The digest and the
  modification time are parameters.
- `Fine`: no unreadable boundary, no record that is too long, and no standalone turn that its projection
  cannot fold; records inside a turn may fail to fold. An operation fails only on a log that is not.
- `OneHitPerBoundary`, `OneHitPerEvent`, `WellChosen`: a boundary line holds one needle occurrence, for
  the timeline visitor a standalone line holds one too and is no boundary; needles hold no newline and do
  not overlap themselves. The byte visitors do not merge matches of one line.

Three places where the code does not meet the plain statement, each with a concrete log and the exact
condition:

- A foreign terminal can make the reverse scan report a closed turn as open
  (`ReverseAgreement.ForeignTerminalReopens`). The two scans agree if and only if no surviving turn
  was `Spoiled`: sealed by a foreign terminal before its own terminal, which completed it or was not
  directly followed by a start.
- The logical visitor holds standalone turns back until it meets a start, which drops them, or a
  terminal, which frees them, without asking whether a turn was open in between. A rollback of a running
  turn makes it drop a surviving standalone turn behind it (`LogicalAgreement.RollbackHidesStandalone`),
  and a foreign terminal makes it list a running turn's own record
  (`LogicalAgreement.ForeignTerminalFreesStandalone`); the cold page then differs from the indexed one.
  It is right if and only if no surviving turn is `Spoiled` and its guess is right at every standalone
  record (`LogicalAgreement.LogicalScanAgreesExactly`).
- A backfill that crashes between its commits can leave the open row of an older turn below coverage,
  where a comment (scan.rs:724-725) calls such rows invisible. If that row is the newest of the file,
  the next scan resumes it, and standalone turns that follow get no row. `Leftovers.StrandedHaunts` says
  exactly when a crash leaves it, whatever earlier crashes left before, `Leftovers.MissedExactly` and `Leftovers.IndexGrown` exactly which
  turns are then missing, and `Leftovers.LoseStandalone` drives the operations themselves into it, from
  an empty index. `Haunted` is that state of the tables; task turns are right in every run regardless.

The relay models assume that generated tokens, ids and nonces are new and that the digest is injective.
Thread ids and route labels are texts of code points; text order by code point is the order of their
UTF-8 bytes.

## Model

| member | source | states |
|---|---|---|
| Transcript.StackShape | crates/agent-index/src/scan.rs:789-827 | the turns left by the fold start in ascending order, lie below the durable end, and only the newest can be open |
| Transcript.StackRemains | crates/agent-index/src/scan.rs:1428-1448 | whatever is appended, what is left of an earlier stack is a prefix of it: a turn a rollback removed never comes back |
| Transcript.TerminalCloses | crates/agent-index/src/scan.rs:789-827 | a started turn runs to the next boundary; its own terminal closes it behind that line, as completed as the terminal says, another turn's terminal leaves it running |
| Transcript.StartInterrupts | crates/agent-index/src/scan.rs:789-827 | and the next start interrupts it there |
| Transcript.RollbackDrops | crates/agent-index/src/scan.rs:1428-1448 | a rollback of *n* drops the *n* newest turns and no other |
| ReverseScan.ReverseScanIsFold | crates/agent-index/src/scan.rs:1536-1573 | on any log, with any counter and registers, the reverse scan yields exactly the reversed fold of its own register automaton, cut by the counter |
| ReverseScan.ReverseScanAgrees | crates/agent-index/src/scan.rs:1536-1573 | without foreign terminals the reverse scan yields exactly the reversed surviving turns, nested and over-long rollbacks included |
| ReverseScan.ReverseScanStarts | crates/agent-index/src/scan.rs:1536-1573 | on any log the reverse scan finds the right turns and starts, foreign terminals or not |
| ReverseAgreement.ReverseScanAgreesExactly | crates/agent-index/src/scan.rs:1545-1566 | the reverse scan equals the reversed fold, of a live file or of a frozen prefix whose last turn ends with it, if and only if no surviving turn was spoiled by a foreign terminal |
| ReverseAgreement.NothingInterrupted | crates/agent-index/src/scan.rs:1466-1470 | on a live file interrupting the fold at its end changes nothing, so the live case is the fold itself |
| ReverseAgreement.ForeignTerminalReopens | crates/agent-index/src/scan.rs:1550-1552 | a concrete log whose completed turn the reverse scan reports as running |
| LogicalTurns.ItemsExtendStack | crates/agent-index/src/scan.rs:883-912 | adding standalone turns to the fold leaves the task turns what they were |
| LogicalAgreement.LogicalScanAgreesExactly | crates/agent-index/src/scan.rs:1459-1534 | the logical visitor lists task and standalone turns exactly as the fold has them, newest first, if and only if no surviving turn was spoiled and at every standalone record the nearest start or terminal before it is a start exactly if a turn is open there |
| LogicalAgreement.ListedMembers | crates/agent-index/src/scan.rs:1477-1531 | on any tiled log, what the visitor lists: the task turns of the reverse scan, and the standalone records not preceded by a start |
| LogicalAgreement.OrderlyReadsAlike | crates/agent-index/src/scan.rs:1459-1534 | the condition holds when no foreign terminal and no rollback meets an open turn |
| LogicalAgreement.RollbackHidesStandalone | crates/agent-index/src/scan.rs:1502-1505 | a concrete log whose surviving standalone turn the visitor drops at a start that was rolled back |
| LogicalAgreement.ForeignTerminalFreesStandalone | crates/agent-index/src/scan.rs:1484-1496 | a concrete log whose running turn's own standalone record the visitor lists as a turn |
| SurvivingTurns.NewestDescends | crates/agent-index/src/scan.rs:1459-1534 | that list is strictly descending by start and lies below the durable end |
| SurvivingTurns.NewestAreSurvivors | crates/agent-index/src/scan.rs:1459-1534 | its members are exactly the surviving task turns and the records that are turns by themselves outside any open turn |
| SurvivingTurns.ListedStartsClean | crates/agent-index/src/scan.rs:628-642 | every listed turn starts where coverage may begin: no older turn is running there, unless this start closes it |
| TurnVisitors.WalkExactly | crates/agent-index/src/scan.rs:1575-1590 | a walk over boundaries is blocked exactly by the newest unreadable record, and only if the callback still went on when the walk got there; otherwise the callback has consumed the boundaries up to where it stopped |
| TurnVisitors.VisitTaskTurnsReverse | crates/agent-index/src/scan.rs:1536-1573 | the visitor with its saturating counter hands its callback exactly the reverse scan's turns until it stops; it reports the newest unreadable record exactly if the turns behind that record left the callback wanting more |
| TurnVisitors.VisitLogicalTurnsReverse | crates/agent-index/src/scan.rs:1459-1534 | the same for the visitor that holds standalone turns back |
| TurnVisitors.ManySkipped | crates/agent-index/src/scan.rs:1564-1566 | once the counter reaches the number of records its exact value no longer matters, so saturating it changes nothing |
| TurnVisitors.VisitBoundariesReverse | crates/agent-index/src/scan.rs:1575-1590 | the boundary visitor meets the boundary records of a range, each once, newest first, and stops at the newest unreadable one if it gets there |
| SourceBytes.ReadExactAt | crates/agent-index/src/file.rs:243-253 | the bounded read fills the buffer with exactly the asked bytes, or reports the end of the file |
| SourceBytes.ScanBack | crates/agent-index/src/file.rs:199-212 | the block-wise backward scan finds the start of the line around an offset, for any block size |
| SourceBytes.DurableEndOf | crates/agent-index/src/file.rs:87-103 | the durable end is just behind the last newline |
| SourceBytes.FindLineEnd | crates/agent-index/src/file.rs:214-230 | the forward scan finds the end of the line around an offset |
| SourceBytes.ReadLineAt | crates/agent-index/src/file.rs:186-197 | the line around an offset, whole and bounded by the durable end |
| BlockScan.RecordsTile | crates/agent-index/src/scan.rs:307-322 | the lines of any file tile it up to its durable end |
| BlockScan.RecordReads | crates/agent-index/src/scan.rs:307-371 | each record is one line of the file with its newline; its boundary is what the provider reads in the line if a needle's bytes stand anywhere in it, and none otherwise |
| BlockScan.BlockMatches | crates/agent-index/src/scan.rs:1609-1634 | one block, read with the overlap and sorted downwards, gives exactly the needle hits that start in it |
| BlockScan.HitsWalkLines | crates/agent-index/src/scan.rs:1620-1641 | with one hit per boundary line, going through the hits from the end back is walking the records from the end back: each boundary line once, and stopped by an unreadable line when it is met |
| BlockScan.VisitBoundariesInBlocks | crates/agent-index/src/scan.rs:1598-1644 | for any block size and any split of lines across blocks, the byte scan is that walk over the file's records: exactly the boundary lines of the range, newest first, or the unreadable line that blocks it |
| BlockScan.VisitTaskTurnsInBlocks | crates/agent-index/src/scan.rs:1536-1644 | on the bytes of a file, block by block, the task visitor hands on exactly the reverse scan's turns of the file's records |
| BlockScan.HitsWalkTimeline | crates/agent-index/src/scan.rs:1661-1727 | with one hit per event line, going through the boundary and the standalone hits of a file together from the end back is walking its boundaries and standalone records from the end back |
| BlockScan.VisitTimelineInBlocks | crates/agent-index/src/scan.rs:1661-1727 | for any block size the timeline scan of the bytes is that walk, or stops at the unreadable line that blocks it |
| BlockScan.VisitLogicalTurnsInBlocks | crates/agent-index/src/scan.rs:1459-1727 | on the bytes of a file, block by block, the logical visitor hands on exactly the task and standalone turns that the reverse scan of its records lists, until its callback stops, and reports the newest unreadable line exactly if it gets there |
| ScanInvariants.LineStep | crates/agent-index/src/scan.rs:829-926 | one scanned line keeps turn rows, summaries, tombstones, records and the active turn in step with the fold |
| ScanInvariants.TombsCompleteStep | crates/agent-index/src/scan.rs:1428-1448 | after each line every turn that was removed has its tombstone, also one from below coverage |
| ScanInvariants.TombsSoundStep | crates/agent-index/src/scan.rs:1428-1448 | and nothing else has one |
| ScanInvariants.LockstepStep | crates/agent-index/src/scan.rs:850-881 | the active turn and the active summary are of the same turn, and the summary is the fold of its records so far |
| LineScan.PushedIsLineEffect | crates/agent-index/src/scan.rs:213-233 | pushing a line's rows to the pending batch is the same as applying the line to the tables the batch would give |
| LineScan.Scan.UpdateTurnIndex | crates/agent-index/src/scan.rs:789-827 | the pending turn rows and the active turn after one boundary |
| LineScan.Scan.UpdateSummaryIndex | crates/agent-index/src/scan.rs:850-881 | the pending summaries and the active summary after one record |
| LineScan.Scan.CollectRollbackRemovals | crates/agent-index/src/scan.rs:1428-1448 | the removals a rollback collects are exactly the starts its pop takes off the stack, through the reverse visitor |
| LineScan.Scan.ReadLine | crates/agent-index/src/scan.rs:307-371 | one line read into the batch: exactly its pushes and its content, or the error that stops the scan: the line is too long exactly if its length exceeds four bytes, a boundary is unreadable, or a turn by itself does not fold |
| LineScan.OnlyStorableLinesPass | crates/agent-index/src/scan.rs:1728-1740 | a line is refused for its length exactly if its record row would not read back from its thirteen bytes |
| Coverage.TaskRowsExact | crates/agent-index/src/store.rs:276-341 | in covered tables the rows of task turns are exactly the surviving turns |
| Coverage.ResumeHolds | crates/agent-index/src/scan.rs:928-970 | the newest open row of covered tables is the fold's open turn, so a scan may resume from it |
| Coverage.CommitCovers | crates/agent-index/src/scan.rs:230-266 | committing a batch at a line boundary turns the scan's progress into coverage |
| Coverage.JoinCovers | crates/agent-index/src/scan.rs:690-743 | an older range joined to the coverage above it is coverage, with the turn that runs across the join interrupted |
| ForwardScan.IndexFile | crates/agent-index/src/scan.rs:268-405 | whatever the crash point, the tables end at rest; a crash comes only after the last granted transaction; a fine log and `Bound` transactions (its full batches and two) give success, and coverage to the durable end; a current file costs none; the content of every covered line stays committed; the rows are the fold of the lines read, from where the checkpoint stood or from where a bootstrap begins |
| ForwardScan.TailBootstrapStart | crates/agent-index/src/scan.rs:628-642 | a bootstrap starts at byte 0, at the newest listed turn or at the end, always at a line where coverage may begin |
| ForwardScan.ActiveProjection | crates/agent-index/src/scan.rs:928-970 | resuming gives the open turn and a summary in lockstep with it, read back or recomputed, and keeps the tables at rest; the stored summary is taken exactly while the provider reads it, otherwise the lines are folded again and stored |
| ForwardScan.SummaryFromFile | crates/agent-index/src/scan.rs:972-1006 | a summary rebuilt from the file is the fold of the records in the turn's range |
| ForwardScan.CommitKeepsInverse | crates/agent-index/src/store.rs:289-327 | with unique ids every commit keeps `turns_by_id` and `turns` inverse to each other |
| ForwardScan.CheckpointHolds | crates/agent-index/src/scan.rs:612-626 | a checkpoint written at one observation's end matches a later one exactly if the device and inode are the same, the file is no shorter, the digest of the indexed bytes agrees, and an unchanged length comes with an unchanged time |
| Backfill.NearestStartIs | crates/agent-index/src/scan.rs:466-490 | the reverse visit finds the nearest start below coverage, and nothing exactly if there is none |
| Backfill.IndexPrefixRange | crates/agent-index/src/scan.rs:645-743 | a range costs one transaction for each full batch and one more, and is joined by the last; a crash before leaves the old coverage intact, and exactly the rows of the lines that the batches took in |
| Backfill.BackfillStep | crates/agent-index/src/scan.rs:437-501 | on an indexed file a backfill moves coverage down to the nearest start, for one transaction a batch and one more, until it is complete; it falls short only when transactions run out or the log is not fine |
| Backfill.BackfillPrefix | crates/agent-index/src/scan.rs:437-501 | the same when the file is observed twice and may have grown in between |
| Backfill.IndexFully | crates/agent-index/src/scan.rs:594-610 | on a fine file that does not change, `FullBound` transactions (linear in the number of lines) take coverage to byte 0, wherever the index stood |
| Anchors.ChaseFinds | crates/agent-index/src/scan.rs:540-575 | the hunt for an anchor and its older neighbours ends at the start of the oldest one asked for |
| Anchors.AnchorStep | crates/agent-index/src/scan.rs:511-586 | after a recovery coverage holds the anchor and the asked number of older turns, and was never raised; with enough transactions and a fine log it succeeds |
| Anchors.RecoveredHolds | crates/agent-index/src/scan.rs:511-586 | that is: the anchor and each of the next older listed turns asked for starts inside coverage, and coverage reaches byte 0 if there are fewer |
| Runs.Run | crates/agent-index/src/scan.rs:268-610 | every run of appends, replacements, scans, backfills, recoveries and crashes is a trace of tables at rest: each operation succeeds, or used up its transactions, or met a log that is not fine; no standalone turn is missing unless some operation found a leftover; the content of every covered line was committed |
| Runs.BackfillsComplete | crates/agent-index/src/scan.rs:594-610 | in any run, as many backfills of a current, fine file as records lie below coverage complete it, and it stays complete |
| Runs.RestShowsSurvivors | crates/agent-index/src/store.rs:276-341 | at rest, a task turn at or above `indexed_from` has its row, with its id, range and completion, exactly if it survives |
| Runs.RestShowsSummaries | crates/agent-index/src/scan.rs:850-881 | at rest, the stored summary of a surviving turn is the fold of the whole records in its range |
| Runs.RestShowsLines | crates/agent-index/src/scan.rs:850-881 | a surviving turn starts and ends where lines do, and its stored summary is the fold of exactly those lines, in order |
| Runs.RestShowsStandalone | crates/agent-index/src/scan.rs:883-912 | a covered standalone record outside any open turn has its row, completed, over its own bytes, and its own summary, and no other row starts there |
| Runs.RestShowsContent | crates/agent-index/src/store.rs:325-338 | over any run from an empty index, every content entry of a covered line is in both content tables |
| Runs.RestRecordsAreStored | crates/agent-index/src/store.rs:803-857 | every covered line's record row reads back from its thirteen bytes with the line's whole length |
| Runs.RestKnowsRemovals | crates/agent-index/src/store.rs:485-514 | `has_removed_turns` answers yes for a covered range exactly if some turn started there does not survive |
| Runs.RestShowsTombstones | crates/agent-index/src/store.rs:289-324 | at rest, a turn started in the covered range has a tombstone exactly if it does not survive, and then no row and no summary |
| Runs.RestShowsRecords | crates/agent-index/src/scan.rs:337-401 | at rest, record rows are exactly the covered lines, they tile the coverage, and the checkpoint counts them |
| Runs.RestFindsIds | crates/agent-index/src/store.rs:516-533 | at rest, with unique ids, looking up the id of a surviving turn gives that turn |
| Leftovers.MissedExactly | crates/agent-index/src/scan.rs:883-912 | a standalone turn read by a resumed scan has no row if and only if the scan still holds a turn it resumed from below coverage |
| Leftovers.UnhauntedMissesNothing | crates/agent-index/src/scan.rs:883-912 | a scan that resumes no such turn stores every standalone turn it reads |
| Leftovers.StrandedHaunts | crates/agent-index/src/scan.rs:690-743 | whatever rows stood below coverage before, exactly when a backfill that crashes between its commits leaves a leftover: no row was newer than its range's first record, no standalone record has been stored, and then the turn its range starts with has a row and still runs at the last committed line, or has none and the newest older row that no rollback took away is open |
| Leftovers.IndexGrown | crates/agent-index/src/scan.rs:883-970 | `index_file` on a file that has grown misses exactly the standalone turns that a resumed leftover hides |
| Leftovers.LeaveLeftover | crates/agent-index/src/scan.rs:268-743 | from an empty index, three operations that end in a crashed backfill leave such tables, for any file with a long first turn and a rolled back second one |
| Leftovers.LoseStandalone | crates/agent-index/src/scan.rs:268-743 | and the standalone turn appended next has no row after a successful forward scan, though no turn is open there |
| Leftovers.SampleLingers | crates/agent-index/src/scan.rs:268-743 | there are such files |
| ColdScan.ScanTailTurns | crates/agent-index/src/scan.rs:1303-1339 | a cold page is the newest turns that start below the offset, at most `limit` of them; surviving turns, where the scan reads the log as the fold does; it reports the newest unreadable line exactly if the page is not full when the scan gets there |
| ColdScan.TakenIs | crates/agent-index/src/scan.rs:1303-1339 | that page: listed turns below the offset, newest first; one is left out only of a full page of newer turns |
| IndexReads.SingleIsListed | crates/agent-index/src/scan.rs:1459-1534 | where the scan reads the log as the fold does, a record that is a turn by itself is listed as completed, over its own bytes, and nothing else is listed there |
| IndexReads.PageShowsSingle | crates/agent-index/src/scan.rs:1303-1339 | a cold page whose offset lies above such a record shows it in the same way, unless newer turns fill the page |
| ColdScan.ListByPages | crates/agent-index/src/scan.rs:1252-1285 | paging with the oldest start as the next offset lists every surviving turn exactly once, in order; it fails exactly on a log with an unreadable line, at the newest one |
| ColdScan.ScanTurnsAfter | crates/agent-index/src/scan.rs:1347-1371 | the bounded deque ends with the nearest closed turns newer than the anchor, oldest first; the newest unreadable line stops it exactly if it comes before the anchor |
| ColdScan.ScanTurnsBefore | crates/agent-index/src/scan.rs:1404-1426 | the nearest closed turns older than the anchor, newest first; the newest unreadable line stops it exactly if it comes before the anchor, or behind a closed one before the page is full |
| ColdScan.AfterAnchorIs | crates/agent-index/src/scan.rs:1347-1371 | the page behind an anchor: closed turns newer than it, oldest first; one is left out only from a full page and only if it is newer than all of that |
| ColdScan.BeforeAnchorIs | crates/agent-index/src/scan.rs:1404-1426 | the page before it: closed turns older than it, newest first; one is left out only from a full page and only if it is older than all of that |
| TableReads.DescReads | crates/agent-index/src/store.rs:430-455 | a descending range read kept to the covered rows is the head of the list those rows hold |
| IndexReads.CurrentIndexedTurns | crates/agent-index/src/scan.rs:1019-1066 | with a fresh checkpoint the indexed page is exactly the surviving turns of the coverage below the offset; it is refused exactly when the offset is at or below coverage, or the page is empty above byte 0 |
| IndexReads.FreshMeans | crates/agent-index/src/scan.rs:1019-1066 | a checkpoint is fresh exactly for the same file at the same length, time and digest |
| IndexReads.IndexedPageIsColdPage | crates/agent-index/src/scan.rs:1019-1066 | that page is a prefix of the cold page, and all of it when nothing more lies below coverage |
| IndexReads.FrozenRangeAgrees | crates/agent-index/src/scan.rs:1150-1184 | without a tombstone in the range, clipping the growing file's turns at the prefix's end gives the prefix's own turns |
| IndexReads.FrozenIndexedTurns | crates/agent-index/src/scan.rs:1150-1184 | the rows read for a frozen prefix are the growing file's turns of the range; a page is returned exactly if the checkpoint matches and reaches the end, coverage begins below the page, and the page is not empty above byte 0 |
| IndexReads.ServesMeans | crates/agent-index/src/scan.rs:1150-1184 | the index answers for a prefix exactly if the checkpoint still matches and reaches its end, coverage begins at byte 0 or holds a full page, and no tombstone lies in the range of the page |
| IndexReads.FrozenLatest | crates/agent-provider-codex/src/history_service.rs:1323-1368 | through the index or by a scan, the page of a frozen prefix is the one the prefix alone determines, and it fails exactly if the scan is taken and blocked |
| Witness.WitnessMatches | crates/agent-index/src/scan.rs:1219-1241 | a witness matches exactly if the file is the same one and no shorter, the digest agrees and, where the length is unchanged, the time too, and nothing was rolled back since; it fails exactly if an unreadable line comes up behind the witnessed bytes before a rollback does |
| Witness.WitnessedLater | crates/agent-index/src/file.rs:57-73 | asked about a later observation: true for a file that only grew, and false for another device or inode, a shorter file, another digest, an unchanged length with another time, or a rollback that was added |
| Witness.WitnessedTurnsStay | crates/agent-index/src/scan.rs:1219-1241 | then every task turn that survived in the witnessed prefix survives with the same start and id, and a closed one keeps its end |
| Witness.WitnessedListStays | crates/agent-index/src/scan.rs:1219-1241 | and so does every turn the prefix lists, standalone turns included |
| Witness.WitnessedFileStays | crates/agent-index/src/file.rs:57-73 | from one observation of a file to the next: while its witness matches, every listed turn stays, if equal digests mean equal bytes |
| Store.IndexStore.CommitIndexBatch | crates/agent-index/src/store.rs:276-341 | one transaction: the whole new value of the tables, which the lemmas below describe table by table |
| Store.CommitView | crates/agent-index/src/store.rs:276-341 | the flat tables after a commit show the file exactly the batch's effect on its own rows |
| Store.CommitElsewhere | crates/agent-index/src/store.rs:276-341 | and show every other file what they showed before |
| Store.CommitKeepsMirrored | crates/agent-index/src/store.rs:325-338 | `content` and `content_by_file` keep holding the same triples |
| Store.CommitStoresContent | crates/agent-index/src/store.rs:325-338 | a content row is there after a commit exactly if it was before or the batch names it, in both tables; its locator is that of the last entry naming it, otherwise the old one |
| Store.SentIsStored | crates/agent-index/src/store.rs:325-338 | over any transactions of one file, all content committed since its last reset is in both tables, at a locator that was committed for that row |
| Store.PublishKeepsNoGhosts | crates/agent-index/src/store.rs:289-324 | no row or summary of a tombstoned turn survives or enters |
| Store.PublishKeepsInverse | crates/agent-index/src/store.rs:289-324 | `turns` and `turns_by_id` stay inverse while ids name one start each |
| Store.IndexStore.ResetFile | crates/agent-index/src/store.rs:348-412 | the loop over the reverse content rows and the range deletions give exactly the tables without the file |
| Store.ResetClears | crates/agent-index/src/store.rs:348-412 | nothing of the file is left |
| Store.ResetElsewhere | crates/agent-index/src/store.rs:348-412 | every other file is untouched |
| Store.ResetClearsContent | crates/agent-index/src/store.rs:359-384 | content rows go exactly for this file, and both content tables still mirror each other |
| Store.LaneRefinesStore | crates/agent-index/src/store.rs:173-180 | over any sequence of one file's writes, working on that file's rows alone gives what the flat tables show, and leaves other files alone |
| Codec.BeOfUnBe | crates/agent-index/src/store.rs:859-864 | big-endian bytes and integers of one width are in one-to-one correspondence |
| Codec.BeDigits | crates/agent-index/src/store.rs:859-864 | the most significant byte comes first: each byte is the digit of its power of 256 |
| Codec.DecodeOfEncodeState | crates/agent-index/src/store.rs:714-789 | every storable checkpoint reads back as itself, in each of the three layouts |
| Codec.EncodeOfDecodeState | crates/agent-index/src/store.rs:714-789 | every accepted row is a storable checkpoint; it is rewritten unchanged exactly if it already has the layout used today |
| Codec.StateLayout | crates/agent-index/src/store.rs:714-789 | where each field of a checkpoint row lies |
| Codec.DecodeOfEncodeTurn | crates/agent-index/src/store.rs:630-663 | a turn is encodable exactly if its id is shorter than 65536 bytes, and then reads back as itself |
| Codec.TurnLayout | crates/agent-index/src/store.rs:630-663 | where each field of a turn row lies |
| Codec.DecodeOfEncodeRecord | crates/agent-index/src/store.rs:803-857 | a record row reads back as written exactly if its length fits four bytes and its offset eight |
| Codec.RecordLayout | crates/agent-index/src/store.rs:803-857 | where each field of a record row lies |
| Codec.EncodeOfDecodeRecord | crates/agent-index/src/store.rs:803-857 | and every thirteen bytes are some record's row |
| Keys.BeKeepsOrder | crates/agent-index/src/store.rs:794-799 | big-endian bytes are ordered as their integers |
| Keys.KeySpelling | crates/agent-index/src/store.rs:794-833 | row keys are the file's hash and the eight offset bytes; the hash, a zero byte and the id; two hashes and the offset |
| Keys.OffsetKeysKeepOrder | crates/agent-index/src/store.rs:794-799 | row keys are ordered by file, then by offset |
| Keys.OffsetRange | crates/agent-index/src/store.rs:206-222 | a range between two offsets of a file holds exactly that file's rows between them |
| Keys.IdRange | crates/agent-index/src/store.rs:351-356 | the id range a reset clears holds exactly the file's ids |
| Keys.ContentRange | crates/agent-index/src/store.rs:229-241 | a content range holds exactly the rows of its digest, or of its file in the reverse table |
| Keys.ByteReadIsTurnsDesc | crates/agent-index/src/store.rs:430-455 | walking the byte table backwards in key order gives exactly the newest turns below the offset |
| Keys.ClearedRangeHoldsTheRest | crates/agent-index/src/store.rs:386-397 | deleting a file's key range leaves exactly the other files' rows |
| Enrollment.Window.Approve | apps/relay/src/enrollment.rs:177-190 | approval succeeds exactly for the displayed, unapproved candidate of an open window |
| Enrollment.Window.Finish | apps/relay/src/enrollment.rs:200-209 | cancellation and expiry end an unfinished window and never undo a commit |
| Enrollment.Window.Commit | apps/relay/src/enrollment.rs:351-361 | the commit succeeds exactly while the window is open |
| Enrollment.Window.Drop | apps/relay/src/enrollment.rs:372-378 | a dropped exchange revokes its route exactly if it had one and did not commit |
| Enrollment.Enrollment.Open | apps/relay/src/enrollment.rs:116-132 | a second window is refused exactly while one is open |
| Enrollment.Enrollment.Current | apps/relay/src/enrollment.rs:135-142 | the current window is the only open one |
| Enrollment.Completes | apps/relay/src/enrollment.rs:242-363 | nothing stands in the way of an orderly pairing: the first exchange of a window with time left, approved as displayed and online on its new route, commits that route, which closes the window |
| Enrollment.Play | apps/relay/src/enrollment.rs:242-363 | every interleaving is the fold of its steps, keeps the invariant, and never reopens a closed window |
| Enrollment.DidTouchesOwn | apps/relay/src/enrollment.rs:297-378 | a step on one window registers a route never issued before or revokes that window's own, and no other route changes |
| Enrollment.Enrollment.StepAny | apps/relay/src/enrollment.rs:116-378 | whatever is done to one window, all others keep their invariants on the one registry, and at most one is open |
| Enrollment.Host | apps/relay/src/enrollment.rs:116-142 | over one clock and one registry, with any number of windows and steps on any of them: each keeps its invariant whatever the others do, only the newest can be open, and no route belongs to two |
| Enrollment.CommitExcludesCancel | apps/relay/src/enrollment.rs:200-209 | once an exchange committed, the window is neither cancelled nor expired, and no second exchange committed |
| Enrollment.CommitWasApproved | apps/relay/src/enrollment.rs:297-361 | a commit came before the deadline, for the candidate that was displayed and approved before the deadline |
| Enrollment.OverIsRegisteredIffCommitted | apps/relay/src/enrollment.rs:366-378 | after an exchange its route is registered if and only if it committed |
| Rendezvous.Relay.EndControl | apps/relay/src/server.rs:483-494 | a control connection's cleanup removes its route's entry only if that is still its own |
| Rendezvous.Relay.Open | apps/relay/src/server.rs:227-317 | a request is admitted exactly if both permits and an upstream are there and the upstream takes the message; otherwise nothing is left behind |
| Rendezvous.Relay.Attach | apps/relay/src/server.rs:319-328 | an attachment takes a ticket out exactly on the ticket's own route |
| Rendezvous.Play | apps/relay/src/server.rs:143-334 | every run from an idle relay is the fold of its steps, attachments that fail before their hand-over included |
| Rendezvous.HandOver | apps/relay/src/server.rs:319-334 | a live attachment hands its socket to the request it was made for exactly if that still waits: the request then holds it, exactly this delivery is recorded, and the request's next look bridges it; otherwise nothing is delivered, and either way one permit returns |
| Rendezvous.PhoneReachesCompanion | apps/relay/src/server.rs:143-334 | from any valid state with permits left: a Companion connects, a phone asks for a stream, the Companion attaches with the ticket, and the phone is bridged to exactly that attachment, not before; when both are done every permit is back |
| Rendezvous.AfterIsValid | apps/relay/src/server.rs:143-334 | after any steps the invariant holds: available and held permits make up 512 in all and 64 per connection, tickets belong to waiting requests, deliveries are right and are never taken back |
| Rendezvous.Relay.BeginEnrollment | apps/relay/src/server.rs:614-634 | an enrollment socket is admitted exactly if a window is open and a permit is left, and takes that permit |
| Rendezvous.EndLeavesSuccessor | apps/relay/src/server.rs:483-494 | a connection that replaced another still serves and is still reached after the replaced one ends |
| Rendezvous.SeatedExactly | apps/relay/src/server.rs:143-172 | a serving, uncancelled connection stays so through a step if and only if the step is not its own end, a cancellation of its route or another registration on it |
| Rendezvous.StaysReachable | apps/relay/src/server.rs:143-494 | over any run without such a step it keeps serving and its route keeps leading to it |
| Rendezvous.ServingIsReachable | apps/relay/src/server.rs:143-172 | a serving, uncancelled control connection is the one its route leads to |
| Rendezvous.TicketLivesWithRequest | apps/relay/src/server.rs:496-505 | a pending ticket's request is still waiting, and the ticket was not delivered |
| Rendezvous.DeliveredOnce | apps/relay/src/server.rs:319-334 | each ticket is delivered at most once, to its own request, from an attachment of its own route |
| Registry.Registry.Pair | apps/relay/src/registry.rs:125-176 | pairing succeeds exactly on an unexpired invitation of this route, moves its generation on by one and keeps its name; the invitation is gone either way, even if the process dies |
| Registry.Registry.CreateInvitation | apps/relay/src/registry.rs:87-120 | an invitation is made exactly for a new route or an existing one, and touches no route |
| Registry.Registry.Register | apps/relay/src/registry.rs:181-201 | a new route with a valid label, kept as its name, current at generation 1 |
| Registry.InviteThenPair | apps/relay/src/registry.rs:87-176 | an invitation for a new route pairs up to 300 seconds after it was made, and not a second longer |
| Registry.RouteIdsAreHex | apps/relay/src/registry.rs:87-176 | route ids are exactly the texts of 64 lower-case hexadecimal digits |
| Registry.TokensHaveBounds | apps/relay/src/auth.rs:19-29 | tokens of letters and digits are valid exactly with 32 to 512 bytes, and none with a blank or a control character is |
| Registry.PlainNamesHaveBounds | apps/relay/src/registry.rs:352-368 | labels in printable ASCII are valid exactly with at most 80 characters, not all of them blank |
| Registry.Registry.Revoke | apps/relay/src/registry.rs:255-264 | the route and its token are gone, no other route changed |
| Registry.Registry.Rename | apps/relay/src/registry.rs:269-288 | a rename leaves every session as current as it was |
| Registry.Registry.OthersKeepSessions | apps/relay/src/registry.rs:246-250 | an operation on one route leaves the sessions of all others as they were |
| Registry.Play | apps/relay/src/registry.rs:87-288 | over every run no token that had lost its route gets one back, so its sessions stay stale, and each invitation pairs at most once |
| Registry.RevokedForGood | apps/relay/src/registry.rs:246-264 | a session that was current when its route was revoked is not current after any further run |
| Registry.RotatedForGood | apps/relay/src/registry.rs:125-176 | nor is one that was current when a pairing rotated its route's token |
| Registry.OneTokenPerRoute | apps/relay/src/registry.rs:225-241 | at most one token authorizes a route |
| Registry.OneRoutePerToken | apps/relay/src/registry.rs:225-241 | and a token authorizes at most one route |
| ThreadCursor.DecodeOfEncode | crates/agent-provider-claude/src/catalog.rs:350-398 | a printed cursor reads back as itself, ids with colons included, exactly unless its id is empty |
| ThreadCursor.EncodeOfDecode | crates/agent-provider-claude/src/catalog.rs:372-398 | an accepted cursor is a spelling of its position, and prints back unchanged exactly if its value is written canonically |
| ThreadCursor.PrintOfParse | crates/agent-provider-claude/src/catalog.rs:389-395 | a parsed integer prints back unchanged exactly without leading zeros and minus zero |
| ThreadCursor.EncodeSpells | crates/agent-provider-claude/src/catalog.rs:350-358 | the text of a cursor: sort key, direction, value and id, joined by colons |
| ThreadCursor.NumeralDigits | crates/agent-provider-claude/src/catalog.rs:350-358 | its value is written in decimal digits |
| ThreadList.SortIsOrderedPermutation | crates/agent-provider-claude/src/catalog.rs:306-321 | sorting is ordered by value, then id, in the asked direction, and loses or adds nothing |
| ThreadList.PageIsInOrder | crates/agent-provider-claude/src/catalog.rs:306-321 | on every page a thread comes before a later one by the time its sort key names, then by id, in the asked direction |
| ThreadList.ListedRows | crates/agent-provider-claude/src/catalog.rs:272-305 | the listing holds exactly the wanted rows, each once: those that the archive flag, the shell rule, the directory, the search term and the time window ask for, each spelled out |
| ThreadList.FirstPageIsFull | crates/agent-provider-claude/src/catalog.rs:272-363 | the limit is held to 1..500, and a first page is as long as the limit or the list |
| ThreadList.ResumeSplits | crates/agent-provider-claude/src/catalog.rs:322-340 | the position found is where the threads strictly after the cursor begin |
| ThreadList.PageHoldsItsStretch | crates/agent-provider-claude/src/catalog.rs:322-352 | a thread listed once is on a page exactly if it lies after the page's cursor and not after the next one |
| ThreadList.CursorsAdvance | crates/agent-provider-claude/src/catalog.rs:341-358 | a page with a successor is full, and its cursor lies strictly further |
| ThreadList.StableThreadsAppearOnce | crates/agent-provider-claude/src/catalog.rs:272-363 | following `next_cursor` to the end returns exactly once every thread that stays listed under an unchanged sort value, whatever other rows do between pages |
| ThreadList.UnchangingPagesTile | crates/agent-provider-claude/src/catalog.rs:272-363 | over unchanging rows the pages in order are the sorted list |
| ThreadList.FollowingEnds | crates/agent-provider-claude/src/catalog.rs:272-363 | and following the cursors ends |
| ThreadList.RefusedExactlyOnForeignCursors | crates/agent-provider-claude/src/catalog.rs:273-289 | a request is refused exactly when its cursor spells no position in its own sort |
| Usage.RequestsCost | crates/agent-core/src/usage.rs:505-515 | the summed cost exists exactly if every request is priced; each part of the money is the sum over the requests of its own tokens at its own rate per million, long-context rates exactly where a request's input exceeds their threshold; its counters are the clipped exact sums, its percentage the cached share, its model the common one or "mixed" |
| Usage.NothingIsLostBelowSaturation | crates/agent-core/src/usage.rs:524-561 | the input parts are exact and their unchecked sum fits exactly while the whole input fits its counter, and then they make it up |
| Usage.Split | crates/agent-core/src/usage.rs:362-371 | uncached, cached and cache-write tokens make up the input; counters that fit are kept |
| Replay.VisitChangesOnlyPrices | crates/agent-core/src/usage.rs:599-669 | the rewrite changes nothing but price fields |
| Replay.VisitForgetsPrices | crates/agent-core/src/usage.rs:599-669 | trees that differ in prices only are rewritten to the same tree |
| Replay.LastVisitWins | crates/agent-core/src/usage.rs:599-669 | of two rewrites only the last one shows |
| Replay.VisitWritesThenWalks | crates/agent-core/src/usage.rs:612-666 | the rewrite is: write into the record, then walk all its values, the written ones included |
| Replay.StoredHoldsNoPrice | crates/agent-core/src/usage.rs:578-586 | what is stored has every price field empty, exactly if the pricing inputs stored beside it hold none themselves |
| Replay.DeliveredIsPricedAfresh | crates/agent-core/src/usage.rs:578-597 | what is delivered is the payload priced from its stored inputs alone |
| Replay.DeliveryForgetsOldPrices | crates/agent-core/src/usage.rs:578-597 | payloads that differ in the prices they hold are delivered alike |
| Replay.TurnIsPriced | crates/agent-core/src/usage.rs:599-669 | a usage record's turn shows the sum of its requests' costs, or null if one of them has no price |
| Replay.ThreadIsPriced | crates/agent-core/src/usage.rs:339-400 | its thread shows its own tokens at the base rates of its model, long context or not |
| Replay.ReportedIsShown | crates/agent-core/src/usage.rs:229-262 | a provider's own cost is shown as the total of its scope, without parts and rates |
| Replay.UnpricedIsNull | crates/agent-core/src/usage.rs:599-669 | a scope with nothing to price it by, or without readable tokens, shows null |
| Replay.EstimateIsPriced | crates/agent-core/src/usage.rs:599-669 | a size estimate shows its tokens at the model's input rate, or null |

## Left out

- redb, memory maps, locks and file handles: the tables are values replaced by atomic commits; the file is a byte or record sequence; reads that fail for input/output reasons and rows of a corrupted database are not modelled.
- ForwardScan.IndexFile: the first freshness check before the lane is taken, thread metadata, tail fragments shown for search, timing reports and `records_per_second` are not modelled. Lines that are appended while a scan reads belong to its observation of the file.
- ForwardScan.IndexFile: a commit that fails because a turn id exceeds 65535 bytes counts as a commit that does not happen (`Codec.DecodeOfEncodeTurn` says when that is).
- Backfill.IndexPrefixRange: the alignment errors for a range that does not end at the old coverage are proved unreachable and have no branch of their own.
- Leftovers.StrandedHaunts: speaks of a backfill to the nearest start below coverage; a crashed anchor recovery, whose range holds several starts, is not part of the statement.
- BlockScan.VisitBoundariesInBlocks: a file without the one-hit condition is outside the statement, as the code calls the visitor once for each hit.
- BlockScan.VisitTimelineInBlocks: the matches of both kinds are merged from two sorted lists where the code sorts one; under `OneHitPerEvent` no line holds matches of both kinds that matter, so their order within a line makes no difference.
- LineScan.Scan: the projection is the list of folded records; what a provider computes from them is a function of that list.
- Provider parsing of boundaries, standalone turns and content entries is a parameter.
- Schema migration and rebuilds on a logic version change: they drop every table.
- IndexReads.FrozenLatest: the page of a fork through several inherited bases is not modelled.
- Keys.ByteReadIsTurnsDesc: the ascending reads use the same ranges (`Keys.OffsetRange`) and are not spelled out.
- Enrollment.Play: registry operations that belong to no window (pairings, rotations, revocations from the terminal) are not interleaved; route ids are random, so none is issued twice; the verification code and the wire messages appear only as steps, and time is a counter that the clock step raises.
- Rendezvous.Play: heartbeats, the opaque byte bridge and the HTTP surface are not modelled; cancelling a route is modelled, its callers (pairing, revoking) are not.
- Registry.Play: listing and file permissions are not modelled; a malformed request and a refused one are both `None` in `CreateInvitation`, `Pair` and `Register`.
- ThreadList.List: lower-casing is a parameter; how rows are built from sessions is not modelled.
- Usage.RequestsCost: money is real, so floating-point rounding is not modelled; an unchecked overflow of the input total wraps, as in a release build.
- Replay.Visit: the JSON tree is a value; rewriting in place and the order of object keys are not captured. Parsing of stored inputs is a parameter.
- Codec.DecodeOfEncodeTurn: UTF-8 is a parameter that reads back what it wrote.
- `request_ids.rs`, provider discovery, configuration, release scripts and user interfaces: not part of this model.
