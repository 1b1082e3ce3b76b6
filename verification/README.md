# Page monitor: a verified model

The repository is a self-hosted monitor of web pages. A check reads a page, archives what is new, and
queues jobs that enrich each entry; a full scan does the same for every page of a subscription. State
lives in PostgreSQL, work is done by cooperating workers that may die at any moment, and the user
interface runs in any number of browser tabs. This project models the protocols behind that and proves
what they keep in every run.

| file | what it models |
|---|---|
| `SqlTranslate.dfy`, `SqlPieces.dfy` | the five-state lexer that numbers SQL placeholders, against a recursive lexer and against the pieces a statement is written in |
| `ProductCodes.dfy` | the four separately written recognisers of product codes |
| `FullScan.dfy`, `FullScanRuns.dfy` | the crash-resumable full scan: its transactions, and every run of them |
| `ArchiveLookup.dfy`, `ArchiveWrites.dfy`, `ArchiveItems.dfy`, `ArchiveInvariant.dfy`, `ArchiveRuns.dfy`, `ArchiveStore.dfy` | the archive, its code index, the backfill, and both writers |
| `ArchiveSlices.dfy`, `SliceAgreement.dfy`, `SliceTitles.dfy`, `SliceInputs.dfy`, `SliceExamples.dfy`, `ScanCommit.dfy` | the scan commit in slices, which inputs it treats as one call would, inputs it does not, and the whole closing transaction |
| `LiveLeader.dfy`, `LiveTabs.dfy` | leader election between browser tabs: one tab's handlers, then any number of tabs |
| `BrowserPool.dfy`, `BrowserPoolRuns.dfy`, `BrowserPoolPolicy.dfy`, `BrowserPoolClass.dfy` | the pool that shares one Chromium: its steps, all interleavings, which browser a task gets, and the object |
| `SubscriptionLock.dfy` | the promise-chain lock per key |
| `LibrarySync.dfy`, `WorkQueue.dfy`, `WorkQueueRuns.dfy`, `Handoff.dfy`, `HandoffSteps.dfy`, `Releases.dfy`, `Outbox.dfy`, `OutboxRuns.dfy`, `Downloads.dfy` | the durable job protocols |
| `JellyfinIndex.dfy` | the Jellyfin pager, the snapshot writer and the cached lookup |
| `Telemetry.dfy`, `Schedule.dfy` | the telemetry buffers, and the schedule arithmetic |

Where the source changes state in place the model is a class (`FullScan.Scan`, `ArchiveStore.Store`,
`LiveLeader.LiveTab`, `BrowserPoolClass.ChromiumPool`, and so on), each method tied to a function of the
old state. The same functions are the steps of the state machines, so the statements about all runs are
statements about what the methods do. A list of steps is a run; every interleaving is some list.

Lemmas that only spell out what one small statement writes, such as `LiveTabs.WorldMoves`, `HandoffSteps.MissingMarks`
or `WorkQueueRuns.DeleteRemoves`, have no row in the table below.

## Assumptions

- A transaction is atomic, and so is the code between two `await`s of one process. A crash may fall between any two of them.
- SHA-256 is injective on the contents seen, so a digest is modelled by the text it was taken of.
- Clocks do not run back. Local time has no daylight-saving jumps (`Schedule`).
- One scanner at a time works on a subscription; the active job slot gives that. Extracted contents are never empty.
- Generated ids are new: job and entry ids, scan ids, sync ids, tab ids of open tabs.
- Replies of web pages, Jellyfin and qBittorrent are arbitrary. Where a statement needs a list that does not change, or totals in its replies, it says so.
- SQL `LOWER` and the case-insensitive patterns are modelled on ASCII letters, which is all the patterns contain.

## Where the code falls short of the plain property

Each is stated with the input or run that shows it, and with the condition that is exact unless noted.

- A digit right after a placeholder runs into its number: `?1` becomes `$11`. Numbers are read back as 1..n exactly when no placeholder or plain dollar sign is followed by a digit (`SqlTranslate.ParametersInOrder`, `SqlTranslate.DigitAfterPlaceholder`).
- Before the backfill is done, a lookup misses a code written with two or more blanks inside it in a row that is not indexed (`ArchiveRuns.WideGapUnreached`; the exact reach is `ArchiveRuns.ReachedExactly`).
- Slices of a scan commit differ from one call. A scan of 201 items shows it when the title of the first names the code of the last (`SliceExamples.AliasedTitleDiffers`), when the first replaces a stored title that names it (`SliceExamples.ReplacedTitleDiffers`), and, for titles alone, when both speak about one row (`SliceExamples.FlippedTitleDiffers`). With a complete index the rows come out the same exactly when, at every slice, the codes its items have are carried by just the rows that carried them at the start and those of earlier items, which the rows at the start and the items alone decide (`SliceInputs.SlicesAgreeOnInput`); the whole tables, exactly when the rows are told the same titles as well (`SliceInputs.TablesAgreeOnInput`). While the index is being filled the condition is on what the lookups report (`SliceAgreement.SlicesAgreeExactly`).
- A full-scan reset that carries the id of an already summarised batch summarises it twice: the route reads the batch before its transaction (`FullScanRuns.SummaryStep`, `FullScanRuns.StaleResetSummarisesTwice`).
- A library lookup whose worker read the entry as available, and which finds no match or fails for good, leaves a pending magnet without any job when no magnet job is active (`Handoff.HandoffIsAtomic`, `Handoff.StrandedExample`).
- The backfill of old release dates marks an entry and queues its job in two statements: a process that dies in between leaves the entry waiting without a job (`Releases.BackfillStrands`). Nothing else does (`Releases.ReleaseIsAtomic`, `Releases.StrandedOnlyByBackfill`).
- A late worker may bring back a finished row of a work queue (`WorkQueue.LateWorkerRevives`): exactly by the retry branch, while no other row of its key is active (`WorkQueue.RevivedExactly`), and never without overlapping workers (`WorkQueue.FinishedStays`).
- A delivered notification is queued, and sent, once more when a worker that was thought stalled fails late (`OutboxRuns.LateFailureSendsAgain`): exactly then, and while its attempts last (`OutboxRuns.RevivedExactly`), and never without a recovery (`OutboxRuns.DeliveredStays`).
- Two overlapping observers may leave a completed download that nobody announces (`Downloads.OverlapLosesCompletion`); whether it is claimed after all is decided exactly by `Downloads.SilentClaimedExactly`. One observer at a time never does (`Downloads.OneObserverNeverSilent`).
- Just after midnight the daily schedule passes over a slot that its own stagger carried there from the day before (`Schedule.DailyIsEarliest`), and the weekly schedule one that it carried into the configured weekday (`Schedule.WeeklyIsEarliest`).
- Without a total in its replies, Jellyfin paging stops after the first page (`JellyfinIndex.StreamLibrary`).

## Model

| member | source | states |
|---|---|---|
| SqlTranslate.TranslateSql | server/sql-translate.ts:16-62 | the character loop gives the text and the count that a recursive lexer gives: quoted text, identifiers and comments copied, placeholders numbered from 1 in order |
| SqlTranslate.InsideStep | server/sql-translate.ts:35-58 | one turn of the loop inside a region never ends it early, doubled quotes included, and never runs past it |
| SqlTranslate.LexKeepsSource | server/sql-translate.ts:16-62 | putting `?` back for every number gives the input |
| SqlTranslate.Relex | server/sql-translate.ts:16-62 | the lexer of the translated text finds the same regions, with dollar signs and digits for placeholders |
| SqlTranslate.TranslateTwice | server/sql-translate.ts:16-62 | translating the translation changes nothing and finds no placeholder |
| SqlTranslate.ParametersInOrder | server/sql-translate.ts:16-62 | the parameter numbers read from the translation are 1..n in order exactly when no placeholder or plain dollar sign is followed by a digit |
| SqlTranslate.DigitAfterPlaceholder | server/sql-translate.ts:30 | the input that shows it: `?1` asks for parameter 11 |
| SqlPieces.PiecesAreTranslated | server/sql-translate.ts:16-62 | a statement written as literals and quoted identifiers with doubled quotes, line and block comments, characters and parameters, closed or running to the end, is translated piece by piece: the parameters numbered in order, every other piece as it is |
| SqlPieces.StatementsArePieces | server/sql-translate.ts:16-62 | every statement is written in such pieces, each ending where its own mark first stands |
| SqlPieces.RegionsAreCopied | server/sql-translate.ts:35-58 | nothing in a comment or between quotes is numbered or changed, whatever it holds and whatever follows |
| ProductCodes.MatchHeadComplete | server/code-search-parser.ts:26 | the greedy match at the head of a text finds the one code that stands there, if any |
| ProductCodes.CodesExact | server/code-search-parser.ts:34-38 | the search of a text finds exactly the codes that stand in it after decoding |
| ProductCodes.KeysExact | server/code-search-parser.ts:40-42 | its keys are exactly those of the codes that stand in the text |
| ProductCodes.DecodeFirst | server/code-search-parser.ts:35 | decoding replaces the first `%2d`, in either case, by a hyphen and goes on behind it; a text without one stays as it is |
| ProductCodes.MediaKeysExact | server/jellyfin-match.ts:8-14 | a media name carries a key exactly when a code with that key stands in it between boundaries |
| ProductCodes.PatternsExact | server/code-search-parser.ts:44-49 | some LIKE pattern of a key matches a text exactly when prefix and number stand in it with nothing or any one character between |
| ProductCodes.KeyIsNormal | server/code-search-parser.ts:25-32 | normalising a key gives the same key |
| ProductCodes.NormalizedKey | server/code-search-parser.ts:25-32 | the lower-case form of a normalised code is the archive key of the text and of itself |
| ProductCodes.ArchiveKeyExact | server/code-search-parser.ts:25-32 | a code with blanks around it, whatever its separator and case, has the key of its prefix and number |
| ProductCodes.ArchiveKeyParts | server/code-search-parser.ts:25-32 | and a text with a key is such a code |
| ProductCodes.ArchiveKeyIsFound | server/jellyfin-match.ts:3-6 | a text that is a code is found by the search of a text, under the same key |
| ProductCodes.OnlyOwnKey | server/jellyfin-match.ts:3-6 | and that key is the only one the search finds in it |
| ProductCodes.ArchiveKeyPasses | server/code-search-parser.ts:44-49 | it passes the LIKE pre-filter of its own key |
| ProductCodes.ArchiveKeyIsMediaKey | server/jellyfin-match.ts:3-14 | a media item named by it carries the same key |
| ProductCodes.SingleSeparatorPasses | server/code-search-parser.ts:44-49 | a code written with at most one separator passes the pre-filter, wherever it stands |
| ProductCodes.WideGapMissed | server/code-search-parser.ts:34-49 | the family that does not: two or more blanks inside the code, which the search still finds |
| FullScan.Scan.Start | server/capture.ts:350-360 | a new run empties the staging table and opens its batch |
| FullScan.Scan.StagePage | server/capture.ts:321-336 | the 100-row statements stage what one statement would: the items the scan does not hold yet, in order; the next page moves on only for the current run |
| FullScan.Scan.StreamContent | server/capture.ts:379-395 | the cursor loop visits each staged row once; text and digest input are the newline join of the staged items |
| FullScan.Scan.ArchiveSlices | server/capture.ts:404-414 | the second pass hands every staged row to the archive once, in order, in full slices of 200 but the last |
| FullScan.Scan.Commit | server/capture.ts:379-427 | publishes content, digest and totals and clears the scan, handing every staged row on once, unless the run was reset: then nothing changes |
| FullScan.CursorPageIs | server/capture.ts:382-385 | ordering by page and position agrees with the id cursor: a page is the next 200 staged rows |
| FullScan.InsertItemsMeans | server/capture.ts:328-331 | the conflict clause adds exactly the items whose content is new to the scan |
| FullScan.AddedIsFirst | server/capture.ts:328-331 | staging one after the other keeps the first occurrence of each content |
| FullScanRuns.StepKeeps | server/capture.ts:338-432 | staged rows, page numbers, next page and scanner agree after every transaction, crash, reset and one-click insert |
| FullScanRuns.RunKeeps | server/capture.ts:338-432 | hence in every run |
| FullScanRuns.EveryPublishedScanIsFaithful | server/capture.ts:396-426 | every published content is the newline join of the first occurrences, in page and position order, of exactly one committed read of each page from 1 to the total, in order, and the digest is taken of that same text |
| FullScanRuns.StagedRowsStayAligned | server/capture.ts:321-336 | ids, pages and positions of staged rows grow together in every run |
| FullScanRuns.ResetPublishesNothing | server/routes/subscriptions.ts:82-86 | after a reset nothing is published until a new run begins |
| FullScanRuns.ResumeContinues | server/capture.ts:345-375 | after a crash the scan goes on at the page after the last one staged, with every staged row |
| FullScanRuns.SummaryStep | server/routes/subscriptions.ts:131-141 | a step keeps summaries unique exactly when it is no reset with the id of a summarised batch |
| FullScanRuns.EachBatchSummarisedOnce | server/notifications.ts:441-477 | without such a reset no batch is summarised twice in any run |
| FullScanRuns.StaleResetSummarisesTwice | server/routes/subscriptions.ts:131-141 | a run with one summarises a batch twice |
| ArchiveLookup.PageIsSlice | server/archive-code-index.ts:47-57 | a page of the descending scan is exactly the selected rows between two bounds |
| ArchiveLookup.CarriesExact | server/archive-code-index.ts:10-12 | a row carries exactly the codes that stand in its content or in its title |
| ArchiveLookup.FindArchiveCodeMatches | server/archive-code-index.ts:29-60 | once the flag is set, the rows of the index; before, with all matches wanted, exactly what index and patterns reach; with one each wanted, every reachable code is named; never a repeat, never a code no row carries |
| ArchiveLookup.ReadLegacy | server/archive-code-index.ts:45-58 | the paging loop reads every selected row, or stops early only when each wanted code is named |
| ArchiveWrites.ReplaceArchiveCodes | server/archive-code-index.ts:15-26 | the nested chunks of 100 rows and 200 aliases leave what one replacement of all rows would |
| ArchiveItems.UniqueItemsContents | server/capture.ts:51-60 | merging items keeps the contents, and their order, that dropping repeats keeps |
| ArchiveItems.UniqueItemsChosen | server/capture.ts:51-60 | the title a merged item keeps is that of the first item of its content with one, unless the first with a link comes later and has a title too: then it is that one's; the link likewise |
| ArchiveItems.UniqueItemsKeepTitles | server/capture.ts:51-60 | a merged item has a title, or a link, exactly when some item of its content has one, and it is one of theirs |
| ArchiveItems.PublishedIsReadBack | server/capture.ts:176-187 | the text a check stores is read back by the next one as exactly the contents it was joined from |
| ArchiveInvariant.KeyMustBeFound | server/archive-code-index.ts:29-60 | however little is indexed, no lookup misses the archive key of an entry |
| ArchiveInvariant.InsertAllKeeps | server/capture.ts:197-218 | the insert loop makes no two entries share a key or a digest |
| ArchiveInvariant.RetitleBatchKeeps | server/capture.ts:220-238 | a batch of titles changes only titles, and the index follows |
| ArchiveInvariant.ArchiveTxKeeps | server/capture.ts:180-240 | one call keeps the archive valid whatever the lookups may report: sound index, only rows ahead of the backfill missing from it, no shared key |
| ArchiveRuns.OneClickNeverConflicts | server/routes/code-search.ts:250-275 | when the lookup misses the code, the one-click insert cannot violate the unique index and creates no twin |
| ArchiveRuns.OneClickKeeps | server/routes/code-search.ts:250-278 | so that insert keeps the archive valid |
| ArchiveRuns.ResetKeeps | server/routes/subscriptions.ts:69-77 | deleting the entries and aliases of one subscription keeps it valid |
| ArchiveRuns.BackfillPageKeeps | server/archive-code-index.ts:68-76 | a page moves the cursor forward, within the target, and leaves no row at or below it missing |
| ArchiveRuns.FinishKeeps | server/archive-code-index.ts:80-81 | when the cursor reaches the target every row is indexed, also those written meanwhile |
| ArchiveRuns.RunKeeps | server/archive-code-index.ts:15-83 | all of this holds in every run of checks, one-click subscribes, resets, and backfills stopped anywhere |
| ArchiveRuns.OneEntryPerCode | server/capture.ts:191-218 | in every run, two entries of a subscription with one product code as content are the same entry |
| ArchiveRuns.IndexIsExact | server/archive-code-index.ts:32-37 | with the flag set, a lookup finds exactly the pairs of row and code that a full scan of the rows gives |
| ArchiveRuns.FoundIsCarried | server/archive-code-index.ts:29-60 | whatever a lookup finds, a row of the subscription carries |
| ArchiveRuns.PlainlyWrittenIsReached | server/archive-code-index.ts:41-58 | before the flag, a full lookup finds every code its row writes with at most one separator |
| ArchiveRuns.ReachedExactly | server/archive-code-index.ts:41-58 | its exact reach: indexed, or carried by a row that a pattern of a requested code selects |
| ArchiveRuns.WideGapUnreached | server/code-search-parser.ts:44-49 | the row it misses |
| ArchiveRuns.EveryAdditionArchived | server/capture.ts:180-219 | after a call some row has the digest of each new item, or its code as key, unless a row carried that code when the call began |
| ArchiveStore.Store.KnownCodes | server/capture.ts:191-196 | lookups of a hundred codes at a time report every code that must be found and none that no row carries |
| ArchiveStore.Store.UpdateTitles | server/capture.ts:220-238 | the batches of a hundred titles have the effect of the specification |
| ArchiveStore.TitleUpdates | server/capture.ts:228-232 | for every row the map of updates holds the last title of the batch that is about the row and differs from its own |
| ArchiveItems.RetitleInHundreds | server/capture.ts:220-240 | titles are brought up to date a hundred items at a time, each batch on what the one before left |
| ArchiveStore.Store.ArchiveNewItems | server/capture.ts:180-240 | the whole call has the effect of the transaction, for some answer the lookups may give, and adds exactly the rows it returns |
| ArchiveStore.Store.SubscribeCode | server/routes/code-search.ts:250-278 | inserts exactly when no row is found, and otherwise names a row with the code |
| ArchiveStore.Store.BackfillPage | server/archive-code-index.ts:68-76 | one committed page |
| ArchiveStore.Store.BackfillArchiveCodeIndex | server/archive-code-index.ts:63-83 | started from any cursor it ends, every row is indexed, and no row has changed |
| ArchiveSlices.CallIsPlain | server/capture.ts:180-240 | on rows and items that carry no code but their own key, a call archives an item exactly when no entry has its key or digest |
| ArchiveSlices.SlicesArchiveTheSame | server/capture.ts:404-414 | then slices of any size archive the rows that one call would, under the same ids |
| ArchiveSlices.PlainItemIs | server/archive-code-index.ts:10-12 | an item that is a code is of that kind exactly when its title names no other code |
| ArchiveSlices.StagedItemsDistinct | server/capture.ts:328-331 | the items of a scan never repeat a content, as the slices need |
| SliceAgreement.CallIsSimple | server/capture.ts:191-218 | on any valid archive, a call adds an item exactly when its key was not reported and no row has its key or digest |
| SliceAgreement.SlicesAgreeExactly | server/capture.ts:404-414 | the slices archive the rows of one call, under the same ids, if and only if each slice's lookup reports exactly the codes reported to the one call and the keys archived since |
| SliceAgreement.IndexedSlicesAgree | server/archive-code-index.ts:29-60 | with a complete index the lookups' replies are what the rows carry, so the same in terms of the rows each slice finds |
| SliceTitles.TxRow | server/capture.ts:220-239 | what a call leaves of every row: an old one with the title that its batches of a hundred titled items leave it, a new one that of its item, told on in the same way |
| SliceTitles.UptoRow | server/capture.ts:404-414 | and what slices leave: each row as told by the batches of its own slice and of those after it |
| SliceTitles.SlicesLeaveTheSame | server/capture.ts:404-414 | when the slices agree and no two items speak about one row, the tables come out equal in every column, titles included |
| SliceInputs.SimpleAdds | server/capture.ts:197-218 | which items of a list get a row: those with a code not reported, not a row's key and not an earlier item's, and those without a code whose digest is free |
| SliceInputs.SlicesAgreeOnInput | server/capture.ts:404-414 | with a complete index, the slices archive the rows of one call if and only if, at every slice, rows carry of its items' codes exactly those carried at the start and those of earlier items; the condition is on the rows at the start and the items alone |
| SliceInputs.TablesAgreeOnInput | server/capture.ts:404-414 | and leave the same tables if and only if, besides, every row is told the same title by the slices' batches as by those of one call |
| SliceExamples.AliasedTitleDiffers | server/capture.ts:404-414 | 201 items, the title of the first naming the code of the last: one call archives the last, the full slices do not |
| SliceExamples.ReplacedTitleDiffers | server/capture.ts:404-414 | 201 items, the first replacing a stored title that names the code of the last: one call does not archive the last, the full slices do |
| SliceExamples.FlippedTitleDiffers | server/capture.ts:228-232 | 201 items, the first and the last about one row, the last with the title it had: one call leaves the first's title, the full slices the old one |
| ScanCommit.CommitScan | server/capture.ts:379-427 | the closing transaction over both sets of tables: nothing when the run was reset, else publication and one archive call for each page of 200 staged items and the rest, with the state read once |
| ScanCommit.CommitIsOneCall | server/capture.ts:338-427 | in every run of a full scan the commit, in pages of 200, archives what one call on the first occurrences of one read of each page would, exactly when its lookups agree, and with a complete index exactly when rows at the start and items do; likewise for the whole tables |
| LiveLeader.LiveTab.ClaimLeadership | src/live-updates.ts:89-97 | a visible tab takes the lease, posts it, opens its stream and replays; a hidden one does nothing |
| LiveLeader.LiveTab.ReplayVisibleTopics | src/live-updates.ts:43-47 | a leader calls the listeners of every waiting and subscribed topic; any other tab keeps them waiting |
| LiveLeader.LiveTab.OnMessage | src/live-updates.ts:113-131 | the message handler: follow a lease at least as new, drop a released leader, let events wait |
| LiveLeader.LiveTab.EnsureLeader | src/live-updates.ts:106-111 | claims exactly when visible, subscribed, not leading, and without a leader heard within the lease |
| LiveLeader.LiveTab.ReleaseLeadership | src/live-updates.ts:99-104 | closes the stream, and posts the release exactly when leading |
| LiveLeader.LiveTab.OnVisibilityChange | src/live-updates.ts:134-137 | showing a tab ensures a leader and replays; hiding it releases |
| LiveLeader.LiveTab.SubscribeLive | src/live-updates.ts:144-152 | a subscription may claim, and a leader reopens its stream with the new topics |
| LiveLeader.HandlersKeep | src/live-updates.ts:35-163 | every handler keeps a stream open exactly for a visible leader with subscriptions, and lets no topic stop waiting unless its listeners are called |
| LiveLeader.TakeoverReplays | src/live-updates.ts:89-97 | a takeover hands the listeners every topic that waited |
| LiveLeader.TakesOverExactly | src/live-updates.ts:106-111 | a check claims if and only if the tab is visible, has subscriptions, and knows no leader or another one it has not heard for six seconds; otherwise it changes nothing |
| LiveLeader.OnlyLeadersCall | src/live-updates.ts:35-41 | no handler calls a listener in a tab that is hidden or does not lead |
| LiveLeader.LeadersHearAtOnce | src/live-updates.ts:35-47 | a visible leader's listeners hear of a topic, and of all that waited, at once; anyone else keeps them waiting |
| LiveLeader.ResignsExactly | src/live-updates.ts:99-104 | a release is posted exactly by a leader, who then knows none; anyone else still knows who leads |
| LiveLeader.MessageMeans | src/live-updates.ts:113-131 | what each message changes: a lease is followed exactly when it is stamped and not older than the one known, and a release forgets only its sender |
| LiveLeader.OnlyLeadersStream | src/live-updates.ts:49-68 | the stream opens exactly in a visible leader with subscriptions, for all of them |
| LiveLeader.ShownCatchesUp | src/live-updates.ts:134-137 | a tab that comes back to the screen calls or keeps every topic that waited or is subscribed to |
| LiveLeader.SubscriptionsStreamed | src/live-updates.ts:144-163 | a visible leader's stream carries exactly the topics subscribed to, as they come and go |
| LiveTabs.DeliveredIsNotNeeded | src/live-updates.ts:125-130 | the message that tells a rival makes it follow, so no two leaders outlive their message |
| LiveTabs.StepKeeps | src/live-updates.ts:49-142 | of any two tabs that believe they lead, one has a message on its way with its current stamp, at least as new as the other's |
| LiveTabs.RunKeeps | src/live-updates.ts:49-142 | in every run, with tabs opening and vanishing and messages delivered in any order |
| LiveTabs.QuietMeansOneLeader | src/live-updates.ts:49-142 | with no lease in flight at most one tab believes it leads, and it is visible; a tab with an open stream leads, and streams its own topics |
| LiveTabs.NewestClaimWins | src/live-updates.ts:125-130 | once every message is delivered, the tab with the newest claim is the one leader |
| LiveTabs.SilentLeaderIsReplaced | src/live-updates.ts:106-142 | in every run: when no lease has reached a visible, subscribed tab for six seconds, its next check makes it the leader and posts its lease |
| LiveTabs.HeardLeaderIsKept | src/live-updates.ts:106-131 | and while less than six seconds have passed since it accepted a lease, over any run, no check of it claims |
| LiveTabs.HeartbeatRenews | src/live-updates.ts:70-81 | the heartbeat of a leader goes to every other tab, which has then heard it unless it knows a newer claim; a tab that does not lead posts nothing |
| LiveTabs.FocusTakesOver | src/live-updates.ts:89-133 | a tab focused on the screen leads, and every other tab is told |
| LiveTabs.ReleaseHandsOver | src/live-updates.ts:99-138 | a leader that is hidden, unloaded or reset tells every other tab, and a visible subscribed follower leads after its next check |
| LiveTabs.PendingUntilCalled | src/live-updates.ts:35-47 | over any run a waiting topic still waits or its listeners have been called |
| LiveTabs.HeardUntilCalled | src/live-updates.ts:35-124 | from the step in which a tab hears of an event, over any run, its listeners are called or its topic waits |
| LiveTabs.EventReachesEveryTab | src/live-updates.ts:59-65 | an event is posted to every other tab and calls the leader's own listeners |
| BrowserPool.HeadIsNext | server/browser-pool.ts:120-121 | the task that starts has the highest priority, and of those the earliest request |
| BrowserPool.SortTasksKeeps | server/browser-pool.ts:120 | the sort loses and adds no task |
| BrowserPoolRuns.StepKeeps | server/browser-pool.ts:44-162 | every step between two awaits keeps the counts, the queue, the browser and the promise to drain |
| BrowserPoolRuns.PoolIsBounded | server/browser-pool.ts:44-162 | in every run at most two tasks are active and 32 wait, one launch and one browser at most, no recycling beside another active task, and a waiting task always has someone to start it |
| BrowserPoolRuns.EachTaskOnce | server/browser-pool.ts:44-162 | every accepted task is in exactly one place: waiting, at work, or settled, and settled once |
| BrowserPoolPolicy.AloneOnlyOnFitBrowser | server/browser-pool.ts:81-94 | a task that starts alone keeps the open browser if and only if it answers, was opened for the configured proxy, has shown fewer than 50 pages and is under 30 minutes old; otherwise that browser is closed |
| BrowserPoolPolicy.SharedBrowserIsMarked | server/browser-pool.ts:89-94 | beside another task the browser stays, and is marked for recycling exactly when it is no longer fit |
| BrowserPoolPolicy.RelaunchUsesProxy | server/browser-pool.ts:93-113 | the task whose browser was closed gets one that is launched for the proxy it found |
| BrowserPoolPolicy.LaunchServesAll | server/browser-pool.ts:95-113 | who waits for a launch gets its browser or fails with it |
| BrowserPoolPolicy.PageFailureKeepsBrowser | server/browser-pool.ts:137-144 | a failed page takes the browser with it if and only if it had no context or the browser does not answer |
| BrowserPoolPolicy.LastTaskRecycles | server/browser-pool.ts:146-155 | when the last task ends with nobody waiting, the browser goes exactly when it was marked, has shown 50 pages or is 30 minutes old; otherwise it is kept on the idle timer |
| BrowserPoolPolicy.SharedBrowserStays | server/browser-pool.ts:146-155 | a task that ends beside another leaves the browser alone |
| BrowserPoolPolicy.UseStartsInOrder | server/browser-pool.ts:44-52 | a call is refused exactly at 32 waiting tasks; after any other no capacity is left while one waits, and none that waits should have gone before one that started |
| BrowserPoolPolicy.BrowsersUseConfiguredProxies | server/browser-pool.ts:81-113 | in every run a browser is opened for a proxy that was configured when a task started, and while that stays the same none is closed as changed |
| BrowserPoolPolicy.IdleBrowserIsFit | server/browser-pool.ts:146-162 | in every run a browser without tasks is on its idle timer, not marked, under 50 pages, and nobody waits; none is closed for its pages before the fiftieth |
| BrowserPoolClass.ChromiumPool.UseTask | server/browser-pool.ts:44-52 | refuses at 32 waiting tasks, else queues and drains |
| BrowserPoolClass.ChromiumPool.Ensure | server/browser-pool.ts:81-114 | recycles only when alone, otherwise notes it; then uses the browser, joins the launch, or starts one |
| BrowserPoolClass.ChromiumPool.DrainQueue | server/browser-pool.ts:116-125 | starts tasks up to the capacity |
| BrowserPoolClass.ChromiumPool.FinishRun | server/browser-pool.ts:146-155 | counts down, recycles when due and alone, drains, and arms the idle timer |
| BrowserPoolClass.ChromiumPool.IdleTimeout | server/browser-pool.ts:157-162 | the timer closes the browser only when nothing runs or waits |
| BrowserPoolClass.ChromiumPool.FailRun | server/browser-pool.ts:137-144 | closes the browser exactly when no context was opened or it does not answer |
| SubscriptionLock.LockTable.Arrive | server/routes/code-search.ts:62-65 | a caller learns whom to wait for and becomes the tail |
| SubscriptionLock.LockTable.Release | server/routes/code-search.ts:68-71 | the tail goes only if no one came after |
| SubscriptionLock.MutualExclusion | server/routes/code-search.ts:61-72 | at most one caller of a key is inside its work |
| SubscriptionLock.FirstComeFirstServed | server/routes/code-search.ts:61-72 | callers enter in the order they came |
| SubscriptionLock.NoEntryLeftBehind | server/routes/code-search.ts:61-72 | the map has an entry for a key exactly while a caller of that key has not finished |
| SubscriptionLock.NeverStuck | server/routes/code-search.ts:61-72 | while callers of a key remain, one of them is working or free to enter |
| LibrarySync.SyncTable.Queue | server/db.ts:339-359 | whatever other processes commit between its statements: adds a job when a turn finds none, keeps and promotes the newest active one otherwise, and gives up only after three turns that each lost to an insert; at most one job stays active |
| LibrarySync.SyncTable.RecoverStale | server/db.ts:361-370 | fails exactly the running jobs without a heartbeat for five minutes |
| LibrarySync.SyncTable.TryFinish | server/library-worker.ts:51-54 | a worker ends its job only while the row is still running |
| LibrarySync.OneSyncAtATime | server/postgres-schema.ts:353-370 | in every run at most one job is active, and none is claimed or notified twice |
| LibrarySync.FinishedForever | server/library-worker.ts:26-86 | a finished row keeps every column |
| LibrarySync.RecoveredWorkerIsPowerless | server/library-worker.ts:72-79 | a worker whose lease was taken can neither end its job nor queue its failure notification |
| LibrarySync.SyncTable.TryClaim | server/library-worker.ts:32 | a worker claims a job only while it is queued |
| LibrarySync.ClaimedRecoveredExactly | server/library-worker.ts:32-37 | from the claim of a waiting job on, in any run: it is recovered if and only if its worker, not done yet, is silent for more than five minutes, the claim counting as a heartbeat |
| LibrarySync.ClaimedJobIsKept | server/library-worker.ts:32-37 | a claimed job whose worker beats within every five minutes runs until its worker ends it |
| LibrarySync.RecoveredExactly | server/db.ts:361-370 | in any run a running job loses its lease if and only if some recovery comes more than five minutes after its latest heartbeat, before its worker ends it |
| LibrarySync.SteadyWorkerIsKept | server/library-worker.ts:34-37 | a worker that beats within every five minutes is never recovered, and its job runs until it ends it |
| LibrarySync.WaitsAtHighest | server/db.ts:339-359 | a waiting job rises to the highest priority asked for, and counts as manual once it was raised, over any run until it starts |
| LibrarySync.ShowsLatest | server/library-worker.ts:44-49 | over any run a running job shows what its worker reported last |
| LibrarySync.InsertAddsOne | server/db.ts:350-354 | an enqueue leaves an active job, and adds one as asked exactly when there was none |
| LibrarySync.DisableEndsWaiting | server/routes/settings.ts:281 | switching the sync off ends the job that waits and leaves a running one to its worker |
| LibrarySync.WorkerEnds | server/library-worker.ts:51-79 | a worker ends its running job as it says, and notifies with the failure |
| WorkQueue.JobTable.QueueUnique | server/db.ts:175-195 | whatever other processes commit between its statements: adds a row when a turn finds none active for the key, keeps and promotes the active one otherwise, and gives up only after three turns that each lost to an insert; undisturbed it never gives up |
| WorkQueue.JobTable.FindReady | server/worker.ts:80 | picks the row that is due and first by priority, request time and id |
| WorkQueue.OutcomeKeeps | server/worker.ts:104-125 | a worker's outcome, however late, keeps one active row per key and the attempt limits, or is refused by the unique index |
| WorkQueue.OneActivePerKey | server/postgres-schema.ts:68-72 | in every run a key has at most one active row, active rows have at most two attempts and all rows three |
| WorkQueue.PriorityNeverFalls | server/db.ts:180-183 | a row's priority never falls while it exists |
| WorkQueue.ThreeAttemptsAtMost | server/retry.ts:1 | without overlapping workers a row is claimed at most three times |
| WorkQueue.LateWorkerRevives | server/worker.ts:113 | with overlap a completed row may be queued again |
| WorkQueue.RevivedExactly | server/worker.ts:107-113 | a step makes a finished row active if and only if it is the retry of a worker that still holds it, with attempts left, while no other row of the key is active |
| WorkQueue.FinishedStays | server/worker.ts:77-125 | in any run without overlapping workers a finished row keeps every column |
| WorkQueueRuns.RetryWaits | server/worker.ts:107-113 | without overlapping workers, in any run, a row that failed is not claimed again before its delay is over: 30 seconds after the first failure, two minutes after the second |
| WorkQueueRuns.FailureRetriesTwice | server/worker.ts:107-121 | the first two temporary failures put the row off by that, and at most five seconds more; the third, or a lasting one, fails it, and no other row changes |
| WorkQueueRuns.SuccessCompletes | server/worker.ts:96 | a finished attempt completes the row and frees the worker |
| WorkQueueRuns.ClaimedRowIsKept | server/worker.ts:83-160 | from its claim on a worker keeps its row, whatever others do, until it ends it or ten minutes have passed |
| WorkQueueRuns.RecoveryFreesStalled | server/worker.ts:156-161 | in every run the recovery queues exactly the rows that have run for more than ten minutes, to be picked at once |
| WorkQueueRuns.CancelEndsWaiting | server/routes/rules.ts:220-232 | switching a rule off finishes the rows that wait and no other |
| WorkQueueRuns.EnqueueMeans | server/db.ts:175-195 | what a call returns and writes, whatever other processes commit between its statements |
| WorkQueueRuns.EnqueueLeavesOneActive | server/db.ts:175-195 | undisturbed, it leaves exactly one active row for its key, which has the asked priority or more if it waits, and every other row as it was |
| Handoff.HandoffIsAtomic | server/library-worker.ts:124-159 | each transaction leaves an active job for every entry whose magnet is pending, except exactly when a lookup strands its own entry |
| Handoff.SummariesAreSettled | server/notifications.ts:441-477 | in every run without such a step, batches reopened and entries joining a batch in any state included, no summary finds a pending magnet |
| Handoff.SummarisedExactly | server/notifications.ts:441-477 | a batch is summarised if and only if it is processing and no release, magnet or library job of an entry of it is queued or running; the summary then names its pending entries, and otherwise nothing is written |
| Handoff.NoActiveJobIsSummarised | server/notifications.ts:446-451 | in every run, whatever else happens, no batch is summarised while one of its entries has an active job |
| Handoff.OnceEachStep | server/routes/subscriptions.ts:131-141 | a step keeps summaries unique if and only if it does not reopen a summarised batch |
| Handoff.EveryRunIsSettled | server/notifications.ts:441-477 | both from the empty tables on; that the scan itself reopens none but by such a reset is `FullScanRuns.EachBatchSummarisedOnce` |
| Handoff.StrandedExample | server/library-worker.ts:137-143 | a run that strands an entry |
| Handoff.IdleMeansNonePending | server/notifications.ts:446-451 | when no entry of a batch has an active job, none is waiting for a magnet |
| HandoffSteps.StepTouchesOne | server/library-worker.ts:124-159 | a transaction touches no entry, and no job, but those of the entry it is about |
| HandoffSteps.NewEntryIsServed | server/capture.ts:200-215 | in every run a new entry has an id of its own, waits for a magnet exactly when the search comes first, and has an active job of each kind asked for and no other |
| HandoffSteps.MatchSettles | server/library-worker.ts:125-131 | a match makes the entry available, ends its lookup, and skips its magnet or leaves a search active |
| HandoffSteps.NoMatchHandsOver | server/library-worker.ts:132-143 | without a match the entry waits for a magnet and has an active search, unless the worker had read it as available: then only the lookup ends |
| HandoffSteps.FailureHandsOver | server/library-worker.ts:147-159 | a failed lookup waits again while attempts are left, and hands the entry over like a miss when none are |
| HandoffSteps.SearchSettles | server/magnet-worker.ts:68-88 | the outcome of a search and the end of its job are written together |
| HandoffSteps.RetryQueuesAgain | server/magnet-worker.ts:103-109 | a retry queues the job and leaves the entry waiting, unless another job of the entry is active: then nothing is written |
| HandoffSteps.AgainWaits | server/routes/archive.ts:51-58 | searching again leaves the entry waiting with an active job |
| HandoffSteps.RulesOffReleases | server/routes/rules.ts:220-232 | with the magnet rule off nobody waits and no search waits; results and running searches stay |
| HandoffSteps.SyncMarks | server/jellyfin-sync.ts:59-66 | the full sync marks what it finds as available, and skips its magnet unless one was found |
| HandoffSteps.BatchesMove | server/capture.ts:353-424 | how a batch is opened, processed and reopened, and which entries join it |
| HandoffSteps.RemovalTakesJobs | server/routes/subscriptions.ts:50-56 | a removed entry takes all its jobs with it |
| Releases.ReleaseIsAtomic | server/release-worker.ts:29-52 | a step leaves every entry whose release date is pending with an active job, except exactly when the backfill marks an entry that has none |
| Releases.StrandedOnlyByBackfill | server/release-worker.ts:75-145 | in every run, late workers included, an entry waits without a job only between the two statements of its backfill, or because a process died there |
| Releases.BackfillStrands | server/release-worker.ts:49-51 | a run in which it does |
| Releases.StepTouchesOne | server/release-worker.ts:75-145 | a transaction touches no entry, and no job, but those of the entry it is about |
| Releases.NewEntryIsServed | server/capture.ts:200-215 | a new entry waits exactly when a date is wanted, and then has an active job |
| Releases.LookingAgain | server/routes/archive.ts:73-81 | looking again leaves the entry waiting with an active job, in one transaction; the backfill does so in two statements |
| Releases.LookupSettles | server/release-worker.ts:95-107 | the outcome of a lookup and the end of its job are written together |
| Releases.RetryQueuesAgain | server/release-worker.ts:119-123 | a retry queues the job and leaves the entry waiting, unless another job of the entry is active |
| Releases.RulesOffReleases | server/routes/rules.ts:220-232 | with the rule off nobody waits and no lookup waits |
| Outbox.NotificationStore.EnqueueNotification | server/notifications.ts:378-395 | queues exactly when the event is on and no earlier window holds its key |
| Outbox.NotificationStore.FindDue | server/notifications.ts:488-489 | picks the oldest queued row that is due |
| Outbox.FailuresAreApart | server/notifications.ts:383-389 | failures with one key are queued at least 30 minutes apart, across maintenance and all processes |
| Outbox.AttemptsAreBounded | server/notifications.ts:505-512 | attempts never pass four, and a retry waits the delay of its attempt, always within the table |
| Outbox.QueuedExactlyWhenClear | server/notifications.ts:383-389 | in every run, whatever maintenance deletes, a failure is queued if and only if none with its key was queued in the half hour before |
| OutboxRuns.NotificationGetsRow | server/notifications.ts:378-395 | in every run a notification gets a row of its own, due at once, unless it is a failure of which one with its key was queued in the last half hour: then the table stays as it is |
| OutboxRuns.MaintenanceSpares | server/notifications.ts:424-434 | maintenance deletes only windows that are over and old finished rows |
| OutboxRuns.DeliveryEnds | server/notifications.ts:498-517 | how an attempt ends: delivered, skipped, put off, or failed at the fourth; no other row changes |
| OutboxRuns.RetryIsNotDueBefore | server/notifications.ts:488-512 | no worker picks a row before a quarter, one and four minutes after its first three failures |
| OutboxRuns.RecoveryFreesStalled | server/notifications.ts:436-440 | the recovery queues exactly the rows in delivery for more than ten minutes |
| OutboxRuns.DeliveredStays | server/notifications.ts:486-517 | until a recovery, over any run, a delivered, skipped or failed notification keeps every column |
| OutboxRuns.RevivedExactly | server/notifications.ts:505-512 | with recoveries a finished notification is queued again if and only if a worker that still holds it fails before its fourth attempt |
| OutboxRuns.LateFailureSendsAgain | server/notifications.ts:435-517 | a run in which it is, after another worker has delivered it |
| Downloads.OneClaimPerCycle | server/download-worker.ts:378-386 | completion claims never exceed marker resets plus one, whatever stale observers write |
| Downloads.NoResetOneClaim | server/db.ts:309-315 | between two claims lies a reset |
| Downloads.SilentClaimedExactly | server/download-notification.ts:5-13 | while it stays completed, a completion that no one marked is claimed, and once, if and only if a report rests on a reading that was neither finished nor marked |
| Downloads.OneObserverNeverSilent | server/download-worker.ts:378-386 | with one observer at a time, whatever is queued and submitted meanwhile, every reported completion is marked and claimed |
| Downloads.OverlapLosesCompletion | server/download-worker.ts:258-268 | a run of two observers and a resubmission that ends in a completion nobody announces |
| Downloads.CyclesBegin | server/db.ts:309-315 | what a queued download, a submission and a failed one write: the first two take the marker away, the last does not |
| Downloads.EntryRow.WriteObservation | server/download-worker.ts:457-464 | writes the new state and claims exactly when the reading wants it and the row allows it |
| JellyfinIndex.StreamLibrary | server/jellyfin.ts:175-217 | the pager ends, reads records once and in order, and reads all exactly when totals are reported or the first page holds all |
| JellyfinIndex.MediaIndexWriter.WritePage | server/jellyfin-cache.ts:34-53 | after a page every streamed item stands in its last version, and the codes are those of the rows |
| JellyfinIndex.MediaIndexWriter.Finalize | server/jellyfin-cache.ts:55-64 | exactly the rows of the selected libraries that this sync did not write go, with their codes |
| JellyfinIndex.UniqueMediaLast | server/jellyfin-cache.ts:36 | keeping one version of each item within a page keeps the last |
| JellyfinIndex.SyncLibraries | server/jellyfin-sync.ts:108-122 | from any earlier state, finished or not, and for any page caps of each library: the rows in the selected libraries are exactly the last streamed versions, other libraries lose only what moved, and codes match rows |
| JellyfinIndex.FindCached | server/jellyfin-cache.ts:88-97 | finds the newest matching row, smallest id first, or none when there is none |
| JellyfinIndex.FirstIsNewest | server/jellyfin-cache.ts:88-97 | the row a lookup takes is in a selected library and has the code, was synced last, and has the smallest id of those |
| JellyfinIndex.VideosAre | server/jellyfin.ts:195-212 | a page hands on every video in its place and drops what is none |
| JellyfinIndex.StreamedAre | server/jellyfin.ts:175-217 | a sync streams the videos of every selected library, and those alone |
| JellyfinIndex.BatchIndex | server/jellyfin-sync.ts:40-50 | the one query for a batch keeps for each code the row that a lookup of its own would give |
| JellyfinIndex.WriteArchiveMatches | server/jellyfin-sync.ts:82-101 | the cursor pass beside other writers: no row is read twice, each row read is matched as a lookup of its own would, every row that is there throughout is read, and the counts add up; a table that stands still is read whole |
| JellyfinIndex.CacheAgrees | server/jellyfin-match.ts:16-19 | the cached lookup finds the item that the simple matcher finds on the snapshot, or nothing when it finds nothing |
| Telemetry.RunConserves | server/db.ts:525-576 | in every run buffers, flight and tables together hold at least what was recorded, exactly that while no flush has failed, and no log is lost |
| Telemetry.AllPersisted | server/db.ts:541-576 | without a failed flush the tables end with exactly what the calls of the run add up to, and the logged lines in order |
| Telemetry.FlightEnds | server/db.ts:561-571 | a flight lands with nothing left, or puts back all it took: logs in front, sums added |
| Telemetry.Buffers.RecordMetric | server/db.ts:525-539 | adds to the buffered sum of the key |
| Telemetry.Buffers.TakeAll | server/db.ts:541-548 | takes every buffered metric once and empties both buffers |
| Telemetry.Buffers.Restore | server/db.ts:561-571 | puts everything a flight took back, logs in front, sums added |
| Schedule.NextHourly | server/worker.ts:35-39 | the loop ends at the earliest anchor plus k intervals, k at least 1, after now |
| Schedule.DailyLands | server/worker.ts:41-47 | the daily time is the configured slot, after now, within a day and the stagger |
| Schedule.WeeklyLands | server/worker.ts:48-51 | the weekly time is on the configured weekday even when the stagger crosses midnight, after now, within a week and the stagger |
| Schedule.DailyIsEarliest | server/worker.ts:41-47 | it is the earliest such time exactly outside the minutes before a slot carried past midnight |
| Schedule.WeeklyIsEarliest | server/worker.ts:48-51 | it is the earliest such time exactly outside the minutes before a slot carried past midnight into the configured weekday |
| Schedule.NextScheduledAt | server/worker.ts:34-52 | the scheduled time is after now and of the configured kind; the hourly one is the earliest such time after the stored one |
| Schedule.ScheduledAfter | server/worker.ts:10-26 | the first wake-up, counted from the last check without a stagger |

## Left out

- The user interface, HTTP routes around the modelled transactions, sessions, encryption, address checks and login limits.
- Playwright, Cheerio, qBittorrent and Jellyfin calls: each is an arbitrary reply. Matching of user-supplied patterns and selectors.
- PostgreSQL itself: only unique indexes, conditional updates and atomic transactions. Dollar-quoted strings and nested comments, which the translator does not know, are not modelled, nor is `withReturning`.
- The lookup over all subscriptions with its limit of 500, used by the search page.
- Job queueing inside `archiveNewItems` is in `Handoff`, not in `ArchiveStore`; the columns of an entry other than content, title, code and digest are not modelled.
- The backfill of the `archive_code` column: a row may lack the column in the model, and nothing fills it.
- `initial_scan_pages_completed`, which only shows progress.
- SliceInputs.SlicesAgreeOnInput: while the index is still being filled, which codes a lookup reports also depends on what else it is asked for; then the condition stays on its replies (`SliceAgreement.SlicesAgreeExactly`).
- Handoff.HandoffIsAtomic: the transactions are functions on values, not methods on tables; release jobs appear only as active or not, their entries are in `Releases`.
- LiveTabs.StepKeeps: the transitions of many tabs are functions on values; the handlers of one tab are methods (`LiveLeader.LiveTab`). Messages may overtake each other in the model, which the channel does not do.
- LibrarySync.RecoveredWorkerIsPowerless: library lookup jobs (`library_jobs`) have no such lease; nothing recovers one whose worker died, and no liveness is claimed for them.
- BrowserPoolRuns.PoolIsBounded: an error or a lost connection may close the browser under another task, and a pending recycling may be put off for ever by new tasks; neither is claimed otherwise.
- JellyfinIndex.SyncLibraries: item ids are numbers in the order the database gives them; the batch sizes of single statements are not modelled.
- JellyfinIndex.WriteArchiveMatches: a row that changes between the reading of its batch and its update is matched by the code that was read; ids of rows added during the pass stay below a bound, so that it ends.
- Telemetry.RunConserves: samples and durations are summed alike and appear as one number; the trimming of the log table to its newest thousand rows is not modelled.
- Outbox.AttemptsAreBounded: counts attempts by the column; overlapping workers may send a notification more often.
- Process forking, memory reclamation, heartbeats, and the display of metrics and logs.
