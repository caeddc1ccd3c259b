# The OpenLore analytics engine, modelled in Dafny

The analytics engine keeps an append-only log of events and answers dashboard questions
about it: which files are read, by whom, how many tokens that cost. Full scans are too slow
for a dashboard, so it caches one partial result for every settled UTC day, repairs the
cache when late events arrive, and merges the cached days with fresh scans of the edges of
a window. Beside it a durable crawl indexes every file's size and scalars, a single work
lane runs background and dashboard jobs, and a shipper copies the log to remote storage
before retention deletes it. Three further algorithms of the same repository are modelled:
access control over correlated events, the plan that synchronises a remote skill into a
directory, and the fuzzy alignment behind the file palette.

The project models these as classes and methods where the program updates state in place,
each proved against a specification function or a state machine, and proves the properties
of those as lemmas over all inputs, runs and interleavings:

- **A cached view equals an uncached scan.** `FileUsageSpec` and `UsageSummary` show that
  merging partials of consecutive ranges is one partial of both; `DashboardViews` shows
  that the events handed to a view depend only on events within the correlation margin and
  split where a window splits; `DayCache` shows that, given these, any run of appends,
  invalidations, builds and prunes leaves the cache sound and a finished summary equal to
  one scan. `DashboardViews.FileUsageView` and `UsageView` put the three together, leaving
  only that events have distinct ids and that correlated events lie within the margin.
- **The file-usage partial** is a set of simultaneous substitutions. Its entries carry the
  path they inherited their usage from; moves may chain, swap, overwrite and reuse paths.
  States are compared by what they denote: no recorded origin means the path itself, and
  coverage is a set of lines. `FileUsageMeaning` says in the events' own terms what an
  entry counts; `UsageMeaning` does the same for the usage summary.
- **The facts index** (`FactsIndex`, `FactsCrawl`, `FactsIndexer`, `DirtyHandshake`):
  directory roll-ups equal naive sums, a completed crawl indexes exactly what it should but
  for the files a content read has overwritten, it terminates, and an update enqueued
  during a scan of the same file is not lost.
- **The work lane** (`WorkProcessor`): queues match the pending items, waiting is bounded,
  accepted work is run, pending work always has a wake token or a draining worker.
- **The event log** (`EventLog`, `EventLogProgram`): no successfully appended event is ever
  lost, across seals, failed uploads, failed checkpoints, retention and crashes.
- **Skill sync, dashboard access, fuzzy alignment, line usage and the further partials**
  (`SkillSync`, `DashboardScan`, `Fuzzy`, `LineUsage`, `Aggregations`).

Several promises do not hold on every input. Each has a concrete counterexample here and,
beside it, the condition under which it does hold:

- `settledDays` divides with truncation toward zero, so windows that start a day or more
  before 1970 are not covered (`DayCache.PartitionFailsBeforeEpoch`, exactly
  `PartitionExactIff`), nor does an event there reach every day it is near (exactly
  `NearHitsIff`, `HitsOnlyNearIff`). A window some days longer than `maxDayWindow` loses
  days to pruning (`LongerWindowIsPruned`, exactly `NeededDaysKeptIff`).
- A content read (`ls` with statistics, tree sizes) looks a file up, computes its facts and
  stores them without an owner. When its lookup misses before the worker indexes the file
  and it stores after, the completed scan is without that file's owned row, and its
  directory without its share (`FactsCrawl.ContentReadLosesOwner`). A completed crawl is
  exact if and only if no such write was the last to the row of a promised file
  (`CompletionExactIff`).
- The dirty flag lives in memory. A restart in the moment between completing a scan and
  requeueing loses the update, and only then (`DirtyHandshake.RestartLosesOnlyTheFlag`). A
  direct read that publishes a superseded version loses it exactly when no scan of the path
  is under way or to come (`KeepsInvariantIffCareful`, `LateReadCanLoseAnUpdate`).
- `lastIndexOf(c, -1)` looks at index 0, so `score` accepts a query whose repeated first
  letter stands once at the start of the path. `Fuzzy.NullIffNotSubsequence` gives the
  queries for which null means "not a subsequence".

Strings are sequences of characters, int64 bounds are written out where the program checks
them, Go's truncating division is `DayCache.TruncDiv`, clocks, identifiers, upload faults
and access policies are parameters, and tables are maps.

## Model

| member | source | states |
|---|---|---|
| FileUsageSpec.LinksReplayEvents | internal/analytics/quality_aggregations.go:255-349 | The links an event list leaves, applied to any earlier world of per-path usage, give at every path what replaying the events over that world gives. |
| FileUsageSpec.ReplayStep | internal/analytics/quality_aggregations.go:269-333 | One more move or use changes the links and the replayed world alike, including a move onto an occupied path and reuse of its source. |
| FileUsageSpec.ComposeMoved | internal/analytics/quality_aggregations.go:269-291 | Composing with a later move is moving after composing, through chains and swaps. |
| FileUsageSpec.ComposeStep | internal/analytics/quality_aggregations.go:255-349 | Composition commutes with any single later event. |
| FileUsageSpec.ComposeIsConcatenation | internal/analytics/quality_aggregations.go:351-416 | The links of two consecutive ranges compose to the links of one range. |
| FileUsageSpec.BuildKeepsOrigins | internal/analytics/quality_aggregations.go:197-291 | Every path some entry inherits from is itself an entry. |
| FileUsageSpec.BuildNeverCopies | internal/analytics/quality_aggregations.go:269-291 | No two entries inherit from the same path: a move never duplicates history. |
| FileUsageSpec.OverBudgetMonotone | internal/analytics/quality_aggregations.go:223-253 | A set of paths over the count or byte budget stays over it when it grows. |
| FileUsageSpec.OverflowIsExact | internal/analytics/quality_aggregations.go:213-253 | A partial ends overflowed exactly when the distinct paths its events touch break the count or byte budget, wherever in the list that happened; otherwise it holds their links. |
| FileUsageSpec.MergeIsConcatenation | internal/analytics/types.go:183-191 | Merging the partials of any two event lists is the partial of their concatenation, overflow included: the partial contract, for file usage. |
| FileUsageMeaning.UsageMeans | internal/analytics/quality_aggregations.go:255-349 | A path's recorded usage is that of the events on its file, followed back through the moves: readCount their doc.reads, hitCount their doc.hits, the last stamp the first read or hit at the newest time, the scalars the last observation at the newest time, the coverage what they covered; its origin is where the file was at the start. |
| FileUsageMeaning.UsageWithoutMoves | internal/analytics/quality_aggregations.go:305-347 | Without moves those are exactly the events that name the path within the prefix. |
| FileUsageMeaning.MoveHandsOver | internal/analytics/quality_aggregations.go:269-291 | Over any earlier usage, a move gives the source's replayed usage to the destination, leaves the source unused and touches no other path. |
| FileUsageMeaning.TouchedMeans | internal/analytics/quality_aggregations.go:234-349 | A path has an entry exactly when some event reads, observes or moves it. |
| FileUsage.MergeCoverage | internal/analytics/quality_aggregations.go:369-394 | Merging coverage per content hash unites the whole-file reads and the lines read. |
| FileUsage.AddUsage | internal/analytics/quality_aggregations.go:369-416 | Adding a later entry to an earlier one adds what they denote: counts, last read, scalars, lines. |
| FileUsage.ReserveAll | internal/analytics/quality_aggregations.go:234-253 | Reserving paths one at a time succeeds exactly when all of them together fit the budget, whatever the order. |
| FileUsage.MovedStep | internal/analytics/quality_aggregations.go:269-291 | Replacing the two entries of a move does to the links what a move does. |
| FileUsage.ComposedLinks | internal/analytics/quality_aggregations.go:351-416 | Resolving each later entry against the entries before the merge composes the links. |
| FileUsage.MergeFiles | internal/analytics/quality_aggregations.go:351-416 | Merging entry maps composes the links they denote when the paths fit the budget, and fails exactly when they do not. |
| FileUsage.FileUsagePartial.constructor | internal/analytics/quality_aggregations.go:230-232 | A new partial is that of no events. |
| FileUsage.FileUsagePartial.Restore | internal/analytics/quality_aggregations.go:213-221 | A partial restored from its saved fields, without the byte count, denotes the same. |
| FileUsage.FileUsagePartial.File | internal/analytics/quality_aggregations.go:234-253 | An entry is created unless it would break the budget, which overflows the partial and changes no entry. |
| FileUsage.FileUsagePartial.Move | internal/analytics/quality_aggregations.go:269-291 | A move steps the links, or overflows exactly when source and destination do not fit. |
| FileUsage.FileUsagePartial.Add | internal/analytics/quality_aggregations.go:255-349 | Adding an event steps what the partial denotes, for moves, replays, reads, writes and scalars; `FileUsageMeaning` says what the steps count. |
| FileUsage.FileUsagePartial.Merge | internal/analytics/quality_aggregations.go:351-416 | Merging composes the two denotations, or overflows exactly when the united paths do not fit. |
| FileUsage.Scan | internal/analytics/service.go:826-835 | Folding events into a new partial builds their partial; unless it overflows, its entries' own fields record the named paths and, for each, its file's counts, newest read, newest scalars and coverage. |
| FileUsage.ScanSplit | internal/analytics/types.go:183-191 | Folding two halves, storing and restoring one and merging gives what one fold of all the events gives, the entries' fields included. |
| LineCoverage.CoalesceRanges | internal/analytics/quality_aggregations.go:153-162 | Coalescing into the array being read leaves in its front exactly what coalescing a copy gives. |
| LineCoverage.CoalesceLines | internal/analytics/quality_aggregations.go:153-162 | Coalescing sorted ranges keeps their set of lines. |
| LineCoverage.CoalesceCanonical | internal/analytics/quality_aggregations.go:153-162 | Coalesced ranges are sorted, non-empty, disjoint and never adjacent. |
| LineCoverage.CanonicalUnique | internal/analytics/quality_aggregations.go:136-151 | Two such lists with the same lines are the same list. |
| LineCoverage.Normalize | internal/analytics/quality_aggregations.go:146-151 | Normalising any ranges keeps their lines and makes them canonical. |
| LineCoverage.Interleave | internal/analytics/quality_aggregations.go:172-188 | The two-pointer loop merges two range lists in order of start. |
| LineCoverage.InterleavedSorted | internal/analytics/quality_aggregations.go:172-188 | Interleaving two sorted lists is sorted. |
| LineCoverage.Merge | internal/analytics/quality_aggregations.go:172-188 | Merged coverage is whole if either was, holds exactly the union of the lines, and is canonical. |
| UsageSummary.MergedStep | internal/analytics/summary.go:102-188 | Recording one more event in the later half of a mergeable pair is recording it in the merge. |
| UsageSummary.MergeIsOneScan | internal/analytics/summary.go:166-188 | When the merge of two scans is allowed, it equals one scan of both ranges in order. |
| UsageSummary.OneScanFits | internal/analytics/summary.go:102-188 | If one scan of both ranges does not overflow, its tokens are the sum of the halves and the merge is allowed. |
| UsageSummary.MergeableIffOneScanFits | internal/analytics/summary.go:166-171 | Merging reports success if and only if one scan of both ranges does not overflow int64 tokens. |
| UsageSummary.TokensFit | internal/analytics/summary.go:102-153 | The token count of a scan never exceeds the int64 maximum. |
| UsageSummary.WritesAreCounted | internal/analytics/summary.go:157-164 | For every write key the last doc.write is counted, or the last scalars event when there was no doc.write. |
| UsageSummary.ScanConserves | internal/analytics/summary.go:102-153 | Every scan keeps estimated + unestimated = reads + hits = daily uses, and daily actors add up to all uses and commands. |
| UsageMeaning.EstimateMeans | internal/analytics/summary.go:126-137 | An estimate is refused exactly when the characters are unknown, negative or above charsPerToken times the int64 maximum; otherwise it is the characters divided by charsPerToken, rounded up. |
| UsageMeaning.TokensMean | internal/analytics/summary.go:124-140 | A scan overflows exactly when the sum of all estimates exceeds int64; otherwise its tokens are that sum and every estimate is counted. |
| UsageMeaning.CountersMean | internal/analytics/summary.go:111-147 | The counters are the numbers of reads, hits and commands among the events. |
| UsageMeaning.RowsMean | internal/analytics/summary.go:111-147 | A day's row counts the reads and hits of that day and, per kind of writer, the reads, hits and commands. |
| UsageSummary.UsagePartial.Record | internal/analytics/summary.go:102-164 | Recording one event updates counters, the day's row and the write entry as one step of the scan that `UsageMeaning` describes. |
| UsageSummary.UsagePartial.Merge | internal/analytics/summary.go:166-188 | Merge gives the merged usage when the tokens fit; otherwise it reports false and leaves the receiver as it was. |
| UsageSummary.UsagePartial.Summarize | internal/analytics/summary.go:190-224 | Writes = human + agent + unknown = the daily writes summed; daily uses = reads + hits = estimated + unestimated; each count is the number of write entries of that kind. |
| UsageSummary.CountWrites | internal/analytics/summary.go:190-224 | Each write entry is counted once: in the totals for its writer, on its day, and on its day for its writer. |
| UsageSummary.ScanUsage | internal/analytics/summary.go:102-153 | Recording the events in order gives the specified scan, with its totals conserved. |
| DashboardScan.DirectAccess | pkg/openlore/analytics_event_source.go:252-273 | Direct access is proved when the event names a path, and allowed when every path it names is readable. |
| DashboardScan.Correlate | pkg/openlore/analytics_event_source.go:108-125 | The first pass tallies, per parent and per invocation, whether some event in the window proved access and whether all that did were allowed. |
| DashboardScan.EventAccess | pkg/openlore/analytics_event_source.go:126-132 | A command's access is proved by any child or same-invocation event and allowed when all of them are; other events answer for themselves. |
| DashboardScan.SessionScope | pkg/openlore/analytics_event_source.go:137-155 | The session pass tallies whether every other event of the session is authorised. |
| DashboardScan.Scan | pkg/openlore/analytics_event_source.go:62-181 | The three passes emit, in log order, exactly the requested events that are visible by the declarative rule. |
| DashboardScan.EmittedIffVisible | pkg/openlore/analytics_event_source.go:156-181 | An event is emitted if and only if it is in the log, requested and visible. |
| DashboardScan.VisibleMeans | pkg/openlore/analytics_event_source.go:126-181 | Kind by kind: session and login events are seen through all other events of the session; events that name a resource with it; the three command kinds, naming none, through all that ran under them as child or in the invocation; anything else never. |
| DashboardScan.OrderIndependent | pkg/openlore/analytics_event_source.go:62-181 | Two logs with the same events emit the same events, whatever their order. |
| DashboardScan.DeniedNeverAdds | pkg/openlore/analytics_event_source.go:39-60 | Adding an event that is attributed but not readable never makes another event visible. |
| DashboardScan.WindowIndependent | internal/analytics/service.go:633-636 | When correlated events lie within the margin, scanning a range with that margin decides visibility as scanning everything would. |
| DashboardViews.OrderedSplit | internal/analytics/eventindex.go:230-270 | Ordering events by time and id, those of two ranges one after the other come one after the other. |
| DashboardViews.ViewIsLocal | internal/analytics/service.go:807-840 | What a view builds over a range depends only on events within the margin of the range. |
| DashboardViews.ViewIsMergeable | internal/analytics/types.go:183-191 | For any fold whose merge is exact, over types without sessions or making nothing of them, building two adjacent ranges and merging gives the build of their union. |
| DashboardViews.ScanHandsInOrder | pkg/openlore/analytics_event_source.go:62-181 | The dashboard scan of the indexed rows hands a fold exactly the visible events of the range, in order. |
| DashboardViews.UsageFoldMerges | internal/analytics/summary.go:166-188 | The usage summary is such a fold; it refuses the merges it cannot make exactly. |
| DashboardViews.FilesFoldMerges | internal/analytics/quality_aggregations.go:351-416 | File usage is such a fold. |
| DashboardViews.FileUsageView | internal/analytics/service.go:826-945 | A finished turn of the cached file-usage view equals one fold over the visible events of the window. |
| UsageSummary.OthersLeaveNoTrace | internal/analytics/summary.go:111-147 | Dropping the events of types the summary has no case for changes no scan. |
| DashboardViews.UsageIgnoresSessions | internal/analytics/summary.go:111-147 | The usage fold over events of every type gives the same without session and login events. |
| DashboardViews.UsageView | internal/analytics/service.go:814-945 | A finished turn of the cached usage summary, scanned without a type filter, equals one fold over all visible events of the window. |
| DayCache.PartitionIsExact | internal/analytics/service.go:778-782 | Left edge, settled days and tail are disjoint and together cover exactly [since, until]. |
| DayCache.PartitionExactIff | internal/analytics/service.go:778-782 | With some day settled, they cover exactly [since, until] if and only if the last settled day ends by until. |
| DayCache.PartitionFailsBeforeEpoch | internal/analytics/service.go:778-782 | A window before 1970 whose parts reach past its end: truncating division rounds up there. |
| DayCache.NoNeededDayPruned | internal/analytics/service.go:647-653 | For windows up to maxDayWindow, no day the window needs is old enough to be pruned. |
| DayCache.NeededDaysKeptIff | internal/analytics/service.go:647-653 | For every window, no needed day is pruned if and only if no day is needed or the first one lies within the retention. |
| DayCache.LongerWindowIsPruned | internal/analytics/service.go:647-653 | A window two days above the maximum fails that. |
| DayCache.HitsAreNear | internal/analytics/service.go:974-977 | For days from 1970 on, an event invalidates every day it is within the correlation margin of; events from 1970 on invalidate no other. |
| DayCache.NearHitsIff | internal/analytics/service.go:974-977 | All events near a day invalidate it if and only if the day is not before 1970. |
| DayCache.HitsOnlyNearIff | internal/analytics/service.go:974-977 | Only events near a day invalidate it if and only if the day comes after the first of 1970. |
| DayCache.InvalidateFreshens | internal/analytics/service.go:948-987 | After invalidation every surviving day is valid up to the last row and equals a full scan of the day. |
| DayCache.OnlyStaleDaysGo | internal/analytics/service.go:980-987 | Invalidation drops a cached day exactly when it is this view's and a row it has not seen hits it, and changes no value. |
| DayCache.ApplySound | internal/analytics/service.go:857-987 | Indexing, invalidating, building from any earlier row on, and pruning each keep every cached day equal to a scan of the rows it claims to have seen. |
| DayCache.RunSound | internal/analytics/service.go:857-987 | So does every run of them, late and backfilled events included. |
| DayCache.InvalidatedRunIsFresh | internal/analytics/service.go:948-987 | From empty tables, after any run and one invalidation, every cached day equals a full scan of the day. |
| DayCache.MinValid | internal/analytics/service.go:954-957 | The least valid row among a view's days, or none when it has no day. |
| DayCache.ChangedDays | internal/analytics/service.go:966-979 | Each day hit by an unseen row, with the newest such row, and no other day. |
| DayCache.BuildMissing | internal/analytics/service.go:891-917 | Missing days are built newest first; either all are there and equal full scans, or at least one that was missing is cached now. |
| DayCache.MergeWindow | internal/analytics/service.go:918-945 | Merging edge, days and tail, or one whole scan when a merge is refused, equals one build over the window. |
| DayCache.DayPartials.constructor | internal/analytics/service.go:807-812 | No rows and no cached days. |
| DayCache.DayPartials.Index | internal/analytics/eventindex.go:32-44 | A new event gets the next row; a known one keeps its row. Cached days stay sound. |
| DayCache.DayPartials.Invalidate | internal/analytics/service.go:953-987 | The loops over unseen rows and changed days leave exactly the specified tables. |
| DayCache.DayPartials.Summarize | internal/analytics/service.go:857-945 | A finished summary equals one uncached build over [since, until] of all indexed events; an unfinished turn leaves strictly fewer missing days; other views' days never change value. |
| DayCache.SummarizeFully | internal/analytics/service.go:854-857 | Repeating the turn ends, with the uncached build. |
| WorkProcessor.EnqueuedMatches | internal/analytics/processor.go:57-91 | Enqueueing, promoting or adding a follow-up keeps the queues equal to the pending keys, without duplicates, in the class each item records. |
| WorkProcessor.PoppedMatches | internal/analytics/processor.go:93-117 | So does popping. |
| WorkProcessor.ApplyKeepsInvariant | internal/analytics/processor.go:57-163 | Every atomic step of enqueuers and worker keeps that, the streak bound, and: pending work has a wake token or a draining worker. |
| WorkProcessor.RunsKeepInvariant | internal/analytics/processor.go:57-163 | So does every interleaving. |
| WorkProcessor.ReachableInvariant | internal/analytics/processor.go:34-163 | From an empty lane with a waiting worker, the invariant holds in every state that can be reached. |
| WorkProcessor.BackgroundIsServed | internal/analytics/processor.go:93-117 | A background item with i items ahead is run within 3(i+1) pops, whatever priority work arrives, unless it is promoted. |
| WorkProcessor.PriorityIsServed | internal/analytics/processor.go:93-117 | A priority item with i ahead is run within 2(i+1) pops. |
| WorkProcessor.PendingUntilServed | internal/analytics/processor.go:57-123 | A pending key is never dropped: it stays pending until it is run. |
| WorkProcessor.FollowupRunsAgain | internal/analytics/processor.go:57-82 | A follow-up accepted while its key runs is pending until a later run of that key. |
| WorkProcessor.Processor.constructor | internal/analytics/processor.go:34-40 | Empty queues, nothing running. |
| WorkProcessor.Processor.EnqueueWithFollowup | internal/analytics/processor.go:57-82 | A new key, or a follow-up of a running one, is recorded as asked and is last in the queue of the class asked for; a background key asked for with priority moves to the end of the priority queue and keeps its run; any other request changes nothing. |
| WorkProcessor.Processor.RemoveBackground | internal/analytics/processor.go:84-91 | The key leaves the background queue if it is there; the others keep their order. |
| WorkProcessor.Processor.Pop | internal/analytics/processor.go:93-117 | Nothing is returned exactly when nothing is pending; otherwise the first priority key, unless background waits and two priority keys were taken in a row, and then the first background key. |
| FactsIndex.RollUpChange | internal/analytics/factsindex.go:343-368 | Changing one file changes the sum beneath every directory by that file's new share less its old one. |
| FactsIndex.FilesCounted | internal/analytics/factsindex.go:353-368 | A directory's file count is positive exactly when a file of the owner lies beneath it, and all its sums are zero otherwise. |
| FactsIndex.RollUpMeans | internal/analytics/factsindex.go:335-368 | The sums the rows are kept equal to: how many of the owners' files lie beneath, the sum of their sizes, and lines, characters and tokens each summed over those files and their sources. |
| FactsIndex.ApplyDirectoryDelta | internal/analytics/factsindex.go:353-368 | The loop up the parents adds the totals to the owner's row of every directory above the file, the root included, and to no other row. |
| FactsIndex.TotalsForFact | internal/analytics/factsindex.go:335-351 | One file, its size, and its scalars summed over every source. |
| FactsIndex.MovedRollsUp | internal/analytics/factsindex.go:116-185 | After taking away a file's old totals and adding its new ones, dropping rows without files leaves every row a naive sum again. |
| FactsIndex.MoveFile | internal/analytics/factsindex.go:116-262 | The two delta loops of an upsert or delete turn rolled-up directories of the old files into those of the new. |
| FactsIndex.Index.constructor | internal/analytics/factsindex.go:70-72 | No files, no directory rows. |
| FactsIndex.Index.Upsert | internal/analytics/factsindex.go:116-185 | The row is stored at the current generation, unless a scan of an older one wrote it, which changes nothing; every directory row stays the sum of the files beneath it, and exists exactly when there is one. |
| FactsIndex.Index.Delete | internal/analytics/factsindex.go:229-262 | The row goes if it is older than asked; the roll-ups stay exact. |
| FactsIndex.Index.DeletePrefix | internal/analytics/factsindex.go:191-223 | Exactly the rows at or beneath the prefix go; the roll-ups stay exact. |
| FactsIndex.Index.DirectoryTotals | internal/analytics/factsindex.go:694-715 | Summing the directory's rows of several owners gives the count, sizes, lines, characters and tokens of all files of those owners beneath it. |
| FactsCrawl.ApplyKeepsInvariant | internal/analytics/factsindex.go:403-586 | Every transaction of crawl, enqueuer, dashboard read, content read and restart keeps the frontier: each promised file is indexed at this generation, has a queued path at or above it, or had its row replaced by a content read. |
| FactsCrawl.RunsKeepInvariant | internal/analytics/factsindex.go:403-586 | So does every run. |
| FactsCrawl.OwnerIsNearest | internal/analytics/service.go:355-366 | A path belongs to the scope with the longest root that holds it, the first of several, and to none exactly when no root does. |
| FactsCrawl.CompletionIsComplete | internal/analytics/factsindex.go:548-586 | When a scan finishes, every owned row is a promised file at the current generation, and every promised file has one, except those whose row an unowned write has replaced. |
| FactsCrawl.CompletionExactIff | internal/analytics/content.go:144-168 | The owned rows of a completed crawl are exactly the promised files if and only if, for each of them, some write by the worker or the dashboard follows every unowned write of a content read. |
| FactsCrawl.ContentReadLosesOwner | internal/analytics/content.go:144-168 | For every tree and every promised file there is a run on which a content read's lookup misses, the worker indexes the file, the read stores its unowned row, and the scan completes without the file. |
| FactsCrawl.AlwaysExactIffNothingToIndex | internal/analytics/factsindex.go:548-586 | So every completed crawl of a tree is exact if and only if the tree has no file to index. |
| FactsCrawl.CompletePathShrinks | internal/analytics/factsindex.go:519-541 | Completing a queued path strictly lowers the queue's total subtree weight, with nested roots and repeats too. |
| FactsCrawl.CrawlDrains | internal/analytics/indexer.go:127-177 | From any crawl without an older generation's rows there is a run of the worker that empties the queue. |
| FactsIndexer.Indexer.StartScan | internal/analytics/factsindex.go:403-464 | A compatible scan that has not failed is resumed; otherwise a new generation starts from the roots of the scopes. |
| FactsIndexer.Indexer.QueueScanPath | internal/analytics/factsindex.go:502-517 | The path is queued, and only an unfinished or failed generation becomes updating. |
| FactsIndexer.Indexer.Enqueue | internal/analytics/indexer.go:93-121 | The path is marked dirty and queued, whatever the worker is doing with it. |
| FactsIndexer.Indexer.IndexPath | internal/analytics/indexer.go:179-232 | For an excluded, missing, directory, oversize or ordinary path the rows change as one index step of the state machine says, and the children to queue are found; an indexed file's owner is the first of the scopes with the longest root that holds it, or none. |
| FactsIndexer.Indexer.ScanPath | internal/analytics/indexer.go:143-163 | Whatever is enqueued while a path is scanned is queued afterwards, the path itself included; a quiet scan is one index step and one completion and lowers the work left. |
| FactsIndexer.Indexer.ScanBatch | internal/analytics/indexer.go:143-163 | Whatever is enqueued during a batch is queued at its end or scanned later in it. |
| FactsIndexer.Indexer.NextScanPaths | internal/analytics/factsindex.go:485-500 | A batch of distinct queued paths, not empty while the queue is not. |
| FactsIndexer.Indexer.FinishScan | internal/analytics/factsindex.go:548-586 | It reports completion exactly when the queue is empty and fewer than a batch of stale rows were left, and then the index is complete; otherwise a batch of stale rows is gone. |
| FactsIndexer.Indexer.Run | internal/analytics/indexer.go:127-177 | No path enqueued during a turn is dropped; a quiet turn asks for another only after lowering the work left, and one that asks for none leaves the queue empty and a full scan complete. |
| FactsIndexer.Indexer.RunToEnd | internal/analytics/indexer.go:127-177 | Scheduling turns until none is asked for ends, from a failed scan too, with every promised file current unless a content read had overwritten it before and, for a full scan, no other owned row. |
| DirtyHandshake.KeepsInvariantIffCareful | internal/analytics/indexer.go:93-177 | A critical section or transaction keeps the promise (a stale row enqueued since its last write is queued, or dirty with its scan in flight) if and only if it is no late publish without a scan to come and no restart that drops the last trace of an enqueue. |
| DirtyHandshake.NoUpdateIsLost | internal/analytics/indexer.go:93-177 | No interleaving of writes, enqueues, scans, failed scans, direct reads and restarts loses an update, as long as each step is careful in that exact sense. |
| DirtyHandshake.CoveredRowsCatchUp | internal/analytics/indexer.go:127-177 | Once writers are quiet, the worker brings every enqueued row up to date and the path off the queue. |
| DirtyHandshake.RestartLosesOnlyTheFlag | internal/analytics/indexer.go:152-169 | A restart keeps the promise if and only if it does not fall between completing a scan and requeueing a path that was enqueued meanwhile. |
| DirtyHandshake.RestartCanLoseAnUpdate | internal/analytics/indexer.go:31-34 | A run on which it does: the dirty flag is in memory only. |
| DirtyHandshake.LateReadLosesOnlyUnqueued | internal/analytics/service.go:1175-1193 | A late publish breaks the promise at once if and only if its version is superseded and the enqueued path is neither queued nor about to be requeued. |
| DirtyHandshake.LateReadCanLoseAnUpdate | internal/analytics/service.go:1146-1193 | A run on which that happens: a direct read misses after one write and publishes that version after the next write was enqueued and indexed. |
| EventLog.TargetIsUnused | internal/analytics/storage.go:87-127 | The name an event is appended to was never shipped under another content, is not being sealed and has no compressed twin, late events included. |
| EventLog.ApplyKeepsInvariant | internal/analytics/storage.go:87-523 | Every atomic step of append, seal, ship, checkpoint, retention and crash keeps: checkpointed bytes are in remote objects, retired segments are wholly shipped, every appended event is in a local or retired segment. |
| EventLog.RunsKeepInvariant | internal/analytics/pipeline.go:655-740 | So does every run. |
| EventLog.NoEventIsLost | internal/analytics/storage.go:87-523 | After any run from an empty log, every successfully appended event is in a local segment or a remote object. |
| EventLog.RetiredIsShipped | internal/analytics/storage.go:491-521 | Every segment retention removed is in remote objects from its first record to its last. |
| EventLog.RunsKeepPeriods | internal/analytics/storage.go:79-86 | After any run in which each event is appended with its own time, every segment, local or retired, holds only events of its own rotation period. |
| EventLogProgram.StepsKeepInvariant | internal/analytics/storage.go:87-523 | Whatever steps a method below takes, the log's invariant holds after them, so its events are as safe as in the state machine. |
| EventLogProgram.LateEventAfterRetention | internal/analytics/storage.go:98-127 | A run in which an event is shipped and its segment retired, and a late event of the same period then gets a segment of its own. |
| EventLogProgram.Process.constructor | internal/analytics/storage.go:64-78 | A fresh log at rest. |
| EventLogProgram.Process.Append | internal/analytics/storage.go:87-148 | A successful append makes the event the last line of one raw segment without a compressed twin, whose period holds the event's time and starts at a multiple of the rotation, and changes no other file; a failed or torn one records none. |
| EventLogProgram.Process.Segments | internal/analytics/storage.go:149-176 | Every segment once, with its size, sorted by day. |
| EventLogProgram.Process.CompressEnded | internal/analytics/storage.go:449-490 | Exactly the raw segments whose period has ended are replaced by compressed ones with the same records, in steps of the state machine. |
| EventLogProgram.Process.RetainExpired | internal/analytics/storage.go:491-521 | Exactly the segments that start before the cutoff and whose durable checkpoint equals their size are removed; none whose period holds a time at or after cutoff + rotation is. |
| EventLogProgram.Process.Seal | internal/analytics/storage.go:431-523 | Closing, compressing and retaining is a run of the state machine: a raw segment stays raw exactly when its period has not ended (or compression is off), and then only expired ones go. |
| EventLogProgram.Process.Restart | internal/analytics/pipeline.go:606-613 | A restart forgets the open segment and the offsets in memory and nothing else. |
| EventLogProgram.Process.LoadOffsets | internal/analytics/pipeline.go:717-725 | The durable checkpoint is read once. |
| EventLogProgram.Process.ShipOne | internal/analytics/pipeline.go:671-708 | A shipped segment's checkpoint equals its size; a failed upload or save leaves the checkpoint as it was. |
| EventLogProgram.Process.ShipNow | internal/analytics/pipeline.go:655-710 | A successful call leaves every local segment wholly in remote objects with its checkpoint equal to its size; it fails only when an upload or save fails. |
| SkillSync.RemovalsRun | pkg/openlore/vfs.go:407-500 | Removals that exist, fit their kind and lie apart all succeed, in any order, and remove exactly what is at or beneath their targets. |
| SkillSync.MkdirsRun | pkg/openlore/vfs.go:381-405 | Making directories nothing blocks succeeds and adds exactly them and their ancestors. |
| SkillSync.WritesRun | pkg/openlore/vfs.go:160-218 | Writing the files where every parent is a directory and no directory is in the way succeeds and changes exactly those files. |
| SkillSync.PlanWorks | pkg/openlore/agent_skills_plugin.go:399-493 | Any plan with removals of the stale nodes, the parents' mkdirs and the writes, committed in order, turns the tree into exactly the wanted one. |
| SkillSync.DesiredDirs | pkg/openlore/agent_skills_plugin.go:399-404 | Exactly the proper ancestors of the files, without the root. |
| SkillSync.PlanRemovals | pkg/openlore/agent_skills_plugin.go:423-456 | The removals exist with the right kind, only hit stale nodes, none lies under another, and every stale node is at or under one. |
| SkillSync.CollectPaths | pkg/openlore/agent_skills_plugin.go:457-465 | The parent directories and the paths of all files. |
| SkillSync.SyncPlan | pkg/openlore/agent_skills_plugin.go:399-493 | For every existing tree, committing the plan yields exactly the wanted files and their directories; the last change writes SKILL.md; every removal's target was there and stale. |
| Fuzzy.LatestIsLatest | dashboard/src/fuzzy.ts:32-41 | No alignment of the rest of the query puts a character past its latest index. |
| Fuzzy.FailureIsRejection | dashboard/src/fuzzy.ts:35-41 | When the backward search fails, the query is not accepted. |
| Fuzzy.LatestAlignsCollapsed | dashboard/src/fuzzy.ts:35-41 | When it succeeds, the query with its clamped repetitions of the path's first character dropped is a subsequence. |
| Fuzzy.LatestPositions | dashboard/src/fuzzy.ts:35-41 | The backward loop succeeds exactly on accepted queries. |
| Fuzzy.Choose | dashboard/src/fuzzy.ts:48-60 | The probe loop takes the next occurrence if it continues the run, else the first word start within reach, else the next occurrence. |
| Fuzzy.GreedyNeverStrands | dashboard/src/fuzzy.ts:46-71 | Positions strictly increase, match character by character and never pass latest: jumping to a boundary never strands the rest. |
| Fuzzy.Align | dashboard/src/fuzzy.ts:43-71 | The forward loop makes the greedy choice at every character and sums the gains of the positions it chose. |
| Fuzzy.GainOrder | dashboard/src/fuzzy.ts:61-69 | All else equal, a place in the filename gains more than one outside, a segment start more than a word start, that more than mid-word, and a smaller gap more than a wider one, a run's next character most. |
| Fuzzy.ScoreOrder | dashboard/src/fuzzy.ts:61-74 | An alignment no worse at any character and no longer in filename never scores less, and more when it is better somewhere or its filename shorter. |
| Fuzzy.FilenameIsLast | dashboard/src/fuzzy.ts:42 | The filename is what follows the last slash. |
| Fuzzy.Score | dashboard/src/fuzzy.ts:29-74 | Null exactly for queries not accepted; otherwise the greedy alignment and its score, a true alignment whenever the query is a subsequence. |
| Fuzzy.NullIffNotSubsequence | dashboard/src/fuzzy.ts:29-41 | Null means "not a subsequence" for all paths that start with a character if and only if the query does not start with that character twice. |
| Keyed.MergedPut | internal/analytics/types.go:183-191 | For an associative combination, adding one entry to the later map adds it to the merge. |
| Keyed.MergeIsConcatenation | internal/analytics/types.go:183-191 | Any keyed partial with an associative combination satisfies the partial contract. |
| Keyed.EntriesAreFolds | internal/analytics/types.go:183-191 | A key is there exactly when some event has it, and holds the fold of those events in order. |
| Keyed.MergeInto | internal/analytics/quality_aggregations.go:705-709 | The loop over the later map's entries makes the merged map, in whatever order it visits them. |
| LineUsage.LineReadsPartial.AddRead | internal/analytics/quality_aggregations.go:681-692 | Counts of the same range and hash add up and the later read time stays. |
| LineUsage.LineReadsPartial.Add | internal/analytics/quality_aggregations.go:694-703 | Only reads of this path with a valid line range are tallied. |
| LineUsage.LineReadsPartial.Merge | internal/analytics/quality_aggregations.go:705-709 | The loop leaves the merge that `SplitReads` shows to be one fold. |
| LineUsage.SplitReads | internal/analytics/quality_aggregations.go:676-709 | Splitting the window anywhere and merging changes no tally. |
| LineUsage.LinesAreRead | internal/analytics/quality_aggregations.go:750-772 | From the tallies, each line's reads and last read are the count and maximum over the events that read it at that hash. |
| LineUsage.CountAndLastMean | internal/analytics/quality_aggregations.go:840-862 | A line's count is the number of reads of the path at the hash whose range, when it is one, holds the line; its last read is the latest of those. |
| LineUsage.SpreadReads | internal/analytics/quality_aggregations.go:750-772 | Spreading the ranges over the lines sums the counts and keeps the latest time at every line, whatever the order. |
| LineUsage.GroupRows | internal/analytics/quality_aggregations.go:773-781 | The rows partition 1..lineCount into maximal runs of equal statistics. |
| LineUsage.RunsAreUnique | internal/analytics/quality_aggregations.go:773-781 | There is only one such partition. |
| LineUsage.UsedLines | internal/analytics/quality_aggregations.go:711-781 | Refused exactly above the line limit; otherwise maximal runs of lines, each line with the number and the latest of the events that read it at the current hash. |
| LineUsage.ColdLineUnits | internal/analytics/quality_aggregations.go:497-512 | Exactly the maximal uncovered runs, in order. |
| LineUsage.MarkCoverage | internal/analytics/quality_aggregations.go:438-460 | A line is marked exactly when the coverage is whole or holds it. |
| LineUsage.FileColdUnits | internal/analytics/quality_aggregations.go:438-512 | A file's cold units are exactly the maximal runs of lines that none of its recorded reads at the current hash covered. |
| Aggregations.CountsAreMultiplicities | internal/analytics/aggregations.go:73-83 | Every recorded duration is counted as often as it was recorded. |
| Aggregations.Distinct | internal/analytics/aggregations.go:85-97 | The distinct durations ascending, and how many were recorded. |
| Aggregations.Walk | internal/analytics/aggregations.go:98-110 | Stepping down the distinct values by their counts ends at the element with the given index of the expanded list. |
| Aggregations.Median | internal/analytics/aggregations.go:85-110 | Element (n-1)/2 of the sorted list of all recorded durations. |
| Aggregations.StatsAssociative | internal/analytics/aggregations.go:161-167 | Merging command statistics is associative. |
| Aggregations.FoldDescribes | internal/analytics/aggregations.go:138-167 | Folding events gives their count, failures, distinct principals and sessions, and durations. |
| Aggregations.CommandsPartial.AddEvent | internal/analytics/aggregations.go:176-187 | Only events that pass the filter are added, under their command. |
| Aggregations.CommandsPartial.Merge | internal/analytics/aggregations.go:189-197 | The loop over the later partial's commands leaves the merge that `CommandsOfSplit` shows to be one fold. |
| Aggregations.CommandsPartial.Row | internal/analytics/aggregations.go:199-213 | A row's numbers are those of the events of the configured transport under the command, its median their median duration. |
| Aggregations.CommandsOfSplit | internal/analytics/aggregations.go:169-197 | Folding two halves and merging builds the partial of all the events. |
| Aggregations.UnknownCommandsMean | internal/analytics/aggregations.go:231-266 | After a merge an unknown command's entry holds the count, principals and last occurrence of the events that name it, or that syntax when they name no command. |
| Aggregations.UnknownCommandsPartial.AddEvent | internal/analytics/aggregations.go:241-247 | Adding an event is merging its own entry into the name's: the partial steps as specified. |
| Aggregations.UnknownCommandsPartial.Merge | internal/analytics/aggregations.go:262-266 | The loop leaves the merge that `UnknownCommandsMean` describes. |
| Aggregations.FirstWriteWins | internal/analytics/aggregations.go:405-430 | After any split and merge, each write holds what its first event said. |
| Aggregations.ScalarWritesPartial.AddEvent | internal/analytics/aggregations.go:405-422 | A later event of a known write changes nothing. |
| Aggregations.ScalarWritesPartial.Merge | internal/analytics/aggregations.go:424-430 | The earlier range's entry stays. |
| Aggregations.ScalarWritesPartial.WriteRatio | internal/analytics/aggregations.go:468-498 | Each writer gets the number and the bytes of its own counted writes, and every counted write has one writer. |

## Left out

- DayCache.DayPartials.Summarize: requires a window that starts less than a day before 1970 or later; `PartitionExactIff` and `NearHitsIff` show exactly what goes wrong earlier. Rows do not change during one turn, because the same work lane does both; builds that race with appends are in the state machine (`ApplySound`).
- DayCache.DayPartials.Index: re-indexing an event is assumed to carry the same content.
- DashboardViews.ViewIsMergeable: asks that correlated events lie within the margin, which is the margin's own premise. No cached aggregation makes anything of session and login events, whose visibility no margin bounds.
- DirtyHandshake.NoUpdateIsLost: asks each step to be careful, because the code loses the update otherwise; one path and one generation, as the flag and the queue entry are per path. Who owns a row is in `FactsCrawl`.
- FactsIndexer.Indexer.Run: enqueuers arrive between a path's index step and its completion, where the dirty flag matters; `DirtyHandshake` has every interleaving, and writes to the file. The turn cut short by a failed read is a step of `FactsCrawl`.
- FactsCrawl.CompletionIsComplete: the tree and the scalar sources do not change during a generation and the tree can be read; every source gives every file a scalar, as the built-in ones do, so a row of the current generation is always found.
- EventLogProgram.Process.ShipNow: a remote is configured, rotation and compression settings stay the same over restarts, the clock never runs backwards between seals, and the checkpoint file can be read. No append lands between the listing of the segments and the end of the pass; with concurrent appends the program ships every segment up to its listed size only, and `EventLog` has those interleavings.
- EventLog.NoEventIsLost: a record is one line and the unit of size, so a compressed segment has the size of its records; what a cursor reader sees across a seal is not claimed. A failed append may leave a fragment without a line end; the next event's bytes then follow it in the segment, and whether a reader can parse that line is not modelled.
- SkillSync.SyncPlan: no wanted path is an ancestor of another; the order among paths of the same depth is not modelled; nor are fetching the remote, grafting front matter, file-name policy, or rolling back a batch that another writer interrupts.
- Fuzzy.Score: takes the lower-cased path as its input; case mapping is not modelled.
- Aggregations.CommandsPartial.Row: sorting and limiting table rows is left out, here and for every table.
- Aggregations.Median: durations are integers, so their decimal text keys are the numbers themselves.
- UsageSummary.UsagePartial.Record: characters are reals, without floating-point rounding.
- FactsIndex.Index.DirectoryTotals: scalar sums are integers, without floating-point rounding.
- Encodings (JSON, zstd, SHA-256), SQL text, file-system and network I/O, goroutine scheduling below critical sections and transactions.
- Pipeline de-duplication and replay, log cursors, session buckets, folder rankings, HTTP handlers, authentication, command line and dashboard components.
