# PICTRIP: verified models of the stateful core

PICTRIP recommends Korean places to visit. This project models the parts of it that hold state, run
loops or keep a protocol, and proves what they are for. Imperative code (the sync, the tables, the
itinerary assembler, the tool loop, the event stream) is modelled as classes and methods; each method is
proved equal to a function, and the results are lemmas about those functions, over every input and every
run.

`dafny verify dfyconfig.toml` checks the whole project.

**Incremental sync** (`Digits`, `Calendar`, `SyncPlan`, `SpotTable`, `PageLoop`, `SyncRuns`,
`SyncAttempts`, `SyncHistory`, `SyncVisibility`, `FullRuns`, `SyncExamples`). A run reads the greatest recorded watermark, plans the days or months to ask the KTO
listing for, pages through each listing, upserts under a "strictly newer" guard and records a new
watermark only on success. The main results are about whole histories of runs that succeed, fail or are
refused: no modification is ever lost, whatever fails afterwards, every past day has been asked for, no watermark the system writes
can break the next run, which spots a run leaves visible, and which full runs are refused.

**Derived images and matches** (`ImageCache`, `ImageRaces`, `OverseasEmbeddings`, `MatchRebuild`).
Embeddings are a cache keyed by image URL. The pipeline changes URLs, triggers invalidate, and jobs
write back inside transactions, with row locks and a comparison of the URL. What is stored is always
current, and no spot a job collected is dropped silently. The state machines let any step happen whenever the
locks held at that moment allow it. The match table is a fast form (two bounded nearest lists, merged) of a
simple global ranking; the result says exactly when the two agree.

**Itinerary** (`Itinerary`, `ItineraryRules`, `MealPicks`, `MealSlots`). Greedy chaining, meals in rotation from
shrinking and overlapping pools, which place every pick must take, and the report of what did not fit.

**Agent** (`Routing`, `Steps`, `Transcript`, `ToolLoop`, `ToolTrace`, `ChipReplay`). A bounded tool loop against
any model and any tools, what it collects and what it tells the model, the two provider encodings of its conversation, each with a decoder, and suggestion chips
that are replayed as tool calls.

**Feed and links** (`Interleave`, `Sets`, `Text`, `Cursor`, `Posts`, `SignedImage`). Mixing pools by a pattern,
paging by a cursor, spreading countries over a page, and the signed image link that Python prints and
TypeScript parses.

**Chat stream** (`EventStream`, `ChatStream`, `RoutedChat`). The grammar and the content of the event stream for every
outcome of search and writer, and its framing as server-sent events (section 9.2.5 of the HTML Living
Standard).

Seven properties one might expect of the code are not quite true of it. In each case the model keeps the
code as it is and proves the exact condition:

- A tapped chip does not always replay faithfully: the festival tool takes only regions.
  `ChipReplay.ReplayIsFaithfulIff` says exactly when it does; `ChipReplay.FestivalChipIsForgotten` is a
  search and a chip offered on it for which it does not.
- Chips are not used up for good: a turn that finds nothing and has no coordinates takes "near me" back.
  `ChipReplay.OutlastsItsMeasureIff` says exactly which searches can be tapped once more than they have
  conditions to change, and `ChipReplay.OneTapMoreIff` exactly which chains are; `ChipReplay.SixTapsCanHappen`
  is such a search.
- A full run that is not refused may hide every visible spot, because the guard counts the ids received and not
  the visible ones among them. `FullRuns.AtMostHalfIsHiddenIff` says exactly when at most half are hidden;
  `FullRuns.EverythingCanBeHidden` hides all.
- A place can stand twice in the trace of a question, because a result is compared with earlier results and not
  with itself: `ToolTrace.PlacesRepeatIff`, and `ToolTrace.OneResultCanRepeat`.
- Cutting the two embedding sources before ranking can lose a match when distances tie.
  `MatchRebuild.CutIsHarmlessIff` says exactly when it cannot; `MatchRebuild.OneTieTooMany` loses one.
- Paging cannot finish a listing of more than 100000 items. `PageLoop.SlicedListing` says so both ways, and
  `PageLoop.OneItemTooMany` is the smallest such listing.
- A spot hidden by a full run and listed again comes back only if its modified time has moved on:
  `SyncVisibility.HiddenSpotReturnsOnlyWhenModified`, and `SyncExamples.RelistedSpotStaysHidden`.

The exclusive job lock is also shown to be needed: `ImageRaces.TwoJobsCanLeaveBoth`.

## Model

| member | source | states |
|---|---|---|
| Digits.LessIsNumeric | pipeline/src/pictrip_data/sync/audit.py:98-105 | On digit texts of equal length the database's text order is numeric order, so `ORDER BY watermark_to` means something |
| Digits.DecimalIsInjective | backend/app/modules/agent/llm.py:112-112 | Printed numbers differ exactly when the numbers do |
| Calendar.NextDayOrdinal | pipeline/src/pictrip_data/sync/daily.py:74-76 | Adding one day adds one to the day count across month ends, year ends and leap days |
| Calendar.MonthLengths | pipeline/src/pictrip_data/sync/daily.py:74-76 | The months, as day counts, are those of the Gregorian calendar, leap years included |
| Calendar.OrdinalOrder | pipeline/src/pictrip_data/sync/daily.py:63-64 | Comparing dates and comparing day counts agree, both ways |
| Calendar.ParseInvertsDayText | pipeline/src/pictrip_data/sync/daily.py:63-75 | `strptime` gives back the date that `strftime` wrote |
| Calendar.DayTextOrder | pipeline/src/pictrip_data/sync/daily.py:66-76 | Day texts sort as the days they name |
| Calendar.StampOrder | pipeline/src/pictrip_data/sync/daily.py:171-177 | The string maximum of watermarks is the chronological maximum |
| SyncPlan.MonthRange | pipeline/src/pictrip_data/sync/daily.py:44-55 | The loop yields the months from the start's to today's, each once, in order |
| SyncPlan.SyncDates | pipeline/src/pictrip_data/sync/daily.py:58-77 | The plan, or the parse error, or "watermark too old", as the plan function says |
| SyncPlan.PlanMissesNoDay | pipeline/src/pictrip_data/sync/daily.py:58-77 | Every day from the watermark's day to today is asked for, by day queries and by month queries alike |
| SyncPlan.DayPlanIsExact | pipeline/src/pictrip_data/sync/daily.py:64-77 | A day plan asks for exactly the days of the gap, and the month plan for every one of them |
| SyncPlan.PlanIsExact | pipeline/src/pictrip_data/sync/daily.py:58-77 | A plan asks for exactly the days of a gap of at most 60 days, and beyond that for exactly the months it touches |
| SyncPlan.PlanIsBounded | pipeline/src/pictrip_data/sync/daily.py:64-72 | A plan has at most 61 days or 12 months; a plan from a real date is refused only when more than 12 months are spanned |
| SyncPlan.StampOfQuery | pipeline/src/pictrip_data/sync/daily.py:180-184 | Day and month queries spread to the 14-digit text of a real midnight |
| SyncPlan.WatermarkAdvances | pipeline/src/pictrip_data/sync/daily.py:168-184 | Whatever was listed, the recorded watermark is the stamp of a real moment, never below the one it started from nor the newest item seen |
| SyncPlan.WatermarkIsNotAhead | pipeline/src/pictrip_data/sync/daily.py:168-184 | It lies on or before the run's day when the watermark it started from and every item seen do |
| SyncPlan.WatermarkReachesToday | pipeline/src/pictrip_data/sync/daily.py:168-184 | However little was listed, it reaches the run's day, or the first of its month when the run asked by months |
| SpotTable.UpsertAllKeepsNewest | pipeline/src/pictrip_data/sync/upsert.py:31-37 | A batch leaves each spot at its newest version among table and batch |
| SpotTable.OrderAndRepetitionDoNotMatter | pipeline/src/pictrip_data/sync/upsert.py:31-82 | Batches of the same rows in any order and with any repetition give the same table |
| SpotTable.RerunAfterPartialCommit | pipeline/src/pictrip_data/sync/daily.py:127-135 | A run that stopped part-way and was run again leaves the table of one clean run |
| SpotTable.EveryRowIsCountedOnce | pipeline/src/pictrip_data/sync/upsert.py:70-82 | Inserted, updated, hidden and skipped add up to the rows received |
| SpotTable.InsertedAreNewIds | pipeline/src/pictrip_data/sync/upsert.py:70-82 | The table grows by the rows counted as inserted and otherwise only by new rows counted as hidden; rows are counted as hidden exactly by their flag |
| SpotTable.SkippedAreNotNewer | pipeline/src/pictrip_data/sync/upsert.py:31-37 | A row is skipped exactly when what is stored by then is dated and not older; any other is stored |
| SpotTable.NewestOfParts | pipeline/src/pictrip_data/sync/daily.py:157-160 | The maximum per listing and then over listings is the maximum over everything |
| PageLoop.CompleteListingReachesItsTotal | pipeline/src/pictrip_data/sync/daily.py:115-142 | A normal return has received at least the total of the first page, whatever the service answers |
| PageLoop.ListingStops | pipeline/src/pictrip_data/sync/daily.py:115-142 | Whatever the service answers, a listing is the items of its first pages in order, and ends for the reason that the page after them gives |
| PageLoop.SlicedListing | pipeline/src/pictrip_data/sync/daily.py:115-142 | Against one sliced list a normal return has received exactly that list; without failed requests it happens exactly when the list fits the page limit |
| PageLoop.OneItemTooMany | pipeline/src/pictrip_data/sync/daily.py:116-118 | The failing input: 100001 items, every page answered, and the listing still ends in an error |
| SyncRuns.Pipeline.UpsertSpots | pipeline/src/pictrip_data/sync/upsert.py:66-82 | Rows and counters after the loop, for every batch |
| SyncRuns.Pipeline.SoftDeleteUnseen | pipeline/src/pictrip_data/sync/daily.py:80-100 | Refuses exactly when the guard says so, and then changes nothing; otherwise hides exactly the unseen ones and counts them. `FullRuns.FullRunSucceedsIff` says what the guard is |
| SyncRuns.Pipeline.TakePage | pipeline/src/pictrip_data/sync/daily.py:127-133 | One page: rows upserted, counters and seen ids extended |
| SyncRuns.Pipeline.SyncOneDate | pipeline/src/pictrip_data/sync/daily.py:103-142 | One listing: rows, counters, seen ids and newest time are those of what was received, also when it ends in an error |
| SyncRuns.Pipeline.SyncQueries | pipeline/src/pictrip_data/sync/daily.py:155-160 | All listings of a plan, stopping at the first that fails |
| SyncRuns.Pipeline.Run | pipeline/src/pictrip_data/sync/daily.py:145-165 | A whole run with its audit record: success with counters and watermarks, or an error that keeps the committed rows |
| SyncRuns.Pipeline.SyncDaily | pipeline/src/pictrip_data/sync/daily.py:187-200 | An incremental run from the last recorded watermark; a refused plan leaves no trace |
| SyncRuns.Pipeline.SyncFull | pipeline/src/pictrip_data/sync/daily.py:203-213 | A full run over the unfiltered listing |
| SyncRuns.NewestIn | pipeline/src/pictrip_data/sync/daily.py:132-135 | The running maximum of modified times, undated items never winning |
| SyncAttempts.EveryPastDayIsAskedFor | pipeline/src/pictrip_data/sync/daily.py:58-184 | Whatever the service answers, as long as run days do not go back and no successful run is given an item dated after its day: every day before the newest successful run's was asked for by a successful run made on a later day |
| SyncAttempts.WatermarksAlwaysParse | pipeline/src/pictrip_data/sync/daily.py:180-184 | No history, whatever was listed in it, makes the next run fail on the watermark it reads |
| SyncAttempts.WatermarkStandsBy | pipeline/src/pictrip_data/sync/daily.py:168-177 | In such a history the watermark never runs ahead of the newest success |
| SyncAttempts.WatermarkNeverGoesBack | pipeline/src/pictrip_data/sync/audit.py:98-105 | No attempt, whatever becomes of it, lowers the watermark that is read next |
| SyncAttempts.LastWatermarkIsTheGreatest | pipeline/src/pictrip_data/sync/audit.py:98-105 | The watermark read next is the greatest that any successful run recorded |
| SyncAttempts.FailedRunKeepsTheWatermark | pipeline/src/pictrip_data/sync/audit.py:58-66 | A shortfall or a failed request leaves the watermark unchanged |
| SyncAttempts.IncrementalCountersBalance | pipeline/src/pictrip_data/sync/audit.py:67-85 | A successful incremental run records fetched = inserted + updated + skipped + soft_deleted, within the request limit |
| SyncAttempts.CallsAreBounded | pipeline/src/pictrip_data/sync/daily.py:116-120 | At most MAX_PAGES requests for each query |
| SyncHistory.NoModificationIsLost | pipeline/src/pictrip_data/sync/daily.py:58-184 | After any history of successful, failed and refused runs against a changing catalogue, every spot of the catalogue the newest successful run faced is stored in the version it had there, or in one it had at a later attempt |
| SyncHistory.SuccessLeavesCurrentVersions | pipeline/src/pictrip_data/sync/daily.py:145-165 | Right after a success every spot of the catalogue is stored in its current version |
| SyncHistory.SuccessCatchesUp | pipeline/src/pictrip_data/sync/daily.py:145-165 | A success brings every spot up to date, those on days it did not ask for because an earlier success had |
| SyncVisibility.FullRunShows | pipeline/src/pictrip_data/sync/daily.py:80-100 | After a successful full run against an honest service the visible spots are exactly those of its catalogue listed as shown, or stored as shown where the listing is not newer |
| SyncVisibility.HiddenSpotReturnsOnlyWhenModified | pipeline/src/pictrip_data/sync/daily.py:145-165 | A spot hidden by a full run stays hidden while it is not listed, and once listed again is visible exactly if its modified time has moved on |
| SyncVisibility.RerunLeavesTheCleanRows | pipeline/src/pictrip_data/sync/daily.py:127-135 | A run that broke off and is made again on the same day leaves the rows of one clean run, hiding included |
| FullRuns.FullRunSucceedsIff | pipeline/src/pictrip_data/sync/daily.py:80-100 | A full run whose listing came through succeeds exactly when it received at least half as many ids as there are visible spots; then it hides exactly the visible ones it did not receive, and otherwise it leaves the upserted rows and a failed record |
| FullRuns.OtherRunsHideNothing | pipeline/src/pictrip_data/sync/daily.py:145-165 | An incremental run, a full run that received nothing and one that broke off hide nothing |
| FullRuns.FullCountersBalance | pipeline/src/pictrip_data/sync/audit.py:67-85 | A successful full run records fetched + hidden = inserted + updated + skipped + soft_deleted |
| FullRuns.AtMostHalfIsHiddenIff | pipeline/src/pictrip_data/sync/daily.py:80-100 | A successful full run hides at most half of the visible spots exactly when at least half of them are among the ids received, so whenever all it received is visible |
| FullRuns.EverythingCanBeHidden | pipeline/src/pictrip_data/sync/daily.py:84-88 | The failing input: two visible spots and a full listing of one other that is not shown; the run succeeds and nothing stays visible |
| SyncExamples.AFirstRun | pipeline/src/pictrip_data/sync/daily.py:203-213 | The histories spoken of exist: a full run on any dated spot, from empty tables, succeeds |
| SyncExamples.AnIncrementalRun | pipeline/src/pictrip_data/sync/daily.py:187-200 | A full run, a change and an incremental run: such a history, both runs successful, the change stored |
| SyncExamples.RelistedSpotStaysHidden | pipeline/src/pictrip_data/sync/daily.py:80-100 | The failing input: a spot is listed, left out and listed again unchanged by three complete full runs, and stays hidden |
| ImageCache.ImageStore.InvalidateDerivatives | backend/alembic/versions/20260719_0020_baseline.py:27-58 | The trigger: stale rows of both embedding tables deleted, the failure row written or removed, other rows untouched |
| ImageCache.ImageStore.Update | backend/alembic/versions/20260719_0020_baseline.py:549-549 | An image change fires the trigger exactly when the URL differs |
| ImageCache.ImageStore.RecordSuccess | backend/app/modules/images/embedding_job.py:96-113 | Writes exactly when the stored URL is the job's, and then clears the failure row |
| ImageCache.ImageStore.RecordFailure | backend/app/modules/images/embedding_job.py:116-141 | Records exactly when the stored URL is the job's, counting attempts |
| ImageCache.ImageStore.RecordGallery | backend/app/modules/images/gallery_job.py:116-146 | Writes the gallery row, with its image count, exactly when the stored URL is the job's |
| ImageCache.EmbedResult.Record | backend/app/modules/images/embedding_job.py:34-41 | The tally by status gains one, and the three counters stay what the tally says |
| ImageCache.ImageStore.EmbedSpots | backend/app/modules/images/embedding_job.py:144-165 | One batch: its writes, and for each status exactly as many records as outcomes that came to it |
| ImageCache.EveryOutcomeIsRecordedOnce | backend/app/modules/images/embedding_job.py:156-163 | Every outcome of a batch is recorded under exactly one status |
| ImageCache.StatusesCountOutcomes | backend/app/modules/images/embedding_job.py:156-163 | Written counts exactly the successes that came in time, and every reason exactly the failures that did |
| ImageCache.LastOutcomeStays | backend/app/modules/images/embedding_job.py:96-165 | A batch leaves of each spot what the last outcome about its current image came to, and nothing where there is none |
| ImageCache.FailureCountsOn | backend/app/modules/images/embedding_job.py:116-141 | A failure counts one attempt more and leaves the embedding |
| ImageCache.ChangeIsRecorded | backend/alembic/versions/20260719_0020_baseline.py:27-58 | An image change leaves a failure row that says so and keeps its attempts, none when the image is gone, and touches no other spot |
| ImageCache.RecordKeepsSpots | backend/app/modules/images/embedding_job.py:144-165 | Recording never changes a spot's image |
| ImageCache.ImageStore.ValidateImages | pipeline/src/pictrip_data/sync/images.py:77-110 | Rewrites and clears with compare-and-set, nothing at all in a dry run, and every counter |
| ImageCache.EveryImageIsReportedOnce | pipeline/src/pictrip_data/sync/images.py:113-120 | Usable, unknown, rewritten and cleared add up to the images probed; one or two probes each |
| ImageCache.VerdictsAreExact | pipeline/src/pictrip_data/sync/images.py:62-110 | What is reported of an image, by its own probe and that of its mid-size variant: usable, unknown, rewritten or cleared |
| ImageCache.ValidationIsExact | pipeline/src/pictrip_data/sync/images.py:77-110 | A whole run changes exactly the images that were listed, current and dead, each to what its own probes gave, and none twice |
| ImageCache.ValidationIsCautious | pipeline/src/pictrip_data/sync/images.py:62-74 | A whole run changes an image exactly when it was listed, did not answer and its mid-size variant, if any, gave a clear answer; it becomes that variant if seen alive, and is cleared otherwise |
| ImageRaces.StepKeepsFresh | backend/app/modules/spots/services/cards.py:31-37 | Every step of pipeline, triggers and jobs keeps derived rows current and staged writes valid while their row locks are held |
| ImageRaces.DerivedRowsAreAlwaysCurrent | backend/app/modules/images/embedding_job.py:96-165 | Under every interleaving a stored embedding is that of the spot's current non-empty image, and a gallery row carries it |
| ImageRaces.NoFailureBesideAnEmbedding | backend/app/modules/images/embedding_job.py:96-141 | Under the exclusive job lock no spot has both an embedding and a recorded failure |
| ImageRaces.StepKeepsApart | backend/app/modules/images/embedding_job.py:44-74 | Every step keeps failures and embeddings apart while one job owns its targets |
| ImageRaces.TwoJobsCanLeaveBoth | backend/app/modules/images/embedding_job.py:116-141 | Without the lock two jobs can leave a failure beside an embedding: a run that does |
| ImageRaces.StepKeepsInHand | backend/app/modules/images/embedding_job.py:96-141 | Until it crashes or ends, a single-image job owes each target only a write or a commit, or the spot is accounted for, being overtaken by the pipeline included |
| ImageRaces.CollectedWorkIsAccountedFor | backend/app/modules/images/embedding_job.py:44-165 | In every interleaving, once a job has written and committed all it collected, each of those spots has an embedding of its current image, a recorded failure or no image, and no later step undoes that |
| OverseasEmbeddings.OverseasTable.UpsertOverseas | pipeline/src/pictrip_data/overseas/upsert.py:4-33 | Insert, or update with the embedding kept exactly when the URL stays |
| OverseasEmbeddings.OverseasTable.WriteBatch | backend/app/modules/feed/embedding_job.py:118-134 | One batch leaves each row the vector of the last outcome for its current URL, and a row without one alone; the counters are those that landed, those without a vector and the rest |
| OverseasEmbeddings.WritingKeepsUrls | backend/app/modules/feed/embedding_job.py:24-27 | The job changes no URL and adds or removes no row |
| OverseasEmbeddings.LastEmbeddingStays | backend/app/modules/feed/embedding_job.py:118-134 | The last outcome that carries a vector for a row's URL stays, and nothing else is written |
| OverseasEmbeddings.BatchKeepsFresh | backend/app/modules/feed/embedding_job.py:24-27 | A batch of embeddings, however much of it was overtaken, leaves current ones only |
| OverseasEmbeddings.CommitKeepsFresh | backend/app/modules/feed/embedding_job.py:118-134 | A committed batch leaves current embeddings only, and one for each row it wrote |
| OverseasEmbeddings.StepKeepsFresh | backend/alembic/versions/20260719_0020_baseline.py:18-26 | Every step keeps stored and staged embeddings those of the current image |
| OverseasEmbeddings.EmbeddingsAreAlwaysCurrent | backend/app/modules/feed/embedding_job.py:92-142 | Under every interleaving a stored overseas embedding is that of the row's current image_url |
| MatchRebuild.RankedIsTop | backend/app/modules/feed/repositories.py:201-235 | The ranking is sorted by distance and id, has at most three, and everything left out comes after everything taken |
| MatchRebuild.TopIsUnique | backend/app/modules/feed/repositories.py:203-234 | Only one list meets that description |
| MatchRebuild.MatchesAreTheNearestThree | backend/app/modules/feed/repositories.py:197-236 | Said of the two sources alone: at most three hits, each an id at the smaller of its distances and within the limit, by distance and id, and every other id near enough comes after three of them |
| MatchRebuild.FastRefinesSimple | backend/app/modules/feed/repositories.py:208-231 | When every match rests on a row no cut can lose, the cut form gives the ranking over both full sources |
| MatchRebuild.CutIsHarmlessIff | backend/app/modules/feed/repositories.py:208-231 | The cut is harmless for every way of cutting ties if and only if every match rests on such a row |
| MatchRebuild.ThreeCandidatesSuffice | backend/app/modules/feed/repositories.py:216-234 | With three or more candidates and no ties inside a source nothing is lost |
| MatchRebuild.OneTieTooMany | backend/app/modules/feed/repositories.py:216-227 | The failing input: one tied row more than the cut keeps, and two cuts that give different matches |
| MatchRebuild.MatchTable.Rebuild | backend/app/modules/feed/repositories.py:239-269 | Every overseas spot has the three nearest of its cut sources within the limit stored, each at its rank, and nothing else is stored; the spots with three are counted |
| MatchRebuild.StoredMatchesAreTheRankings | backend/app/modules/feed/repositories.py:198-235 | The table holds exactly the ranking over both full sources, ranks 1 to n with n at most three, when no match rests on a row a cut could lose |
| MatchRebuild.StoredMatchesAreTheNearest | backend/app/modules/feed/repositories.py:197-236 | Where the cut is harmless, what is stored is the three nearest of each spot's full sources |
| MatchRebuild.NoRowTwice | backend/app/modules/feed/repositories.py:198-203 | No row is stored twice |
| Itinerary.ChainRows | backend/app/modules/agent/tools/itinerary.py:48-67 | The loop computes the chain function |
| Itinerary.ChainIsGreedyPermutation | backend/app/modules/agent/tools/itinerary.py:48-67 | A chain keeps all rows, starts with the first, and each next row is nearest among the rest |
| Itinerary.Assembler.ServeKind | backend/app/modules/agent/tools/itinerary.py:269-276 | One pick: nearest untaken row of the pool, which then leaves the pool and is taken, or the word is reported short |
| Itinerary.Assembler.OneOfEach | backend/app/modules/agent/tools/itinerary.py:258-277 | One pick for each pool in turn |
| Itinerary.Assembler.PlanDay | backend/app/modules/agent/tools/itinerary.py:232-240 | One day: its sights, its picks, the chain through both |
| Itinerary.Assembler.ReportUnserved | backend/app/modules/agent/tools/itinerary.py:242-244 | Kinds never picked are reported short |
| Itinerary.AssembleDays | backend/app/modules/agent/tools/itinerary.py:225-244 | The day loop stops where the sights do |
| Itinerary.Assemble | backend/app/modules/agent/tools/itinerary.py:203-255 | The whole assembly, meals as backbone where there are no sights |
| Itinerary.DaysFilledAreThoseWithSights | backend/app/modules/agent/tools/itinerary.py:231-234 | A day has sights exactly when it lies before the filled days' count |
| Itinerary.NothingToPlan | backend/app/modules/agent/tools/itinerary.py:220-223 | Without sights or days there is no plan, and nothing is reported short |
| ItineraryRules.PlanConserves | backend/app/modules/agent/tools/itinerary.py:203-277 | Ids differ position by position, every selected sight once, otherwise only pool members, at most three stops a day, exactly min(days, ceil(sights / per_day)) days, each greedily chained |
| ItineraryRules.PicksAreFair | backend/app/modules/agent/tools/itinerary.py:235-236 | Pick counts of two kinds differ by at most one and picks of a day differ |
| ItineraryRules.ShortIsExact | backend/app/modules/agent/tools/itinerary.py:225-277 | A kind is absent from `short` exactly when it was picked at least once and every pick placed a stop |
| MealPicks.EveryPickIsRight | backend/app/modules/agent/tools/itinerary.py:225-276 | One or two picks a day; each places a stop exactly when its pool holds a place that is neither a selected sight nor an earlier stop, then the nearest such to the day's first sight, first of equals; every day's leg is its sights and its stops |
| MealPicks.ChoiceIsNearestNew | backend/app/modules/agent/tools/itinerary.py:153-165 | Choosing the first of the nearest among the places not taken is choosing so from the whole pool |
| MealSlots.Slots | backend/app/modules/agent/tools/itinerary.py:119-128 | The slots in insertion order, each kind's first word holding its slot |
| MealSlots.SlotsAreOnePerKind | backend/app/modules/agent/tools/itinerary.py:119-128 | One slot for each kind of food named, held by the first word of the kind |
| MealSlots.SlotsKeepTheOrder | backend/app/modules/agent/tools/itinerary.py:127-128 | The slots stand in the order in which their kinds are first named |
| MealSlots.KindsAreExact | backend/app/modules/agent/tools/itinerary.py:119-128 | Two food words share a slot exactly when their action is the same and, for dishes, the first dish they stand for |
| MealSlots.Meals | backend/app/modules/agent/tools/itinerary.py:131-150 | Each slot, in order, yields a pool or a missing word |
| MealSlots.PoolWordsAreDistinct | backend/app/modules/agent/tools/itinerary.py:119-150 | Pools carry distinct words, are not empty, and account for every slot together with the missing words |
| MealSlots.PoolsAreWhatWasFound | backend/app/modules/agent/tools/itinerary.py:131-150 | The pools are what was found for the slots, in their order, and every other slot's word is missing |
| Transcript.GeminiContents | backend/app/modules/agent/llm.py:66-101 | The buffering loop computes the grouped contents |
| Transcript.ContentsDecode | backend/app/modules/agent/llm.py:66-101 | For every list of turns the contents decode to those turns, an absent tool name reading as empty |
| Transcript.ResponsesAreGrouped | backend/app/modules/agent/llm.py:66-101 | For the tool loop's conversations all responses of a call turn travel in one content, as many as calls |
| Transcript.OpenaiTurns | backend/app/modules/agent/llm.py:104-138 | The loop with its queue of pending ids computes the paired messages |
| Transcript.CallIdsAreUnique | backend/app/modules/agent/llm.py:112-112 | Call ids differ for different turns or positions |
| Transcript.AnswersMatchCalls | backend/app/modules/agent/llm.py:104-138 | Each round's ids are answered in order, each by its own observation |
| Transcript.EveryIdIsAnsweredOnce | backend/app/modules/agent/llm.py:104-138 | In one transcript no call id is sent twice, and the ids answered are the ids sent, in the same order |
| Transcript.MessagesDecode | backend/app/modules/agent/llm.py:104-138 | Read back through the ids, the messages are the conversation |
| ToolLoop.Trace.Begin | backend/app/modules/agent/toolloop.py:80-85 | The start signal carries the index of the step to come |
| ToolLoop.Trace.Finish | backend/app/modules/agent/toolloop.py:87-94 | The step is stored and its signal carries its index |
| ToolLoop.Trace.RunOne | backend/app/modules/agent/toolloop.py:108-134 | One call: unknown tool, time-out or result, with steps, facts, anchors, rows and halt |
| ToolLoop.Trace.Observe | backend/app/modules/agent/toolloop.py:277-289 | Refuses after a halt, over the cap and repeats; otherwise counts, marks and runs |
| ToolLoop.ObservingStaysSafe | backend/app/modules/agent/toolloop.py:277-289 | Observing any call keeps the caps, the counts, distinct fingerprints, and the signals of the steps |
| ToolLoop.EveryRunIsSafe | backend/app/modules/agent/toolloop.py:214-274 | After any rounds: calls within the cap, counted and fired once each, nothing after a stop, signals run i then done i |
| ToolLoop.RunRound | backend/app/modules/agent/toolloop.py:253-259 | Every picked call is observed in order and answered in the conversation with what observing it gave |
| ToolLoop.PlayRound | backend/app/modules/agent/toolloop.py:253-259 | One decision played out: the rounds go on explaining trace and turns, and every cap holds |
| ToolLoop.Open | backend/app/modules/agent/toolloop.py:224-232 | The question, and the opening call observed and answered when there is one |
| ToolLoop.Route | backend/app/modules/agent/toolloop.py:214-274 | Against any model, tools and clock that advances the loop ends; the caps, counts, stop rule and signals hold; its rounds explain the trace and the turns, and why it stopped is exact |
| ToolTrace.EveryRunAccounts | backend/app/modules/agent/toolloop.py:108-134 | After any rounds: the places are, call after call, those a known tool found that no earlier call had, unless its observation is the answer; the anchors likewise; facts and steps are, call by call, what each gave and showed |
| ToolTrace.FoundIffOffered | backend/app/modules/agent/toolloop.py:128-133 | A place or an anchor is in the trace exactly when some call that was made offered it |
| ToolTrace.PlacesRepeatIff | backend/app/modules/agent/toolloop.py:131-133 | No place repeats exactly when no single result names twice a place that no earlier one named |
| ToolTrace.OneResultCanRepeat | backend/app/modules/agent/toolloop.py:131-133 | The failing input: one search that finds the same place twice |
| ToolTrace.EveryAnswerIsTrue | backend/app/modules/agent/toolloop.py:277-289 | Every answer told to the model is the observation of the call it answers, a time-out, an unknown tool, or the reason the call was not made |
| ChipReplay.IntentsAreReplayable | backend/app/modules/agent/toolloop.py:297-319 | Every intent read off calls meets the conditions replay needs |
| ChipReplay.LastSearchDecides | backend/app/modules/agent/toolloop.py:297-319 | The intent is that of the last search alone, its flags and crowd exactly those of the arguments |
| ChipReplay.FalsyIsEmpty | backend/app/modules/agent/toolloop.py:316-317 | Of the JSON values a flag can hold, exactly the seven empty ones count as false |
| ChipReplay.DaysAreClamped | backend/app/modules/agent/tools/itinerary.py:77-81 | A whole number of days is kept within one and four, and anything else is two |
| ChipReplay.RegionsWithoutSearch | backend/app/modules/agent/toolloop.py:337-343 | Without a search it is the regions of the last call that names any |
| ChipReplay.PatchesKeepReplayable | backend/app/modules/agent/services/refine.py:14-26 | Patches keep those conditions and never switch festival mode |
| ChipReplay.PatchIsExact | backend/app/modules/agent/services/refine.py:14-26 | Field by field: a patch sets what it names, then clears its axis, and leaves the rest |
| ChipReplay.SearchReplays | backend/app/modules/agent/toolloop.py:171-191 | Reading back the call made of a search intent gives that intent |
| ChipReplay.ReplayIsFaithfulIff | backend/app/modules/agent/toolloop.py:171-191 | Replay gives back the patched intent if and only if it is not a festival search with conditions besides its region |
| ChipReplay.FestivalChipIsForgotten | backend/app/modules/agent/toolloop.py:171-174 | The failing input: a quiet festival search that found nothing is offered to widen its region, and the replay forgets the crowd |
| ChipReplay.ChipsMakeProgress | backend/app/modules/agent/services/suggest.py:18-58 | Every chip on offer, of a turn that found something or nothing, lowers the measure of the intent handed back with it by exactly one |
| ChipReplay.ChipsAreExact | backend/app/modules/agent/services/suggest.py:29-58 | Which chips are offered, exactly, each by its own condition and by the room beside the others |
| ChipReplay.RegionChipIsExact | backend/app/modules/agent/services/refine.py:29-53 | The region may be given up unless only a named place would be left |
| ChipReplay.ChipsRunOutExactly | backend/app/modules/agent/services/suggest.py:29-58 | With coordinates and something indoors, and no named place, no chip is left exactly when nothing is left to change, which in a plan is only the crowd; never more than three chips |
| ChipReplay.TapsAreCounted | backend/app/modules/agent/services/answer.py:273-287 | Off festivals the taps of a chain and what is left to change at its end add up to what there was, plus one for each time "near me" was taken back, which is at most once |
| ChipReplay.TapsAreFew | backend/app/modules/agent/services/answer.py:339-363 | However the turns go, at most six chips can be tapped in a row, at most two of a plan, and at most one more than the intent's measure |
| ChipReplay.OneTapMoreIff | backend/app/modules/agent/services/answer.py:339-363 | A chain outlasts the measure it starts with exactly when a turn took "near me" back and the chain went on until nothing was left to change |
| ChipReplay.OutlastsItsMeasureIff | backend/app/modules/agent/services/answer.py:339-363 | Such a chain exists exactly for a search with a region in it, neither a festival's nor a plan |
| ChipReplay.SixTapsCanHappen | backend/app/modules/agent/services/answer.py:339-363 | The failing input: a search of Busan with nothing else set, its measure five, can be tapped six times |
| ChipReplay.MeasureCanBeTapped | backend/app/modules/agent/services/suggest.py:29-58 | From every open search or plan as many chips can be tapped in a row as its measure says |
| Interleave.Interleaver.Take | backend/app/modules/feed/services/interleave.py:46-55 | Popping the queue gives the first item of the pool whose key has not been seen |
| Interleave.InterleavePools | backend/app/modules/feed/services/interleave.py:35-79 | The queues and loops compute the simple form, which has no queues |
| Interleave.FirstAvailable | backend/app/modules/feed/services/interleave.py:62-65 | The fallback search over the pattern |
| Interleave.WalkPattern | backend/app/modules/feed/services/interleave.py:72-78 | One later walk over the pattern |
| Interleave.InterleavingIsComplete | backend/app/modules/feed/services/interleave.py:35-79 | Exactly min(limit, distinct keys on offer) items, distinct keys, each the first new item of some named pool when taken |
| Interleave.PoolOrderIsKept | backend/app/modules/feed/services/interleave.py:46-55 | Items taken from one pool keep its order |
| Interleave.PositionsFollowThePattern | backend/app/modules/feed/services/interleave.py:57-67 | Position i holds the next item of pool pattern[i], or, if all its keys are out already, what the earliest slot of the pattern can give |
| Interleave.FallbackIsFirst | backend/app/modules/feed/services/interleave.py:62-65 | The fallback is the earliest slot that has something new, and none exactly when there is none |
| Interleave.WalkFollowsThePattern | backend/app/modules/feed/services/interleave.py:72-78 | In a later walk every slot has its turn in the order of the pattern and gives its own pool's next item, if there is one and room |
| Interleave.SmallerLimitIsPrefix | backend/app/modules/feed/services/interleave.py:57-79 | A smaller limit yields a prefix |
| Cursor.Base64RoundTrip | backend/app/modules/feed/services/posts.py:52-59 | The lenient decoder gives back every encoded byte string |
| Cursor.CursorRoundTrip | backend/app/modules/feed/services/posts.py:52-65 | A cursor decodes to the very key and id it was made from |
| Cursor.OnlyCursorsDecode | backend/app/modules/feed/services/posts.py:52-65 | Any other text is refused: no separator, a key that is no number, or an id that is none |
| Posts.SpreadCountries | backend/app/modules/feed/services/posts.py:68-77 | The nested in-place loops compute the spreading function |
| Posts.SpreadingIsExhaustive | backend/app/modules/feed/services/posts.py:68-77 | A permutation; an adjacent pair of one country means only that country is left |
| Posts.SpreadStepIsExact | backend/app/modules/feed/services/posts.py:68-77 | A row of the country before it changes places with the nearest later row of another, and otherwise nothing moves |
| Posts.ListPosts | backend/app/modules/feed/services/posts.py:80-99 | Cursor decoded or refused, one row more fetched than shown, the next cursor from the tail before spreading |
| Posts.OnePage | backend/app/modules/feed/repositories.py:54-58 | A page with a cursor leaves exactly what it did not show, and something; a page without one shows all the rest |
| Posts.HasMoreIff | backend/app/modules/feed/services/posts.py:86-91 | There is more exactly when more rows remain than fit the page, with a cursor unless nothing fits; the page is as long as it can be |
| Posts.EveryPostIsShownOnce | backend/app/modules/feed/services/posts.py:80-99 | Following the cursors with any limits ends and shows every eligible row exactly once |
| Posts.PagesPartitionTheRest | backend/app/modules/feed/services/posts.py:80-99 | The same from any cursor; until the last page nothing is shown twice and the cursor decodes |
| SignedImage.HostNameIsRead | backend/app/kto/client.py:189-190 | The host of an authority is read without its user information and its port |
| SignedImage.PiecesParse | backend/app/kto/client.py:189-190 | Parsing a URL assembled of scheme, authority, plain path and query gives those parts |
| SignedImage.UpgradeKeepsPieces | backend/app/kto/client.py:193-196 | Upgrading to https keeps host, path and query |
| SignedImage.LinkReadsBack | workers/img-proxy/src/upstream.ts:39-49 | `resolveT1` recovers the https image, the width, the signature and the very text that was signed, exactly for widths 16 to 1620 and a non-trivial path |
| SignedImage.UnsignedRouteRejects | workers/img-proxy/src/upstream.ts:11-20 | The unsigned route never takes a signed link |
| SignedImage.PrintedLinkIsServedIff | backend/app/kto/client.py:199-211 | For every KTO URL the printed link is served as the same image over https at the printed width, exactly under those two conditions, and is otherwise not found |
| SignedImage.PrintedIff | backend/app/kto/client.py:199-211 | A link is printed exactly for a KTO image and where there is a secret |
| SignedImage.ForgedLinkIsForbidden | workers/img-proxy/src/index.ts:24-37 | A link of the printed form under another signature, or checked without a secret, is refused |
| SignedImage.UnsignedLinkIsServedIff | workers/img-proxy/src/upstream.ts:11-20 | The unsigned route fetches an image as named, exactly from the three hosts and for a path that names something |
| SignedImage.OnlySignedLinksAreResized | workers/img-proxy/src/index.ts:24-37 | Whatever the URL, a resized image comes only from a KTO link whose signature covers its width and target; any other fetch goes to an allowed host |
| SignedImage.SamePayloadSameImage | workers/img-proxy/src/upstream.ts:39-49 | One signed text stands for one image at one width |
| EventStream.FramesReadBack | backend/app/modules/agent/services/chat.py:56-60 | A reader following the standard gets exactly the events written, in order |
| ChatStream.Stream.Send | backend/app/modules/agent/services/chat.py:73-84 | Frames are numbered 0, 1, 2, .. |
| ChatStream.Stream.SendSignals | backend/app/modules/agent/services/chat.py:110-123 | Signals become step events; the count of finished steps is kept |
| ChatStream.Stream.SendRest | backend/app/modules/agent/services/chat.py:140-143 | Steps finished without a signal are reported run and done |
| ChatStream.Stream.SendCanned | backend/app/modules/agent/services/chat.py:256-270 | A fixed text and its closing event |
| ChatStream.Stream.SendWritten | backend/app/modules/agent/services/chat.py:202-253 | Chunks, rescue, error and closing events, with both error exits |
| ChatStream.Stream.SendAnswer | backend/app/modules/agent/services/chat.py:157-253 | Small talk, the skipped writer, or the writer |
| ChatStream.Stream.Emit | backend/app/modules/agent/services/chat.py:87-253 | The whole stream of a turn |
| ChatStream.EveryStreamIsGrammatical | backend/app/modules/agent/services/chat.py:110-270 | Steps, then perhaps cards, then deltas, then perhaps sources, then exactly one done or error, which is last |
| ChatStream.ClosingEventAgrees | backend/app/modules/agent/services/chat.py:128-253 | On done the trimmed deltas are the trimmed answer text, spots and sources are those sent; an error exactly when there is nothing to say |
| ChatStream.ClosingEventIsExact | backend/app/modules/agent/services/chat.py:128-270 | The last event of every turn, exactly: which text, spots, sources and count, or the error |
| ChatStream.DeltasAreExact | backend/app/modules/agent/services/chat.py:157-253 | The deltas of every turn, exactly: one for a fixed or ready answer, and otherwise the writer's chunks one by one, then the search's answer when they come to nothing |
| ChatStream.StreamedIsOnePastTheLast | backend/app/modules/agent/services/chat.py:110-123 | Whatever was signalled, the count of finished steps is one past the highest reported done |
| ChatStream.EveryStepIsReportedOnce | backend/app/modules/agent/services/chat.py:110-143 | However many steps were signalled while the search ran, each step is reported exactly once, in order |
| ChatStream.CardsStandBetweenStepsAndAnswer | backend/app/modules/agent/services/chat.py:140-155 | Cards are sent exactly when there are spots; then once, with those spots, after every step and with neither steps nor cards after them |
| ChatStream.StripFacts | backend/app/modules/agent/services/chat.py:273-278 | Trimming is idempotent and gives nothing exactly for blank text |
| ChatStream.FramesArriveInOrder | backend/app/modules/agent/services/chat.py:63-84 | The body reads back as the numbered frames, name and payload |
| RoutedChat.EveryToolRunIsReportedOnce | backend/app/modules/agent/services/chat.py:382-412 | For the trace of a routed question the stream reports every tool run exactly once, run then done, in order |
| RoutedChat.RoutedSearchNeverSkipsTheWriter | backend/app/modules/agent/services/chat.py:169-191 | No text a routed search shows on a step is the one that makes the stream skip the writer |

## Left out

- Calendar: years before 1000 and after 9999, which a 14-digit watermark cannot carry, and `strptime`'s leniency towards short fields.
- SyncPlan.SyncDates: `today` is at most in year 9998, because the day after the last representable date does not exist.
- SpotTable: columns the sync copies without looking at them, and the lookup of reference codes, are one opaque body.
- SyncRuns: HTTP, parsing of items and client errors are a failed reply; progress lines, durations and error texts are not kept.
- SyncRuns: runs of other jobs in the audit table, which record no watermark.
- SyncHistory.NoModificationIsLost: compares id, modified time and contents, not whether the row is shown, which `SyncVisibility.FullRunShows` settles for full runs; one catalogue for each attempt, and no modification dated before a day that is already over; a listing that changes while it is paged through is not modelled.
- ImageCache: downloading and embedding are a function of the URL; the KTO gallery lookup, the centroid of gallery vectors and the stored gallery images are left out.
- ImageCache.ImageStore.ValidateImages: a URL answers every probe of a run alike, and the rows listed by the query are an input.
- ImageRaces.CollectedWorkIsAccountedFor: single-image jobs; a gallery job records no failures, and a spot with an image that no job has collected yet has neither row.
- ImageRaces.NoFailureBesideAnEmbedding: the job lock is held for as long as a job runs; its expiry in Redis is not modelled.
- OverseasEmbeddings: retries, pacing and the other columns of the upsert.
- MatchRebuild: the join that keeps only live, categorised spots is an input; content ids are integers standing for their sort order; the approximate vector index is taken as exact.
- Itinerary: distances are any function of two rows and are only compared; `_without_outliers`, `_placed` and the wording of the plan are left out.
- ToolLoop.Route: a tool that fails with anything but a time-out, which ends the turn, and the wording of opening turns are left out; the clock advances between requests.
- Transcript: arguments are carried as values, not as JSON text.
- ChipReplay.TapsAreFew: the replayed call is taken to be the turn's last search; the model may search again after it.
- ChipReplay: chip labels, and the intent fields no tool call carries, are one opaque part.
- Cursor: text outside ASCII, and the leniency of `int` and `float` about spaces, signs and underscores; floats are any printing and parsing that agree on the keys in use.
- Posts: the shuffle key is given with each row for one seed, and the table does not change between pages.
- SignedImage.PrintedLinkIsServedIff: for URLs whose path has no `;` parameters and in which the URL parsers of both sides find nothing to encode, strip or resolve; bracketed addresses are left out; HMAC is any function giving 64 hexadecimal digits.
- SignedImage: the retry with the mid-size image, caching and response headers.
- ChatStream: the two canned sentences are stand-ins for Korean texts; blog grounding is a list of sources; exceptions outside the handled ones and cancellation are left out.
- EventStream: event payloads are any JSON text without raw line ends.
- Screens, admin console, authentication, rate limiting, prompts, buzz and concentration scores.
