# Verification of the search crawler

A Dafny model of the crawler, parser and indexer of a developer search engine, with proofs of what its parts
promise. `dafny verify dfyconfig.toml` checks everything.

The model has three parts, each measured against a simple meaning.

**Near-duplicate detection.** A page becomes tokens, shingles of three tokens and a 64-bit majority-vote fingerprint;
an index of four tables, keyed by the 16-bit quarters of the fingerprints, answers whether a fingerprint within
distance 3 is stored. The class `SimhashIndex.Index` is proved against a linear scan over everything stored, for
exactly the distances for which that is true. Whole crawls, in every interleaving of workers, keep the stored
fingerprints separated and covering, and a sphere-packing argument bounds how many there can ever be.

| file | content |
|---|---|
| `Bits`, `Quarters` | 64-bit words as sets of positions, Hamming distance, the four quarters |
| `Text`, `Fingerprint` | splitting text, shingles, SimHash and what an edit can change in it |
| `Grouping`, `SimhashIndex`, `IndexRuns`, `Packing` | the index, runs of it, the packing bound |
| `Crawl` | one crawl call as a method, and all workers together as a state machine |

**Queues, rate limiter and stream.** `Queues.Queue` is the crawl queue with its ready lists, retry set, records,
processing lists and failed list; each method is proved equal to a function on the stored values (`Store`). The
functions are the steps of a protocol (`Frontier`) with a strictly increasing clock, in which workers take, defer,
finish and lose copies of jobs. `Conservation`, `Attempts`, `Scores`, `Timing`, `Recovery`, `Reaper` and `Crashes`
are about all runs of it, and so is `Places`, about names and statuses. `Rules` says what each queue method does in
points, seconds and single entries, without the functions it is computed with, and the methods promise both.
`Worker` is the hand-over of a finished job, including the wait that travels inside an error message, and `Tasks` a
whole task: the crawl call and what the queue keeps of its job.
`RateLimiter` is the slot-reservation script. `Stream` and `StreamRuns` are the indexer's message stream with its
consumer goroutines. `Discovery` is the link loop of any number of parsers on one metadata store.

**Texts and paths.** `Normalizer` is path cleaning followed by the docs rules, on rooted ASCII paths, and `PathText`
says what they do to the characters of a path; `Document` is the term count of the indexer.

State machines are total functions on states: a step that is not enabled changes nothing, so a run is any list of
steps. `Options`, `Lists`, `Sets`, `Numbers` hold what the others share.

## Results that differ from what the code suggests

- A rate-limited completion files a job twice (`Conservation.RefusedTwice`): `Conservation.CopiesAddUp` counts the
  copies exactly, and `Conservation.OneCopy` is about jobs that were never deferred or reaped.
- Log lines and `internal/scraper/worker/worker.go:117` announce `MAX_RETRIES + 1` attempts; a crawl job is executed
  five times (`Attempts.DeadAfterFiveAttempts`). The stream really makes six (`StreamRuns.SixCompletionsAtMost`).
- The record of a job expires when it becomes old enough for the reaper, so the reaper acts only in the short time
  between the stamping of a job and the writing of its record, one timeout later
  (`Reaper.PutBackExactlyInWindow`, `Reaper.InertExactlyWithoutLag`). Since it runs inside the worker whose handles it
  reads, what it puts back is still being worked on (`Crashes.ReapOnlyDoubles`), and a crashed job is gone
  (`Crashes.CrashedJobIsGone`).
- A refused reservation moves the slot on; who returns exactly at the reserved time is refused again, for ever
  (`RateLimiter.PunctualNeverAdmitted`).
- A page whose store failed after the check is judged a duplicate when it is tried again (`Crawl.LostStaysLost`).
- The tables answer exactly like a scan for distances up to 3 and for no larger one
  (`SimhashIndex.ExactUpToDistance3`).
- One pass of the normaliser is not idempotent, `/v1.2/index.html` shows it (`Normalizer.OnePassIsNotEnough`);
  `Normalizer.IdempotentIff` says for which paths it is, and repeated passes always settle.
- Two goroutines of one indexer worker read under one name and can turn a message into two
  (`StreamRuns.SharedNameDuplicates`), and so can a claim (`StreamRuns.ClaimDuplicates`). The comments at
  `internal/streams/stream.go:87` and `:94` announce pending entries before new ones; the code reads new ones first,
  and the model follows the code.
- Inbound-link updates of two parsers can overwrite each other (`Discovery.UpdateCanBeLost`), so the count is a lower
  bound; `Discovery.InboundLinksExact` says for each URL exactly when it is not too low.

## Model

| member | source | states |
|---|---|---|
| Bits.HammingDistance | internal/scraper/deduplication/simhash.go:131-142 | the loop ends and returns the number of positions in which the two words differ |
| Bits.ClearLowest | internal/scraper/deduplication/simhash.go:136-139 | x and x - 1 masked together lose exactly one set bit, for every word that is not zero |
| Bits.DistBound | internal/scraper/deduplication/simhash.go:131-142 | the distance is at most 64 |
| Bits.DistZero | internal/scraper/deduplication/simhash.go:131-142 | the distance is 0 exactly for equal words |
| Bits.DistSymmetric | internal/scraper/deduplication/simhash.go:131-142 | the distance is symmetric |
| Bits.DistTriangle | internal/scraper/deduplication/simhash.go:131-142 | the triangle inequality |
| Quarters.PartitionIsBijection | internal/scraper/deduplication/simhash.go:122-129 | the four quarters determine the word and every four quarters are those of a word; putting together is the inverse on both sides |
| Quarters.DistIsSumOfQuarters | internal/scraper/deduplication/simhash.go:122-142 | the distance of two fingerprints is the sum of the distances of their quarters |
| Quarters.ShareQuarter | internal/scraper/deduplication/simhash.go:42-64 | fingerprints at distance 3 or less have one of the four keys in common, so a bucket holds both |
| Text.FieldsAreMaximalRuns | internal/scraper/deduplication/simhash.go:75-77 | the tokens are exactly the maximal stretches without separators, from left to right |
| Text.FieldsOfJoin | internal/scraper/deduplication/simhash.go:75-88 | splitting undoes joining for every list of tokens |
| Text.FieldsAtSeparator | internal/scraper/deduplication/simhash.go:75-77 | splitting a text at any separator and then both sides is splitting the whole |
| Fingerprint.CutAtWhite | internal/scraper/deduplication/simhash.go:75-77 | a text is cut at the white space of Unicode, given by code points, and nowhere else |
| Fingerprint.Shingles | internal/scraper/deduplication/simhash.go:79-92 | no shingles below two tokens, else every window of n tokens joined with blanks; None is the panic of make or of slicing for an n that is negative or too large |
| Fingerprint.ShingleSplits | internal/scraper/deduplication/simhash.go:79-92 | each shingle of whitespace-free tokens splits back into its three tokens |
| Fingerprint.ShinglesLossless | internal/scraper/deduplication/simhash.go:79-92 | from three tokens up, the first shingle and the last tokens of the others give back the token list |
| Fingerprint.PageShinglesLossless | internal/scraper/deduplication/simhash.go:75-92 | the same for the tokens of any text; with fewer than three there are no shingles |
| Fingerprint.CastBallots | internal/scraper/deduplication/simhash.go:97-108 | one hash adds 1 or takes 1 at each of the 64 positions |
| Fingerprint.CountVotes | internal/scraper/deduplication/simhash.go:95-109 | the vector holds the votes for minus the votes against of all shingles |
| Fingerprint.SimHash | internal/scraper/deduplication/simhash.go:94-120 | a bit is set exactly when more than half of the shingle hashes have it |
| Fingerprint.SimHashUnique | internal/scraper/deduplication/simhash.go:94-120 | that property determines the fingerprint |
| Fingerprint.SimHashOrderIndependent | internal/scraper/deduplication/simhash.go:94-120 | lists with the same shingles in any order have the same fingerprint |
| Fingerprint.ShortPageFingerprint | internal/scraper/deduplication/simhash.go:75-120 | a page with fewer than three tokens has fingerprint 0 |
| Fingerprint.FingerprintInNumbers | internal/scraper/deduplication/simhash.go:79-120 | a bit is set if and only if more than half of the windows of three words, joined by blanks, have it |
| Fingerprint.EditFlipsOnlyMarginalBits | internal/scraper/deduplication/simhash.go:94-120 | replacing shingles flips only bits whose tally is within the number of shingles that went and came, so the distance is at most the number of such bits |
| SimhashIndex.Index.constructor | internal/scraper/deduplication/simhash.go:18-27 | a new index stores nothing and its four tables are empty |
| SimhashIndex.Index.Add | internal/scraper/deduplication/simhash.go:29-40 | the tables hold what they held and the new fingerprint, grouped by its quarters |
| SimhashIndex.Index.Collect | internal/scraper/deduplication/simhash.go:49-58 | the candidates are those of the four buckets of the query |
| SimhashIndex.AnyWithin | internal/scraper/deduplication/simhash.go:60-64 | in whatever order the candidates are visited, the answer is whether one is near enough |
| SimhashIndex.Index.IsNearDuplicate | internal/scraper/deduplication/simhash.go:42-73 | up to distance 3 the answer is that of a linear scan over everything stored, at any distance a yes is right; the fingerprint is stored exactly on a no |
| SimhashIndex.HitIsLinearScan | internal/scraper/deduplication/simhash.go:42-73 | what shares a quarter and is near is found by the scan, and up to distance 3 the other way round |
| SimhashIndex.ExactUpToDistance3 | internal/scraper/deduplication/simhash.go:42-73 | the tables answer like the scan for all contents and queries if and only if the distance asked for is at most 3 |
| IndexRuns.TablesRefineScan | internal/scraper/deduplication/simhash.go:29-73 | any sequence of Add and IsNearDuplicate calls with distances up to 3 stores and answers what the linear scan would |
| IndexRuns.Replay | internal/scraper/deduplication/simhash.go:18-73 | the class on a new index behaves like that sequence |
| IndexRuns.SeparatedCover | internal/scraper/deduplication/simhash.go:42-73 | grown by IsNearDuplicate at distance 3 alone, the index holds fingerprints pairwise more than 3 apart that cover everything submitted |
| IndexRuns.AdmitAllIsRun | internal/scraper/deduplication/simhash.go:42-73 | admitting one by one is such a run |
| IndexRuns.OncePerTable | internal/scraper/deduplication/simhash.go:66-70 | each stored fingerprint is once in each table, in the bucket of its quarter and in no other |
| IndexRuns.IndexNeverOverfull | internal/scraper/deduplication/simhash.go:42-73 | such an index never holds more than 2^57 fingerprints |
| Packing.PackingBound | internal/scraper/deduplication/simhash.go:60-70 | no set of 64-bit words pairwise more than 3 apart has more than 2^57 members |
| IndexRuns.ShinglesAroundEdit | internal/scraper/deduplication/simhash.go:79-92 | exchanging u tokens in the middle of a page exchanges at most u + 2 shingles and leaves the others |
| IndexRuns.EditedPageIsNear | internal/scraper/deduplication/simhash.go:79-120 | if at most three bits of the old page are within the votes an edit can turn, old and new fingerprint are at most 3 apart |
| IndexRuns.EditedPageIsDuplicate | internal/scraper/deduplication/simhash.go:42-120 | then the edited page is reported as a duplicate of the stored one, whatever else the index holds |
| Crawl.HashText | internal/scraper/crawler/processes.go:104-110 | tokens, shingles and SimHash in a row never panic; bit k is set if and only if there are at least three words and more than half of the windows of three words, joined by blanks, hash to a value with bit k |
| Crawl.Crawler.FetchAndStoreRaw | internal/scraper/crawler/processes.go:42-159 | RateLimited(ms) if and only if the URL, metadata, robots answer and reservation are fine, the path is allowed and the wait is ms > 0; success exactly for a disallowed path, an odd README, a duplicate within distance 3, or a page stored and enqueued; the index grows by the fingerprint of every new page with a text, stored or not, the parse queue by those stored and enqueued, and nothing else changes |
| Crawl.Crawler.ProcessGithubRepo | internal/scraper/crawler/processes.go:303-414 | the same on the GitHub path, under the repository's own URL |
| Crawl.QuietSuccess | internal/scraper/crawler/processes.go:66-122 | a success with index and parse queue unchanged happens exactly if robots refuse the path, the README is not base64, or the page is a duplicate |
| Tasks.ProcessTask | internal/scraper/worker/worker.go:113-193 | a job refused by the limiter with a wait of ms milliseconds is in the retry set, unchanged, at the whole second of now plus ms milliseconds, and once more as failed; any other failure is filed once, a success not at all |
| Tasks.HeldNotYetFiled | internal/scraper/queues/queue.go:98-112 | in every run a copy in work that was not requeued is not in the retry set, which is what ProcessTask asks for |
| Crawl.RunsKeepInv | internal/scraper/crawler/processes.go:113-154 | in every interleaving the stored pages are what the submitted fingerprints admit, and the queue lists published pages once |
| Crawl.CrawlSafety | internal/scraper/crawler/processes.go:110-154 | in every interleaving: stored fingerprints more than 3 apart and at most 2^57, everything submitted within 3 of a stored one, pages in the parse queue more than 3 apart |
| Crawl.PagesOncePerTable | internal/scraper/crawler/processes.go:110-154 | in every interleaving, the tables of an index that stores the checked pages hold each of them once, in the bucket of its quarter and in no other |
| Crawl.LostStaysLost | internal/scraper/crawler/processes.go:113-127 | a page lost after the check keeps near pages out of the queue for good, and a retry of it is judged a duplicate |
| Crawl.CallIsTwoSteps | internal/scraper/crawler/processes.go:113-158 | a call without interference is a check and a publication or failure of the machine |
| Queues.Queue.Enqueue | internal/scraper/queues/queue.go:37-65 | a new job goes to the end of the critical list if and only if it has at least 90 points, high from 60 to 89, normal from 30 to 59, low below; one enqueued before gains a point per 30 seconds, 30 from 15 minutes on, before it is classed; nothing else changes |
| Queues.Queue.RequeueWithDelay | internal/scraper/queues/queue.go:67-80 | the unchanged job is a member of the retry set at the whole second of now plus delay, replacing an equal member, all others untouched |
| Queues.Queue.Dequeue | internal/scraper/queues/queue.go:82-121 | the head of the first non-empty list asked for is taken and stamped, its record expires 300 seconds after it was written; the other lists, retry set and failed list stay; without a job nothing changes |
| Queues.Queue.CompleteJob | internal/scraper/queues/queue.go:123-173 | record and handle are dropped; the k-th failure, k from 1 to 4, leaves score - 10k, or 10 where that is negative, the class of that score, k failures and otherwise the same job, filed at the whole second of now plus 2, 4, 8 or 16 seconds; the fifth marks it dead, score unchanged, on the failed list |
| Queues.Queue.ProcessRetryJobs | internal/scraper/queues/queue.go:175-222 | every entry whose second has come leaves the retry set, gains a point per 30 seconds since it was enqueued, 30 from 15 minutes on, and is in the list of its new class and no other; Recovery.SweepIsStablePartition has the order |
| Queues.Queue.ReapStaleProcessingJobs | internal/scraper/queues/queue.go:223-270 | each stale record of the worker goes back to its ready list, its record and handle are dropped |
| Store.AllDueRemoved | internal/scraper/queues/queue.go:193-212 | removing the due members one after the other leaves exactly the others, in order |
| Recovery.SweepIsStablePartition | internal/scraper/queues/queue.go:175-222 | a sweep splits the retry set into due and later entries, keeps the later ones, and extends every ready list by its due jobs in the order in which they became due |
| Recovery.TakesHighestClass | internal/scraper/queues/queue.go:82-94 | in every run, with the workers' fixed order, a job is taken only if no job of a higher class is ready, and none is taken only if none is ready |
| Recovery.TakesHighestBand | internal/scraper/queues/queue.go:82-94 | in every run and for each of 30, 60 and 90: if some ready job has that score, the one taken next has |
| Reaper.PutBackExactlyInWindow | internal/scraper/queues/queue.go:223-270 | in every run, a copy taken at t whose record was written l later, and not taken, finished or put back since, is put back by its worker's reaper exactly from t plus the timeout to before t plus l plus the timeout, and then once |
| Reaper.ReapedIsListed | internal/scraper/queues/queue.go:240-265 | what is put back is the job of the record, ready and newly stamped but otherwise as it was taken, in the list of its priority |
| Reaper.LateRecordIsReaped | internal/scraper/queues/queue.go:104-112 | such a window is reached for every positive l: a run after which the job is ready again while it is held |
| Reaper.InertExactlyWithoutLag | internal/scraper/queues/queue.go:104-112 | the reaper does nothing in all runs whose records are written within l of the stamp, if and only if l is 0 |
| Crashes.ReapOnlyDoubles | internal/scraper/worker/worker.go:58-75 | whatever the lags, the reaper of a worker that has not crashed puts back only jobs the worker still holds |
| Crashes.GoneStaysGone | internal/scraper/queues/queue.go:223-270 | if reapers do not run for crashed workers, a job with no copy ready, waiting or held has none for the rest of the run, unless it is submitted again |
| Crashes.CrashedJobIsGone | internal/scraper/worker/worker.go:42-75 | so a job enqueued once, never requeued or reaped, that was held by a crashed worker is at no later time ready, waiting, held, done or failed |
| Conservation.RunsBalanced | internal/scraper/queues/queue.go:37-270 | in every run and for every weight of copies: what waits was filed and not taken, what was taken is held, done, failed or lost, and every failure files or buries one copy |
| Conservation.FiledIsNew | internal/scraper/queues/queue.go:67-163 | no two entries of the retry set ever coincide, so filing never overwrites a copy |
| Conservation.CopiesAddUp | internal/scraper/queues/queue.go:37-270 | copies ready, waiting, held, done, failed and lost are exactly the enqueues plus rate-limited requeues plus reaps |
| Conservation.OneCopy | internal/scraper/queues/queue.go:37-270 | a job enqueued once, never requeued or reaped, is in exactly one of these places |
| Conservation.RefusedTwice | internal/scraper/worker/worker.go:165-193 | a run of one refused fetch, after which the job is in the retry set twice |
| Attempts.RetryCountsBounded | internal/scraper/queues/queue.go:136-164 | in every run copies that are ready, waiting or held have at most 4 failures, those on the failed list exactly 5 |
| Attempts.AttemptsBounded | internal/scraper/queues/queue.go:136-164 | a job is executed at most five times for each time it was enqueued, requeued or reaped |
| Attempts.DeadAfterFiveAttempts | internal/scraper/queues/queue.go:136-164 | a job enqueued once, never requeued or reaped, that is on the failed list was executed exactly five times |
| Attempts.RankDecreases | internal/scraper/queues/queue.go:82-222 | every step that brings in no work and is not an idle sweep lowers a natural number |
| Attempts.RankZeroIffIdled | internal/scraper/queues/queue.go:82-222 | in every reachable state that number is 0 exactly when no copy is ready, waiting or held |
| Attempts.WorkIsBounded | internal/scraper/queues/queue.go:82-222 | any sequence of such steps is at most as long as that number |
| Attempts.DriveToEnd | internal/scraper/queues/queue.go:82-222 | from every reachable state some run without new work and crashes, no longer than that number, ends with no copy ready, waiting or held: of each job, the copies done, failed or lost before are all there ever were |
| Scores.PriorityFollowsScore | internal/scraper/queues/queue.go:146-208 | in every run the priority of each stored copy is the one of its score, each ready list holds jobs of its own priority, and none is without a priority |
| Scores.ListedByScore | internal/scraper/queues/score.go:92-108 | in points: in every run the critical list holds jobs from 90 points, high from 60 to 89, normal from 30 to 59, low below 30 |
| Scores.ScoreBounded | internal/scraper/queues/queue.go:146-202 | enqueued with scores from 0 to s and never rate limited, every copy of a job keeps its score from 0 to max(s, 20) + 30 |
| Scores.ScoreNonNegative | internal/scraper/queues/queue.go:146-202 | rate limited or not, scores that start non-negative stay so |
| Scores.ScoreFloor | internal/scraper/queues/queue.go:146-152 | enqueued with s >= 100 points or more each time, rate limited and reaped or not, a copy with k failures has at least s - 10(1 + ... + k) |
| Places.NothingRenamed | internal/scraper/queues/queue.go:37-270 | in every run each copy has the ID and URL of a job that was submitted |
| Places.StatusFollowsPlace | internal/scraper/queues/job.go:49-58 | in every run of jobs submitted as ready, the copies in the ready lists are ready, those on the failed list dead, all others in flight |
| Timing.BackoffHonoured | internal/scraper/queues/queue.go:136-181 | in every run, a job that fails for the k-th time, k from 1 to 4, at t stays in the retry set until the whole second of t + 2^k begins; if it has only one copy, it is neither ready nor held until then |
| Timing.BackoffEnds | internal/scraper/queues/queue.go:154-212 | a sweep takes it out of the retry set if and only if that second has begun, more than 2^k - 1 seconds after t, and puts it into a ready list |
| Timing.DeathTakesTime | internal/scraper/queues/queue.go:136-181 | in every run the fifth failure comes more than 26 seconds after the first failure of the job |
| Worker.DecimalThenAtoi | internal/scraper/worker/worker.go:172-176 | a count printed in decimal is read back, up to the largest 64-bit integer |
| Worker.WaitSurvivesMessage | internal/scraper/worker/worker.go:141-178 | the wait put into the error message of a refused fetch is recognised and comes out as the same duration |
| Worker.DelayWithoutWait | internal/scraper/worker/worker.go:169-178 | an error text with no colon or more than one gives 1, 2, 4, 8 and 16 seconds by the number of failures so far |
| Worker.CompleteTask | internal/scraper/worker/worker.go:136-193 | no error: the job is done and nothing is filed; an error not beginning with "rate limited" files exactly one copy, counted, for retry or as failed, and never the unchanged job; one beginning so files exactly two, one of them the unchanged job at the whole second of now plus the wait |
| RateLimiter.Limiter.Reserve | internal/scraper/scripts/rateLimter.go:5-28 | the wait up to the reserved slot is returned and the key moves one delay past the slot, admitted or not |
| RateLimiter.SlotIsLatest | internal/scraper/scripts/rateLimter.go:10-27 | the stored value is the maximum over all calls of the call's time plus all delays from it on |
| RateLimiter.AdmittedIff | internal/scraper/scripts/rateLimter.go:10-27 | a call is admitted if and only if, for every earlier call, the delays from that one on are over |
| RateLimiter.AdmissionsSpaced | internal/scraper/scripts/rateLimter.go:10-27 | an admission is at least the delay of any earlier call away from it |
| RateLimiter.WindowBound | internal/scraper/scripts/rateLimter.go:10-27 | a window of length L admits at most L / delay calls, rounded up, when no delay is smaller |
| RateLimiter.ReturnAfterRefusal | internal/scraper/scripts/rateLimter.go:22-25 | the next caller is admitted exactly from one whole delay after the refused one's slot on |
| RateLimiter.PunctualNeverAdmitted | internal/scraper/scripts/rateLimter.go:22-25 | a job that always returns when its wait is over is refused each time |
| RateLimiter.DomainsIndependent | internal/scraper/crawler/processes.go:161-181 | the key of a domain is what the calls for this domain alone make it |
| RateLimiter.WaitsAreOwn | internal/scraper/crawler/processes.go:161-181 | every wait is the one the domain's own calls give |
| RateLimiter.Serve | internal/scraper/scripts/rateLimter.go:5-28 | the script called for a list of requests keeps the keys and gives the waits these laws are about |
| Streams.MsgStream.AddMsg | internal/streams/stream.go:49-70 | the message becomes the last entry |
| Streams.MsgStream.GetMsg | internal/streams/stream.go:72-162 | new entries, the next ten or all that are left, become pending for the consumer in order; if there are none, the oldest ten of its own pending ones, the stream unchanged; if it has none, the oldest ten idle ones, which change their owner and nothing else does |
| Streams.FetchedIsPending | internal/streams/stream.go:72-162 | whatever a read returns is pending for the reader afterwards |
| Streams.MsgStream.CompleteMessage | internal/streams/stream.go:164-201 | exactly the entry leaves the pending list; a success is done, a message with fewer than five failures is the new last entry with one more, and one with five is dead and added nowhere |
| Streams.ProcessMessages | internal/indexer/worker/worker.go:75-87 | one round fetches a batch and completes it in order; the batch leaves the pending list, and what fails with fewer than five failures before is added behind all there was, once, with one more |
| Streams.RoundInNumbers | internal/indexer/worker/worker.go:75-87 | the same about any batch: as many new entries as messages that go back, each with its count raised |
| Streams.EntriesStay | internal/streams/stream.go:164-201 | working off a batch never rewrites an entry, so every message is worked on as fetched |
| StreamRuns.CompleteIsTwoSteps | internal/streams/stream.go:164-201 | CompleteMessage is an acknowledgement followed by the return to the stream |
| StreamRuns.CopiesAddUp | internal/streams/stream.go:49-201 | in every run, copies undelivered, pending, on the way back, done, dead and lost are exactly the messages added plus the completions of entries that were not pending any more |
| StreamRuns.NoMessageGone | internal/streams/stream.go:164-190 | unless a goroutine crashed between acknowledging and adding back, every message has a copy |
| StreamRuns.RetryCountsBounded | internal/streams/stream.go:168-194 | in every run entries have a count of at most 5, dead messages exactly 6 |
| StreamRuns.ExactlyOneCopy | internal/streams/stream.go:72-201 | with one goroutine for each name and no claims of what is worked on, there are as many copies of a message as it was added |
| StreamRuns.CompletionsRemembered | internal/indexer/worker/worker.go:84-146 | in such runs the counts on the copies add up to the completions there were |
| StreamRuns.SixCompletionsAtMost | internal/streams/stream.go:168-194 | in such runs a message is completed at most six times for each time it was added |
| StreamRuns.SharedNameDuplicates | internal/indexer/worker/worker.go:52-55 | two goroutines under one name can have one message on its way back twice |
| StreamRuns.ClaimDuplicates | internal/streams/stream.go:104-121 | so can two goroutines under different names, if one claims what the other is still working on |
| Discovery.Shared.DiscoverLinks | internal/scraper/parsing/parsing.go:121-187 | exactly the links seen are stored in addition; known ones keep their depth and gain one inbound link per sighting, new ones get the page's depth plus one, and new ones get one job each in order of first sighting |
| Discovery.NewUrlsExactly | internal/scraper/parsing/parsing.go:149-184 | the jobs of one page are for distinct URLs, namely the seen ones that were not stored |
| Discovery.LoopIsSteps | internal/scraper/parsing/parsing.go:121-187 | a round of the loop is the parser's steps without interference: metadata, jobs and what is left to do |
| Discovery.OneJobPerUrl | internal/scraper/parsing/parsing.go:149-184 | however parsers interleave, no URL gets two crawl jobs |
| Discovery.EveryUrlHasItsJob | internal/scraper/parsing/parsing.go:149-184 | if every enqueue succeeds, the URLs with metadata are exactly those with a job |
| Discovery.DepthNeverChanges | internal/scraper/parsing/parsing.go:119-172 | a stored URL keeps its depth, its place of discovery and its job for the rest of the run |
| Discovery.DepthIsChainLength | internal/scraper/parsing/parsing.go:89-151 | the depth of a URL is the length of a chain of discoveries from a page that was parsed without metadata |
| Discovery.SightingsAccounted | internal/scraper/parsing/parsing.go:156-172 | each repeated sighting was written, is being written, or was dropped when its parser stopped |
| Discovery.InboundLinksBounded | internal/scraper/parsing/parsing.go:156-172 | the inbound links of a URL never exceed its repeated sightings |
| Discovery.InboundLinksExact | internal/scraper/parsing/parsing.go:156-172 | the inbound links of a URL are the repeated sightings, but for those in progress and dropped, if and only if no write-back to this URL overwrote a newer value |
| Discovery.UpdateCanBeLost | internal/scraper/parsing/parsing.go:158-170 | a run of three pages with the same link, after which two repeated sightings are written back and count one inbound link |
| Discovery.DiscoveryStops | internal/scraper/parsing/parsing.go:121-187 | on finitely many URLs there are never more crawl jobs than URLs |
| Discovery.DiscoveriesBounded | internal/scraper/parsing/parsing.go:149-184 | each discovery lowers the number of URLs left to discover, so there are at most as many discoveries as URLs |
| Normalizer.CleanIsShortest | internal/scraper/normalizer/normalizerRules.go:74-76 | the cleaned path leads to the same place as the path, no path that leads there is shorter, and cleaning it again changes nothing |
| Normalizer.ReduceCompose | internal/scraper/normalizer/normalizerRules.go:74-76 | walking a path is walking one part after the other |
| Normalizer.OneSegment | internal/scraper/normalizer/normalizerRules.go:74-76 | empty names and single dots lead nowhere, a double dot one level up, every other name one level down |
| PathText.RunPipeline | internal/scraper/normalizer/normalizerRules.go:23-27 | the base rule and the docs rule in a row, in place, are one pass on the path; no capital letter is left, and every spelling of the path that differs only in case gives the same result |
| Normalizer.NormalizeDocs | internal/scraper/normalizer/normalizerRules.go:119-135 | locale, case, index name and trailing slash in this order, the query dropped; no capital letter is left |
| PathText.NoCapitals | internal/scraper/normalizer/normalizerRules.go:123 | no character of a normalised path is in A to Z |
| PathText.CaseDoesNotMatter | internal/scraper/normalizer/normalizerRules.go:119-132 | two paths of equal length that differ only by ASCII case at each position are normalised alike |
| PathText.LocaleDropped | internal/scraper/normalizer/normalizerRules.go:119-122 | a locale, two letters, a hyphen and two letters between the first two slashes of a clean path, makes no difference unless a second locale follows it |
| PathText.PageAndSlash | internal/scraper/normalizer/normalizerRules.go:124-132 | index.html, index.htm or index.md at the end of a clean path goes, and a slash is added exactly if the name left is not empty and has no dot |
| Normalizer.ReduceProper | internal/scraper/normalizer/normalizerRules.go:75 | no empty segment and no dots are left by cleaning |
| Normalizer.ReduceKeeps | internal/scraper/normalizer/normalizerRules.go:75 | clean paths are left alone |
| Normalizer.PassOnSegments | internal/scraper/normalizer/normalizerRules.go:74-132 | the rewriting of the string is the rewriting of its list of segments |
| Normalizer.FixedIffCanonical | internal/scraper/normalizer/normalizerRules.go:74-132 | a pass leaves a path alone if and only if it is clean, lower case, without locale and index name, with a slash at the end exactly for names without a dot |
| Normalizer.SecondPassSettlesOrShortens | internal/scraper/normalizer/normalizerRules.go:74-132 | after one pass every further one leaves the path alone or makes it strictly shorter |
| Normalizer.NormalisationConverges | internal/scraper/normalizer/normalizerRules.go:74-132 | repeated passes end in a canonical path, within as many as the first result has characters |
| Normalizer.IdempotentIff | internal/scraper/normalizer/normalizerRules.go:74-132 | one pass is enough if and only if there is no second locale, no second index name, no dots laid bare and no dotted directory left without its page |
| Normalizer.OnePassIsNotEnough | internal/scraper/normalizer/normalizerRules.go:119-132 | a path for which one pass is not enough |
| Document.Document.BuildIndex | internal/indexer/indexDocument.go:64-86 | each term gains one count for each token whose lower case is no stopword and whose cleaned stem is the term, of 1 to 50 UTF-8 bytes; exactly these terms become keys, and all other counts stay |
| Document.CleanedKeeps | internal/indexer/indexDocument.go:92-102 | cleaning works character by character: letters and numbers are kept, everything else dropped |
| Document.BytesAreUtf8 | internal/indexer/indexDocument.go:81-83 | the length compared with 50 is one byte for each character and one more from each of the code points 128, 2048 and 65536 on |
| Document.CountsAreMaximalRuns | internal/indexer/indexDocument.go:59-86 | that number is the number of maximal letter and number runs of the text counted as the term |
| Document.TermRunsAreMaximal | internal/indexer/indexDocument.go:59-63 | the runs counted are exactly the maximal ones whose word survives and stems to the term |
| Document.CountsAddUp | internal/indexer/indexDocument.go:64-86 | the counts of all terms add up to the number of surviving tokens |
| Document.FreshIndexTotal | internal/indexer/indexDocument.go:53-86 | so do the entries of a fresh document's index |
| Document.CountsIgnoreOrder | internal/indexer/indexDocument.go:64-86 | the order of the tokens does not matter |

## Left out

- Redis, MinIO, Postgres and HTTP failures, JSON encoding and decoding failures: every operation of a queue or stream
  is one successful step on stored values; the failures of a crawl call are parameters of the call (`Crawl.World`).
- The pop of a job and the writing of its record are one step, with the delay between stamp and record as a
  parameter; a queue operation that reads the clock twice reads it once here. Reaper.PutBackExactlyInWindow asks that
  the records of one worker are written in the order in which their jobs were taken.
- The clock increases strictly from step to step, so that no two entries of the retry set coincide; entries that are
  due in the same second keep an arbitrary order among each other.
- Widths of integers, except for the wrap-around of durations in the worker and the range of the decimal reader;
  the floating-point division of a waiting time by 30 seconds is exact here.
- xxhash, the stemmer, lower-casing of words, Unicode classes of the indexer and the stopword list are parameters.
- The removal of separators before stemming reads the characters of a word; a word is a list of code points.
- The crawl queue and the parse queue share the keys of records and handles; each is modelled alone.
- The results key, logs, statistics, latencies and snippets.
- Cleaning and extraction of HTML and Markdown, robots rules, URL parsing, percent-encoding, hosts, ports and
  queries; the Git rules of the normaliser. Characters outside ASCII in paths.
- The delay of a rate-limited domain has the script's own unit; the source passes a duration in nanoseconds next to a
  time in milliseconds.
- Tasks.ProcessTask: does not speak of a copy that is in the retry set already; Tasks.HeldNotYetFiled says no copy in
  work is before it is requeued. Every error text but that of a refused slot begins with other words, as in the source.
- Streams.MsgStream.GetMsg: does not model which entries are idle for a minute, that set is a parameter; whether
  a history read with nothing pending lets the claim happen is left to the server.
- StreamRuns.ExactlyOneCopy: does not hold for two goroutines under one name, as the indexer is configured; for these
  runs StreamRuns.CopiesAddUp gives the exact number.
- ClassifyURL and ScoreDevURL, the migrations and the wiring of the processes: straight-line code.
- Fairness, and eventual admission by the rate limiter: the code does not give them.
