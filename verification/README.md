# Facebook Ads spend collector: a Dafny model

A model of the collector's concurrent sync, its store, its migrations, its API client and the parts of its web front
end that print and parse, with proofs of what they promise. `dafny verify dfyconfig.toml` checks everything.

Layout, from the bottom up:

- `wrappers.dfy`, `filters.dfy`, `decimal.dfy`: failure datatypes, 64-bit wrap-around, sums, searching text; keeping and
  collecting elements of sequences; printing and parsing decimal integers.
- `pool.dfy`, `worker_pool.dfy`: the bounded worker pool. `Pool` is the transition relation: submitter, dispatcher and
  one goroutine per job over a 1000-slot channel, a counting semaphore and a WaitGroup, with a separate step for
  everything that can be interleaved (the gap between `wg.Add` and the blocking send, the job in the dispatcher's hand,
  the gap between the slot's release and `wg.Done`). `WorkerPools` is the same state as an object that is changed in
  place.
- `histories.dfy`: interleavings of fixed programs of atomic actions.
- `store.dfy`: the spend and progress tables, keyed upserts in all-or-nothing transactions.
- `sync_jobs.dfy`, `sync_serial.dfy`, `sync_overlap.dfy`, `sync_record.dfy`, `sync_outcome.dfy`, `sync_pipeline.dfy`: a
  job as a program of atomic store writes; schedule independence, serializability, idempotence, error accounting, the
  truth of the progress record, and what is left of what was fetched; SyncDate and the scheduler's run record end to
  end.
- `aggregate.dfy`, `reports.dfy`, `figures.dfy`, `rebind.dfy`, `spend_query.dfy`, `paging.dfy`: the spend reports: the
  de-duplicating join and its sums, the same over the store's table, from the rows fetched to the totals shown, the
  placeholder rewriter, the filter's query and arguments, paging.
- `migrations.dfy`: the migration runner as a crash/retry machine.
- `rate_limit.dfy`, `api_client.dfy`, `api_overlap.dfy`, `pages.dfy`, `insights.dfy`, `accounts.dfy`: quota headers, the
  timed wait/send/update/block protocol, what is left of it when calls overlap, cursor following, the polling backoff.
- `session.dfy`, `token_form.dfy`: session tokens, and the token edit form's mask and date.

Conventions. What a job's fetch answers, when a database call fails, how late a timer fires, what a server replies and
what the MAC computes are parameters of the statements, so every theorem holds for all of them. A database transaction
is one atomic step. Spend is exact (`real`), times are integer nanoseconds, generated ids are fresh, and int64
wrap-around is written out where a product is formed.

Where the code and its own documentation differ, the model follows the code:

- `README.md:96` promises a per-token semaphore; there is one semaphore for all tokens.
- `internal/queue/worker.go:62` says Close waits; it only closes the channel, and it is Wait that waits.
- A block need not grow: UpdateFromResponse resets BlockedUntil and BlockToken may shorten it, so no
  monotonicity is claimed.

Properties that turned out to hold only on a condition, with the condition proved exact:

- An untouched save of the edit form always keeps the token, but it clears the token's last error and drops the time
  of day and years outside 0 to 9999, so the row is unchanged exactly when there was no error and no such date.
- Rewriting `?` to `$n` keeps a query's meaning, with a placeholder read as a dollar sign and all digits after it,
  exactly when no question mark stands right before a digit. In the queries ListSpendRaw builds no question mark touches
  a word at all.
- A page shows its own rows of a table exactly when its 64-bit offset does not wrap, or wraps to where that table has
  no rows. Page 184467440737095518 of fifty rows wraps: SQLite shows the first page again, PostgreSQL refuses.
- While calls for a token do not overlap, no request for it goes out before the wait last prescribed is over. From any
  state in which two do overlap, however the run got there and whatever the two are at, it can go on to a request that
  goes out too early. So waits are respected in all runs of n callers exactly when n is at most one, and SyncDate lets
  four workers use one token. What every send keeps is the bound its caller read at its latest entry, which is the
  current one when nobody set the token's state in between.
- Overlapping syncs leave what some order of their jobs leaves, whatever is answered, however they interleave and
  whatever was stored, exactly when no account is asked for on two dates. The two default schedules do ask for one account on two
  dates at ten o'clock. Such syncs are still safe for answers in which every row is of the day that was asked for, or
  more generally no key is written by jobs of two dates.
- A run's stored error count equals its error rows exactly when there were no errors or both log writes fared alike.
- A 429's wait is the announced number of seconds exactly when that many nanoseconds fit 64 bits.
- A migration run on SQLite that starts with foreign keys enforced leaves them off exactly when it stopped at a file it
  was applying and either the transaction could not begin, or the script, its record or its commit failed and the
  ignored restore had no effect, or the restore after the commit failed. A run that starts with them off also leaves
  them off when it applies nothing.
- A migration run reports success exactly when nothing strikes a file that is due and every script due is accepted. One
  that reports failure may still have applied the file it stopped at: exactly when the script was accepted and the
  commit reported failure but took effect, or the pragma could not be restored after it.
- An account listing reads exactly the pages its next URLs name exactly when every next URL met begins with the
  client's own prefix and parses. The code cuts the prefix off by its length: a URL of another version gives back its
  own path exactly when that version's name is as long as the client's (or the cut falls inside the query and what is
  left there happens to read the same), and one of v9.0 sends a client of v20.0 to the path `e/adaccounts`.
- A session verifies after a round trip exactly when it has not expired and the username has no colon.

## Model

| member | source | states |
|---|---|---|
| `Pool.StepKeepsInv` | internal/queue/worker.go:24-65 | Every step of submitter, dispatcher or worker keeps: WaitGroup count = jobs counted and not done, semaphore = jobs holding a slot <= concurrency, buffer <= 1000, each job where the submitter's and dispatcher's progress puts it, each job's actions done so far once and in order |
| `Pool.PoolIsBounded` | internal/queue/worker.go:18-54 | At every moment of every schedule the jobs executing number exactly the slots taken, at most the concurrency; the WaitGroup counts exactly the jobs submitted and not done; the channel holds at most 1000; a counted job waits to be sent only while 1000 are queued, and the one at the dispatcher's hand only while all slots execute |
| `Pool.StepDecreases` | internal/queue/worker.go:32-65 | Whichever goroutine moves, one measure strictly decreases |
| `Pool.RunsAreBounded` | internal/queue/worker.go:32-65 | No schedule takes more than six steps per job, one per job action, and three |
| `Pool.SomeStepEnabled` | internal/queue/worker.go:24-65 | With at least one slot, no reachable unfinished state is a deadlock, also with more jobs than the channel holds |
| `Pool.MaximalRunsFinish` | internal/queue/worker.go:32-65 | A schedule can go no further exactly when the pool is finished, and then each job ran exactly once and no slot, count or queue entry is left behind |
| `Pool.NothingRunsAfterWait` | internal/sync/pipeline.go:155-163 | Once Wait has returned, every job has executed in full and no possible step runs job code, so the collector can be read |
| `Pool.NoSlotsNoProgress` | internal/queue/worker.go:33-37 | With concurrency zero no schedule of a non-empty set of jobs ever executes anything or returns from Wait |
| `WorkerPools.WorkerPool.AddToCount` | internal/queue/worker.go:53 | The first half of Submit changes the shared state by exactly the pool's counting step |
| `WorkerPools.WorkerPool.SendJob` | internal/queue/worker.go:54 | The blocking send appends the job to the channel and is possible only below 1000 entries |
| `WorkerPools.WorkerPool.ReceiveJob` | internal/queue/worker.go:36 | The dispatcher takes the oldest queued job into its hand |
| `WorkerPools.WorkerPool.AcquireSlot` | internal/queue/worker.go:37-38 | The job in hand gets a slot and starts |
| `WorkerPools.WorkerPool.ReleaseSlot` | internal/queue/worker.go:40 | A finished job gives its slot back and is still counted |
| `WorkerPools.WorkerPool.MarkJobDone` | internal/queue/worker.go:41 | The count goes down only after the slot was given back |
| `SyncJobs.ScheduleIndependence` | internal/sync/pipeline.go:141-156 | With distinct account ids every complete interleaving of the jobs leaves the spend rows, progress records and synced marks of processing the accounts one by one |
| `SyncJobs.PoolRefinesSequential` | internal/sync/pipeline.go:135-156 | Every schedule of the pool that has gone as far as it can did to the tables what the sequential run does |
| `SyncJobs.SharedAccountMatters` | internal/sync/pipeline.go:213-250 | Distinct ids are needed: a failing and a succeeding fetch of one account leave different records in the two orders |
| `SyncJobs.RunIsLocal` | internal/sync/pipeline.go:213-250 | What a history does to one account's part of the tables depends on that account's actions and part alone |
| `SyncOutcome.ProgramOutcome` | internal/sync/pipeline.go:213-250 | A job's atomic actions, run alone, leave field by field what was fetched: of each (date, adset) the last fetched row's campaign, names, impressions, clicks and spend in the account's currency, a good record and a mark; on a failed save nothing, on a failed fetch at most a pending retry; every other entry and account is as before |
| `SyncOutcome.EveryOutcome` | internal/sync/pipeline.go:135-163 | After every complete interleaving of jobs of different accounts each account shows that outcome of its own job, and accounts without a job are as before |
| `SyncJobs.ResyncChangesNothing` | internal/sync/pipeline.go:97-164 | Running the same sync again, under any schedule, changes no table |
| `SyncSerial.Serializable` | internal/sync/pipeline.go:141-156 | Even when several tokens list the same account and syncs of several dates overlap, every interleaving of the jobs equals running them one by one in some order, each once, as long as no key is written by jobs of two dates |
| `SyncSerial.OneDateIsApart` | internal/sync/pipeline.go:141-153 | The jobs of one SyncDate meet that condition |
| `SyncSerial.OwnDatesAreApart` | internal/facebook/insights.go:79-88 | So do the jobs of any syncs when each row fetched is of the day its job asked for |
| `SyncOverlap.SerializableExactly` | internal/sync/pipeline.go:97-164 | For a list of accounts and dates to fetch: for all answers, complete interleavings and stored tables some order of the jobs leaves the same tables, exactly when no account id is listed with two dates |
| `SyncOverlap.NotSerializable` | internal/sync/pipeline.go:224-247 | Whenever one account id is listed with two dates, among whatever other jobs and from whatever tables, there are answers and an interleaving that leave one job's figures and the other's date, which no order does |
| `SyncSerial.SameTables` | internal/db/sqlite.go:255-286 | The same saves of each key in the same order, the same marks, and the same last date and last kind of record write per account leave the same tables |
| `SyncSerial.SerialOrderIsPermutation` | internal/sync/pipeline.go:141-153 | The order read off a history runs every job exactly once |
| `SyncRecord.OneErrorPerFailure` | internal/sync/pipeline.go:215-244 | In whatever interleaving, the collector ends up with exactly one error per failing job, with that job's account and message |
| `SyncRecord.ErrorsAreExact` | internal/sync/pipeline.go:159-163 | The errors number the failing jobs, and jobs less errors the succeeding ones |
| `SyncRecord.ProgressIsTruthful` | internal/sync/pipeline.go:240-247 | Whenever a record claims a date for an account, in runs of any dates, interleaved or cut short, a job for that account and date had already committed its rows, and their keys are still stored |
| `SyncRecord.PoolIsTruthful` | internal/sync/pipeline.go:135-156 | The same at every moment of every schedule of the pool, finished or not |
| `SyncRecord.RetryMeansFetchFailed` | internal/sync/pipeline.go:214-216 | A retry is pending exactly when the latest write to the record came from a job whose fetch failed |
| `SyncRecord.RecordAfter` | internal/db/sqlite.go:392-410 | The last good date is that of the latest success, whatever retries came after; a retry pends exactly after a retry write |
| `SyncRecord.FailingJobIsHarmless` | internal/sync/pipeline.go:213-244 | No action of a failing job changes a spend row or any last good date |
| `SyncPipeline.Execute` | internal/sync/pipeline.go:213-251 | One job run on the store leaves that outcome, spelled out field by field, in the tables, changes no other account, and adds its own error, with the fetch's or the save's message, exactly when it fails |
| `SyncPipeline.Perform` | internal/sync/pipeline.go:215-247 | Each atomic action, performed by the store's or the collector's own method, means its action on the tables |
| `SyncPipeline.RunJobs` | internal/sync/pipeline.go:135-156 | With an arbitrary enabled step taken at each turn the pool always ends, its states are a schedule of a pool of four slots, and every program was performed exactly once on the store |
| `SyncPipeline.SyncErrorCollector.Add` | internal/sync/pipeline.go:30-38 | Errors are appended, none lost |
| `SyncPipeline.ActiveIsExact` | internal/sync/pipeline.go:116-127 | The accounts chosen are exactly those neither closed nor without an active token, each as often as listed |
| `SyncPipeline.TokenMap` | internal/sync/pipeline.go:104-108 | The map holds each listed token's id with the text of its last listing |
| `SyncPipeline.SyncDate` | internal/sync/pipeline.go:97-164 | End to end: one job of the date for each listed account that is neither closed nor without an active token, each run once; with distinct ids every account then shows its job's outcome field by field and the others are as before; the errors are exactly those of the failing jobs, with account and message, and success counts the others; in any case the store is as after running the jobs one by one in some order |
| `SyncPipeline.RecordOutcome` | internal/sync/scheduler.go:41-46 | The stored error count equals the stored error rows of the run exactly when there were no errors or both writes fared alike; other runs are untouched |
| `SyncPipeline.LoggedSync` | internal/sync/scheduler.go:38-46 | When the log writes succeed, the run record carries the true success count and the number of its error rows, which are one per failing job with its account and message |
| `SyncPipeline.RunLog.AddSyncErrors` | internal/db/sqlite.go:489-518 | All error rows of the run or none, whichever statement fails |
| `SyncPipeline.RunLog.FinishSyncRun` | internal/db/sqlite.go:481-487 | Only the named run's record changes |
| `Store.SqlStore.UpsertSpendRows` | internal/db/sqlite.go:244-287 | (account, date, adset) and ids stay unique; a success is the left-to-right map update, a failure at any statement leaves the table as it was; existing rows keep id and place |
| `Store.UpsertOneMeans` | internal/db/migrations/004_fix_ad_accounts_unique.sql:24-38 | One conflicting-or-not insert keeps keys and ids unique and is one map update |
| `Store.LastRowWins` | internal/db/sqlite.go:255-286 | In a batch the last row of a key wins and keys not mentioned keep their data |
| `Store.BatchIdempotent` | internal/db/sqlite.go:255-286 | Saving a batch twice stores what saving it once does |
| `Store.SqlStore.UpdateSyncState` | internal/db/sqlite.go:392-401 | Sets the date and clears the pending retry of that account alone |
| `Store.SqlStore.SetNextRetry` | internal/db/sqlite.go:403-410 | Marks a retry and keeps the last good date |
| `Aggregate.FanOutExactly` | internal/db/sqlite.go:622-632 | A left join leaves the spend rows as they are exactly when no account of theirs is listed more than once |
| `Aggregate.JoinNeverFansOut` | internal/db/sqlite.go:623-630 | Through the subquery the join never multiplies a row, however many tokens list its account |
| `Aggregate.SpendIsConserved` | internal/db/sqlite.go:622-648 | The totals add up to the spend of exactly the raw rows whose date is kept, each counted once |
| `Aggregate.EachGroupOnce` | internal/db/sqlite.go:625-633 | For every raw row of a kept date there is exactly one result row of its account and date; there are no others; each shows the sum over all raw rows of its account and date |
| `Aggregate.DashboardAgrees` | internal/db/sqlite.go:453-462 | For a single date the report's totals add up to the dashboard's sum |
| `Aggregate.LabelsAreRight` | internal/db/sqlite.go:623-630 | Name and currency shown are the largest listed for the account, or none and USD; they do not depend on which row of the group they come from |
| `Reports.ReportIsOfContents` | internal/db/sqlite.go:622-648 | Two spend tables that hold the same rows, in whatever order and under whatever ids, give the same report |
| `Reports.ReportShowsTable` | internal/db/sqlite.go:622-648 | The report over the store's table has exactly one row for each account and kept date with a record, and its total is the sum of the spend of just those records |
| `Reports.ReportIgnoresSchedule` | internal/db/sqlite.go:289-295 | After any two schedules of a sync of distinct accounts the report is the same |
| `Reports.ReportIgnoresResync` | internal/db/sqlite.go:289-295 | Syncing again, under any schedule, does not change the report |
| `Figures.RefetchedTotal` | internal/db/sqlite.go:255-286 | When an account's fetched rows are stored, what the table holds for it on a date is the spend of the rows fetched for that date, of one adset only the last, and of the records before that no fetched row is for: nothing counts twice and nothing is lost |
| `Figures.TotalsAfterSync` | internal/sync/pipeline.go:97-164 | So after any schedule of a sync of distinct accounts: each account synced without error has that total on every date, one that failed and one not synced what it had before |
| `Figures.ReportAfterSync` | internal/db/sqlite.go:622-648 | And those are the totals every report shows |
| `Rebind.RebindQuery` | internal/db/sqlite.go:25-42 | The loop makes the k-th question mark $k on PostgreSQL and changes nothing on SQLite |
| `Rebind.RebindKeepsMeaning` | internal/db/sqlite.go:25-42 | On queries without a dollar sign, read as PostgreSQL reads placeholders, the meaning is kept exactly when no question mark stands right before a digit |
| `Rebind.RebindHasInverse` | internal/db/sqlite.go:31-40 | The original query can be read back: nothing else is changed or lost |
| `Rebind.FragmentIsEnough` | internal/db/sqlite.go:289-295 | Rewriting only the WHERE fragment is rewriting the whole query when the text around it has no placeholders |
| `SpendQuery.MarksMeetArguments` | internal/db/sqlite.go:308-329 | For any pieces of text and places, the k-th placeholder meets the k-th argument |
| `SpendQuery.EverySlotGetsItsOwn` | internal/db/sqlite.go:331-346 | The same on either driver, after rewriting |
| `SpendQuery.BuildWhere` | internal/db/sqlite.go:305-325 | The WHERE clause as text and its arguments for each of the six cases: none, one date, a range (which wins over a date), and each of these with the account by id or part of its name; and they are the clause and arguments of the same places |
| `SpendQuery.ListSpendRaw` | internal/db/sqlite.go:297-346 | Both queries are that clause between the fixed texts, with `LIMIT ? OFFSET ?` given the size (50 when below one) and the wrapped offset; on either driver each placeholder asks for exactly the value its place is for, and none touches a word |
| `Paging.PagesCoverOnce` | internal/db/sqlite.go:329-346 | For any ordering and page size, pages 1 to the page count show every row once and in order, every earlier page is full, and later pages are empty while their offset fits |
| `Paging.RightExactly` | internal/db/sqlite.go:298-329 | A page shows its own rows of a table exactly when its offset does not wrap, or wraps past that table's last row, or wraps to a negative one on SQLite and there are no rows |
| `Paging.RightExactlyWhenItFits` | internal/db/sqlite.go:298-303 | A page shows its own rows for all tables, of whatever length, exactly when its offset does not wrap |
| `Paging.WrappedToFirst` | internal/web/spend.go:46-49 | A page number the handler accepts far past the end shows the first page on SQLite and fails on PostgreSQL |
| `Paging.TotalPages` | internal/web/spend.go:83-92 | The least number of pages, at least one, that holds all rows |
| `Migrations.AlwaysAPrefix` | internal/db/db.go:78-168 | After any sequence of runs failing anywhere, the recorded files are a first part of the sorted list and the schema is what exactly those files make, each applied once |
| `Migrations.SuccessEqualsCleanRun` | internal/db/db.go:78-168 | The first success after any failures leaves the schema and record of one clean run |
| `Migrations.LaterRunsChangeNothing` | internal/db/db.go:101-113 | After a success no later run changes anything |
| `Migrations.EnforcementLeftOff` | internal/db/db.go:121-166 | A SQLite run that starts with foreign keys enforced leaves them off exactly when it stopped at a file it was applying with the transaction not begun, or with the script, record or commit failed and the ignored restore without effect, or with the checked restore failed |
| `Migrations.EnforcementAfter` | internal/db/db.go:101-166 | However it starts, they end on exactly when they were on or some file was being applied, and the run did not stop in such a turn |
| `Migrations.Database.RunMigrations` | internal/db/db.go:78-169 | The loop over the files, with every error path, is the run the other statements are about, and reports success exactly when nothing is in its way |
| `Migrations.RunSucceeds` | internal/db/db.go:78-169 | A run reports success exactly when table and listing work, no file's check fails, nothing else strikes a file that is due (on PostgreSQL there is no pragma to fail), and the database accepts every script that is due on the schema made by those before; then the schema is what they make and all files are recorded |
| `Migrations.StoppedRun` | internal/db/db.go:78-169 | A run that stops has applied just the files due before the one it stopped at, and that one too exactly when its script was accepted and the failure struck after its transaction had taken effect (a commit that reports failure, or SQLite's restore) |
| `RateLimit.MaxFloat` | internal/facebook/ratelimit.go:128-136 | The largest value, floored at zero |
| `RateLimit.FoldBusinesses` | internal/facebook/ratelimit.go:68-82 | In whatever order the map is visited, both figures are the maxima over all entries of all businesses |
| `RateLimit.OneDescription` | internal/facebook/ratelimit.go:47-104 | The headers and the time settle the whole quota state |
| `RateLimit.DescribedFigures` | internal/facebook/ratelimit.go:51-99 | The same spelled out number by number: call count, CPU and total time and minutes of every entry of every business are at most the figures, which are reached |
| `RateLimit.UsageIsOverallMax` | internal/facebook/ratelimit.go:25-34 | The usage that slows the client down is the maximum of every number in the three headers |
| `RateLimit.RateLimiter.UpdateFromResponse` | internal/facebook/ratelimit.go:47-104 | The token's state becomes what the headers describe: no number of a header is above its figure, and a figure above zero is one of its header's numbers; no other token's state changes |
| `RateLimit.RateLimiter.BlockToken` | internal/facebook/ratelimit.go:107-116 | The deadline of that token is now and the duration, its three percentages and estimate stay, or are zero if there was no state; every other token's state stays |
| `ApiClient.Get` | internal/facebook/client.go:45-112 | One call, with arbitrary delays: it sends after the block it read is over and, when one of the three percentages it read is above 75, thirty seconds later still, and no later than its delays add to that; afterwards the token's state is the described one, with its deadline moved by the prescribed wait if there is one, and other tokens' are untouched; errors are those of the response; and it is just the events enter, send, then fail or update and perhaps block of the timed system |
| `ApiClient.NoteAnswer` | internal/facebook/client.go:80-111 | The headers are noted before the status is looked at; a 429 blocks and is the error before whatever the body says; a rate-limit code blocks; any other error does not |
| `ApiClient.CallSteps` | internal/facebook/client.go:45-112 | Those events, at the call's own times, are possible in the timed system and leave its clock, limiter and log as the call does |
| `ApiClient.SequentialCallsAreSafe` | internal/facebook/client.go:45-111 | As long as calls for one token do not overlap, whatever others do, over any timed run no request for it goes out before BlockedUntil nor before the wait last prescribed by a 429, a rate-limit code or the usage header is over |
| `ApiOverlap.OverlapBreaksWaits` | internal/facebook/client.go:45-111 | From every reachable state in which two callers are busy with one token, whatever they are at, the run can be continued to a request that goes out before the wait last prescribed is over |
| `ApiOverlap.RespectsExactly` | internal/facebook/client.go:45-111 | All runs of n callers respect a token's waits exactly when n is at most one |
| `ApiOverlap.SendsKeepEntryBound` | internal/facebook/client.go:47-85 | Every send of every run, overlapping or not, comes no earlier than the block its caller read at its latest entry, and thirty seconds after it and after the entry when one of the percentages read there is above 75 |
| `ApiOverlap.UndisturbedSendIsSafe` | internal/facebook/client.go:47-111 | When nobody set the token's state since the caller's latest entry, its send is not before BlockedUntil as it stands, nor before the wait last prescribed if the limiter still holds it |
| `ApiOverlap.OverlapSendsEarly` | internal/facebook/client.go:47-98 | A run of two overlapping callers in which one is told to wait and the other sends before BlockedUntil |
| `ApiOverlap.LateAnswerErasesWait` | internal/facebook/ratelimit.go:47-116 | A run in which a late answer clears the block, so that a new caller sends although the wait is not over |
| `ApiClient.OtherTokensUntouched` | internal/facebook/ratelimit.go:101-116 | No step of a call changes another token's state |
| `ApiClient.RetryAfterIsHonoured` | internal/facebook/client.go:90-98 | A 429 with a header announcing any integer of seconds waits exactly that many exactly when the nanoseconds fit 64 bits; one that is no int64 falls back to a minute |
| `ApiClient.RetryAfterFallsBack` | internal/facebook/client.go:90-98 | A 429 without the header, or with one that is no decimal number, waits a minute |
| `ApiClient.BlockingCodes` | internal/facebook/errors.go:25-48 | Without a 429 a token is blocked exactly for codes 4 (ten minutes), 17 and 32 (five), 80000 and 80004 (two) |
| `Pages.FetchPages` | internal/facebook/insights.go:89-117 | One request per page of the chain; the rows returned number the sum of the pages', and each page's stand in them in order behind those of the pages before; or the error of the page that failed |
| `Pages.ChainFollows` | internal/facebook/insights.go:89-117 | The first reply answers the first request, each other one the request its predecessor's next value leads to, and exactly the last leads to none |
| `Insights.FetchInsightPages` | internal/facebook/insights.go:79-117 | The cursor loop from the unset cursor on holds every page of the chain in place; also the one at lines 183-216 |
| `Insights.BackoffBounds` | internal/facebook/insights.go:148-178 | The first wait is ten seconds, each next one half as long again or a minute at most, never shrinking |
| `Insights.EighteenPollsFit` | internal/facebook/insights.go:145-181 | The waits before n polls stay below the fifteen-minute deadline exactly for n < 18 |
| `Insights.PollJob` | internal/facebook/insights.go:145-181 | Under any clock each poll follows a deadline check within fifteen minutes, there are at most 18, all but the last saw a running job, and the outcome is that of the last status or, past the deadline, a timeout |
| `Insights.BoundIsTight` | internal/facebook/insights.go:145-181 | With a clock that is never late, the deadline check lets exactly 18 polls through |
| `Accounts.ParseNextPage` | internal/facebook/accounts.go:77-105 | The scan cuts what follows the 28 characters around the version at its first question mark into path and query; a shorter URL or a query that does not parse gives no page |
| `Accounts.WellFormedNext` | internal/facebook/accounts.go:77-105 | A URL of the API's form gives back exactly its path and its query |
| `Accounts.GetAdAccounts` | internal/facebook/accounts.go:27-67 | Every page of the chain stands in the listing in place, or the error is that of its failing page |
| `Accounts.OtherVersion` | internal/facebook/accounts.go:77-105 | A URL that names another version gives back its own path and query exactly when that version's name is as long as the client's, or the cut falls inside the query and what is left there reads as that path and query |
| `Accounts.OtherVersionByLength` | internal/facebook/accounts.go:77-105 | With the cut before the query, or a query with parameters and no question mark, length alone decides |
| `Accounts.ShorterVersion` | internal/facebook/accounts.go:77-105 | A v9.0 URL sends a client of v20.0 to a path that is not the URL's |
| `Accounts.AsksForNamedPage` | internal/facebook/accounts.go:77-105 | The request made for a URL that parses asks for the page the URL names exactly when the URL begins with the client's own prefix |
| `Accounts.ListingIsWhole` | internal/facebook/accounts.go:38-66 | A returned listing is the whole of it, each page the answer for the page the one before names and the last naming none, exactly when every next URL met begins with the client's own prefix and parses |
| `Session.AcceptsExactly` | internal/web/auth.go:96-118 | A value is accepted exactly when it is user:expiry:signature with a colon-free user, the signature of just that payload, and an int64 expiry not before now |
| `Session.RoundTrip` | internal/web/auth.go:88-124 | A token made for a user is accepted later exactly until 86400 seconds after, and only for colon-free users |
| `Decimal.ParseOfPrint` | internal/web/auth.go:89-90 | Every int64 printed parses back to itself, and no other integer does |
| `Decimal.PrintsDecimal` | internal/web/auth.go:89-90 | Numbers are printed in decimal digits, the most significant first, a minus sign before a negative one |
| `TokenForm.IsMasked` | internal/web/tokens.go:177-184 | The index loop holds exactly for text with four asterisks in a row somewhere |
| `TokenForm.MaskIsMasked` | internal/web/handler.go:173-178 | The mask shown for any token is recognised as a mask |
| `TokenForm.MaskHides` | internal/web/handler.go:173-178 | Two tokens show the same mask exactly when both have at most eight characters, or both more and the same first and last four: nothing else shows |
| `TokenForm.DateRoundTrip` | internal/web/handler.go:182-187 | Formatting and parsing gives an expiry back exactly when it is missing or a midnight in the years 0 to 9999 |
| `TokenForm.ParsedSurvives` | internal/web/tokens.go:165-174 | A date that parses is shown again exactly as it was sent, and whatever text is sent, what it parses to survives being shown and sent again |
| `TokenForm.ParsesExactly` | internal/web/tokens.go:165-174 | A text parses to a moment exactly when it is four, two and two digits with hyphens that read as its year, month and day, and the moment is midnight |
| `TokenForm.FormatReads` | internal/web/handler.go:182-187 | A date in the years 0 to 9999 is shown as year, month and day in those places |
| `TokenForm.FormShows` | internal/web/handler.go:173-187 | The edit form shows the name, of the token no more than its mask, and the day of its expiry |
| `TokenForm.UntouchedSave` | internal/web/tokens.go:82-122 | Saving the form as shown keeps the token whatever fails, and the whole row exactly when there was no error to clear and the expiry survives |
| `TokenForm.SavingTwice` | internal/web/tokens.go:82-122 | A second untouched save changes nothing |
| `TokenForm.OnlyThatToken` | internal/web/tokens.go:96-114 | No save touches another token, and a token's text is replaced only by the encryption of typed, unmasked text |
| `TokenForm.SaveReplies` | internal/web/tokens.go:82-122 | When each reply is given: bad request exactly for an empty name, not found exactly when the old token is needed and cannot be read, saved exactly when nothing fails; and exactly when the row is written, and with what |
| `TokenForm.TokenTable.HandleTokenUpdate` | internal/web/tokens.go:82-122 | The handler, with each error path, is the save the other statements are about; each reply is given exactly when it should be, and a row saved has the form's name and date, no error, and the encryption of what was typed or else its old token |
| `TokenForm.TokenTable.UpdateToken` | internal/db/sqlite.go:151-160 | Sets name, token and expiry, clears the last error, and touches no row when the id is unknown |

## Left out

- HTTP transport, JSON and YAML decoding, templates, logging: decoded values and replies are arbitrary inputs.
- AES-GCM, base64 and HMAC internals: encryption and the MAC are arbitrary functions, the MAC never printing a colon. So nothing is said about a wrong key being refused.
- The SQL engine: a transaction is one atomic step and a SELECT its relational meaning. PostgreSQL's row-lock deadlocks and its refusal of ungrouped columns are not modelled; MAX takes the text order as a parameter.
- The order of the aggregated report's rows, and ties in the raw report's ORDER BY: paging takes the ordering as given.
- How drivers read a placeholder that touches a word: SQLite's numbered parameters, and PostgreSQL versions that refuse a letter right after one. `Rebind.RebindKeepsMeaning` is about the dollar sign and its digits alone.
- LIKE matching: which rows a filter keeps is given.
- Floating-point rounding of spend and percentages.
- Calendar arithmetic and time zones: dates are validated fields in UTC, clocks are integers; time.Add does not saturate.
- Panics in jobs, context cancellation, and a crash inside a single commit: Execute always returns.
- Row ids and timestamps in schedule independence; it is about the keyed data, the progress record and the synced marks. Ids are covered by `Store.SqlStore.UpsertSpendRows`.
- Overlapping SyncDate calls as pool schedules: each call has its own pool, so for several of them `SyncSerial.Serializable` and `SyncRecord.ProgressIsTruthful` are about histories of all their jobs together, of any dates.
- A commit of a store transaction that reports failure and yet took effect: in the store it did not, and that a failing job changes no spend row rests on it. The migration runner's commits may do either.
- What foreign-key enforcement is on a new SQLite connection: it is a parameter of each migration run.
- A caller-supplied row id in UpsertSpendRows: no caller sets one.
- UpsertAdAccounts and DiscoverAccounts: another keyed upsert.
- FetchInsights' choice between the direct and the asynchronous report, and creating that report: a job's fetch is an arbitrary answer.
- Negative concurrency, for which creating the semaphore panics, and a negative page size in totalPages: the only callers pass constants.
- The scheduler's cron expressions, uuid generation, FX rates, token expiry warnings, themes, login pages and plain token CRUD.
- Wait and Close of the pool as Go runtime calls: blocking is a step that is not yet possible, and closing wakes the dispatcher only once the channel is empty.
