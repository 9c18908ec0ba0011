# Yugioh card manager: verified model of its resilience layer and file formats

This project is a Dafny model of the core of a Yu-Gi-Oh collection manager written in Python. It has two groups.

The first group is the backend's resilience layer in front of the upstream card API:

- the `RateLimiter`, with per-client sliding windows, burst and per-minute limits, exponential backoff, and a global window and backoff for external traffic;
- the `RequestQueue` spacing rule;
- the `ErrorHandler`, with retry classification, capped exponential delays, the retry loop and its failure counters, error standardisation, the fallback responses and `safe_api_call`;
- the two-tier `CacheService`: memory over disk, with lazy expiry, promotion and order-independent keys.

The second group is the text formats and normalisers the application reads and writes:

- the `.lflist.conf` banlist reader and writer, with its round trip;
- deck validation against a banlist;
- the CSV auto-import: header and condition normalisation, row validity, file-name parsing and import statistics;
- the file exports: file-name sanitising, YDK, JSON backup and binder CSV;
- the YGOProg command-line client: token validity and loading, CSV-to-card mapping, card removal, and the export file name and card count.

## How it is organised

There is one module per source file:

| module | file |
|---|---|
| `RateLimiting` | `rate_limiter.dfy` |
| `ErrorHandling` | `error_handler.dfy` |
| `Caching` | `cache.dfy` |
| `Banlists` | `banlists.dfy` |
| `AutoImport` | `auto_import.dfy` |
| `FileExport` | `file_export.dfy` |
| `BinderManager` | `binder_manager.dfy` |

Three helper modules support them:

- `Common`: `Option`, `Result` and integer powers.
- `Text`: ASCII models of the Python `str` methods the source uses, such as `lower`, `strip`, `split`, `join`, `int()` and `isdigit`.
- `Tally`: sums over maps.

**Imperative or pure.** Code that mutates state becomes classes, e.g. `RateLimiter`, `RequestQueue`, `ErrorHandler`, `CacheService`, `AutoImportService`, `Auth` and `Manager`. Their methods' `ensures` tie the new state to a function of the old state. Loops in the source become `while` or `for` loops with invariants, proved against specification functions; examples are the window cleaning, the retry loop, the `card_totals` loop, the export writers and the CSV row loops. Pure decisions become functions, and the properties are lemmas about those functions.

**Inputs from outside.**

- Clocks are an explicit `now` of type `real`, in seconds.
- Random jitter draws are inputs in `[0, 1)`.
- Database lookups are function parameters: `Card.get_by_id`, `get_max_copies`, `Binder.get_all` and `get_by_name`.
- Whether a save succeeds, the disk-tier outcomes and HTTP responses are parameters too.
- The md5 digest and date parsing or formatting are also function parameters.

## Model

| member | source | states |
|---|---|---|
| RateLimiting.ClientKey | backend/src/services/rate_limiter.py:39-41 | The key is `ip + ":" + endpoint`. |
| RateLimiting.ClientKeyInjective | backend/src/services/rate_limiter.py:39-41 | Distinct (ip, endpoint) pairs get distinct keys, provided endpoint names contain no colon. |
| RateLimiting.DropBefore | backend/src/services/rate_limiter.py:43-47 | Cleaning removes only from the front while the front is older than the cutoff, so the result is a suffix of the window. |
| RateLimiting.DropBeforeIsSuffix | backend/src/services/rate_limiter.py:43-47 | What cleaning keeps is a suffix of the window. |
| RateLimiting.DropBeforeSorted | backend/src/services/rate_limiter.py:43-47 | A sorted window stays sorted, and every timestamp left is at or after the cutoff. |
| RateLimiting.DropBeforeAppend | backend/src/services/rate_limiter.py:43-47 | A timestamp at or after the cutoff, appended to a window, survives the next clean. |
| RateLimiting.CleanOld | backend/src/services/rate_limiter.py:43-47 | The `while`/`popleft` loop returns exactly the window with the stale front removed. |
| RateLimiting.WindowDecision | backend/src/services/rate_limiter.py:90-110 | The burst check, then the per-minute check, then the global check (20 per minute, external only). Every denial has a retry-after of at least 1. |
| RateLimiting.PerMinuteUnreachable | backend/src/services/rate_limiter.py:90-99 | When the burst limit is at most the per-minute limit (the defaults are 10 and 60), the per-minute branch never denies. |
| RateLimiting.BackoffSeconds | backend/src/services/rate_limiter.py:143-147 | The backoff is `min(factor^count, max_backoff)`, so it never exceeds the maximum. |
| RateLimiting.BackoffMonotone | backend/src/services/rate_limiter.py:143-147 | With a factor of at least 1, more failures never give a shorter backoff. |
| RateLimiting.FreshLimiterAllows | backend/src/services/rate_limiter.py:49-110 | A fresh limiter allows the first check and returns no retry-after. |
| RateLimiting.RecordThenCheckAllows | backend/src/services/rate_limiter.py:90-125 | After one recorded request on a fresh limiter, the next check is still allowed when both limits are at least 2. |
| RateLimiting.CheckWindowsShrinks | backend/src/services/rate_limiter.py:83-88 | The cleaning step only removes from windows. |
| RateLimiting.CheckOnlyShrinksWindows | backend/src/services/rate_limiter.py:49-110 | `check_rate_limit` adds no timestamp: every window afterwards is a suffix of the old one. |
| RateLimiting.RecordAppends | backend/src/services/rate_limiter.py:112-125 | `record_request` appends `now` to the key's window. It appends to the global window only for external traffic, and nothing else changes. |
| RateLimiting.RecordedRequestCounts | backend/src/services/rate_limiter.py:84-125 | A request recorded now is in the window that the next check at the same moment counts. |
| RateLimiting.BackoffDenies | backend/src/services/rate_limiter.py:73-77 | While the key is backing off, a check is denied with the positive time left and changes nothing. |
| RateLimiting.BackoffExpires | backend/src/services/rate_limiter.py:78-81 | The first check at or after the deadline deletes the deadline, resets the failure count to 0 and then judges the cleaned window. |
| RateLimiting.GlobalBackoffDenies | backend/src/services/rate_limiter.py:63-67 | An active global backoff denies every external check with the positive time left. |
| RateLimiting.GlobalBackoffExpires | backend/src/services/rate_limiter.py:68-71 | An expired global backoff is cleared, together with the global failure count, by the next external check. |
| RateLimiting.InternalIgnoresGlobal | backend/src/services/rate_limiter.py:63-158 | Internal traffic neither reads nor changes the global window, counter or backoff. |
| RateLimiting.FailureBookkeeping | backend/src/services/rate_limiter.py:127-158 | `record_failure` adds exactly 1 to the key's count and sets its deadline to `now` plus the capped backoff. The global count grows only for external failures, and the global deadline is set only once that count is at least 3. |
| RateLimiting.FailThenCheckDenies | backend/src/services/rate_limiter.py:136-150 | After a failure, every check denies until the backoff has run out. |
| RateLimiting.CountAfter | backend/src/services/rate_limiter.py:170-174 | The count of a window's timestamps after the cutoff is at most the window's length. |
| RateLimiting.ActiveBackoffsBounded | backend/src/services/rate_limiter.py:164-168 | Active backoffs never outnumber the keys that have a deadline. |
| RateLimiting.RecordRaisesStats | backend/src/services/rate_limiter.py:160-190 | A request recorded now raises the recent-request figure by 1, and the global figure by 1 only if the request is external. |
| RateLimiting.Check | backend/src/services/rate_limiter.py:49-110 | Every denial has a positive retry-after. An active global backoff denies an external request and changes nothing. An allowed request had neither a global nor a client backoff in force. An internal request leaves the global window and deadline unchanged. |
| RateLimiting.Record | backend/src/services/rate_limiter.py:112-125 | The key's window grows by one timestamp, `now`, at its end. Other keys' windows are unchanged, the global window grows by one iff the request is external, and the failure counters and deadlines are unchanged. |
| RateLimiting.Fail | backend/src/services/rate_limiter.py:127-158 | The key's failure count grows by 1 and it gets a deadline at most `max_backoff` after `now`. The global count grows by 1 iff the request is external, and the global deadline changes only for an external failure once that count is at least 3. Request windows are unchanged. |
| RateLimiting.RateLimiter.constructor | backend/src/services/rate_limiter.py:17-37 | Holds the configuration given and empty histories, counters and deadlines. |
| RateLimiting.RateLimiter.CheckRateLimit | backend/src/services/rate_limiter.py:49-110 | The new state and the decision are those of the specification `Check`: global backoff, then client backoff, then cleaning, then the window checks. |
| RateLimiting.RateLimiter.RecordRequest | backend/src/services/rate_limiter.py:112-125 | The new state is `Record` of the old state. |
| RateLimiting.RateLimiter.RecordFailure | backend/src/services/rate_limiter.py:127-158 | The new state is `Fail` of the old state. |
| RateLimiting.RateLimiter.GetStats | backend/src/services/rate_limiter.py:160-190 | Returns the configured limits, the active clients, the active backoffs, the recent and global counts, and the global failure state. |
| RateLimiting.SpacingWait | backend/src/services/rate_limiter.py:207-211 | The wait is non-negative, and the call starts at least `request_delay` after the previous one ended. The wait is 0 unless it ends exactly at that moment. |
| RateLimiting.RequestQueue.constructor | backend/src/services/rate_limiter.py:197-201 | The last request time starts at 0. |
| RateLimiting.RequestQueue.ExecuteRequest | backend/src/services/rate_limiter.py:203-220 | Waits `max(0, delay - (now - last))`, then returns the call's outcome, success or raise. The last request time becomes the end of the call. |
| RateLimiting.DispatchSpacing | backend/src/services/rate_limiter.py:203-220 | Two consecutive dispatches start at least `request_delay` apart. |
| RateLimiting.GetClientIp | backend/src/services/rate_limiter.py:228-241 | When either forwarding header is present and non-empty, the address returned is trimmed. |
| RateLimiting.ForwardedForWins | backend/src/services/rate_limiter.py:230-233 | A non-empty `X-Forwarded-For` gives its first comma-separated element, trimmed. |
| RateLimiting.RealIpNext | backend/src/services/rate_limiter.py:235-238 | Without it, a non-empty `X-Real-IP` gives that value, trimmed. |
| RateLimiting.ClientHostLast | backend/src/services/rate_limiter.py:231-241 | When neither header is present and non-empty (an empty header counts as absent), the result is the client host, or "unknown" when there is no client. |
| ErrorHandling.NewRetryConfig | backend/src/services/error_handler.py:16-45 | An empty or omitted list of codes or exceptions falls back to the default list. |
| ErrorHandling.AnyInstance | backend/src/services/error_handler.py:66 | True iff the error is an instance of some listed type. |
| ErrorHandling.ShouldRetry | backend/src/services/error_handler.py:62-73 | True iff the error is an instance of a retryable type, or is an `HTTPStatusError` with a retryable status code. |
| ErrorHandling.CalculateDelay | backend/src/services/error_handler.py:75-85 | Without jitter the delay is the plain delay. For a non-negative plain delay `d` the result lies in `[0, d]`, `d` is at most `max_delay`, and with jitter the result is at least `d/2`. |
| ErrorHandling.ShouldRetryIff | backend/src/services/error_handler.py:62-73 | Retry iff the error is an instance of a retryable type, or is a status error with a retryable code. |
| ErrorHandling.DefaultRetryClassification | backend/src/services/error_handler.py:31-73 | Under the defaults, timeouts, network errors and the builtin `ConnectionError` are retried. Status codes 500, 502, 503, 504 and 429 are retried, and every other status is not. |
| ErrorHandling.PlainDelay | backend/src/services/error_handler.py:79-80 | `min(base * exp^(attempt-1), max_delay)`: either that power or the cap, never above the cap, and non-negative when base, exponent and cap are. |
| ErrorHandling.PlainDelayMonotone | backend/src/services/error_handler.py:79-80 | The plain delay never decreases with the attempt number and never exceeds `max_delay`. |
| ErrorHandling.JitterRange | backend/src/services/error_handler.py:83-84 | With jitter, the delay lies in `[d/2, d)` for the plain delay `d`. |
| ErrorHandling.RunFrom | backend/src/services/error_handler.py:100-142 | The run from a given attempt makes at most `max_attempts` calls. |
| ErrorHandling.RunFromRetry | backend/src/services/error_handler.py:126-137 | A retried failure continues with the next attempt after the calculated sleep. |
| ErrorHandling.RunFromStops | backend/src/services/error_handler.py:103-131 | A success, or a failure that is not retried, ends the run at that attempt. |
| ErrorHandling.RunRetries | backend/src/services/error_handler.py:88-142 | With no attempt allowed, the run makes no call, sleeps never and raises the TypeError of `raise None`. With `max_attempts >= 1` it makes at least 1 and at most `max_attempts` calls. |
| ErrorHandling.FirstSuccess | backend/src/services/error_handler.py:102-110 | If attempt k is the first success after only retryable failures, exactly k calls are made and its value is returned. |
| ErrorHandling.Exhaustion | backend/src/services/error_handler.py:102-142 | An operation that always fails with retryable errors is called exactly `max_attempts` times, and its last error is raised. |
| ErrorHandling.StopsOnNonRetryable | backend/src/services/error_handler.py:126-131 | A non-retryable error at attempt k stops the loop after k calls and raises that error. |
| ErrorHandling.DelaysAreCalculated | backend/src/services/error_handler.py:133-136 | Each sleep is `calculate_delay` of its attempt with that attempt's draw. |
| ErrorHandling.LastWhileRecords | backend/src/services/error_handler.py:123 | `last_errors[op]` holds the clock of the latest failure, and other operations are unchanged. |
| ErrorHandling.CountsWhileAdds | backend/src/services/error_handler.py:120-122 | Each failed attempt adds 1 to `error_counts[op]` and leaves the other counts unchanged. |
| ErrorHandling.FailedRunCounts | backend/src/services/error_handler.py:112-124 | A failed run adds one error per call to the operation's count and to the total. |
| ErrorHandling.SuccessfulRunResets | backend/src/services/error_handler.py:106-108 | After a successful run the operation's count is present iff it was present before or some attempt failed, and when present it is 0. The total never grows. |
| ErrorHandling.Classify | backend/src/services/error_handler.py:166-180 | Classifies timeouts, network errors, 404, 429, 500-599 and other statuses, with anything else as unknown. |
| ErrorHandling.ConnectionErrorStandardized | backend/src/services/error_handler.py:144-188 | The builtin `ConnectionError` is standardised as `unknown` and `retryable: true`. |
| ErrorHandling.ErrorFallbackResponse | backend/src/services/error_handler.py:263-277 | `data` is the supplied data or `[]`, and `count` equals its length. `fallback` is true, `cached` is false, and the error text is fixed. |
| ErrorHandling.CardSearchFallback | backend/src/services/error_handler.py:268-269 | A failed `card_search` without data falls back to the three popular cards. |
| ErrorHandling.GetCachedOrDefault | backend/src/services/error_handler.py:208-223 | Returns the cached value when there is a hit; a miss or a raised error gives the default. |
| ErrorHandling.RetryLoop | backend/src/services/error_handler.py:100-142 | The attempt loop returns exactly the specification run's outcome, calls and delays, and the counters and timestamps that run implies. |
| ErrorHandling.ErrorHandler.constructor | backend/src/services/error_handler.py:50-60 | Empty counters, and the three per-operation retry configurations. |
| ErrorHandling.ErrorHandler.RetryWithBackoff | backend/src/services/error_handler.py:88-142 | Chooses the custom configuration, else the operation's, else the default. Its result, calls, delays and new counters are those of the specification run. |
| ErrorHandling.ErrorHandler.CreateStandardizedError | backend/src/services/error_handler.py:144-188 | `error_code` and `user_message` override the kind and the message. `details` carry the message exactly when the handler's logger level is at or below DEBUG, which includes the unset default of an unconfigured logger, and `retryable` uses the default configuration. |
| ErrorHandling.ErrorHandler.GetErrorStats | backend/src/services/error_handler.py:190-198 | Copies the counters, and the total is the sum of all counts. |
| ErrorHandling.SafeApiCall | backend/src/services/error_handler.py:311-331 | Returns the retried result. Once retries are exhausted it returns the fallback response for that error instead of raising. The handler's error counts and last-error times become those of that run. |
| Caching.Lookup | backend/src/services/cache.py:66-107 | A hit iff memory holds a live entry or the working disk holds the key. After a hit, memory holds the answer with a future expiry; after a miss, memory lacks the key. The disk and every other key's memory entry are unchanged. |
| Caching.Store | backend/src/services/cache.py:109-124 | Memory always takes the value with expiry `now + ttl`, where a `None` ttl means 3600. Disk takes it only when the write succeeds, and other keys are unchanged. |
| Caching.Remove | backend/src/services/cache.py:133-143 | Memory always drops the key. Disk drops it only when the delete succeeds. |
| Caching.ClearExpired | backend/src/services/cache.py:152-161 | Memory keeps exactly the entries with `expires_at > now`, and the disk is unchanged. |
| Caching.SetThenGet | backend/src/services/cache.py:66-118 | After `set(k, v, ttl)`, `get(k)` returns `v` while `now < set time + ttl`, whether or not the disk works. |
| Caching.SetWithoutTtl | backend/src/services/cache.py:109-118 | A `None` ttl stores the entry for the default 3600 seconds. |
| Caching.NoStaleMemoryHit | backend/src/services/cache.py:69-75 | `get` never answers from a memory entry with `expires_at <= now`, and it removes such an entry. |
| Caching.Promotion | backend/src/services/cache.py:77-86 | A memory miss with a disk hit returns the disk value and stores it in memory for the default TTL. |
| Caching.DeleteThenGet | backend/src/services/cache.py:133-143 | After a successful delete the key is in no tier, and `get` finds nothing. |
| Caching.DeleteWithDiskFailure | backend/src/services/cache.py:139-143 | If the disk delete fails, the disk copy stays and the next `get` returns it. |
| Caching.ClearExpiredKeepsAnswers | backend/src/services/cache.py:152-161 | Clearing stale entries changes no `get` made at the same instant. |
| Caching.SortPairs | backend/src/services/cache.py:61 | `sorted(kwargs.items())`: a sorted permutation of the parameters. |
| Caching.SortedUnique | backend/src/services/cache.py:61 | Two sorted sequences of the same distinct pairs are equal. |
| Caching.GenerateCacheKey | backend/src/services/cache.py:58-64 | The key is `prefix + ":" + digest(sorted pairs)`. |
| Caching.KeyIgnoresOrder | backend/src/services/cache.py:58-64 | The key depends only on the prefix and the set of parameters, not on their order. |
| Caching.CardKey | backend/src/services/cache.py:189 | The key is `"card:" + id`. |
| Caching.CardKeysDistinct | backend/src/services/cache.py:177-189 | Different cards get different keys, and no card key is a search key. |
| Caching.CacheService.constructor | backend/src/services/cache.py:29-43 | Empty memory over the disk tier's contents. |
| Caching.CacheService.Get | backend/src/services/cache.py:66-107 | The answer and new tiers are `Lookup` of the old tiers: memory first, then disk with promotion. |
| Caching.CacheService.Set | backend/src/services/cache.py:109-131 | The new tiers are `Store` of the old tiers. |
| Caching.CacheService.Delete | backend/src/services/cache.py:133-150 | The new tiers are `Remove` of the old tiers. |
| Caching.CacheService.ClearExpiredEntries | backend/src/services/cache.py:152-161 | Its loop over the collected keys leaves `ClearExpired` of the old tiers. |
| Caching.CacheService.Stats | backend/src/services/cache.py:163-170 | Reports the memory size, the disk size and no Redis client; `Caching.CacheSizes` says how the operations move those sizes. |
| Caching.CacheSizes | backend/src/services/cache.py:66-170 | The sizes `get_stats` reports move as follows. `set` adds one memory entry for a new key, and one disk entry for a new key when the disk write succeeds. `delete` removes one entry from each tier holding the key. `clear_expired` never grows memory and leaves disk alone. `get` changes the memory size by at most one and leaves disk alone. |
| Caching.CacheService.GetCardSearchResults | backend/src/services/cache.py:173-178 | A lookup under the `card_search` key of the parameters. |
| Caching.CacheService.CacheCardSearchResults | backend/src/services/cache.py:180-185 | Stores under the `card_search` key for 1800 seconds. |
| Caching.CacheService.GetCardById | backend/src/services/cache.py:187-190 | A lookup under `card:{id}`. |
| Caching.CacheService.CacheCardById | backend/src/services/cache.py:192-195 | Stores under `card:{id}` for 86400 seconds. |
| Banlists.Append | backend/src/routes/banlists.py:469-476 | Appending to one list extends that list and changes no other field. |
| Banlists.DateValue | backend/src/routes/banlists.py:434 | `split(" ", 1)[1].strip()`: there is no value exactly when the line has no space. |
| Banlists.SectionHeader | backend/src/routes/banlists.py:445-454 | The whitelist section opens on a line starting `$whitelist` or `#whitelist`, and only then. Every other section header starts with `#` and is longer than one character. |
| Banlists.CardEntry | backend/src/routes/banlists.py:459-474 | A card line yields an id only if it contains a space, and the id is the integer before the first space. |
| Banlists.CardEntryIff | backend/src/routes/banlists.py:459-474 | A line without a space is never a card line. A line with one is read exactly when the text before the first space and the text up to the next space both parse as integers, so a bad limit skips the line. |
| Banlists.DefaultName | backend/src/routes/banlists.py:482-484 | The default name has the length of the file name without `.lflist.conf`, and contains no underscore. |
| Banlists.HandleLine | backend/src/routes/banlists.py:423-480 | One loop step never changes the format type or the official flag. |
| Banlists.ParseLflistContent | backend/src/routes/banlists.py:409-486 | A parsed list is "Custom" and unofficial. Its name is never empty unless the derived file name is. |
| Banlists.RunKeepsFormat | backend/src/routes/banlists.py:414-480 | The reader never changes the format type or the official flag. |
| Banlists.ParseLflist | backend/src/routes/banlists.py:409-486 | The loop with its mutable current section computes `ParseLflistContent`. |
| Banlists.IgnoredLine | backend/src/routes/banlists.py:423-480 | Blank lines, other `#`/`--` lines, card lines before any section and lines whose first two tokens are not integers leave the state unchanged. |
| Banlists.SecondNameIgnored | backend/src/routes/banlists.py:428-430 | A second `!` line does not change the name. |
| Banlists.BareStartDateFails | backend/src/routes/banlists.py:433-434 | A bare `--StartDate` stops the reader with the IndexError. |
| Banlists.BadDateIgnored | backend/src/routes/banlists.py:435-438 | An unparsable date is ignored. |
| Banlists.NameStep | backend/src/routes/banlists.py:428-430 | `!name`, with a trimmed non-empty name, sets exactly that name. |
| Banlists.HeaderStep | backend/src/routes/banlists.py:445-454 | Each generated section header opens its own section. |
| Banlists.CardStep | backend/src/routes/banlists.py:459-476 | A generated card line appends its id to the open section's list. |
| Banlists.CardLines | backend/src/routes/banlists.py:505-508 | One `id limit --name` line per id, in list order. |
| Banlists.SectionLines | backend/src/routes/banlists.py:503-532 | A section is written, header first, only when its list is non-empty. |
| Banlists.GenerateLflistContent | backend/src/routes/banlists.py:489-534 | The generated text starts with `!` and the banlist's name. |
| Banlists.GenerateLines | backend/src/routes/banlists.py:489-534 | The first line is `!name`. |
| Banlists.SectionRun | backend/src/routes/banlists.py:445-476 | Reading a generated section puts its ids back into its list, in order. |
| Banlists.DatesRun | backend/src/routes/banlists.py:433-444 | The generated date lines are read back through the date parser. |
| Banlists.GeneratedLinesSolid | backend/src/routes/banlists.py:489-534 | No generated line contains a newline, and none starts with white space. |
| Banlists.ReadGeneratedLines | backend/src/routes/banlists.py:420-480 | Reading the generated lines one by one gives back the banlist's name, dates and four lists. |
| Banlists.RoundTrip | backend/src/routes/banlists.py:409-534 | Parsing the generated text gives back every list in order, the name (when trimmed and non-empty) and the read-back dates. The result is "Custom" and unofficial. |
| Banlists.RunKeepsNoName | backend/src/routes/banlists.py:423-480 | Reading lines none of which starts with `!` once stripped leaves an empty name empty. |
| Banlists.NamelessFileNamedAfterFile | backend/src/routes/banlists.py:409-486 | For any content none of whose stripped lines starts with `!`, a successful parse names the banlist after the file: without `.lflist.conf`, with `_` as space, in title case. |
| Banlists.EmptyContentNamedAfterFile | backend/src/routes/banlists.py:409-486 | Empty content parses to a fresh banlist named after the file. |
| Banlists.FirstSeen | backend/src/routes/banlists.py:367-378 | The deck's distinct ids, in the order each first appears. |
| Banlists.FirstSeenDistinct | backend/src/routes/banlists.py:367-375 | No id is listed twice. |
| Banlists.FirstSeenOrdered | backend/src/routes/banlists.py:367-378 | Ids are listed in the order of their first appearance in the deck. |
| Banlists.ViolationsOf | backend/src/routes/banlists.py:377-395 | No more violations than ids checked. |
| Banlists.ViolationsDistinct | backend/src/routes/banlists.py:377-395 | For distinct ids, no two violations carry the same card id: at most one violation per card. |
| Banlists.ViolationIff | backend/src/routes/banlists.py:377-395 | A card is reported iff its total over the deck exceeds `get_max_copies`. |
| Banlists.ViolationFields | backend/src/routes/banlists.py:384-395 | Each violation carries the name (or `Card ID {id}`), the total, the limit and the restriction. |
| Banlists.ViolationsInOrder | backend/src/routes/banlists.py:377-395 | Violations appear in first-appearance order. |
| Banlists.DeckValidIff | backend/src/routes/banlists.py:356-401 | `is_valid` holds iff every card of the deck is within its limit. |
| Banlists.TotalSnoc | backend/src/routes/banlists.py:368-375 | Adding an entry adds its quantity to that card's total only. |
| Banlists.TotalAbsent | backend/src/routes/banlists.py:367-375 | A card not in the deck totals 0. |
| Banlists.CardTotals | backend/src/routes/banlists.py:360-375 | The `card_totals` loop: the keys are exactly the deck's ids, in first-seen order, each with its total over main, extra and side. |
| Banlists.ValidateDeck | backend/src/routes/banlists.py:341-401 | A missing banlist is a 404. Otherwise the response holds the aggregated violations, `is_valid` and the banlist name. |
| Banlists.AddCardToBanlist | backend/src/routes/banlists.py:153-200 | Succeeds iff the type is valid, the banlist and card exist and the add and save succeed. Failures are 400 or 404. |
| Banlists.InvalidRestrictionFirst | backend/src/routes/banlists.py:159-164 | An unknown restriction type is a 400, whatever the lookups would say. |
| AutoImport.StandardName | backend/src/services/auto_import.py:240-261 | Every standard column name is an alias of its own column. |
| AutoImport.NormalizeHeader | backend/src/services/auto_import.py:235-263 | A header whose lower-cased, trimmed form is a known alias becomes that column's standard name, which is an alias of the same column; any other header is returned lower-cased and trimmed. |
| AutoImport.NormalizedHeaderShape | backend/src/services/auto_import.py:235-263 | A normalised header is lower case and trimmed. |
| AutoImport.NormalizeHeaderIdempotent | backend/src/services/auto_import.py:235-263 | Normalising a normalised header changes nothing. |
| AutoImport.NormalizeCondition | backend/src/services/auto_import.py:301-327 | The result is always one of the six database conditions. Empty or unknown input gives "Near Mint". |
| AutoImport.NormalizeConditionIgnoresCase | backend/src/services/auto_import.py:306 | The mapping depends only on the lower-cased input. |
| AutoImport.ConditionFixed | backend/src/services/auto_import.py:309-325 | Each of the six conditions normalises to itself. |
| AutoImport.NormalizeConditionIdempotent | backend/src/services/auto_import.py:301-327 | Normalising a normalised condition changes nothing. |
| AutoImport.NormalizedRowLastWins | backend/src/services/auto_import.py:217-220 | A normalised key holds the trimmed value of the last column that normalises to it. |
| AutoImport.NormalizedRowKeys | backend/src/services/auto_import.py:217-220 | The keys of a normalised row are exactly the normalised headers. |
| AutoImport.NormalizeRow | backend/src/services/auto_import.py:217-220 | The inner loop over the row's items builds the normalised row. |
| AutoImport.ValidRows | backend/src/services/auto_import.py:215-224 | Keeps no more rows than the file has, and only valid ones. |
| AutoImport.ValidRowsSound | backend/src/services/auto_import.py:215-224 | Every kept row is the normalised form of a row of the file. |
| AutoImport.ValidRowsComplete | backend/src/services/auto_import.py:215-224 | Every row that is valid once normalised is kept. |
| AutoImport.ReadRows | backend/src/services/auto_import.py:197-229 | The row loop of `_read_csv_file` returns exactly the valid normalised rows, in file order. |
| AutoImport.CardOfRow | backend/src/services/auto_import.py:335-366 | A produced card belongs to the binder and has one of the six conditions. |
| AutoImport.CardOfRowCases | backend/src/services/auto_import.py:337-366 | A row gives a card iff its quantity (default "1") and its non-empty card id both parse as integers. The card carries those values. |
| AutoImport.MissingQuantityIsOne | backend/src/services/auto_import.py:339 | A row without a quantity column is imported with quantity 1. |
| AutoImport.Candidates | backend/src/services/auto_import.py:335-366 | One candidate per row, in row order. |
| AutoImport.Accepted | backend/src/services/auto_import.py:369-370 | Keeps at most one card per candidate, and only cards the database accepts. |
| AutoImport.AcceptedFromCandidates | backend/src/services/auto_import.py:368-374 | Every saved card is a candidate the database accepted. |
| AutoImport.AcceptedComplete | backend/src/services/auto_import.py:368-374 | Every candidate card the database accepts is saved. |
| AutoImport.ImportedCardsFromRows | backend/src/services/auto_import.py:329-376 | A card is saved iff some row becomes it and the database accepts it. |
| AutoImport.EmptyQuantityValidButSkipped | backend/src/services/auto_import.py:337-339 | A row with an empty quantity passes `_is_valid_card_row` but is skipped on import, because `int("")` fails. |
| AutoImport.ImportCardsToBinder | backend/src/services/auto_import.py:329-376 | Saves exactly the imported cards, in order, and returns how many. That count is at most the number of rows. |
| AutoImport.SplitUuid | backend/src/services/auto_import.py:181-186 | A hint, when present, is 8 hex characters. |
| AutoImport.ParseFilename | backend/src/services/auto_import.py:175-195 | The name is never empty. The hint is the one `SplitUuid` finds in the name with `.csv` dropped. |
| AutoImport.ParsedNameHasNoUnderscore | backend/src/services/auto_import.py:189-193 | A parsed name has no underscore, unless it is the generated fallback name. |
| AutoImport.ParseExpectedFilename | backend/src/services/auto_import.py:101-126 | Parsing a binder's expected file name gives its sanitised name, with spaces for underscores, and the first 8 characters of its uuid. |
| AutoImport.ExpectedFilename | backend/src/services/auto_import.py:121 | The expected file name starts with the sanitised binder name and `_`, and ends with `.csv`. |
| AutoImport.GetExistingBinderFilenames | backend/src/services/auto_import.py:89-131 | The expected `sanitize(name)_uuid[:8].csv` of every stored binder. If listing fails, the set is empty. |
| AutoImport.ProcessOutcome | backend/src/services/auto_import.py:133-173 | A file that is not skipped has an unexpected name and no binder of its parsed name. A created binder needs a lookup that found none, a readable file and a successful creation; it carries the parsed, non-empty name and imports at most one card per row. |
| AutoImport.SkippedCases | backend/src/services/auto_import.py:133-160 | A file is skipped iff its name is already expected, or a binder has its parsed name, or it has no valid row. |
| AutoImport.Outcomes | backend/src/services/auto_import.py:69-77 | One outcome per file, in order. |
| AutoImport.ScanCounts | backend/src/services/auto_import.py:41-77 | Processed counts the skipped and created files, and failed counts the raising files. Binders created, cards imported and the error messages follow the outcomes. |
| AutoImport.EveryFileCounted | backend/src/services/auto_import.py:69-77 | Each outcome is exactly one of skipped, created or raised. |
| AutoImport.ProcessedPlusFailed | backend/src/services/auto_import.py:58-77 | Processed plus failed equals the files found. |
| AutoImport.AutoImportService.constructor | backend/src/services/auto_import.py:20-31 | All statistics start at 0. |
| AutoImport.AutoImportService.ProcessCsvFile | backend/src/services/auto_import.py:133-173 | Skipped files add 1 to skipped. Created ones add 1 binder and the imported count. A read error raises "Error reading CSV file: ...". |
| AutoImport.AutoImportService.AutoImportBinders | backend/src/services/auto_import.py:33-87 | Resets the statistics. A missing directory leaves them at 0; otherwise they become the scan of all found files against the expected names. |
| FileExport.SafeChars | backend/src/services/file_export.py:379-387 | Same length; letters, digits, ` `, `-` and `_` are kept, and every other character becomes `_`. |
| FileExport.Collapse | backend/src/services/file_export.py:392 | `re.sub(r"[_\s]+", "_", s)`: a non-empty input gives a non-empty result, and a leading `_` or space becomes `_`. |
| FileExport.CollapseShape | backend/src/services/file_export.py:392 | The result holds only `_` and characters of the input, no `__` is left, and the characters that are neither `_` nor whitespace are kept, in order. |
| FileExport.CollapseRun | backend/src/services/file_export.py:392 | Each maximal run of `_` and whitespace becomes one `_`: a non-empty run between non-gaps (or the ends) is written as a single `_`, and the text on each side is collapsed on its own. |
| FileExport.CollapseGapRun | backend/src/services/file_export.py:392 | A run of gaps before a non-gap, or before the end, is written as one `_`. |
| FileExport.CollapseSplit | backend/src/services/file_export.py:392 | Text ending in a non-gap is collapsed separately from what follows it. |
| FileExport.SanitizeFilename | backend/src/services/file_export.py:371-398 | The character loop, the collapse, the 50-character cut and `strip("_")` compute the sanitised name. |
| FileExport.SanitizedClean | backend/src/services/file_export.py:379-398 | Every character is alphanumeric, `-` or `_`. The length is at most 50, there is no `__`, and no `_` at either end. |
| FileExport.CleanIsFixed | backend/src/services/file_export.py:371-398 | A non-empty clean name sanitises to itself. |
| FileExport.SanitizedIdempotent | backend/src/services/file_export.py:371-398 | Sanitising a non-empty sanitised name returns it unchanged. |
| FileExport.SanitizedUnnamed | backend/src/services/file_export.py:375-376 | A missing or empty name is saved as "unnamed". |
| FileExport.SanitizedCanBeEmpty | backend/src/services/file_export.py:371-398 | An all-punctuation name sanitises to the empty string. |
| FileExport.YdkHeader | backend/src/services/file_export.py:150-157 | `#created by ...` and `# Deck: name`, then description and format only when set, then the generated time and a blank line. |
| FileExport.Repeat | backend/src/services/file_export.py:162-163 | `max(n, 0)` copies of the line. |
| FileExport.SectionIdsCount | backend/src/services/file_export.py:159-175 | A section has one line per copy: the sum of the quantities. |
| FileExport.SectionIdsCopies | backend/src/services/file_export.py:161-163 | Each id appears exactly as many times as its copies. |
| FileExport.SectionIdsFromCards | backend/src/services/file_export.py:161-163 | Every id line is the id of one of the section's cards. |
| FileExport.WriteCopies | backend/src/services/file_export.py:162-163 | The inner loop appends the line `quantity` times. |
| FileExport.WriteSection | backend/src/services/file_export.py:160-175 | Appends the tag, then each card's id repeated by its quantity. |
| FileExport.SaveDeckAsYdk | backend/src/services/file_export.py:129-182 | Returns `None` without writing when the deck or its id is missing. Otherwise it writes `sanitize(name).ydk` with the header, then `#main`, `#extra` and `!side`. |
| FileExport.YdkLines | backend/src/services/file_export.py:150-175 | The file starts with the header and has one line per copy in the three sections, plus their three tags. |
| FileExport.YdkMainSection | backend/src/services/file_export.py:150-163 | The main section starts right after the header and holds one line per copy. |
| FileExport.JsonOf | backend/src/services/file_export.py:203-228 | One entry per card, with its id, quantity and name. |
| FileExport.JsonEntries | backend/src/services/file_export.py:203-210 | The entry loop over a section builds exactly those entries. |
| FileExport.SaveDeckAsJson | backend/src/services/file_export.py:184-266 | Gives the same guard. Otherwise it writes `sanitize(name).json` with the three sections' entries. |
| FileExport.CardNameField | backend/src/services/file_export.py:101-106 | The binder card's name, else the cached name, else `Card {id}`. |
| FileExport.CsvRow | backend/src/services/file_export.py:99-119 | One field per column of the header. |
| FileExport.CsvRowFields | backend/src/services/file_export.py:74-119 | The id, name, quantity and condition (default "Near Mint") columns hold the card's values. Without cached details, the last six are empty. |
| FileExport.BinderRows | backend/src/services/file_export.py:93-120 | One row per binder card, in order. |
| FileExport.WriteRows | backend/src/services/file_export.py:90-120 | The header row, then each card's row. |
| FileExport.SaveBinderAsCsv | backend/src/services/file_export.py:31-127 | Gives the same guard. It writes `sanitize(name).csv` with the header and one row per card; an empty binder gets only the header. |
| BinderManager.ValidEarlier | ygoprog_binder_manager.py:155-168 | A token valid now was valid at every earlier moment. |
| BinderManager.InvalidWithinBuffer | ygoprog_binder_manager.py:157-168 | A token is invalid within 5 minutes of its expiry, and when `exp` is missing or 0. |
| BinderManager.Auth.GetToken | ygoprog_binder_manager.py:170-174 | Returns the token iff it is valid. |
| BinderManager.Auth.constructor | ygoprog_binder_manager.py:38-45 | Starts with no token, then loads the token file. |
| BinderManager.Auth.LoadToken | ygoprog_binder_manager.py:133-153 | Adopts the stored token and its payload, and clears both when they are not valid. A missing or unreadable file leaves things as they were. |
| BinderManager.Auth.Login | ygoprog_binder_manager.py:66-131 | Succeeds iff the response is a success carrying a non-empty token. The token field is set from it, and the payload is set when it decodes. |
| BinderManager.Auth.EnsureValidToken | ygoprog_binder_manager.py:200-209 | Returns true without logging in when the token is valid. Otherwise it logs in only when both credentials are given, and returns false when either is missing. After a login, the token and payload are those `Login` sets: unchanged on a rejection, the returned token on an acceptance, and the payload only when the token is non-empty and decodes. |
| BinderManager.CardOfRowFields | ygoprog_binder_manager.py:429-456 | A row is kept iff its trimmed name is non-empty and its id is non-empty and all digits. The card holds the trimmed name and the id's value. A blank rarity or set becomes "Unknown" and a non-blank one is kept trimmed. The code is the trimmed cell, "" when missing. |
| BinderManager.CardCount | ygoprog_binder_manager.py:433-444 | The count is `int(cardq)` when the value is all digits (0 allowed), else 1; a missing column counts as "1". |
| BinderManager.LeadingZerosIgnored | ygoprog_binder_manager.py:443 | Prefixing a digit string with `0` keeps it all digits and keeps its value: leading zeros do not change the card id. |
| BinderManager.CardsOfRows | ygoprog_binder_manager.py:429-456 | At most one card per row. |
| BinderManager.CardsOfRowsSound | ygoprog_binder_manager.py:429-456 | Every collected card is the card of some row. |
| BinderManager.CardsOfRowsComplete | ygoprog_binder_manager.py:429-456 | Every kept row contributes its card. |
| BinderManager.CollectCards | ygoprog_binder_manager.py:424-456 | The row loop reports every row readable iff no read column holds the `None` of a short row. When all are readable it collects exactly the kept rows' cards, in order. |
| BinderManager.FirstMatch | ygoprog_binder_manager.py:363-367 | The least index whose card matches both code and rarity; there is none iff no card matches. |
| BinderManager.NonBlank | ygoprog_binder_manager.py:508 | No more lines than the input, each non-empty and trimmed. |
| BinderManager.NonBlankKeepsAll | ygoprog_binder_manager.py:508 | All lines are kept when none is blank. |
| BinderManager.ExportCount | ygoprog_binder_manager.py:508-509 | The reported count is less than the number of lines of the stripped text. |
| BinderManager.ExportCountOfLines | ygoprog_binder_manager.py:508-509 | A header line plus one line per card reports exactly the number of cards. |
| BinderManager.DispositionFilenameStripped | ygoprog_binder_manager.py:495-498 | When the only `=` of a `Content-Disposition` belongs to `filename=`, the name is the text after it. White space is stripped from the text first, then `"` from both ends. |
| BinderManager.QuotedDispositionFilename | ygoprog_binder_manager.py:495-498 | `filename="name"` gives `name` when the name holds no quote and no `=`. |
| BinderManager.DispositionFilename | ygoprog_binder_manager.py:495-498 | A name after `filename=` that is already trimmed and unquoted is returned as is. |
| BinderManager.ExportFilename | ygoprog_binder_manager.py:490-498 | A given file name is used as is. Without one, and without `filename=` in the header, the name starts with `binder_` and ends with `.csv`. |
| BinderManager.Manager.constructor | ygoprog_binder_manager.py:215-217 | Keeps the given authentication. |
| BinderManager.Manager.ImportCsvToBinder | ygoprog_binder_manager.py:416-473 | Fails without a valid token, on a file error, on a short row whose read column is `None` (the `strip` raises and the handler returns false), or when no row survives. Otherwise it uploads exactly the collected cards, and the upload's answer is the result. |
| BinderManager.Manager.RemoveCard | ygoprog_binder_manager.py:352-383 | Without a valid token, or with no match, the result is false. A first match with count <= 0 gives true and no update. Otherwise it sends delta `-count`. |
| BinderManager.Manager.ExportBinderToCsv | ygoprog_binder_manager.py:475-527 | A `filename` argument wins, else the `Content-Disposition` name, else `binder_{id[:8]}.csv`. The reported count is `max(0, non-blank lines - 1)`, and a non-200 status fails. |

## Left out

- Redis tier of `CacheService`: `initialize_cache` calls `initialize_redis`, so a reachable Redis server adds a third tier. Redis is left out as an external service, and the model is the configuration without one, where `redis_client` stays `None`. `Stats` reports it as absent.
- Concurrency: the `asyncio.Semaphore` of `RequestQueue` and the `asyncio` sleeps are not modelled. Sleeps are returned as delay values, and the in-flight bound is not modelled.
- Clocks: `time.time()` and `datetime.now()` are one explicit `now` in `real` seconds, not an integer clock. `timedelta` arithmetic is exact real arithmetic.
- Floating point: `backoff_factor ** n`, delays and jitter are exact `real`s. Float rounding and overflow are not modelled.
- Randomness: `random.random()` is a draw passed in with each attempt.
- Caching.GenerateCacheKey: `json.dumps` followed by `hashlib.md5` is an abstract digest function on the sorted pairs. The key depends on the pairs only through that digest.
- JWT decoding: `_decode_and_save_token`'s base64 and JSON decoding of the payload is an input (the decoded claims or none). Writing the token file, `get_token_info` and `from_env` are not modelled.
- HTTP calls: `login`, `get_binder_contents`, `add_cards_to_binder`, `update_card_count` and the export request are answered by response parameters. Headers, URLs, time-outs and printed messages are not modelled.
- Files: `open`/`write`, directory creation and `glob` are not modelled; the model produces the lines or rows that would be written, plus an outcome parameter. `cleanup_old_files`, `list_*_files` and `delete_binder_csv` are not modelled.
- BinderManager.Manager.ExportBinderToCsv: a failing write of the exported file is not modelled.
- CSV library: `csv.Sniffer` delimiter detection, quoting and `DictReader` itself are not modelled. A file is given as its rows of (header, value) pairs or a read error. In the auto-import, a short row's `None` cells read as "" (`value.strip() if value else ""`). A long row's extra cells sit under the key `None`, and `_normalize_header(None)` raises, so a file with such a row is given as a read error ("Error reading CSV file"). In the command-line import a short row's `None` cell makes `strip` raise and the import return false (`Readable`); the extra cells of a long row are never read there, so they are not modelled.
- AutoImport.AutoImportService.ProcessCsvFile: the binder is created with a description and a timestamp. The model keeps only that creation succeeds or fails, and whether the database accepts each card is a parameter.
- `BinderCard` in the context data model has no `edition` field, so the `BinderCard(..., edition=...)` constructor call of the import (auto_import.py:356-366) would raise a TypeError, caught per row at :372. Whether a card is accepted is a parameter for that reason.
- FileExport.CsvRow and FileExport.SaveBinderAsCsv: the export assumes a `BinderCard` that has an `edition` attribute. With the context data model's `BinderCard`, `binder_card.edition` (file_export.py:111) would raise AttributeError, and the handler at :124-127 would return `None` for every non-empty binder; that failing write is not modelled.
- The outer "Critical error during auto-import" handler of `auto_import_binders` is not modelled: nothing it guards can raise once `_get_existing_binder_filenames` catches its own errors.
- Unicode: `isalnum`, `isdigit`, `lower`, `title`, `strip`, `int()` and regex `\s` are modelled for ASCII only.
- Database lookups: `Banlist.get_by_uuid`/`get_by_id`, `get_max_copies`, `get_card_restriction`, `Card.get_by_id`, `Binder.get_all` and `Binder.get_by_name` are function parameters. Date parsing and formatting are too.
- FastAPI glue: routers, `HTTPException` wrapping in `with_error_handling`, `apply_rate_limit` and the remaining banlist routes are not modelled.
- Deck JSON metadata: the `deck` object and timestamps in the JSON backup are not modelled; only the three card sections are.
