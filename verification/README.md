# rusty_provider, verified parts

A Dafny 4.11 model of the self-contained state machines and algorithms of the rusty_provider LLM gateway, with proofs
of what they promise. `dafny verify dfyconfig.toml` checks everything.

| file | models |
|---|---|
| `Calendar.dfy`, `Decimal.dfy` | the hand-written civil calendar, period keys and day strings of `client_budget.rs` |
| `Spend.dfy` | spend rollover in memory, the three upserted tables of `persistence.rs`, budget events |
| `FreeTiers.dfy` | token accounting against free tiers |
| `RateLimit.dfy` | the token-bucket limiter |
| `ResponseCache.dfy`, `SemanticCache.dfy` | the exact-match and the similarity cache of `cache.rs` |
| `Anthropic.dfy` | `chat` and `chat_stream` as two translations of one provider message |
| `Compressor.dfy`, `Strings.dfy` | the tool-output compressor `rtk.rs` and the string operations it uses |
| `Admin.dfy` | the client registry under scoped admin requests |
| `PathMerge.dfy` | merging settings into a JSON or TOML tree |
| `Retry.dfy`, `Supervisor.dfy` | exponential backoff, webhook delivery, and the supervisors of MCP upstreams |
| `Options.dfy`, `Numbers.dfy` | options, `u32`, and the capacity rule of both caches |

Objects that the source updates in place are classes here (`TokenBucket`, `RateLimiter`, the two `Cache`s, `SpendState`,
`Store`, `Tracker`, `StreamState`, `AppState`) and its loops are loops; each method is proved equal to a function on
values, and whole runs are then reasoned about through that function. The supervisors, which run concurrently, are a
state machine whose runs are all interleavings of their steps.

Conventions. Floating point is replaced by exact reals, and clocks by numbers passed in. Clocks are monotone only where
a statement says `Timely`. Integer widths are written out where they matter: the `as i32` cast of the year, `u32`
counters and sums of the Anthropic adapter (wrapping, as in a release build), saturating `u64` token counts. Beyond
`LAST_DAY` the `i64` sums of the calendar do not overflow until far later, so the cast is the first thing to go wrong.

Where the code and its documentation part, or a promise holds only under a condition, the exact condition is proved:

- the civil date is right exactly when its year fits `i32` (`YmdIsGregorianIffYearFits`, `MonthlyKeyIsExactIffInRange`);
- a check is held to the rate it names, as the documentation of the limiter has it, exactly when its key has no bucket
  yet or one opened with that rate (`LimitIsNamedRateIff`); in every run that is the rate of the first check of the key
  (`LimitIsFirstRate`);
- deleting a rejected check from a rate-limited run is invisible unless that check opened its bucket with rate 0 and the
  next one would have opened it with another rate (`RejectedCheckIsTransparentIff`);
- the response cache is the first-in first-out cache its comment describes, at every point of a run, exactly when no
  read of the run drops an expired entry (`CacheIsFifoIffNoDrops`, `StaleKeyEvictsNewEntry`); `LookupHitsIff` says what
  it is in all runs;
- `compress` promises a non-empty result for non-empty input; it is empty exactly for input that is blank after
  stripping (`CompressIsEmptyIff`, `BareNewlineVanishes`);
- streaming and non-streaming answers agree exactly when the token counters fit `u32`, the fragments add up to the
  content and reasoning, and the tool calls come out alike: without a forced schema tool the JSON fragments spell every
  input, with one the model called no other tool (`StreamAgreesWithChatIff`, `FragmentsDecide`, `OtherToolDiffers`); a
  tool call without arguments that is streamed without JSON fragments differs in either mode (`EmptyInputDiffers`,
  `EmptyForcedInputDiffers`);
- a client's row in `client_spend` is independent of delivery order exactly when all its writes, spends and resets, are
  for one period and no reset comes with a spend that costs anything (`SpendIgnoresDeliveryOrderIff`, `ResetRaces`);
- memory and table enforce the same budget exactly when what memory has forgotten comes to nothing
  (`MemoryIsTableLessForgotten`): budget checks under another period, the deletion of a client and a restart each forget
  what the table keeps.  So a client whose budget period is changed to another one and back, and one that is deleted and
  created again under its name, are treated differently (`ChangedPeriodForgets`, `DeletionForgets`); a new client of one
  budget period that is not deleted is treated alike as long as the process runs (`MemoryAgreesWithTable`);
- applying a setup plan twice is harmless exactly when no field path leads through another (`PlanIsIdempotentIff`).

## Model

| member | source | states |
|---|---|---|
| Calendar.WideDateIsCivil | crates/router/src/client_budget.rs:95-107 | every day index, negative ones included, gets an existing date, and the RFC 3339 day count of that date is the index |
| Calendar.CivilIsWideDate | crates/router/src/client_budget.rs:95-107 | every existing date is the date of its day count: the two are inverse |
| Calendar.NextDayIsSuccessor | crates/router/src/client_budget.rs:95-107 | the next day index is the next calendar day across months, leap days, centuries and eras |
| Calendar.YearFits | crates/router/src/client_budget.rs:95-107 | exactly the days between two constants have a year that fits `i32` |
| Calendar.YmdIsGregorianIffYearFits | crates/router/src/client_budget.rs:95-107 | with the final cast, the date is the Gregorian one if and only if the day is between those constants |
| Calendar.CivilIsYmd | crates/router/src/client_budget.rs:95-107 | any date with an `i32` year is what the function returns for its day count |
| Calendar.NextYmdIsSuccessor | crates/router/src/client_budget.rs:95-107 | the successor law for the function with the cast |
| Calendar.EpochIsDayZero | crates/router/src/client_budget.rs:88-107 | day 0 is 1970-01-01 |
| Calendar.LastDayWraps | crates/router/src/client_budget.rs:106-106 | one day past the last good day the year jumps to -2147483648 |
| Calendar.AsI32KeepsLowBits | crates/router/src/client_budget.rs:106-106 | the cast keeps the low 32 bits as a signed number |
| Calendar.FixedCadences | crates/router/src/client_budget.rs:63-79 | the Total key never changes; the Daily and Weekly keys number the days and the seven-day spans since the epoch, negative times included |
| Calendar.PeriodKeysAreMonotone | crates/router/src/client_budget.rs:63-79 | no period key ever goes back in time |
| Calendar.MonthlyKeyIsCalendarMonth | crates/router/src/client_budget.rs:66-79 | two instants share the Monthly key if and only if they lie in one calendar month of one year |
| Calendar.MonthlyKeyStepsAtMonthStart | crates/router/src/client_budget.rs:66-79 | second by second, the key rises by one at the first second of a month and never otherwise |
| Calendar.MonthlyKeyIsExactIffInRange | crates/router/src/client_budget.rs:74-85 | the key is that of the calendar month if and only if the year fits `i32` |
| Calendar.SameDaySamePeriods | crates/router/src/client_budget.rs:69-79 | instants with one Daily key share every period key |
| Calendar.DayStringSpellsDate | crates/router/src/client_budget.rs:109-115 | for every `i32` year the day string spells the year, month and day of the Gregorian date with that day index, zero padded, with a minus sign for years before 0 |
| Calendar.DayStringIsFullDate | crates/router/src/client_budget.rs:109-115 | for years 0 to 9999 it has ten characters with dashes at positions 4 and 7, the `full-date` of section 5.6 of RFC 3339 |
| Calendar.DayStringIsInjective | crates/router/src/client_budget.rs:109-115 | no two days of `i32` years share a day string |
| Calendar.DayStringOrder | crates/router/src/client_budget.rs:109-115 | for years 0 to 9999 the byte order of day strings is exactly the order of days |
| Decimal.ValueOfDec | crates/router/src/client_budget.rs:112-115 | reading a rendered number back gives the number |
| Spend.SpendState.RollPeriodIfNeeded | crates/router/src/client_budget.rs:117-125 | in place, the rollover function |
| Spend.SpendState.Record | crates/router/src/lib.rs:1560-1576 | rolls over, adds the cost, and reports a crossing exactly when the spend of the period passes from under the budget to at least it |
| Spend.SpendState.Spent | crates/router/src/lib.rs:1430-1451 | a read rolls over and returns what was spent in the current period |
| Spend.Store.Execute | crates/router/src/persistence.rs:332-380 | one upsert on the three tables |
| Spend.Store.WriterLoop | crates/router/src/persistence.rs:331-384 | the writer thread leaves whatever the tables held as the fold of what it received |
| Spend.UpsertRefinesRollover | crates/router/src/persistence.rs:348-363 | on any tables and for every sequence of writes a client has a row if it had one or was written to, and the row is the in-memory state after the same events |
| Spend.BalanceIsSumSinceBoundary | crates/router/src/persistence.rs:159-185 | table and memory both answer a budget check with the costs since the client's last reset or change of period, on top of what was there before if there was none |
| Spend.MemoryIsTableLessForgotten | crates/router/src/lib.rs:1430-1451 | for every run of events, budget checks, deletions and restarts, every period and any tables, memory answers what the table answers less the amount that checks under another period, deletions and restarts made it forget |
| Spend.ReadsAreTransparent | crates/router/src/lib.rs:1430-1451 | with keys that never go back, checks inserted anywhere change no later answer, whatever is deleted or restarted |
| Spend.MemoryAgreesWithTable | crates/router/src/lib.rs:1430-1451 | so memory and table answer alike for a new client of one budget period that is neither deleted nor lost by a restart |
| Spend.ChangedPeriodForgets | crates/router/src/lib.rs:1430-1451 | a run with a change of budget period after which the two differ: five dollars in the table, none in memory |
| Spend.DeletionForgets | crates/router/src/lib.rs:1690-1693 | the same for a client that is deleted and created again under its name |
| Spend.UsageRowIsSum | crates/router/src/persistence.rs:333-347 | a usage row grows by the column-wise sum of what is written to its key |
| Spend.DayRowIsSum | crates/router/src/persistence.rs:364-379 | the same for a client's day |
| Spend.UsageColumnsAreSums | crates/router/src/persistence.rs:333-347 | column by column: requests grow by the number of writes to the key, prompt tokens, completion tokens and cost by the sums of theirs, an unknown cost counting as 0 |
| Spend.DayColumnsAreSums | crates/router/src/persistence.rs:364-379 | the same for a client's day |
| Spend.UsageIgnoresDeliveryOrder | crates/router/src/persistence.rs:616-641 | whatever they held, the two usage tables depend only on which writes arrive, not on their order, so every interleaving of writers agrees |
| Spend.SpendIgnoresDeliveryOrderIff | crates/router/src/persistence.rs:666-704 | for any tables and any writes, a client's spend row is the same for every delivery order if and only if its spends and resets are all for one period and no reset comes with a spend that costs anything |
| Spend.ResetRaces | crates/router/src/persistence.rs:666-704 | a spend and a reset of one period that end in two different rows |
| Spend.LimitFiresOnce | crates/router/src/lib.rs:1471-1587 | at every point of every run, the exceeded (or warning) event has fired exactly once since the spend was last cleared (by a reset, a change of period, a deletion or a restart) if the limit is reached, and otherwise not |
| FreeTiers.Tracker.RecordUsage | crates/router/src/free_tiers.rs:55-69 | rolls over and adds, saturating; a no-op for an unconfigured key |
| FreeTiers.Tracker.StatusSnapshot | crates/router/src/free_tiers.rs:105-129 | reports every configured key and rolls each over, whatever the order of iteration |
| FreeTiers.ReportIsExact | crates/router/src/free_tiers.rs:51-129 | after any run the report names exactly the configured keys, with the tokens recorded in the current period up to the largest `u64` and what is left |
| FreeTiers.OnlyConfiguredKeys | crates/router/src/free_tiers.rs:51-69 | no run creates state for an unconfigured key |
| FreeTiers.SnapshotsAreTransparent | crates/router/src/free_tiers.rs:97-129 | deleting every snapshot from a run changes no later report |
| RateLimit.TokenBucket.Refill | crates/core/src/rate_limit.rs:24-29 | in place, the refill function |
| RateLimit.TokenBucket.TryAcquire | crates/core/src/rate_limit.rs:42-73 | new bucket and reported status as specified |
| RateLimit.RateLimiter.Check | crates/core/src/rate_limit.rs:109-124 | changes the bucket of the key and no other |
| RateLimit.RunsKeepBounds | crates/core/src/rate_limit.rs:24-73 | over every run each bucket holds between zero and its capacity, and no capacity changes |
| RateLimit.AdmissionsAreBounded | crates/core/src/rate_limit.rs:5-8 | in any window of any run a key is admitted at most its capacity plus the refill of the window |
| RateLimit.KeysAreIndependent | crates/core/src/rate_limit.rs:93-98 | striking the checks of all other keys leaves a key's answers as they were |
| RateLimit.RefillComposes | crates/core/src/rate_limit.rs:24-29 | refilling in two waits is refilling in one |
| RateLimit.WaitRefills | crates/core/src/rate_limit.rs:24-29 | a wait of `w` seconds adds `w` sixtieths of the capacity, up to the capacity |
| RateLimit.RejectedCheckIsTransparentIff | crates/core/src/rate_limit.rs:45-73 | deleting a rejected check changes no other outcome, except exactly when it opened its bucket and the next check of the key names a positive rate |
| RateLimit.RetryAfterIsExact | crates/core/src/rate_limit.rs:56-72 | a retry after a wait succeeds if and only if the wait is at least the reported one; never for rate 0 |
| RateLimit.ResetIsExact | crates/core/src/rate_limit.rs:31-40 | the bucket is full again exactly from the reported reset on |
| RateLimit.RemainingIsExact | crates/core/src/rate_limit.rs:48-54 | `remaining` is the number of further checks that would succeed at the same instant |
| RateLimit.StatusFields | crates/core/src/rate_limit.rs:42-73 | an admission reports no wait, a rejection nothing remaining, and rate 0 a minute for both waits |
| RateLimit.EarlierClockRefillsNothing | crates/core/src/rate_limit.rs:24-29 | a clock reading before the last one refills nothing |
| RateLimit.LimitIsNamedRateIff | crates/core/src/rate_limit.rs:93-124 | the reported limit is the rate the check names if and only if its key has no bucket yet or one opened with that rate |
| RateLimit.LimitIsFirstRate | crates/core/src/rate_limit.rs:114-124 | in every run a check is held to the rate that the first check of its key named |
| RateLimit.ZeroRateCheckMatters | crates/core/src/rate_limit.rs:45-73 | a rejected check of rate 0 without which the next check would have been admitted |
| ResponseCache.Cache.Get | crates/router/src/cache.rs:58-70 | a read, with the removal of an expired entry from the map only |
| ResponseCache.Cache.Insert | crates/router/src/cache.rs:72-82 | an insert, with the eviction of the oldest queued key |
| ResponseCache.RunsAreBounded | crates/router/src/cache.rs:63-82 | over every run the map stays inside the queue, both within the capacity, and each entry is the latest insert under its key |
| ResponseCache.InStepIffSizesAgree | crates/router/src/cache.rs:72-82 | the queue lists every key once exactly when it is as long as the map is large |
| ResponseCache.OnlyDropsBreakStep | crates/router/src/cache.rs:63-82 | from such a state an operation leads out of it exactly when it is a read of an expired entry |
| ResponseCache.CacheIsFifoWithoutDrops | crates/router/src/cache.rs:22-25 | in runs without such reads the cache is the bounded first-in first-out list of entries |
| ResponseCache.CacheIsFifoIffNoDrops | crates/router/src/cache.rs:63-82 | the cache is that list at every point of a run if and only if no read of the run drops an entry |
| ResponseCache.StaleKeyEvictsNewEntry | crates/router/src/cache.rs:65-78 | a run that shows the hypothesis is needed |
| ResponseCache.QueueIsEndOfLog | crates/router/src/cache.rs:72-80 | the queue is the end of the log of pushed keys |
| ResponseCache.PresentIff | crates/router/src/cache.rs:63-82 | exactly when a key is held after any run, drops and stale copies included |
| ResponseCache.DropsIffOlder | crates/router/src/cache.rs:63-70 | a read drops the entry of its key exactly when that is more than the TTL old, and answers with it otherwise |
| ResponseCache.LookupHitsIff | crates/router/src/cache.rs:58-70 | exactly when a lookup hits after any run (the latest insert is at most the TTL old, and nothing has dropped or evicted it), and with which response |
| SemanticCache.CauchySchwarz | crates/router/src/cache.rs:93-104 | the square of the dot product is at most the product of the squared norms |
| SemanticCache.DotIsDotProduct | crates/router/src/cache.rs:93-104 | the accumulated product picks out components, is symmetric, additive and homogeneous |
| SemanticCache.CosineBounds | crates/router/src/cache.rs:85-104 | similarities are symmetric, between -1 and 1, and 0 on a length mismatch or for a zero vector |
| SemanticCache.CosineIsNormalizedDot | crates/router/src/cache.rs:93-104 | the similarity times the product of the norms is the dot product |
| SemanticCache.CosineOfSelf | crates/router/src/cache.rs:93-104 | a nonzero vector is fully similar to itself |
| SemanticCache.Cache.Get | crates/router/src/cache.rs:159-170 | the sweep and the search, loop by loop: exactly the entries at most the TTL old are left, in order, and the answer is the latest of the most similar ones among those old entries that are young enough, of the scope and at least at the threshold |
| SemanticCache.Cache.Insert | crates/router/src/cache.rs:172-182 | appends and evicts the oldest beyond the capacity |
| SemanticCache.BestIsLatestBest | crates/router/src/cache.rs:153-169 | the answer qualifies, nothing qualifying is more similar, the latest wins ties, and there is none only when nothing qualifies |
| SemanticCache.UnexpiredIff | crates/router/src/cache.rs:160-161 | the sweep keeps exactly the entries at most the TTL old |
| SemanticCache.DequeIsEndOfLog | crates/router/src/cache.rs:159-182 | the deque is always the end of the insert log, within the capacity |
| SemanticCache.LookupSeesLog | crates/router/src/cache.rs:159-182 | a lookup answers with the latest of the most similar ones among the last `capacity` inserts that are at most the TTL old, of the scope and at least at the threshold |
| Anthropic.Chat | crates/providers/src/anthropic.rs:527-600 | the block loop computes the whole-response answer |
| Anthropic.StreamState.OnEvent | crates/providers/src/anthropic.rs:629-830 | the branches of the stream closure: captured counters and the chunk for an event |
| Anthropic.ChatStream | crates/providers/src/anthropic.rs:628-835 | the chunks made from any events, one by one, assemble to the streamed answer |
| Anthropic.NoiseIsIgnored | crates/providers/src/anthropic.rs:815-827 | pings, stops and unknown events have no effect wherever they come |
| Anthropic.StreamIsRendering | crates/providers/src/anthropic.rs:633-831 | what a client assembles depends on nothing but the blocks its fragments add up to |
| Anthropic.StreamAgreesWithChatIff | crates/providers/src/anthropic.rs:527-831 | for every message, any fragments and noise, both clients get the same content, reasoning, tool calls, finish reason and usage if and only if the counters fit, the fragments add up to content and reasoning, and the fragments spell every tool input or, in forced mode, only the forced tool was called |
| Anthropic.FragmentsDecide | crates/providers/src/anthropic.rs:527-831 | when text and thinking are spelled out, matching inputs make both clients agree just when the counters fit and a forced mode saw only the forced tool, and with at most one call in forced mode they are needed too |
| Anthropic.StreamedCallsAgreeIff | crates/providers/src/anthropic.rs:534-548 | without a forced tool the tool calls agree if and only if the JSON fragments spell out every serialized input |
| Anthropic.EmptyInputDiffers | crates/providers/src/anthropic.rs:537-537 | a tool call without arguments, streamed without fragments, does not agree |
| Anthropic.EmptyForcedInputDiffers | crates/providers/src/anthropic.rs:537-545 | nor does such a call of a forced tool |
| Anthropic.OtherToolDiffers | crates/providers/src/anthropic.rs:538-548 | with a forced tool, a call of another tool is a tool call for `chat` and content for the stream |
| Anthropic.UsagesAgree | crates/providers/src/anthropic.rs:364-375 | both ways of adding up the token counters agree, wrap-around included |
| Anthropic.StopReasonsAreReported | crates/providers/src/anthropic.rs:377-384 | in both answers `length` means `max_tokens`, `tool_calls` means `tool_use`, none means none and every other reason is `stop`; with a forced tool it is always `stop` |
| Anthropic.UsageIsReported | crates/providers/src/anthropic.rs:364-375 | in both answers the prompt count includes both cache counters, the total adds the output, sums wrap at 2^32, and cache counters are absent when 0 |
| Anthropic.ChatAnswers | crates/providers/src/anthropic.rs:527-586 | content, reasoning and tool calls of the whole response are what its blocks add up to, and absent when that is nothing |
| Anthropic.ChatFailsIff | crates/providers/src/anthropic.rs:364-375 | a response is refused exactly when a counter is no `u32` |
| Anthropic.StreamFailsIff | crates/providers/src/anthropic.rs:816-827 | a stream fails exactly when the provider sends an error event |
| Compressor.DedupeRepeatedLines | crates/router/src/rtk.rs:95-120 | the nested loops compute the run-length code |
| Compressor.DedupeIsLossless | crates/router/src/rtk.rs:95-120 | at every threshold, expanding the markers gives back the input when no input line looks like a marker |
| Compressor.RunsAreCoded | crates/router/src/rtk.rs:100-120 | exactly the runs of at least `threshold` equal lines become one line and a marker |
| Compressor.MarkersAreAmbiguous | crates/router/src/rtk.rs:110-111 | two inputs with one output, one of them with such a line |
| Compressor.DedupeShortens | crates/router/src/rtk.rs:110-116 | from threshold 2 on the output is never longer than the input |
| Compressor.HeadTail | crates/router/src/rtk.rs:122-136 | head and tail verbatim around one marker that counts what is missing |
| Compressor.CollapseRuns | crates/router/src/rtk.rs:144-187 | the loop of the test and the build category |
| Compressor.CollapsedAccounts | crates/router/src/rtk.rs:144-187 | the output accounts for every input line in order: kept lines verbatim, each marker for a maximal run |
| Compressor.AccountIsExact | crates/router/src/rtk.rs:144-187 | the kept lines are the lines that do not collapse, the markers add up to the rest, and no two markers are adjacent |
| Compressor.MarkersNameTheirNumber | crates/router/src/rtk.rs:111-175 | every marker is its fixed text around the number of lines it stands for |
| Compressor.CollapsedLinesAre | crates/router/src/rtk.rs:153-179 | passing tests are the lines that, after white space, begin with `test ` and end with ` ok`, and compiling lines those that begin with `Compiling ` |
| Compressor.NothingImportantIsLost | crates/router/src/rtk.rs:144-187 | every other line of a test or build output, a failed test for example, is a line of the compressed text |
| Compressor.PackageOutputIs | crates/router/src/rtk.rs:189-221 | a package log of at most four lines stays; of a longer one exactly the summary lines are left, or the first and last two around a marker |
| Compressor.ClassificationIs | crates/router/src/rtk.rs:48-93 | the category of a text is the first of the four shapes it has, each spelled out by keywords, line beginnings and ends, and the hexadecimal word after `commit` |
| Compressor.SummaryLinesAre | crates/router/src/rtk.rs:199-208 | which lines of a package log are summary lines |
| Compressor.LongOutputIsCut | crates/router/src/rtk.rs:138-142 | git output has at most 13 lines and unclassified output at most 81 |
| Compressor.GitLines | crates/router/src/rtk.rs:138-142 | git output keeps all run-length coded lines, or the first eight and the last four around one marker |
| Compressor.GenericLines | crates/router/src/rtk.rs:223-227 | the same with forty and forty |
| Compressor.StripAnsiLoop | crates/router/src/rtk.rs:30-46 | the character loop that strips escape sequences |
| Compressor.PlainTextIsNotStripped | crates/router/src/rtk.rs:30-46 | text without an escape character is not changed by stripping |
| Compressor.SequenceIsStripped | crates/router/src/rtk.rs:30-46 | an escape sequence disappears from the escape to the letter that ends it, and nothing around it does |
| Compressor.Compress | crates/router/src/rtk.rs:229-242 | strip, classify, compress by category |
| Compressor.CompressIsEmptyIff | crates/router/src/rtk.rs:229-242 | the result is empty if and only if the stripped text is empty or one bare line ending |
| Compressor.BareNewlineVanishes | crates/router/src/rtk.rs:229-242 | one such input that is not empty |
| Strings.JoinedLines | crates/router/src/rtk.rs:140-141 | joining lines gives no more lines than there were |
| Strings.LinesOfJoin | crates/router/src/rtk.rs:139-141 | joined lines are read back when none holds or ends in a line ending and the last is not empty |
| Strings.ContainsIff | crates/router/src/rtk.rs:49-53 | containing means standing at some position |
| Strings.LowercaseIs | crates/router/src/rtk.rs:49-49 | only the letters A to Z change, by 32 |
| Admin.LoadKeys | crates/server/src/main.rs:55-65 | the startup loop that loads the API keys |
| Admin.LoadedKeysAre | crates/server/src/main.rs:55-65 | exactly the non-empty variables of clients are keys, each of one of the clients it was set for, at that client's rate |
| Admin.StartupIsConsistent | crates/server/src/main.rs:55-65 | differently named clients start consistent, whatever the environment holds |
| Admin.AuthorizationIsExact | crates/server/src/routes.rs:141-190 | who is let in, with which scope, and when the API is hidden |
| Admin.StatusesAreExact | crates/server/src/routes.rs:1364-1394 | a granted request succeeds exactly when it is valid and what it names is free, or in scope |
| Admin.RequestsKeepConsistent | crates/server/src/routes.rs:1346-1583 | every request keeps names unique, keys at an existing client's rate, one key each, and budgets equal to the clients' |
| Admin.ReachableIsConsistent | crates/server/src/routes.rs:1346-1583 | so does every run from startup |
| Admin.RequestsStayInScope | crates/server/src/routes.rs:192-199 | a refused request changes nothing; an administrator scoped to an organization changes no client, key or budget of a client with another one, and adds none |
| Admin.OrganizationAndRoleAreFixed | crates/server/src/routes.rs:1492-1510 | a surviving client keeps its organization, workspace and role |
| Admin.RevokedKeysResolveToNobody | crates/server/src/routes.rs:1512-1531 | a rotated key is gone and its successor is the client's only key; a deleted client leaves nothing |
| Admin.RevokedKeysStayOut | crates/server/src/routes.rs:1346-1583 | over every run from startup a revoked key stays out and lets nobody in until a later request asks for that very key |
| Admin.CreatedClientIsAsRequested | crates/server/src/routes.rs:1373-1433 | a created client has the requested fields, lies in the caller's scope, and has the given or generated key as its only one |
| Admin.UpdateSetsNamedFields | crates/server/src/routes.rs:1500-1508 | an update sets the fields the request names and keeps the others |
| Admin.KeyDecidesRate | crates/server/src/routes.rs:201-233 | the rate found by name is the rate stored beside the caller's key |
| Admin.RateLimitIs | crates/server/src/routes.rs:201-233 | an identified client is held to its own rate, everybody else to the default rate by address if there is one |
| Admin.AppState.CreateClient | crates/server/src/routes.rs:1346-1433 | the create handler on the three tables |
| Admin.AppState.UpdateClient | crates/server/src/routes.rs:1462-1552 | the update handler |
| Admin.AppState.DeleteClient | crates/server/src/routes.rs:1554-1583 | the delete handler |
| PathMerge.SetPath | crates/cli/src/setup.rs:96-120 | the cursor walk sets the path, and leaves the tree as it was when it fails |
| PathMerge.FailsIffBlocked | crates/cli/src/setup.rs:104-110 | it fails exactly when a proper prefix holds a non-object, and reports the shortest one |
| PathMerge.SetThenGet | crates/cli/src/setup.rs:96-142 | the path reads back as the value, and every path not comparable with it as before |
| PathMerge.SetsCommute | crates/cli/src/setup.rs:96-142 | incomparable paths can be set in either order |
| PathMerge.BuildPlan | crates/cli/src/setup.rs:179-222 | the two loops: which fields are skipped and what the others do to the tree |
| PathMerge.FieldsAreSetOrSkipped | crates/cli/src/setup.rs:179-187 | exactly the fields that need a missing API key variable are skipped, the others are set, in order |
| PathMerge.PlanSetsFields | crates/cli/src/setup.rs:197-219 | after a plan its paths read as the rendered values, and what no field is comparable with as before |
| PathMerge.PlanIsIdempotentIff | crates/cli/src/setup.rs:197-219 | a plan applied again changes nothing if and only if no field path is a proper prefix of another; otherwise it fails |
| Retry.SleepClosedForm | crates/router/src/webhook.rs:89-94 | the k-th sleep is the initial one for k = 0 and min(initial * 2^k, max) after it |
| Retry.Send | crates/router/src/webhook.rs:177-214 | the delivery loop: every attempt and every sleep |
| Retry.LastAttempt | crates/router/src/webhook.rs:207-209 | it stops at the first success or permanent failure, or after `max_retries` retries |
| Retry.DeliveredIff | crates/router/src/webhook.rs:177-214 | every answer but the last is missing or a 5xx, the last is of another kind (a 4xx is final) or the last allowed, and the event is delivered exactly when an allowed attempt would get a 2xx after such answers only |
| Supervisor.PeersAreTheLiveConnections | crates/mcp/src/gateway.rs:190-264 | under every interleaving a name is in `peers` exactly while its supervisor waits on a connection or has not yet removed a dropped one, the handle there is that of this connection, and no two supervisors share a connection |
| Supervisor.ConnectingPublishes | crates/mcp/src/gateway.rs:91-95 | a successful connect, at startup or after a drop, puts the name into `peers` with the new connection |
| Supervisor.DropIsNoticed | crates/mcp/src/gateway.rs:208-235 | a drop takes the name out of `peers`, and is followed by the initial sleep unless no attempt is allowed |
| Supervisor.FailureIsRetried | crates/mcp/src/gateway.rs:223-250 | a failed connect is followed by another sleep, or by giving up if it was the last one allowed |
| Supervisor.SomethingIsEnabled | crates/mcp/src/gateway.rs:199-264 | a supervisor that has not given up is never stuck |
| Supervisor.GivingUpIsPermanent | crates/mcp/src/gateway.rs:194-198 | a supervisor that gave up, or never started, stays out of `peers` for good |
| Supervisor.ConnectsAreBounded | crates/mcp/src/gateway.rs:221-250 | at most `max_attempts` connects follow a drop, and giving up takes exactly that many |
| Supervisor.SleepsAreExponential | crates/mcp/src/gateway.rs:221-277 | each sleep has the closed form in the number of failed connects since the drop |

## Left out

- Request dispatch, fallback chains, fusion, middle-out, pricing and reasoning replay of `crates/router/src/lib.rs`; only its in-memory spend ledger is modelled.
- HTTP, SSE framing, SQL engines, TLS, Prometheus metrics and the MCP transports: only the events they deliver appear.
- Parsing and printing of JSON, TOML and request hashes: trees, serialized tool inputs and cache keys are given values.
- Floating-point rounding and overflow, and the overflow of `BIGINT` columns, of `i64` day sums and of doubled `Duration`s.
- SQL failures: the writer logs a failed write and goes on; here every write succeeds.
- Races between the separate locks inside one admin handler: handlers are atomic.
- Spend.LimitFiresOnce: the in-memory ledger; with a database the source tests the crossing on a later read of the row and calls it best-effort.
- The warning threshold of a budget, which the admin API does not set.
- The time between a write and its delivery: a budget check sees every write made before it.
- Duplicate client names and duplicate upstream names: the configuration is expected not to have them.
- JWT authentication and the shared API key of the chat endpoints.
- Supervisor.PeersAreTheLiveConnections: startup connects may overlap in the model, while the source makes them one after another; that only adds runs.
- Compressor.CollapseRuns: the source writes the loop twice, for test and for build output; here it takes the line test and the marker text as parameters.
- PathMerge.SetPath: the mutable cursor is a focused subtree with the path back to the root, not a pointer into a shared tree.
- SemanticCache.CosineBounds: the square root is a parameter with its defining property.
- Gemini, OpenAI-compatible and embedding adapters, presets, auto routing, guardrails, web search, moderation and configuration defaults.
