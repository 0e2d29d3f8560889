# Codex proxy: a verified model

Dafny models of the parts of a Go reverse proxy over a pool of upstream accounts whose correctness rests on data
structures, state machines and arithmetic, with proofs of what they keep. `dafny verify dfyconfig.toml` checks
everything.

What is modelled, file by file:

- `Wrappers.dfy`: optional values.
- `Sorting.dfy`: stable insertion sort and uniqueness of strictly sorted sequences.
- `Accounts.dfy`: an account with its signals, the score, tier, limit and bonus computed from them, the ring of the last
  twenty results, failure and cooldown reports, and the two ways of asking whether an account is available.
- `AccountSignals.dfy`: what each signal of an account is worth by itself, in numbers.
- `SchedulerIndex.dfy`, `Acquisition.dfy`, `FastScheduler.dfy`: the in-memory account scheduler. The first states on values
  what an index is and that its contents determine it, the second what one acquisition means; the third is the object
  with its buckets, positions, bounds and cursors, its repairs and its restart loop.
- `StoreScan.dfy`: the plain scan over all accounts and the session-bound take, and agreement of the scan with the
  scheduler.
- `ActiveCounter.dfy`: the active-request counter under every interleaving of atomic steps.
- `RefreshQueue.dfy`: the refresh scheduler's heap of task objects with back-pointers, and the pass that moves due tasks to
  the channel.
- `EventStream.dfy`, `SseReader.dfy`: server-sent events as a whole text, the incremental reader over its line buffer,
  and the writer. The rules are the code's: of the line ends of section 9.2.6 of the WHATWG HTML Standard only LF and CRLF
  count, and an event pending at the end of the input is dispatched.
- `EventFormat.dfy`: what the bytes of an event stream mean, told without the reader, and that every payload can be sent.
- `AnthropicStream.dfy`, `AnthropicTranslator.dfy`, `AnthropicBatch.dfy`, `StrayInput.dfy`: translation of upstream events
  to Anthropic stream events, the builder of the answer that is not streamed, and tool input that arrives outside its
  block.
- `BlockOutline.dfy`: the message a client of such a stream gets, told from the upstream events alone.
- `ChatStream.dfy`: the stateful Chat Completions translator, what a client rebuilds from its chunks, and the collector
  of the answer that is not streamed.
- `RateLimit.dfy`: token bucket, cooldown levels and the limiter made of both.
- `RequestCache.dfy`: the recency list and map of parsed requests.
- `ResponseCache.dfy`: the conversation cache behind `previous_response_id`.
- `SchemaSanitizer.dfy`, `SchemaInPlace.dfy`: the rewriting of tool parameter schemas, first on values, then on a tree of
  objects that are changed where they are.
- `RetryLoop.dfy`: the attempts of one request against an arbitrary scheduler, upstream and client.
- `RetryAnswers.dfy`: what the client of a request gets and whose account is taken, told from the upstream replies.
- `Dedupe.dfy`, `DuplicateRows.dfy`: duplicate account groups, computed, and told in the fields of the rows.

Objects that the program updates in place are classes here, with methods whose contracts tie the new state to a
function of the old one; the properties are lemmas about those functions. Time is an explicit `now` (nanoseconds for
accounts, seconds for the rate limiter, milliseconds for the conversation cache), floats are reals, JSON is a
datatype, and hashing, JSON parsing, lower-casing with trimming and the cleaning of tool input are function
parameters.

Some things one might expect of the program do not hold of its code. The model keeps the code's behaviour, shows where
they fail and proves when they hold:

- The scheduler's snapshot and the admission check do not agree on every account (`Accounts.AvailabilitiesAgree`,
  `Accounts.AvailabilitiesCanDiffer`, `Accounts.PremiumCanDiffer`).
- A ban does not survive every report (`Accounts.BanAfterFailure`, `Accounts.BanAfterCooldown`,
  `Accounts.BanIsLifted`).
- An acquisition can miss a better account (`Acquisition.RisenIsMissed`). Seen from the index before the call, it falls
  short of the best tier exactly when the foremost of the best accounts has risen above the bucket in which its entry
  stands and another account that could be handed out has its turn before it (`Acquisition.FallsShortExactly`); among
  accounts of the same turn the cursors decide (`Acquisition.FirstStopDecides`).
- The plain scan can exceed a limit (`ActiveCounter.SlowScanCanOvershoot`), exactly when one of its additions finds the
  counter at the largest limit given (`ActiveCounter.WithinExactly`); the compare-and-swap cannot
  (`ActiveCounter.SwapsKeepLimit`).
- Streamed and built `stop_reason` can differ (`AnthropicBatch.StopReasonsAgree`, `AnthropicBatch.StopReasonsCanDiffer`).
- Tool input that arrives outside a tool block is prefixed to the next tool's input (`StrayInput.StrayInputIsPrefixed`). A
  call carries its own arguments exactly when a tool block is still open before it, or no tool input came since the last
  one was closed (`StrayInput.OwnArgumentsExactly`).
- `/v1/messages` retries after it has written to the client exactly when a stream breaks off before it showed anything
  (`RetryLoop.RetriedAfterWriting`, `RetryLoop.RunWritesLast`, `RetryLoop.BrokenStreamIsRetriedAfterWriting`). The log
  line at `proxy/handler_anthropic.go:387` speaks of a retry before the first packet; the closing events written at
  `proxy/handler_anthropic.go:312-323` precede it.
- The early return for transport errors that are not retryable (`proxy/handler.go:789-793`) is never taken, because
  `classifyTransportFailure` names every error; the model keeps the branch as `RetryLoop.GivesUp`.
- A streamed chat answer shows preview frames and deltas of unknown events, the other one does not
  (`ChatStream.TextsAgree`, `ChatStream.PreviewIsOnlyStreamed`); calls listed only by the completing event reach only the
  other one, calls never reported as done only the streamed one (`ChatStream.AnswersAgreeOnCalls`,
  `ChatStream.AnswersCanDiffer`).
- A conversation of more than 200 items can lose a call that a later output answers
  (`ResponseCache.LongHistoryCanLoseACall`, `ResponseCache.PairedExactlyWhileCallsAreKept`).
- The comment on the refresh queue calls it ordered by time; the code orders by priority first (`auth/refresh_scheduler.go:81-88`).

## Model

| member | source | states |
|---|---|---|
| Accounts.ConcurrencyLimitForTier | auth/store.go:238-262 | the limit lies between 0 and the base limit (1 when that is not positive) and is 0 exactly for a banned account |
| Accounts.UrgencyBonus | auth/store.go:430-470 | the bonus is never negative, stays below 25, and is given only to premium plans whose 5h window resets within four hours and is used below 95 percent |
| Accounts.DecayFalls | auth/store.go:347-352 | a penalty only shrinks as time passes |
| Accounts.ScoreNeverFalls | auth/store.go:354-424 | with the same signals the score at a later time is at least the score now, also across the end of a premium window |
| Accounts.TierNeverWorsens | auth/store.go:514-574 | with a score at least as high at a later time, the tier after scoring is at least as good |
| Accounts.TierExactly | auth/store.go:529-556 | which accounts become healthy, warm, risky or banned: risky if and only if not banned and below 60, or at 90 percent of free usage, or premium-limited; healthy if and only if not banned, at 85 or above and nothing of the listed troubles |
| Accounts.DispatchAboveScore | auth/store.go:558-574 | the dispatch score differs from the score only for healthy or warm accounts with a token and no cooldown, and without override lies between the score and 125 above it |
| Accounts.ScoreWithin | auth/store.go:354-424 | when no failure stamp lies in the future, the score lies between -106 and 132, and an account without any signal scores 100 |
| AccountSignals.StampPenalties | auth/store.go:359-374 | without its stamp an account would score more by exactly what is left of the penalty: 50 for an unauthorized failure, fading over a day, 22 for a rate limit over an hour, 18 for a timeout and 12 for a server error over 15 minutes |
| AccountSignals.FailureStreak | auth/store.go:376 | failures in a row cost 6 each, up to 24 |
| AccountSignals.SuccessStreak | auth/store.go:377-379 | successes in a row bring 2 each, up to 12, outside an exhausted premium window |
| AccountSignals.ManyRequests | auth/store.go:382-384 | more than ten requests bring 20, outside an exhausted premium window |
| AccountSignals.UsageAndLatency | auth/store.go:397-421 | usage of the week costs 8, 18, 25, 30, 40 or 50 from 70, 85, 90, 95, 100 and 110 percent on and on the free plan only; latency costs 4, 8 or 15 from 5, 10 and 20 seconds on |
| AccountSignals.RecentResults | auth/store.go:387-395 | of at least five recorded results, fewer than half succeeding costs 15, and fewer than three quarters 8 |
| AccountSignals.DispatchExactly | auth/store.go:482-512 | what dispatch adds to the score, told from the fields: nothing for an account that is not usable, healthy or warm, otherwise the override or 100, 50 or nothing by plan, and the urgency bonus |
| AccountSignals.UrgencyExactly | auth/store.go:450-470 | the bonus grows evenly over the four hours before the reset, to 25, and is cut down in proportion when less than half of the quota is left |
| AccountSignals.LimitsByTier | auth/store.go:238-262 | a healthy account is allowed the whole base limit, a warm one half of it, a risky one a single request, a banned one none, and one without a tier two |
| AccountSignals.BaseLimit | auth/store.go:472-480 | the base limit is the account's own override when that is positive, else the store's, and at least one |
| AccountSignals.AvailableExactly | auth/store.go:584-617 | admission check and snapshot told from the fields: both refuse accounts in error, banned, without token or over the free limit; the first also disabled and cooling ones and those with a used-up 5h window, the second cooling ones unless a rate limit cools them and the window is used up |
| Accounts.RecomputeForgets | auth/store.go:514-574 | scoring an already scored account gives what scoring the account as it was before gives |
| Accounts.BanKept | auth/store.go:514-574 | scoring neither bans nor unbans and always leaves a tier |
| Accounts.RunForgets | auth/store.go:514-574 | after any run of scoring passes the account is as if only the last pass had happened |
| Accounts.QuietRunImproves | auth/store.go:514-574 | over any run of scoring passes at rising times with no new signal, score and tier never get worse, and the limit lies in 0..base and is 0 exactly for banned accounts |
| Accounts.SnapshotStable | auth/fast_scheduler.go:365-404 | taking a scheduler snapshot does not change what the next one at the same instant says |
| Accounts.SnapshotBounds | auth/fast_scheduler.go:365-404 | an available snapshot has a positive limit and one of the three indexed tiers; a limit of 0 means banned |
| Accounts.AvailabilitiesAgree | auth/fast_scheduler.go:394-401 | snapshot and admission check agree if and only if the account is neither disabled nor in an exhausted premium window, or a ground that both share makes it unusable |
| Accounts.AvailabilitiesCanDiffer | auth/store.go:584-617 | a ready, healthy account with a token on a plan without usage windows: once disabled, the snapshot still offers it and the admission check refuses it |
| Accounts.PremiumCanDiffer | auth/store.go:584-617 | an enabled, ready account in an exhausted premium 5h window: the snapshot still offers it and the admission check refuses it |
| Accounts.InOrderAfterRecord | auth/store.go:322-332 | recording appends the new mark to the ring read from its oldest mark, and drops the oldest once twenty are held |
| Accounts.RecordKeepsRing | auth/store.go:322-332 | after any history of recorded results the ring holds exactly the last twenty |
| Accounts.RateIsLastTwenty | auth/store.go:335-344 | the recent success rate is the fraction of successes among the last twenty results, and 1 without any |
| Accounts.BanAfterFailure | auth/store.go:2321-2367 | after a failure report the account is banned if and only if the failure was unauthorized, or it was banned and the failure was no timeout, server or transport failure |
| Accounts.BanAfterCooldown | auth/store.go:670-690 | after a cooldown the account is banned if and only if the reason is unauthorized, or it was banned and the reason is no rate limit |
| Accounts.BanIsLifted | auth/store.go:2338-2357 | a banned account that a timeout, and one that a rate limit, makes risky or better again |
| AccountSignals.FailureTrace | auth/store.go:2321-2367 | a failure leaves its own stamp and no other kind's, ends the run of successes, lengthens the run of failures up to 20 and moves the tier as its kind demands |
| AccountSignals.SuccessTrace | auth/store.go:2301-2318 | a success leaves its stamp, ends the run of failures, lengthens the run of successes up to 20 and moves the tier only from none to healthy |
| Accounts.Account.RecordResult | auth/store.go:322-332 | the ring in place becomes the recorded ring, nothing else changes |
| Accounts.Account.RecentRate | auth/store.go:335-344 | the loop computes the success rate of the ring |
| Accounts.EwmaFollows | auth/store.go:305-319 | a new latency moves the average towards itself, leaving four fifths of the distance, and never past it |
| Accounts.EwmaWithinSeen | auth/store.go:305-319 | after any latencies the average lies between the least and the greatest positive one, and is zero exactly when there was none |
| Accounts.Account.RecordLatency | auth/store.go:305-319 | an average of the latencies reported so far becomes the average of these and the new one; `EwmaWithinSeen` and `EwmaFollows` say what that is |
| Accounts.Account.TierAt | auth/store.go:529-556 | the chain of tier changes ends in the tier that thresholds and caps give |
| Accounts.Account.RecomputeScheduler | auth/store.go:514-574 | one scoring pass leaves the account scored at `now`, its signals untouched |
| Accounts.Account.ReportRequestSuccess | auth/store.go:2301-2318 | a success is noted in latency, ring, stamps and streaks and the account is scored |
| Accounts.Account.ReportRequestFailure | auth/store.go:2321-2367 | a failure is noted by its kind and the account is scored |
| Accounts.Account.SetCooldownUntil | auth/store.go:670-690 | status, time and reason of the cooldown are set and the tier follows the reason |
| Accounts.Account.FastSchedulerSnapshot | auth/fast_scheduler.go:365-404 | the snapshot taken is the one that the state before and the state after both give |
| Accounts.Account.TryAcquire | auth/fast_scheduler.go:406-426 | takes a slot if and only if the limit is positive and not reached, and then counts one more request without passing the limit |
| Accounts.Account.Release | auth/fast_scheduler.go:260-265 | gives one slot back |
| SchedulerIndex.ProvenPrefixExact | auth/fast_scheduler.go:347-354 | in a sorted bucket an entry is proven exactly when it stands before the end of the proven prefix |
| SchedulerIndex.BucketOrder | auth/fast_scheduler.go:300-308 | in every bucket of a well-formed index proven entries stand before the others, with equal proof the higher score first, and with equal scores the lower id |
| SchedulerIndex.Canonical | auth/fast_scheduler.go:281-363 | two well-formed indexes with the same contents are equal, buckets, positions and bounds included |
| SchedulerIndex.UpdatedIsListed | auth/fast_scheduler.go:136-146 | an update with a new snapshot leaves what a rebuild gives in which the account stands last, with that snapshot |
| SchedulerIndex.RunIsRebuild | auth/fast_scheduler.go:136-156 | any run of updates, each with the snapshot of its moment, and removals after a rebuild leaves the contents that one rebuild over the remaining accounts gives, each with its last snapshot |
| SchedulerIndex.RunIndexIsRebuildIndex | auth/fast_scheduler.go:78-134 | hence the index reached by such a run is the very index that the rebuild with the last snapshots produces |
| SchedulerIndex.TakenOut | auth/fast_scheduler.go:320-344 | cutting an entry out, re-indexing its bucket and recounting it keeps the index well-formed and takes exactly that id out of its contents |
| SchedulerIndex.PutIn | auth/fast_scheduler.go:281-318 | appending, sorting and recounting keeps the index well-formed and adds exactly that slot to its contents |
| SchedulerIndex.FilledWellFormed | auth/fast_scheduler.go:78-134 | buckets that hold what is wanted, sorted, found and counted, make a well-formed index with exactly the wanted contents |
| Acquisition.OrderCoversRange | auth/fast_scheduler.go:226-258 | a round-robin scan from any start that passes everything in its order has passed the whole range |
| Acquisition.StaleExactly | auth/fast_scheduler.go:242 | a cached entry is still good exactly when tier and proof are those of the snapshot and the scores differ by less than one |
| Acquisition.WantedIsFresh | auth/fast_scheduler.go:281-299 | an account is filed exactly when it has an id, a tier of the three and could be used while idle, and then under its id with the score and the proof of its snapshot |
| Acquisition.MendedStep | auth/fast_scheduler.go:242-248 | one repair of a stale entry leaves strictly fewer stale entries, so the restart loop ends |
| Acquisition.NilMeansNothing | auth/fast_scheduler.go:176-222 | when all tiers were passed over after any number of repairs, every account indexed at the start is excluded, unavailable or full |
| Acquisition.ChosenIsSound | auth/fast_scheduler.go:226-258 | an account handed out is not excluded, is available, has room within its limit and stands in the tier of its snapshot |
| Acquisition.HealthyFirst | auth/fast_scheduler.go:188-217 | no healthy account that could be handed out as it stands is passed over for a warm or risky one, and no warm one for a risky one |
| Acquisition.ReachStep | auth/fast_scheduler.go:188-217 | a repair is never made behind an account that could be handed out, where it stood at the start and where its snapshot puts it |
| Acquisition.NothingBehindAnOfferChanges | auth/fast_scheduler.go:188-217 | when an entry could be handed out as it stands, no entry with a later turn is repaired by the acquisition |
| Acquisition.MissedOnlyWhenLifted | auth/fast_scheduler.go:176-222 | an account better than the one handed out was missed only because it has risen above the bucket of its entry, and the one handed out had its turn no later than that entry |
| Acquisition.MissedWhenBehind | auth/fast_scheduler.go:176-222 | the foremost of the best accounts is missed when it has risen above its bucket and another account that could be handed out has its turn before its entry |
| Acquisition.FallsShortExactly | auth/fast_scheduler.go:176-222 | without a tie the two above are an equivalence, on the index before the call |
| Acquisition.StopOutcome | auth/fast_scheduler.go:226-258 | the entry at which a pass stops, told from index and cursors, is handed out or repaired by that pass |
| Acquisition.FirstStopDecides | auth/fast_scheduler.go:176-222 | with the foremost account above its bucket and the first pass stopping at its entry or at one on offer, ties included, the acquisition falls short if and only if it stops at another entry |
| Acquisition.ForemostExists | auth/fast_scheduler.go:176-222 | whenever some account could be handed out, there is a foremost one to ask about |
| Acquisition.NeverShortWhenNoneLifted | auth/fast_scheduler.go:176-222 | when no account that could be handed out has risen above its bucket, the account handed out is in the best tier there is |
| Acquisition.TieGoesEitherWay | auth/fast_scheduler.go:226-234 | between two accounts with the same turn the contents do not decide |
| Acquisition.OneOutcome | auth/fast_scheduler.go:226-258 | one pass has one outcome: the account that has its turn by the cursors is the only one, and then nothing is repaired |
| Acquisition.RoundRobin | auth/fast_scheduler.go:232-234 | while every entry of a range can be handed out, scans from consecutive cursors hand out consecutive accounts, the entry at the cursor modulo their number first, and as many scans as entries hand out each |
| Acquisition.UnderCursor | auth/fast_scheduler.go:232-234 | when all entries that take turns in the best tier can be handed out, the one at the cursor modulo their number has its turn |
| Acquisition.NextInLine | auth/fast_scheduler.go:232-234 | then of two acquisitions in a row the first hands out the entry at the cursor and the second the entry after it, both modulo the number of entries |
| Acquisition.HighestScoreFirst | auth/fast_scheduler.go:226-258 | with the cursors at multiples of the lengths of their ranges, nothing else on offer in the tier is proven when the account handed out is not, or as proven with a higher score, or with the same score and a lower id |
| Acquisition.RisenIsMissed | auth/fast_scheduler.go:226-258 | a healthy account whose stale entry stands in the risky bucket: every acquisition hands out the warm account beside it and repairs nothing |
| FastScheduler.FastScheduler.CountProvenEntries | auth/fast_scheduler.go:347-354 | the loop counts the leading proven entries |
| FastScheduler.FastScheduler.RebuildPositions | auth/fast_scheduler.go:356-363 | every entry of the bucket is found at its place afterwards and no other id moves |
| FastScheduler.FastScheduler.RemoveLocked | auth/fast_scheduler.go:320-344 | the index stays well-formed and loses exactly this id, or nothing when it is not indexed |
| FastScheduler.FastScheduler.PutEntry | auth/fast_scheduler.go:294-317 | the index stays well-formed and gains exactly this entry |
| FastScheduler.FastScheduler.InsertLocked | auth/fast_scheduler.go:281-318 | the account is filed where its snapshot wants it, or not at all |
| FastScheduler.FastScheduler.Update | auth/fast_scheduler.go:136-146 | the slot of the account becomes the one its snapshot wants; all others stay |
| FastScheduler.FastScheduler.Remove | auth/fast_scheduler.go:148-156 | exactly this id leaves the index |
| FastScheduler.FastScheduler.Collect | auth/fast_scheduler.go:93-112 | the first pass files every wanted entry in the bucket of its tier, once |
| FastScheduler.FastScheduler.FileBucket | auth/fast_scheduler.go:114-133 | one more bucket is sorted, counted and indexed, those done before stay so |
| FastScheduler.FastScheduler.Rebuild | auth/fast_scheduler.go:78-134 | the contents become exactly what the accounts want by their snapshots |
| FastScheduler.FastScheduler.Refile | auth/fast_scheduler.go:242-248 | a stale entry leaves its slot for the one its snapshot wants, if any |
| FastScheduler.FastScheduler.TryEntry | auth/fast_scheduler.go:235-255 | an entry is skipped as excluded or unusable, repaired as stale, or its account is taken; only the last changes a counter |
| FastScheduler.FastScheduler.ScanRange | auth/fast_scheduler.go:226-258 | the first entry from the cursor on that is not passed is handed out or, when stale, repaired; otherwise the whole range was passed |
| FastScheduler.FastScheduler.ScanTier | auth/fast_scheduler.go:190-216 | the proven prefix is scanned from its cursor, and the whole bucket from the other only when every proven entry was passed; each scan moves exactly its own cursor on by one |
| FastScheduler.FastScheduler.ScanAll | auth/fast_scheduler.go:188-217 | the pass stops at the first tier that is not passed, with its account by turn or one repair there; cursors of later tiers stay |
| FastScheduler.FastScheduler.ScanUntilFresh | auth/fast_scheduler.go:176-222 | the restart loop ends, with nothing but stale entries repaired and none behind an account that could be handed out |
| FastScheduler.FastScheduler.AcquireExcluding | auth/fast_scheduler.go:176-222 | only stale entries are mended, none behind an account that could be handed out; null means every indexed account was excluded, unavailable or full; an account is the best on offer and alone counts one more request; the account whose turn it is by the cursors gets it, and with nothing stale the cursors of exactly the ranges scanned move on; with nothing stale and the cursors at multiples of their ranges, the account handed out is the first of its tier by proof, score and id of those on offer |
| StoreScan.ScoringChangesNothing | auth/store.go:576-581 | scoring accounts during the scan does not change what the scan sees of them |
| StoreScan.NextExcluding | auth/store.go:1830-1876 | null exactly when no account is a candidate; otherwise a candidate to which none is preferred by tier, score and load, and it alone counts one more request |
| StoreScan.BestInFields | auth/store.go:1858-1867 | no candidate is of a better tier than the one taken, none of the same tier has a higher dispatch score, and none of the same tier and score has fewer requests running |
| StoreScan.TakeByIDExcluding | auth/store.go:1951-1976 | takes the account with this id if and only if it is known, not excluded, available by both checks and has room, and changes no other counter |
| StoreScan.ScanAndSnapshotAgree | auth/fast_scheduler.go:365-404 | an account scored at this instant, enabled and outside an exhausted premium window has the same tier, limit and usability for the scan and for the snapshot, and the same score unless its dispatch score is 0 |
| StoreScan.CandidateIsOnOffer | auth/store.go:1841-1855 | under the same view an account is a candidate of the scan exactly when the index holds it, fresh, in its tier, and a scheduler scan would stop at it |
| StoreScan.SchedulerAndScanPickSameTier | auth/store.go:1831-1833 | from an index that agrees with the accounts, the scheduler finds an account if and only if the plain scan does, and in the same tier |
| ActiveCounter.CounterCountsHolders | auth/fast_scheduler.go:406-426 | in every interleaving the counter equals the number of threads that hold a slot, and is never negative |
| ActiveCounter.WithinExactly | auth/store.go:1870-1874 | throughout an interleaving the counter stays within the largest limit given if and only if every unguarded addition of the plain scan finds it below that limit |
| ActiveCounter.SwapsKeepLimit | auth/store.go:1951-1976 | so while all acquisitions go through the compare-and-swap, the counter never exceeds the largest limit any thread was given |
| ActiveCounter.SwapRespectsOwnLimit | auth/fast_scheduler.go:415-424 | a swap that succeeds leaves the counter within the limit of its own thread, with one holder more |
| ActiveCounter.SlowScanCanOvershoot | auth/store.go:1847-1874 | two threads in the plain scan can together pass a limit of one |
| RefreshQueue.RootIsSoonest | auth/refresh_scheduler.go:355-363 | in a heap nothing is more urgent than the root |
| RefreshQueue.NotSooner | auth/refresh_scheduler.go:81-88 | a task does not go before another exactly when that one has the higher priority, or the same priority and a time that is not later |
| RefreshQueue.RekeyedIsLoose | auth/refresh_scheduler.go:331-332 | a heap in which one key was changed in place to anything can be restored by moving that entry |
| RefreshQueue.ReplacedIsRekeyed | auth/refresh_scheduler.go:349-351 | putting the last entry in the place of a removed one is such a change of the shorter heap |
| RefreshQueue.TaskQueue.Swap | auth/refresh_scheduler.go:90-94 | two tasks change places and every task still knows its place |
| RefreshQueue.TaskQueue.Up | auth/refresh_scheduler.go:334-336 | lifting restores heap order among the first n entries with the same tasks and leaves those behind them alone |
| RefreshQueue.TaskQueue.Down | auth/refresh_scheduler.go:331-332 | sinking restores heap order among the first n entries with the same tasks, or changes nothing and leaves an entry that may only need to rise |
| RefreshQueue.TaskQueue.Push | auth/refresh_scheduler.go:96-100 | heap order and back-pointers are kept and exactly this task is added |
| RefreshQueue.TaskQueue.CutLast | auth/refresh_scheduler.go:102-110 | the last task is cut off and marked as not queued |
| RefreshQueue.TaskQueue.Fix | auth/refresh_scheduler.go:331-332 | after a change of one key the order is restored with the same tasks |
| RefreshQueue.TaskQueue.RemoveAt | auth/refresh_scheduler.go:341-352 | exactly the task at this place leaves, order and back-pointers are kept |
| RefreshQueue.TaskQueue.Pop | auth/refresh_scheduler.go:355-363 | exactly the root leaves, order and back-pointers are kept |
| RefreshQueue.RefreshScheduler.PushToQueue | auth/refresh_scheduler.go:321-338 | a queued task whose key changed is moved to its place, any other is added; the heap is in order afterwards |
| RefreshQueue.RefreshScheduler.RemoveFromQueue | auth/refresh_scheduler.go:341-352 | the task is not in the heap afterwards and no other task left it |
| RefreshQueue.RefreshScheduler.PopFromQueue | auth/refresh_scheduler.go:355-363 | of the tasks queued the one taken has the highest priority and, among those of its priority, the earliest time; null exactly from an empty queue |
| RefreshQueue.RefreshScheduler.ProcessScheduledTasks | auth/refresh_scheduler.go:410-463 | only due pending tasks are sent, by falling priority and, under equal priority, rising time, up to a channel of 1000; no task left has a higher priority than one sent, nor the same and an earlier time; every task is sent, dropped as not pending, or left |
| RefreshQueue.RefreshScheduler.Schedule | auth/refresh_scheduler.go:158-200 | afterwards the account has a pending task with the new key in its place in the heap, queued once, unless its task is running, which is left alone |
| EventStream.PiecesAfterPrefix | proxy/executor.go:556-563 | text cut at line feeds: bytes before the first line feed only lengthen the first line |
| EventFormat.WireCharacters | proxy/executor.go:542-579 | the bytes on the wire are those of "data:", of a space, of "[DONE]" and of the line ends |
| EventFormat.TrimExactly | proxy/executor.go:562 | exactly the carriage returns at the end of a line are dropped |
| EventFormat.DataLine | proxy/executor.go:577-583 | a data line holds what follows its field name, without trailing carriage returns and without one space in front |
| EventFormat.OtherLine | proxy/executor.go:565-574 | a line of nothing but carriage returns is blank, any other line that does not begin with "data:" is ignored |
| EventFormat.JoinedAreFound | proxy/executor.go:542 | data lines joined to a payload are found again by cutting it at its line feeds |
| EventFormat.FoundAreJoined | proxy/executor.go:542 | the lines of a payload are joined to that payload |
| EventFormat.SpelledRoundTrip | proxy/executor.go:537-585 | payloads of any bytes and lines, each sent as one data line for each of its lines, are delivered as they are if and only if none is the end marker and no line in them ends with a carriage return |
| EventFormat.EventOfLines | proxy/executor.go:562-584 | lines up to a blank one make one event of all the data lines among them, whatever stands between, and none without data |
| EventFormat.NoEventYet | proxy/executor.go:562-584 | without a blank line nothing is dispatched |
| EventFormat.EndIsBlankLine | proxy/executor.go:595-611 | at its end an input counts as if a line end and a blank line followed |
| EventFormat.BrokenLosesLine | proxy/executor.go:612 | a broken input loses the line it broke off in |
| EventFormat.DeliveredExactly | proxy/executor.go:537-548 | payloads are delivered in order up to and with the first that the callback declines, or up to the end marker, which is not delivered, and the stream counts as stopped in these cases only |
| EventStream.PrintedPayloads | proxy/keepalive.go:61-73 | what reading dispatches from printed payloads is what each payload alone is reread as, in order |
| EventStream.RoundTrip | proxy/keepalive.go:61-73 | printing a list of payloads and reading the bytes back gives the same list if and only if every payload is one line with no trailing CR and is not the end marker |
| SseReader.LineBuffer.Append | proxy/executor.go:553 | the unread bytes grow by the chunk, whatever growing or moving the buffer takes |
| SseReader.LineBuffer.Compact | proxy/executor.go:587-592 | moving the unread bytes to the front or to a smaller buffer keeps them |
| SseReader.SplitRead | proxy/executor.go:550-554 | cutting one read in two, empty parts included, changes neither the text nor how it ends |
| SseReader.ReadsToFirstError | proxy/executor.go:551-612 | reads go on to the first that reports an error, whose bytes still count; the input is broken exactly when that error is not the end of the body |
| SseReader.LineStep | proxy/executor.go:562-584 | what remains to be delivered after one more line |
| SseReader.EmitEvent | proxy/executor.go:537-548 | a pending event is delivered joined by line feeds, ends the stream as end marker, or there is none |
| SseReader.TakeLine | proxy/executor.go:562-584 | one line is worked off as the one-shot reading would |
| SseReader.TakeLines | proxy/executor.go:555-585 | all complete lines of the buffer are worked off and an unfinished one is kept |
| SseReader.Finish | proxy/executor.go:595-611 | at the end of the input an unfinished last line counts and a pending event is dispatched |
| SseReader.ReadSSEStream | proxy/executor.go:520-615 | however the bytes are split into reads, the payloads delivered are those of a one-shot reading of the whole text, and an error is reported exactly when the body broke before anything stopped the stream |
| SseReader.SSEWriter.WriteEvent | proxy/keepalive.go:61-73 | an open writer appends the payload as one event, a closed one writes nothing |
| SseReader.WriteThenRead | proxy/keepalive.go:61-73 | payloads written by the writer and read back in any split come back unchanged if and only if all are clean |
| AnthropicStream.CallIDThereAndBack | proxy/anthropic.go:173-188 | a call id survives the way to upstream and back exactly when it is of one of the client forms, as spelled out |
| AnthropicStream.CallIDBackAndThere | proxy/anthropic.go:173-188 | an upstream call id survives the way to the client and back if and only if it starts with fc_ |
| AnthropicStream.RunOk | proxy/anthropic.go:518-890 | every event keeps the document well-formed: block kinds match their deltas, tool input comes in one piece when the block closes |
| AnthropicStream.StreamWellBracketed | proxy/anthropic.go:518-890 | for every upstream event sequence the output is one message_start, blocks start, deltas, stop numbered 0, 1, 2 and never overlapping with deltas of their kind, one message_delta and one message_stop |
| AnthropicStream.EndedByTerminal | proxy/anthropic.go:738-802 | the message ends at the first completed or failed event and at no other |
| AnthropicStream.TextIsPreserved | proxy/anthropic.go:631-671 | the text deltas of the output concatenate to exactly the text sent upstream before the end |
| BlockOutline.FrontIsLastMark | proxy/anthropic.go:574-735 | which block is open is told by the last event that opens or ends one |
| BlockOutline.OpeningsExactly | proxy/anthropic.go:574-712 | the events that open a block are exactly the reasoning and call items and the non-empty text and thinking deltas that come while no block of their kind is open |
| BlockOutline.ToolOpenExactly | proxy/anthropic.go:807-835 | a call's block is open exactly when the last block opened is a call's and no event since has said which block is open |
| BlockOutline.DocumentIsOutline | proxy/anthropic.go:518-890 | for every upstream sequence there is one block for each event that opens one before the end, holding delta by delta what came for it or, for a call, the cleaned input that waited when it was closed; the stop reason and usage are those of the first event that ends the message |
| BlockOutline.FollowBlocks | proxy/anthropic.go:518-890 | a client that accepts block frames only in their order and with their numbers is never confused by rendered blocks and has them afterwards |
| BlockOutline.ClientHasOutline | proxy/anthropic.go:518-890 | a strict client reading the frames of any upstream sequence ends up with exactly those blocks, stop reason and usage |
| AnthropicTranslator.Translator.HandleCreated | proxy/anthropic.go:556-571 | the message is started once |
| AnthropicTranslator.Translator.CloseCurrentBlock | proxy/anthropic.go:807-835 | an open block is closed, a tool block after its cleaned input, and the events emitted are exactly what the document gained |
| AnthropicTranslator.Translator.OpenBlock | proxy/anthropic.go:574-628 | an open block is closed and the next one opened with the next number |
| AnthropicTranslator.Translator.HandleOutputItemAdded | proxy/anthropic.go:574-628 | reasoning and function-call items open a block, others do not |
| AnthropicTranslator.Translator.HandleTextDelta | proxy/anthropic.go:631-671 | a text delta extends the open text block or opens one; an empty one does nothing visible |
| AnthropicTranslator.Translator.HandleThinkingDelta | proxy/anthropic.go:674-712 | a thinking delta extends the open thinking block or opens one |
| AnthropicTranslator.Translator.HandleToolInputDelta | proxy/anthropic.go:718-725 | tool input is buffered and nothing is emitted |
| AnthropicTranslator.Translator.HandleCompleted | proxy/anthropic.go:738-783 | open block closed, stop reason and usage reported, message stopped |
| AnthropicTranslator.Translator.HandleFailed | proxy/anthropic.go:786-802 | open block closed and the message stopped |
| AnthropicTranslator.Translator.TranslateEvent | proxy/anthropic.go:518-553 | the events emitted are exactly what the document gains by this upstream event |
| AnthropicTranslator.Translator.Finalize | proxy/anthropic.go:871-890 | a message that upstream left unfinished is wound up |
| AnthropicTranslator.TranslateStream | proxy/handler_anthropic.go:261-323 | the events written for a whole upstream sequence are the rendering of its document; a client that takes frames only in their order reads from them exactly the blocks and the end that the upstream events tell |
| AnthropicBatch.BuildItem | proxy/anthropic.go:917-977 | one output item adds exactly its contents, and whether the last one is a tool use is tracked |
| AnthropicBatch.BuildResponse | proxy/anthropic.go:901-1008 | content and stop reason of the answer that is not streamed; neither when the response has no output array |
| AnthropicBatch.EmptyInput | proxy/anthropic.go:917-977 | a call whose arguments come to nothing is answered with an empty object as its input |
| AnthropicBatch.ThinkingRun | proxy/anthropic.go:674-712 | however a thinking text is cut into deltas, the client gets that text, joined to a thinking block before it |
| AnthropicBatch.MessageRun | proxy/anthropic.go:631-671 | however the texts of a message are cut into deltas, the client gets its non-empty texts, one block each |
| AnthropicBatch.CallOnAny | proxy/anthropic.go:574-629 | a call after any document closes the block before it and is closed over the input waiting then and its own |
| AnthropicBatch.CallEvents | proxy/anthropic.go:718-725 | between items, tool input that is still waiting is prefixed to the input of the next tool |
| StrayInput.WaitingIsBuffer | proxy/anthropic.go:718-725 | after any events without a terminal one the buffered tool input, and the kind of block open, are a function of the events alone |
| StrayInput.WaitingExactly | proxy/anthropic.go:807-869 | tool input is waiting if and only if some came after which no tool block was closed |
| StrayInput.CallAfterEvents | proxy/anthropic.go:718-725 | a call after any such events hands over the waiting input followed by its own |
| StrayInput.OwnArgumentsExactly | proxy/anthropic.go:807-869 | a call hands over just its own arguments, however they are cleaned, if and only if a tool block is open before it or no tool input is left waiting |
| StrayInput.StrayInputIsPrefixed | proxy/anthropic.go:718-725 | one piece before the block is opened and one inside: the block hands over both |
| AnthropicBatch.ItemsRun | proxy/anthropic.go:518-835 | a list of items streamed in any cutting shows the contents the builder gives them |
| AnthropicBatch.StreamAgreesWithBatch | proxy/anthropic.go:901-977 | the content a client assembles from the stream equals the built content after dropping empty thinking and joining neighbouring thinking, for every list of items and every cutting into deltas |
| AnthropicBatch.StreamedStop | proxy/anthropic.go:764-766 | the streamed stop reason says tool use exactly when some item was a call, unless the output was cut at its token limit |
| AnthropicBatch.StopReasonsAgree | proxy/anthropic.go:989-994 | streamed and built stop reason agree if and only if output was cut at its token limit, no item was a call, or the answer is whole and its last content is a tool use |
| AnthropicBatch.StopReasonsCanDiffer | proxy/anthropic.go:989-994 | a call followed by text: tool_use in the stream, end_turn in the built answer |
| ChatStream.StreamTranslator.Translate | proxy/translator.go:1097-1184 | an announced call gets the next index and every later argument of its item that index; arguments of unknown items give no chunk; only completed and failed events end the response |
| ChatStream.StreamChat | proxy/handler.go:1600-1668 | the chunks written are those of the events up to and with the first terminal one |
| ChatStream.StreamIsRebuilt | proxy/translator.go:1109-1132 | a client that accumulates by index gets exactly the announced calls, in order, each with all arguments sent for its item until that is announced anew, and exactly the text shown |
| ChatStream.FinishReason | proxy/translator.go:1146-1152 | a completed response ends with tool_calls if and only if a call was announced, and with stop otherwise |
| ChatStream.FailureIsShown | proxy/translator.go:1154-1159 | a response that fails first ends with an error chunk that holds the upstream message, or a standing one when that is empty |
| ChatStream.ReasoningIsShown | proxy/translator.go:1105-1107 | every piece of reasoning sent before the end reaches the client, in order and by itself |
| ChatStream.Collect | proxy/handler.go:1675-1738 | the collected text and calls: those reported as done, or those listed by the completing event when there are none |
| ChatStream.TextsAgree | proxy/translator.go:1161-1181 | the two answers carry the same text if and only if no preview frame and no delta of an unknown event had any |
| ChatStream.PreviewIsOnlyStreamed | proxy/translator.go:1161-1181 | a preview frame shows in the streamed answer and not in the other |
| ChatStream.NothingFor | proxy/translator.go:1118-1132 | no argument reaches a call that is done, as long as upstream sends arguments for open calls only |
| ChatStream.BooksBalance | proxy/translator.go:1109-1132 | at any point of such a stream the calls still to be reported as done and those left open at the end are the open ones with their remaining arguments and those not yet announced |
| ChatStream.CallsAgree | proxy/translator.go:1299-1309 | however arguments are cut into pieces and the pieces of open calls interleaved, the streamed calls are the collected ones and those left open, in this order when they are done in the order announced |
| ChatStream.OneCallIsOrderly | proxy/translator.go:1109-1132 | a call sent in one go, in any pieces, is such a stream, also when its item id was used before |
| ChatStream.AnswersAgreeOnCalls | proxy/translator.go:1312-1329 | streamed and collected answer have the same calls if and only if none is left open or, when none was reported as done, the completing event lists just those left open |
| ChatStream.AnswersCanDiffer | proxy/translator.go:1312-1329 | a call only listed at the end reaches the collected answer only, a call never done the streamed one only |
| RateLimit.RefilledOk | proxy/ratelimit.go:79-96 | a lazy refill keeps the tokens within 0 and the maximum and adds at most the inflow of the elapsed time |
| RateLimit.IdleMinuteFills | proxy/ratelimit.go:79-119 | a bucket left alone for a minute is full and then grants exactly the requests for no more than the RPM |
| RateLimit.ServedWithinFlow | proxy/ratelimit.go:79-119 | over any run of requests, grants and tokens left together never exceed the tokens at the start and the inflow |
| RateLimit.TokensConserved | proxy/ratelimit.go:79-119 | over any run of requests, grants, tokens left and what spilled over add up exactly to the tokens at the start and the inflow |
| RateLimit.GrantedExactly | proxy/ratelimit.go:99-119 | a request is granted if and only if it asks for no more than has come in by then and than the bucket holds, or for nothing |
| RateLimit.WindowBound | proxy/ratelimit.go:79-119 | in any window under a fixed RPM the grants total at most rpm plus rpm/60 per second of the window, whatever happened before |
| RateLimit.RefillFirst | proxy/ratelimit.go:79-119 | refilling the bucket at the start of a window never lowers what it grants, so the bound needs no assumption on when it was last refilled |
| RateLimit.ResizedOk | proxy/ratelimit.go:142-161 | changing the RPM keeps the fraction of the bucket that is full, and the tokens within bounds |
| RateLimit.EvolvedOk | proxy/ratelimit.go:79-161 | over every run of requests and RPM changes the tokens stay within 0 and the current maximum |
| RateLimit.LimiterIsBucket | proxy/ratelimit.go:300-359 | what a limiter grants is what its bucket grants on the requests that reach it outside cooldown |
| RateLimit.LimiterWindowBound | proxy/ratelimit.go:300-359 | the window bound holds of the limiter with its cooldowns |
| RateLimit.RequestsAccounted | proxy/ratelimit.go:300-359 | every request is counted once, as allowed or as blocked |
| RateLimit.AllowedIsGranted | proxy/ratelimit.go:300-359 | what is counted as allowed is what was granted |
| RateLimit.GrantLeavesCooldown | proxy/ratelimit.go:346-354 | outside a cooldown the bucket alone decides, and a grant leaves level and end of the cooldown as they were |
| RateLimit.CooldownHolds | proxy/ratelimit.go:300-359 | until the cooldown ends nothing is granted and the bucket is not touched |
| RateLimit.CooldownDoubles | proxy/ratelimit.go:199-224 | an empty bucket starts a cooldown one level up: 1 second first, then twice the last up to level 10, then 1800 seconds |
| RateLimit.TokenBucket.AllowN | proxy/ratelimit.go:99-119 | grants n tokens after the refill if they are there, and takes them |
| RateLimit.TokenBucket.Allow | proxy/ratelimit.go:79-96 | grants one token after the refill if it is there |
| RateLimit.TokenBucket.GetTokens | proxy/ratelimit.go:129-139 | the tokens as of now, within 0 and the maximum, without changing the bucket |
| RateLimit.TokenBucket.UpdateRPM | proxy/ratelimit.go:142-161 | the bucket in place becomes the resized one |
| RateLimit.CooldownManager.ComputeCooldown | proxy/ratelimit.go:199-210 | the next level and its duration |
| RateLimit.CooldownManager.EnterCooldown | proxy/ratelimit.go:213-224 | the level rises by one up to the last and the cooldown runs from now |
| RateLimit.CooldownManager.Reset | proxy/ratelimit.go:227-234 | no cooldown is running at any time afterwards |
| RateLimit.CooldownManager.GetRemainingCooldown | proxy/ratelimit.go:248-260 | positive exactly during a cooldown, and then the time to its end |
| RateLimit.LevelLimiter.AllowN | proxy/ratelimit.go:333-359 | the decision and the new state of the limiter; a limiter without a bucket grants everything |
| RateLimit.LevelLimiter.UpdateRPM | proxy/ratelimit.go:376-392 | an existing bucket is resized, a missing one created, and the cooldown kept |
| RequestCache.RecentIsByLastUse | proxy/translator.go:175-205 | the recency order lists exactly the keys used, the one used last first |
| RequestCache.Kept | proxy/translator.go:186-205 | the keys kept are the first 256 of those used, latest use first, or all when there are fewer |
| RequestCache.KeptAfterHit | proxy/translator.go:175-184 | using a kept key moves it to the front and drops nothing |
| RequestCache.KeptAfterMiss | proxy/translator.go:186-205 | using a key that is not kept puts it in front and drops what exceeds 256 |
| RequestCache.EvictedLinked | proxy/translator.go:195-204 | removing the tail from list and map leaves the two with the same entries |
| RequestCache.RequestCache.Get | proxy/translator.go:175-184 | finds a key exactly when it is in the map, and makes it the most recent |
| RequestCache.RequestCache.Put | proxy/translator.go:186-205 | stores the request under its key as the most recent |
| RequestCache.RequestCache.PushFront | proxy/translator.go:194-205 | a new key is put in front and the least recent one evicted beyond 256 |
| RequestCache.RequestCache.CachedOrParse | proxy/translator.go:208-220 | returns what parsing the bytes gives, always; list and map hold the same keys, exactly the at most 256 most recently used in recency order |
| ResponseCache.PairedStripped | proxy/response_cache.go:257-271 | removing ids never separates a call from its output |
| ResponseCache.CallsExactly | proxy/response_cache.go:239-247 | of an output exactly the function calls are taken, in their order |
| ResponseCache.HistoryExactly | proxy/response_cache.go:224-247 | each turn adds, one for each and in order, copies of its input items and then of its function calls that differ from them in having no id |
| ResponseCache.NoIDsRemembered | proxy/response_cache.go:257-271 | nothing that is remembered has an id |
| ResponseCache.RememberedIsTailOfHistory | proxy/response_cache.go:201-252 | cutting to 200 items at every turn leaves exactly the last 200 items of the whole conversation, without ids |
| ResponseCache.WholeExactlyWhileItFits | proxy/response_cache.go:42-46 | a conversation is remembered whole if and only if it has at most 200 items |
| ResponseCache.ExpandedKeepsPairs | proxy/translator.go:486-500 | while it fits, the next input is expanded to exactly all earlier inputs and calls in order and itself, so an output has its call before it just when it has in the conversation |
| ResponseCache.PairedExactlyWhileCallsAreKept | proxy/translator.go:486-500 | for a conversation of any length, every output in the expanded input follows its call if and only if each output kept or new has such a call among the last 200 items of the history or after them |
| ResponseCache.LostCall | proxy/response_cache.go:42-46 | cutting separates an output from its call only when that call stood before the cut |
| ResponseCache.LongHistoryCanLoseACall | proxy/response_cache.go:42-46 | with 201 items an output can have lost its call |
| ResponseCache.ResponseCache.Set | proxy/response_cache.go:42-70 | the last 200 items are stored; below 2000 entries nothing else changes, at 2000 exactly 200 entries go first; the store never exceeds 2000 |
| ResponseCache.ResponseCache.Get | proxy/response_cache.go:73-92 | what was stored, unless it is older than ten minutes, when it is removed |
| ResponseCache.ResponseCache.Cleanup | proxy/response_cache.go:95-113 | drops exactly the expired entries |
| ResponseCache.ResponseCache.HasFunctionCall | proxy/response_cache.go:213-220 | whether the output calls a function |
| ResponseCache.ResponseCache.StrippedItems | proxy/response_cache.go:225-248 | all input items, then the calls of the output, in order and without ids |
| ResponseCache.ResponseCache.CacheCompleted | proxy/response_cache.go:201-252 | a response with calls is remembered as its conversation with this turn added; any other changes nothing |
| ResponseCache.ResponseCache.Expand | proxy/translator.go:412-508 | on a live entry the input becomes what is remembered of its conversation and the new items, all of it while it fits, and an input that is one string is dropped; otherwise the input is sent, a string as a list of one message |
| SchemaSanitizer.SanitizedAt | proxy/translator.go:842-845 | every position of a schema is still there afterwards and holds its own schema sanitised; so a property named like a refused keyword stays |
| SchemaSanitizer.SanitizedIsAcceptable | proxy/translator.go:807-884 | at no position a refused keyword is left, and every schema that declares an array has items |
| SchemaSanitizer.SanitizeFixesExactlyTheAcceptable | proxy/translator.go:842-845 | sanitising leaves a schema as it is if and only if nothing in it is refused; doing it twice is doing it once |
| SchemaSanitizer.KeysOfSanitized | proxy/translator.go:849-854 | a schema keeps exactly its supported keys, gains an empty items when it declares an array without, and its plain data is unchanged |
| SchemaSanitizer.RefusedKeywordsGo | proxy/translator.go:807-810 | the fourteen keywords by name: afterwards none of them is there, and no other key is gone |
| SchemaSanitizer.SubschemasSanitized | proxy/translator.go:811-840 | under items and additionalProperties, in the lists of allOf, anyOf and oneOf and by name under properties and $defs every schema is sanitised as one of its own; anything else found there is unchanged |
| SchemaSanitizer.ItemsExactly | proxy/translator.go:849-854 | items are there afterwards if and only if they were before or the type is array, alone or among others, and new items are empty |
| SchemaSanitizer.OtherDataKept | proxy/translator.go:807-884 | what stands under any other key is unchanged |
| SchemaInPlace.PictureIsUnique | proxy/translator.go:807-840 | the objects below a reference determine the schema they stand for |
| SchemaInPlace.ReadOffObjects | proxy/translator.go:807-840 | the schema that objects stand for has their keys and no others, and under each what the value there stands for |
| SchemaInPlace.RemoveUnsupported | proxy/translator.go:807-810 | exactly the refused keys of one object go; nothing below it changes |
| SchemaInPlace.AddMissingItems | proxy/translator.go:849-854 | an object that declares an array and has no items gets a new empty object there, any other is left alone |
| SchemaInPlace.ListSaysArray | proxy/translator.go:886-898 | a list of types on the objects names array if and only if the schema's list does |
| SchemaInPlace.VisitMap | proxy/translator.go:811-817 | every object in a map of schemas becomes its rewriting in place, whatever the order, and nothing else changes |
| SchemaInPlace.VisitList | proxy/translator.go:821-829 | every object in a list of schemas becomes its rewriting in place and nothing else changes |
| SchemaInPlace.VisitPart | proxy/translator.go:812-816 | rewriting one schema of a family leaves its siblings as they are and makes no object shared |
| SchemaInPlace.KeyBecame | proxy/translator.go:855-883 | a visited key holds its schema rewritten, an unvisited one what it held, a new items an empty schema |
| SchemaInPlace.RewriteInPlace | proxy/translator.go:807-884 | after a pass the objects stand for the rewritten schema, at the same references, still a tree, only new objects added |
| SchemaInPlace.SanitizeInPlace | proxy/translator.go:842-845 | after both passes the objects stand for the sanitised schema of the values model |
| RetryLoop.RunReleases | proxy/handler.go:732-1117 | on every path each account taken is released before the next is taken or the request ends, none is released that is not held, and there are at most maxRetries+1 attempts |
| RetryLoop.ReleasedAsOftenAsTaken | proxy/handler.go:732-1117 | a log in which accounts are held one at a time releases each as often as it takes it |
| RetryLoop.RetriedExactly | proxy/handler.go:781-1025 | another attempt is made if and only if the transport failed, the status is a retryable one and attempts are left, a capacity failure came first, or the stream broke off barren with attempts left and the client there |
| RetryLoop.CapacityExactly | proxy/handler.go:866-884 | reading ends with a capacity failure if and only if one came before any other terminal event and before the client had seen anything |
| RetryLoop.ExcludedExactly | proxy/handler.go:781-811 | the account is excluded from later attempts if and only if the reply was a transport error, an error status, or a stream in which a capacity failure came first |
| RetryLoop.RunAvoids | proxy/handler.go:732-1024 | an account that was excluded, at the start or by its attempt, is never taken again |
| RetryLoop.RetriedAfterWriting | proxy/handler_anthropic.go:312-403 | an attempt has written to the client and is followed by another if and only if it is on /v1/messages, attempts are left, the client is there and its stream broke off without a terminal event and, when streaming, without any output |
| RetryLoop.RunWritesLast | proxy/handler_anthropic.go:312-401 | nothing is taken once the client has been written to if and only if no attempt that is followed by another meets a barren stream on /v1/messages |
| RetryLoop.RequestIsSafe | proxy/handler.go:732-1126 | for a whole request against any scheduler, upstream and client: accounts released once, attempts bounded, failed accounts avoided, and the equivalence above; on the other routes nothing is ever taken after a write |
| RetryLoop.BrokenStreamIsRetriedAfterWriting | proxy/handler_anthropic.go:312-403 | on /v1/messages a stream that breaks off before its first event: a whole empty message is sent and the same account tried again |
| RetryLoop.ExhaustedWithError | proxy/handler.go:1119-1125 | when all attempts are used up there is an error to report |
| RetryLoop.ReadStream | proxy/handler.go:861-975 | the reading loop with its callback, streamed or collected |
| RetryAnswers.StreamExactly | proxy/handler.go:861-921 | unless a capacity failure comes first, a streamed response is written piece by piece up to and with its last event, or to the first piece that cannot be written |
| RetryAnswers.AttemptExactly | proxy/handler.go:781-1116 | how often the client is written to in an attempt, told from the reply, and when: while the account is held for a stream, after its release for an error |
| RetryAnswers.WritesExactly | proxy/handler.go:732-1126 | a request writes as often as its attempts do, and once more when no reply settled it; so the client is written to if and only if no reply settled it or some attempt wrote |
| RetryAnswers.AnsweredOnce | proxy/handler.go:1042-1125 | a request that is not streamed is answered, whatever scheduler and upstream do, and on the Codex routes exactly once |
| RetryAnswers.AccountsAsOffered | proxy/handler.go:88-109 | the n-th attempt takes the account offered first among those not yet avoided: of the preferred plans, else of any, else one that turned up while waiting; attempts are left over only when a reply settled the request or none was offered |
| RetryLoop.WriteChunks | proxy/handler.go:914-921 | pieces are written until one write fails and none after it |
| RetryLoop.TryAccount | proxy/handler.go:781-1116 | what one attempt does after taking its account |
| RetryLoop.ServeRequest | proxy/handler.go:732-1126 | the loop does exactly what the attempts in turn do |
| Dedupe.ScoreAccount | admin/dedupe.go:65-84 | the accumulated score is the sum of the weights of the criteria met |
| Dedupe.ScoreIsLexicographic | admin/dedupe.go:65-84 | scores compare as the five criteria do in order: no number of lesser ones outweighs a greater one |
| Dedupe.GroupOfKey | admin/dedupe.go:118-165 | the winner is better than every loser, and winner and losers are together exactly the rows of the key |
| DuplicateRows.GroupMembers | admin/dedupe.go:105-116 | a group holds exactly the rows whose normalised email, not empty, and platform, with none counted as openai, are its own, and at least two |
| DuplicateRows.DuplicatesAreGrouped | admin/dedupe.go:105-122 | any two rows of the same normalised email and platform are in a group |
| DuplicateRows.BetterInFields | admin/dedupe.go:65-84 | which of two rows is kept, told in their fields: refresh token, paid plan, lock, active status and use within a week in this order, then the lower id |
| DuplicateRows.GroupOrder | admin/dedupe.go:124-137 | in a group every row is worth more in that sense than those after it, the winner first |
| DuplicateRows.StringLessExactly | admin/dedupe.go:179-184 | byte order is decided by the first byte in which two strings differ, and a string comes before its continuations |
| DuplicateRows.GroupsInOrder | admin/dedupe.go:179-184 | groups are listed by email and, under the same email, by platform |
| Dedupe.GroupsPartitionDuplicates | admin/dedupe.go:98-186 | a row is in a group if and only if its key occurs at least twice, and then in one group only |
| Dedupe.LosersOfKey | admin/dedupe.go:163-176 | the rows to delete are exactly those of duplicate keys that are not their winner |
| Dedupe.OneRowPerKey | admin/dedupe.go:236-294 | deleting all losers leaves the winner of each duplicate key and every other row |
| Dedupe.UngroupedKept | admin/dedupe.go:105-109 | rows without an email are never deleted |
| Dedupe.OrderDoesNotMatter | admin/dedupe.go:98-186 | two orders of the same rows give the same groups |
| Dedupe.FillBuckets | admin/dedupe.go:103-116 | the buckets hold the rows of each key in their order |
| Dedupe.ComputeDuplicateGroups | admin/dedupe.go:98-186 | one group for each key with at least two rows, sorted by email and platform |

## Left out

- Real goroutines, mutexes and channels: a locked section is one step; interleavings are kept for the active-request
  counter only. The refresh channel is a bounded sequence that nothing drains during a pass.
- Clocks, randomness, map iteration order and retries by sleeping: time is a parameter, order and ties are arbitrary, and
  waiting for an account is one more call of the scheduler.
- Floating-point rounding: scores and tokens are reals.
- JSON bytes, SHA-256, UUIDs, regular expressions and Unicode case folding: datatypes and function parameters.
- Schemas in place: a decoded schema is a tree, so objects shared between two positions are not covered; the keys of an
  object are removed in one assignment.
- Acquisition.FallsShortExactly: leaves out ties, an account in a worse tier with the very turn of the foremost entry;
  `FirstStopDecides` has them, except when the first pass stops at some other stale entry, whose repair poses the question
  anew.
- SseReader.SSEWriter.WriteEvent: does not model failing writes, flushing and heartbeats.
- Library sorts are the stable sort of `Sorting.dfy`; scheduler cursors are natural numbers that do not wrap.
- The many fields of an account are grouped into records.
- Refresh scheduler: the time and priority worked out for an account, with their jitter, are parameters; immediate
  scheduling, cancelling, executing, retrying and the metrics, which drift, are not modelled. A task that is already in
  the channel can be queued again.
- Event stream reader: pooling of buffers beyond the one passed in, and bodies that never end.
- Retry loop: what is reported to the store about an attempt, session affinity, cooldowns after an error status, logging,
  heartbeat bytes and writers that cannot flush. Bytes sent to wind up an unfinished message count as written. The loop
  that serves `/v1/responses/compact` (`proxy/handler.go:1206-1362`) has no streaming and is not modelled.
- Conversation cache: `expandPreviousResponse`, which the handlers do not call, is not modelled.
- Chat chunks: ids, models, timestamps and usage.
- Duplicate accounts: the soft deletion itself; the database keeps the rows.
- Session affinity bindings and their expiry: a map from keys to accounts with a time limit.
- JSON keepalive writer, Gin routing, authentication, HTTP, WebSocket and TLS transport, client pools, proxies and their
  health, SQL, settings, the frontend, logging and images: plumbing without such properties.
