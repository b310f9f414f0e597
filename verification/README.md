# PicoClaw: verified models of its core algorithms and state machines

PicoClaw is a Go daemon that connects chat channels to language-model agents. Most of it is plumbing; this project
models the parts that are algorithms or state machines and proves what they keep.

| part | files | what is proved, in one line |
|---|---|---|
| Message splitter | `Splitter`, `SplitMessage`, `SplitterFences`, `SplitterLimits`, `SplitterTermination`, `SplitterContent`, `SplitterHeaders`, `SplitterDecision` | where the text is cut; size, fence balance and content of the chunks, what is injected, and exactly when the loop ends |
| Cron scheduler | `Cron`, `CronJobs`, `CronRuns`, `CronLiveness` | in every run: jobs left alone are executed when their time comes, one-shot jobs at most once, interval jobs at their distance |
| Provider failover | `Cooldown`, `Fallback` | backoff invariants over every history, and the ordered fallback as a fold of recorded outcomes |
| Skill search cache | `Trigrams`, `SearchCache` | refinement of a timestamped LRU map with expiry; hits and misses are exact |
| Conversation history | `History`, `Sessions`, `AgentLoop`, `AgentRuns`, `AgentRequests` | the repair before each request, what requests hold, and exactly when every request of a turn is acceptable |
| Prompt cache | `PromptCache` | a prompt reported unchanged shows every tracked file as it is, under concurrent edits |
| Message deduplication | `DedupRing` | ring and set are the last 1024 accepted identifiers |
| Routing | `AgentId`, `SessionKey`, `Route` | the cascade as a lexicographic minimum; session keys parse back and tell conversations apart |
| WeCom frames | `WeCom` | unpadding and frame parsing invert padding and framing, exactly |

`Text` holds the few operations of Go's `strings` package that are used, `Options` the type of a value that may be
missing. Every operation that changes state in Go is a method here, proved equal to a function on values; the lemmas are
about those functions, and the methods' contracts carry them over to the code. What such a function computes is also
stated without it: in positions of the text, in milliseconds, in the messages of a request or the parts of a key.

Conventions: a `char` is a byte; clocks are integers that do not run backwards (milliseconds); code that runs under
a lock is one atomic step; what a provider, a tool, an error classifier, the cron-expression library or the file system
answers is an arbitrary function given as a parameter.

Where the code does not do what its documentation says, or not always what it is for, the model follows the code:

- Splitting does not end for every text. On shaped and balanced text it ends exactly when no code block has a first
  line of `maxLen - 6` or more characters together with a closing fence out of reach (`SplitterTermination.HaltsExactly`);
  for every limit from 10, Discord's 2000 among them, `SplitterTermination.EndlessSplit` has a text of `maxLen + 2`
  characters for which it never does.
- An interval so large that adding it to the clock overflows int64 makes a finished job due again at once
  (`CronRuns.FinishedDueAgain`) and is collected twice at one instant (`CronRuns.OverflowRun`); otherwise intervals are kept.
- Agent identifiers are documented to normalise to a letter or digit and up to 63 of [a-z0-9_-]. They do so exactly when no
  underscore leads them (`AgentId.DocumentedFormExactly`); `_bot` stays as it is (`AgentId.UnderscoreStays`).
- Trailing dashes are documented to be stripped. One remains exactly when the identifier fits the pattern as it is and ends
  with one, or is cut at 64 characters right behind one (`AgentId.TrailingDashExactly`).
- Normalising again changes the result exactly when an underscore leads the identifier and it is cut right behind a dash
  (`AgentId.NormalizeTwiceExactly`), and then a configured agent can be routed to under an identifier the registry does
  not hold (`Route.RouteMisses`, with the exact condition in `Route.RoutedAreRegistered`).
- Emergency compression keeps a request well-formed, but after it a further tool round may not be: exactly when the
  compression leaves no user's message in the session (`AgentRuns.CompressionClosesExactly`, `AgentRuns.TurnRequests`).
  Before a turn with a message that is not blank, all its requests are known to be acceptable exactly when it has at most
  two iterations or the stored session is empty or begins with the user (`AgentRuns.TurnsAcceptableExactly`); truncation
  makes sessions that do not.
- Code fences stay balanced for limits from 9 on and for no smaller one from 5 to 8 (`SplitterLimits.BalanceExactly`).
- Search queries are answered with the results of queries they have nothing in common with, exactly when both are too short
  for a trigram (`SearchCache.ShortQueriesAlike`).

## Model

| member | source | states |
|---|---|---|
| Splitter.FindLastUnclosedCodeBlock | pkg/utils/message.go:118-138 | finds the fence that is still open at the end of the text, or -1: the scan's verdict |
| Splitter.FindNextClosingCodeBlock | pkg/utils/message.go:142-149 | finds the end of the first fence at or after the given position, or -1 |
| Splitter.FindLastNewline | pkg/utils/message.go:153-164 | finds the last newline within the final window of the text, or -1 |
| Splitter.FindLastSpace | pkg/utils/message.go:168-179 | finds the last blank or tab within the final window of the text, or -1 |
| Splitter.ChooseFirstCut | pkg/utils/message.go:14-43 | the natural split point: the last newline, else the last blank, else the limit less the code-block buffer |
| Splitter.CutInBlock | pkg/utils/message.go:58-101 | the cut for a block that stays open: inside it, before it, or the last resort that reopens it |
| Splitter.ChooseCut | pkg/utils/message.go:24-104 | the decision of one turn of the loop, through all its branches |
| Splitter.Turn | pkg/utils/message.go:24-111 | one turn emits the chunk, and leaves the text, of the cut decided on |
| SplitterDecision.FirstCutIsNatural | pkg/utils/message.go:36-43 | the natural split point, read off the text: the last newline of the final 200 characters if behind the start, else the last blank or tab of the final 100 if behind the start, else the limit |
| SplitterDecision.RoomForBlocks | pkg/utils/message.go:14-34 | the buffer kept free: a tenth of the limit, 50 characters at the least, never more than half |
| SplitterDecision.LastUnclosedIsOpenBlock | pkg/utils/message.go:118-138 | on any text the scanner gives the last fence, counted from the left, exactly when their number is odd |
| SplitterDecision.PlanDecides | pkg/utils/message.go:24-104 | the whole decision of a turn, on any text, by positions of newlines, blanks and fences: whole, at the natural cut, behind a closing fence in reach, or as a block without one asks |
| SplitterDecision.TurnEmits | pkg/utils/message.go:76-111 | chunk and rest for each decision: inside a block the chunk loses trailing whitespace and gets a closing line, the rest gets the first line of the block, and is trimmed |
| SplitterDecision.ChunksEndAtSeparators | pkg/utils/message.go:36-43 | after any number of turns on text without fences, a chunk that is not the last ends inside a word only when none of its final 100 characters behind the start is a newline, blank or tab |
| SplitMessage.Split | pkg/utils/message.go:12-114 | wherever the loop ends: the chunks are those of its turns, each at most `maxLen` long; for limits from 9, chunks of shaped and balanced text are balanced; without fences only whitespace is lost |
| SplitterFences.ScanCounts | pkg/utils/message.go:118-138 | on shaped text the scanner computes the parity of the fences and the last unmatched one |
| SplitterFences.BalancedIsEven | pkg/utils/message.go:118-138 | shaped text is balanced by the code's own scanner exactly when it has an even number of fences |
| SplitterFences.FirstCutClean | pkg/utils/message.go:36-43 | the natural split point never falls inside a fence |
| SplitterFences.InnerCutNotBefore | pkg/utils/message.go:68-75 | the cut re-chosen inside a block never precedes the first one and leaves room for the closer |
| SplitterFences.InBlockCut | pkg/utils/message.go:58-101 | with a block open and its end out of reach, the code cuts right before the block or inside it |
| SplitterFences.TurnShape | pkg/utils/message.go:45-104 | every cut of shaped text is clean: between blocks, or inside one block that it reopens |
| SplitterFences.PlainKeeps | pkg/utils/message.go:83-93 | cutting between blocks leaves two shaped and balanced parts |
| SplitterFences.ReopenKeeps | pkg/utils/message.go:76-80 | closing a block in the chunk and reopening it in the rest leaves two shaped and balanced texts |
| SplitterFences.TurnKeepsGood | pkg/utils/message.go:24-111 | one turn keeps shape and balance, in the chunk and in the rest |
| SplitterFences.ChunksBalanced | pkg/utils/message.go:12-114 | for limits from 9, after any number of turns every chunk of shaped and balanced text is shaped and balanced, and so is what is left |
| SplitterLimits.BalanceExactly | pkg/utils/message.go:12-114 | the limits from 5 that keep the chunks of every shaped and balanced text balanced are exactly those from 9 |
| SplitterLimits.SmallLimitUnbalanced | pkg/utils/message.go:24-111 | for each limit from 5 to 8 a text with a chunk that is not balanced |
| SplitterTermination.ChunkFits | pkg/utils/message.go:24-111 | no chunk is longer than the limit, through all branches |
| SplitterTermination.ChunksFit | pkg/utils/message.go:12-114 | nor is any chunk of any number of turns |
| SplitterTermination.InnerSplitShrinks | pkg/utils/message.go:66-80 | the split inside a block shrinks the text by at least 20 characters |
| SplitterTermination.TurnShrinks | pkg/utils/message.go:24-111 | when every fence is followed by a newline within `maxLen - 7` characters or by none, every turn shrinks the text |
| SplitterTermination.TurnKeepsShortHeaders | pkg/utils/message.go:24-111 | and what is left has that property again |
| SplitterTermination.ShortHeadersHalt | pkg/utils/message.go:12-114 | so the splitter ends on such a text, whatever else it holds |
| SplitterTermination.StuckPassesOn | pkg/utils/message.go:94-98 | a turn never gets rid of a stuck block |
| SplitterTermination.StuckComesFrom | pkg/utils/message.go:45-104 | nor does it ever make one |
| SplitterTermination.FreeTurnShrinks | pkg/utils/message.go:24-111 | without a stuck block a turn shrinks shaped and balanced text |
| SplitterTermination.HaltsExactly | pkg/utils/message.go:12-114 | on shaped and balanced text, for limits from 10, the splitter ends if and only if no block is stuck |
| SplitterTermination.EndlessSplit | pkg/utils/message.go:94-98 | for every limit from 10 a shaped and balanced text, two characters longer than the limit, on which the splitter never ends |
| SplitterContent.TurnKeepsContent | pkg/utils/message.go:76-111 | chunk and rest of a turn are contiguous parts of the original, in order, holding all its visible characters once; the only characters a turn injects are the closer and, in front of the rest, the header with a newline |
| SplitterContent.ContentKept | pkg/utils/message.go:12-114 | after any number of turns, chunks and rest hold every non-whitespace character of the input exactly once, in order |
| SplitterContent.AllContentKept | pkg/utils/message.go:12-114 | when the splitter is done, the chunks are such pieces of the input and alone hold every non-whitespace character of it |
| SplitterHeaders.ChunksHeaded | pkg/utils/message.go:58-98 | on shaped and balanced text without a stuck block, all that is injected in front of a chunk is the trimmed first line of the very block its original text continues |
| SplitterHeaders.TurnTracks | pkg/utils/message.go:45-98 | one turn keeps that, through cuts between blocks and inside them |
| SplitterHeaders.ReopenedBlock | pkg/utils/message.go:58-64 | the block a cut reopens is the block of the original text the cut falls into, and the cut lies behind its first line |
| SplitterContent.FenceFreeContent | pkg/utils/message.go:109-110 | without fences, deleting whitespace from the joined chunks and the rest gives what deleting it from the input gives |
| Cron.CronService.Start | pkg/cron/service.go:81-103 | a service not yet running reloads the store and recomputes every next run; a running one is left alone |
| Cron.CronService.Stop | pkg/cron/service.go:105-118 | ends the running state and changes no job |
| Cron.CronService.RecomputeNextRuns | pkg/cron/service.go:281-289 | recomputes the next run of every enabled job |
| Cron.CronService.CheckJobs | pkg/cron/service.go:134-174 | collects the due jobs and forgets their next runs before anything is executed |
| Cron.CronService.FinishJob | pkg/cron/service.go:201-243 | after its handler: a one-shot job is deleted or disabled, any other rescheduled, and a removed one left alone |
| Cron.CronService.AddJob | pkg/cron/service.go:346-387 | appends an enabled job with its first run computed; only one-shot jobs delete themselves |
| Cron.CronService.RemoveJobUnsafe | pkg/cron/service.go:410-428 | removes the job and tells whether there was one |
| Cron.CronService.EnableJob | pkg/cron/service.go:430-454 | enables with a fresh next run or disables without one, and tells whether there was such a job |
| Cron.WithoutShrinks | pkg/cron/service.go:410-428 | comparing list lengths tells exactly whether the job was there |
| CronJobs.NextRunExactly | pkg/cron/service.go:245-278 | the next run of a one-shot job is its time if and only if that is to come, of an interval job an interval from now where that fits int64, of a job with an expression the library's tick, of any other none |
| CronJobs.RemovesExactly | pkg/cron/service.go:410-428 | removing takes out the job with the identifier and nothing else |
| CronJobs.CompletesExactly | pkg/cron/service.go:201-243 | after its handler a one-shot job is gone, or disabled without a next run; any other is scheduled afresh; the run is recorded and no other job changes |
| CronJobs.CompletesNothing | pkg/cron/service.go:201-222 | completing a job that was removed while its handler ran changes nothing |
| CronJobs.EnablesExactly | pkg/cron/service.go:430-454 | enabling schedules afresh, disabling takes the next run away, and no other job changes |
| CronJobs.AddsExactly | pkg/cron/service.go:346-387 | a new job is enabled and scheduled, has not run, and deletes itself if and only if it is a one-shot job |
| CronJobs.RecomputesExactly | pkg/cron/service.go:281-289 | a start schedules each enabled job afresh and leaves each disabled one as it is |
| CronJobs.ForgetsExactly | pkg/cron/service.go:151-162 | a collection takes the next run of the collected jobs away and leaves the others as they are |
| CronRuns.NothingLeftDue | pkg/cron/service.go:134-174 | after a collection no enabled job is still due at that instant |
| CronRuns.CollectedApart | pkg/cron/service.go:145-162 | a job being collected was collected its interval ago at the latest, and never before if one-shot |
| CronRuns.TickKeeps | pkg/cron/service.go:134-174 | a collection keeps the invariant that no next run is earlier than the last firing plus the interval |
| CronRuns.StepKeeps | pkg/cron/service.go:81-454 | so does every event: ticks, completions, additions, removals, enabling, start, stop, reload, restart |
| CronRuns.RunKeeps | pkg/cron/service.go:81-454 | and every interleaving of events, ticks of overlapping run loops among them |
| CronRuns.AtMostOnce | pkg/cron/service.go:145-162 | in every run a one-shot job is collected for execution at most once |
| CronLiveness.AddedJobsRun | pkg/cron/service.go:134-387 | in every run from any store, a job added to run at `n` (one-shot, interval or expression) that is not removed, disabled or rescheduled is collected for execution by the first tick of the running service at or after `n` |
| CronLiveness.CollectedOnTime | pkg/cron/service.go:134-174 | so is every enabled job waiting for its time, from any state a run can reach, whatever else happens meanwhile |
| CronLiveness.StepSpares | pkg/cron/service.go:81-454 | no other event makes a waiting job lose its time: ticks before it, completions, additions and removals of other jobs, stops, and for one-shot jobs a restart before their time |
| CronLiveness.FinishWaits | pkg/cron/service.go:201-243 | a job that is no one-shot job waits again once its only execution has finished |
| CronLiveness.EnableWaits | pkg/cron/service.go:81-103 | so does a job that is enabled, and an enabled one when the service starts |
| CronRuns.IntervalsKept | pkg/cron/service.go:236-263 | in every run two firings of an interval job are at least its interval apart, unless int64 overflows |
| CronRuns.FinishedDueAgain | pkg/cron/service.go:236-263 | that overflow, exactly: a finished interval job is due at once if and only if clock plus interval exceeds int64 |
| CronRuns.OverflowRun | pkg/cron/service.go:81-263 | whenever it does, a run collects the job twice at one instant |
| Cooldown.CooldownTracker.GetOrCreate | pkg/providers/cooldown.go:165-174 | gives the provider's record, a fresh one for a provider not seen before, and changes no other |
| Cooldown.CooldownEntry.RecordFailure | pkg/providers/cooldown.go:42-66 | resets counters older than the window, counts the failure, and sets the cooldown its reason calls for |
| Cooldown.CooldownTracker.MarkFailure | pkg/providers/cooldown.go:42-66 | does so to the provider's record and to no other |
| Cooldown.CooldownTracker.MarkSuccess | pkg/providers/cooldown.go:69-83 | clears counters and both cooldowns of a known provider, and ignores an unknown one |
| Cooldown.CooldownTracker.IsAvailable | pkg/providers/cooldown.go:86-108 | true exactly when neither end lies in the future |
| Cooldown.CooldownTracker.CooldownRemaining | pkg/providers/cooldown.go:112-139 | the longer of the two remaining times |
| Cooldown.CooldownTables | pkg/providers/cooldown.go:176-207 | the formulas give the documented tables: 1, 5, 25 minutes, then an hour; 5, 10, 20 hours, then a day |
| Cooldown.CooldownsGrow | pkg/providers/cooldown.go:183-207 | more failures never shorten a cooldown, and the reset window is at least as long as both caps |
| Cooldown.FailsExactly | pkg/providers/cooldown.go:42-66 | one failure in figures: counts go on, or start again after 24 hours; a billing failure disables for 5, 10, 20, then 24 hours by their own count, any other cools down for 1, 5, 25, then 60 minutes by the count of all; the other end stays |
| Cooldown.MarksOneProvider | pkg/providers/cooldown.go:42-83 | no mark changes the record of another provider |
| Cooldown.SuccessClears | pkg/providers/cooldown.go:69-83 | after every history that ends with a success of a provider it is available at any time, its counts are zero, its next failure gives one minute, or five hours for billing, and the other records are as before |
| Cooldown.FailureExtends | pkg/providers/cooldown.go:42-66 | one more failure never brings either end forward, even when the counters are reset |
| Cooldown.RemainingIsExact | pkg/providers/cooldown.go:86-139 | available exactly when nothing remains, never more than 24 hours, and available once the remaining time is over |
| Cooldown.FailureBlocks | pkg/providers/cooldown.go:42-66 | a provider that has just failed is unavailable for at least a minute |
| Cooldown.HistoryKeeps | pkg/providers/cooldown.go:42-83 | the invariant holds after every history of failures and successes |
| Cooldown.CooldownGuarantees | pkg/providers/cooldown.go:42-139 | over every history: counts add up, availability is exact, the next failure brings no end forward and blocks the provider |
| Cooldown.RestsUnlessCleared | pkg/providers/cooldown.go:42-108 | over every history of a shared tracker, a provider that failed is available only when the cooldown which that failure left is over, a minute at the least, unless a success of it was marked in between |
| Cooldown.EndsStay | pkg/providers/cooldown.go:42-83 | without a success of a provider marked in between, no mark of anyone brings an end of its cooldowns forward |
| Fallback.Execute | pkg/providers/fallback.go:86-192 | outcome, attempts, calls and tracker of the fallback loop, for every provider behaviour and classifier |
| Fallback.ExecuteEnds | pkg/providers/fallback.go:86-192 | candidates are visited in order: all before the end were skipped in cooldown or failed for any reason but a malformed request, with one attempt each; a cancellation or a malformed request ends the loop, nothing runs behind the end, and the tracker is the fold of the recorded outcomes |
| Fallback.NoCandidatesEnd | pkg/providers/fallback.go:86-94 | without candidates the call fails at once and leaves the tracker as it is |
| Fallback.FailedProviderRests | pkg/providers/fallback.go:104-118 | without marks of other calls, a provider that failed in this call is not run again before its cooldown is over |
| Fallback.SharedProviderRests | pkg/providers/fallback.go:104-124 | with any marks of other calls in between, a call runs a provider that failed only when the cooldown which that failure left is over, unless a success of that provider was marked meanwhile |
| Fallback.EndsGrow | pkg/providers/fallback.go:104-180 | the failures recorded during a call bring no provider's cooldown forward |
| Fallback.AdvanceKeeps | pkg/providers/fallback.go:104-180 | each candidate passed over extends the record and the fold by exactly its own attempt |
| Trigrams.CodeInjective | pkg/skills/search_cache.go:175-185 | different trigrams have different codes |
| Trigrams.BuildTrigrams | pkg/skills/search_cache.go:175-196 | a strictly ascending sequence holding exactly the trigrams of the query |
| Trigrams.Compact | pkg/skills/search_cache.go:186-195 | the in-place removal of repetitions from a sorted array keeps exactly its elements |
| Trigrams.CountCommon | pkg/skills/search_cache.go:203-216 | the two-pointer merge counts the common elements of two ascending sequences exactly |
| Trigrams.MergeEnd | pkg/skills/search_cache.go:203-219 | when one side is used up the counter is the size of the intersection, and the lengths less it that of the union |
| Trigrams.JaccardSimilarity | pkg/skills/search_cache.go:199-220 | the Jaccard similarity of the two sets, 1 for two empty ones, as an exact quotient |
| Trigrams.RoundingKeepsOrder | pkg/skills/search_cache.go:78-84 | rounding such quotients as float64 does keeps every comparison between two of them, and with 0.7 |
| Trigrams.FewTrigrams | pkg/skills/search_cache.go:180-183 | the union of two trigram sets never exceeds the range for which that holds |
| SearchCache.SearchCache.Get | pkg/skills/search_cache.go:51-90 | a hit is a live entry that matches exactly or has maximal similarity of at least 0.7 and becomes the most recent; a miss means no live entry reaches 0.7 |
| SearchCache.SearchCache.BestMatch | pkg/skills/search_cache.go:68-82 | the scan finds a live entry of maximal similarity, in whatever order the map yields them |
| SearchCache.SearchCache.Put | pkg/skills/search_cache.go:93-133 | drops expired entries, updates in place or evicts to make room, and files the entry as the most recent |
| SearchCache.SearchCache.EvictExpired | pkg/skills/search_cache.go:144-156 | exactly the live entries stay, in their order |
| SearchCache.SearchCache.EvictOldest | pkg/skills/search_cache.go:118-123 | the loop drops heads of the order list until there is room |
| SearchCache.SearchCache.MoveToEnd | pkg/skills/search_cache.go:158-166 | takes the key out of its place and appends it |
| SearchCache.AlikeShareEntry | pkg/skills/search_cache.go:168-170 | two queries have one key in the cache if and only if they are equal up to case and surrounding blanks |
| SearchCache.SevenTenths | pkg/skills/search_cache.go:29-84 | a similarity reaches the threshold if and only if ten times the number of common trigrams is at least seven times that of all trigrams of the two; two queries without any do too |
| SearchCache.AnswersMean | pkg/skills/search_cache.go:51-90 | hits and misses in numbers of trigrams: after a hit on another query the two have seven tenths in common and no live entry has a greater share; after a miss no live entry is the query or has seven tenths |
| SearchCache.StoredIsFound | pkg/skills/search_cache.go:51-133 | less than the lifetime after a store every query alike is answered with the results stored; from then on the entry is expired |
| SearchCache.PurgedIsExpired | pkg/skills/search_cache.go:144-156 | deleting while walking the order list is keeping exactly the live entries |
| SearchCache.StoredInv | pkg/skills/search_cache.go:93-133 | storing keeps the order list duplicate-free with exactly the map's keys, and the size within capacity |
| SearchCache.UseRefines | pkg/skills/search_cache.go:158-166 | moving a key to the end is using it now |
| SearchCache.EvictionRefines | pkg/skills/search_cache.go:118-123 | the head of the order list is the least recently used key |
| SearchCache.StoreRefines | pkg/skills/search_cache.go:93-133 | a store refines the abstract one: expiry, then at capacity eviction of the least recently used key |
| SearchCache.HistoryRefines | pkg/skills/search_cache.go:51-166 | after every sequence of hits and stores the cache represents the timestamped map of the same operations, sorted by last use and within capacity |
| SearchCache.ShortQueriesAlike | pkg/skills/search_cache.go:175-202 | two queries with no trigram in common reach the threshold if and only if both are shorter than 3 bytes |
| History.SanitizeHistoryForProvider | pkg/agent/context.go:515-578 | the loop with its backward walk computes the one-pass automaton, and its result is well-formed |
| History.NearestAssistantCalls | pkg/agent/context.go:532-546 | the walk over contiguous tool messages finds whether an assistant with tool calls is reached |
| History.WalkIsState | pkg/agent/context.go:532-546 | on what has been kept, the walk finds what the automaton's state says |
| History.AppendFits | pkg/agent/context.go:519-575 | the code keeps a message exactly when the list stays well-formed with it |
| History.SanitizedWellFormed | pkg/agent/context.go:515-578 | no system message, every tool message answers a call, every tool call follows user or tool |
| History.SanitizeIsGreedy | pkg/agent/context.go:515-578 | a message is kept exactly when the list kept so far stays well-formed with it |
| History.FixpointsAreWellFormed | pkg/agent/context.go:515-578 | a history passes unchanged if and only if it is well-formed |
| History.SanitizeIdempotent | pkg/agent/context.go:515-578 | repairing twice is repairing once |
| History.SanitizedIsSubsequence | pkg/agent/context.go:515-578 | messages are only dropped, never changed or moved |
| Sessions.SessionManager.AddFullMessage | pkg/session/manager.go:71-87 | appends to the session, created if missing, and touches no other |
| Sessions.SessionManager.GetHistory | pkg/session/manager.go:89-101 | the session's messages, none for a missing session |
| Sessions.SessionManager.SetSummary | pkg/session/manager.go:114-123 | sets the summary of an existing session only |
| Sessions.SessionManager.TruncateHistory | pkg/session/manager.go:125-146 | keeps the newest messages, all or none at the edges |
| Sessions.SessionManager.SetHistory | pkg/session/manager.go:269-282 | replaces the messages of an existing session only |
| Sessions.Truncated | pkg/session/manager.go:135-144 | exactly the newest `keepLast` messages, none for a negative number |
| AgentLoop.ForceCompression | pkg/agent/loop.go:805-854 | stores the compressed history, leaving short histories and other sessions alone |
| AgentLoop.CompressionDrops | pkg/agent/loop.go:805-847 | removes exactly floor((n-2)/2) of n > 4 messages, the oldest behind the first |
| AgentLoop.BuildIsAcceptable | pkg/agent/context.go:490-512 | whatever truncation and compression made of the history, the request has one system message, first, and a well-formed conversation |
| AgentLoop.AskProvider | pkg/agent/loop.go:575-613 | the retry loop: up to two compressions, each with the request rebuilt from the stored session |
| AgentLoop.RunTools | pkg/agent/loop.go:655-753 | records the tool calls and one result per call, in order, in the request and the session alike |
| AgentLoop.RunLLMIteration | pkg/agent/loop.go:496-757 | session, requests and result of the whole iteration, for every behaviour of provider and tools |
| AgentLoop.RunAgentLoop | pkg/agent/loop.go:416-493 | records a turn, and leaves every other session as it was |
| AgentLoop.RoundFits | pkg/agent/loop.go:655-753 | a tool round may follow a well-formed conversation if and only if that ends with the user or a tool |
| AgentLoop.RequestFits | pkg/agent/loop.go:655-753 | so a request stays acceptable with a tool round if and only if it is open |
| AgentLoop.AskRequests | pkg/agent/loop.go:575-613 | every rebuilt request of a retry loop is acceptable |
| AgentRuns.RequestsAcceptableExactly | pkg/agent/loop.go:505-756 | from any acceptable request and any session on, all requests are acceptable if and only if every iteration that a tool round and another request follow either had no context error and an open request in hand, or was last compressed from a session whose kept messages are open |
| AgentRuns.AskEnds | pkg/agent/loop.go:575-613 | the tries of an iteration compress the session once per context error, and end with a request that is open exactly when the last compression left the session so |
| AgentRuns.CompressedOpensExactly | pkg/agent/loop.go:603-611 | for every history, the request rebuilt after a compression is open if and only if the user has spoken last among the messages kept and no tool call is left without a result |
| AgentRuns.BuildOpensExactly | pkg/agent/context.go:490-512 | the same of any built request: the message is not blank, or the user has spoken last in the history and no tool call is left without a result |
| AgentRuns.SpeakerFixesState | pkg/agent/context.go:515-578 | who has spoken last in a history fixes what its repaired form ends with |
| AgentRuns.SurvivalOpens | pkg/agent/loop.go:805-847 | during a turn a compression leaves an open conversation if and only if it keeps a user's message |
| AgentRuns.CompressionClosesExactly | pkg/agent/loop.go:595-611 | after a compression a tool round makes an acceptable request if and only if the messages kept are open |
| AgentRuns.RequestsHaveOneSystem | pkg/agent/loop.go:505-756 | every request of every turn has exactly one system message, which comes first |
| AgentRuns.IterateRecords | pkg/agent/loop.go:655-753 | without context errors the iterations append complete tool rounds, to session and request alike |
| AgentRuns.TurnRecords | pkg/agent/loop.go:448-466 | without context errors a turn records the user's message, complete rounds, and the final answer unless the provider failed |
| AgentRuns.TurnRequests | pkg/agent/loop.go:434-454 | every request of a turn has one system message, first; all are acceptable if and only if the first one followed by a tool round and a request is open and every compression so followed keeps a user's message |
| AgentRuns.TurnsAcceptable | pkg/agent/loop.go:434-613 | a turn whose first request is open makes acceptable requests only, whatever provider and tools do, without context errors, within two iterations, or when the session is empty or begins with the user |
| AgentRuns.TurnsAcceptableExactly | pkg/agent/loop.go:434-613 | the requests of a turn are acceptable for every provider and all tools if and only if it has at most one iteration, or its first request is open and it has at most two, or the session is empty or begins with the user |
| AgentRuns.CompressionCanClose | pkg/agent/loop.go:595-611 | for every stored session that begins with anything but the user's message, and every limit from three iterations, a provider whose turn makes a request that is not acceptable |
| AgentRuns.BlankCanClose | pkg/agent/context.go:504-510 | for a blank message behind a history that does not end open, a provider whose turn does so in two iterations |
| AgentRuns.SessionsNeedNoRepair | pkg/agent/loop.go:448-466 | sessions built from recorded turns alone pass the repair unchanged |
| AgentRuns.RunsNeedNoRepair | pkg/agent/loop.go:416-466 | after any number of turns without context errors the stored session is made of their records alone and passes the repair unchanged |
| AgentRequests.FirstRequest | pkg/agent/context.go:490-512 | the first request of a turn: the system prompt, the repaired stored history unless the turn uses none, and last the user's own words, unless they are blank |
| AgentRequests.NextRequest | pkg/agent/loop.go:505-756 | the request after it: on a context error rebuilt from the compressed session; else the same one with the assistant's calls and a result under the identifier of each call |
| AgentRequests.CompressesExactly | pkg/agent/loop.go:805-847 | compression keeps histories of up to four messages, and of longer ones the first, with a note of how many are dropped, and all but the older half of those between first and last |
| AgentRequests.ThreeTries | pkg/agent/loop.go:575-613 | a request is tried again on a context error, twice at the most |
| AgentRequests.TurnEnds | pkg/agent/loop.go:434-493 | a turn ends with the first reply that asks for no tool: its content, or the default response where that is empty or no iteration is left, recorded as the last message of the session; or with a failure |
| PromptCache.ContextBuilder.StatPaths | pkg/agent/context.go:233-248 | existence and latest time of the source files and the skills directory, each looked at at its own instant |
| PromptCache.ContextBuilder.WalkSkills | pkg/agent/context.go:250-260 | the latest time covers every skill file that existed when the walk began |
| PromptCache.ContextBuilder.BuildCacheBaseline | pkg/agent/context.go:233-273 | a reference time and a record of existence that hold of some instant of its course; the fixed earliest time when nothing tracked exists |
| PromptCache.ContextBuilder.BuildSystemPrompt | pkg/agent/context.go:121-151 | every tracked file is shown as it was at the instant, between begin and end, at which it was read |
| PromptCache.ContextBuilder.FileChangedSince | pkg/agent/context.go:323-341 | the test of one path: existence against the record, else its modification time |
| PromptCache.ContextBuilder.PathsChanged | pkg/agent/context.go:287-300 | no change reported means no source file was newer when the check began; a change reported means a watched file did differ |
| PromptCache.ContextBuilder.SkillFilesModified | pkg/agent/context.go:353-371 | no change reported means no skill file was newer when the walk began |
| PromptCache.ContextBuilder.SourceFilesChanged | pkg/agent/context.go:282-313 | no change reported means no tracked file was newer when the check began; a change reported means a watched file did differ at some instant of it |
| PromptCache.BuiltIsSound | pkg/agent/context.go:175-192 | with the baseline taken before the build, a file no newer than the reference time still is what the prompt shows |
| PromptCache.LateBaselineIsStale | pkg/agent/context.go:175-186 | with the baseline taken after it, a file edited in between passes for unchanged |
| PromptCache.UnchangedSince | pkg/agent/context.go:323-341 | a file whose modification time had been reached before has not changed since |
| PromptCache.ContextBuilder.UnchangedIsFresh | pkg/agent/context.go:282-313 | when the check reports no change, the cached prompt shows every tracked file as it was when the check began |
| PromptCache.ContextBuilder.StillIsUnchanged | pkg/agent/context.go:282-313 | and when nothing watched has changed since the baseline, no check can report a change |
| PromptCache.ContextBuilder.CachedIsFresh | pkg/agent/context.go:157-173 | the test under either lock is sound, and does not fail when nothing watched changed |
| PromptCache.ContextBuilder.Rebuild | pkg/agent/context.go:175-193 | caches a prompt whose baseline precedes it |
| PromptCache.ContextBuilder.BuildSystemPromptWithCache | pkg/agent/context.go:156-193 | every call, cached, rebuilt or rebuilt by another goroutine, returns a prompt showing each tracked file as it was at some instant of the call |
| PromptCache.ContextBuilder.AllShownExactly | pkg/agent/context.go:121-151 | what showing every tracked file means: of each source and skill file the prompt has the content of an instant of the call, and lacks it only if it was missing at one |
| DedupRing.OneBotChannel.constructor | pkg/channels/onebot.go:100-112 | an empty set and a ring of 1024 empty slots |
| DedupRing.OneBotChannel.IsDuplicate | pkg/channels/onebot.go:936-956 | true exactly for an identifier among the last 1024 accepted ones, whatever was called before |
| DedupRing.OneMoreHeld | pkg/channels/onebot.go:948-953 | overwriting the slot at the index keeps the last identifiers in cyclic order |
| DedupRing.OneMoreIndexed | pkg/channels/onebot.go:948-953 | dropping the overwritten identifier and adding the new one keeps the set that of the window |
| DedupRing.KnownUntilFull | pkg/channels/onebot.go:936-956 | an identifier stays known exactly until 1024 others were accepted after it |
| DedupRing.AcceptedWindowsDistinct | pkg/channels/onebot.go:936-956 | for every sequence of calls, the identifiers held are pairwise distinct and count |
| AgentId.NormalizeMeans | pkg/routing/agent_id.go:25-66 | what an identifier becomes: itself in lower case if that fits the pattern; else each run of other characters is one dash, dashes around are taken away, the rest is cut after 64 characters, and `main` or `default` stands for nothing |
| AgentId.AlikeNormalizeAlike | pkg/routing/agent_id.go:25-66 | identifiers equal up to case and surrounding blanks have one form |
| AgentId.NormalizedIsNormal | pkg/routing/agent_id.go:25-66 | identifiers normalise to 1 to 64 characters of [a-z0-9_-], the first of them no dash |
| AgentId.DocumentedFormExactly | pkg/routing/agent_id.go:16-44 | the result fits the documented pattern, a letter or digit first, if and only if no underscore leads the identifier |
| AgentId.UnderscoreStays | pkg/routing/agent_id.go:34-43 | an identifier whose result does not |
| AgentId.TrailingDashExactly | pkg/routing/agent_id.go:30-43 | the result ends with a dash if and only if the identifier is valid as it is and ends with one, or is cut right behind one |
| AgentId.NormalizeTwiceExactly | pkg/routing/agent_id.go:25-44 | normalising again changes nothing if and only if no underscore leads the identifier or it is not cut right behind a dash |
| AgentId.NormalizeFixpoints | pkg/routing/agent_id.go:25-66 | a normal form normalises to itself if and only if it does not begin with an underscore and end with a dash |
| AgentId.NormalizeShortens | pkg/routing/agent_id.go:34-43 | normalising again makes a normal form shorter wherever it changes it |
| AgentId.NormalizeTwiceDiffers | pkg/routing/agent_id.go:34-43 | an identifier that normalises to such a form exists |
| SessionKey.ResolveLinkedPeerID | pkg/routing/session_key.go:147-183 | a canonical name under which the peer is listed, alone or with its channel; none exactly when there is none |
| SessionKey.BuildAgentPeerSessionKey | pkg/routing/session_key.go:46-121 | the key for scope, channel, account and peer, the peer collapsed to a linked name; it parses to its agent part and exact remainder |
| SessionKey.LinkedExactly | pkg/routing/session_key.go:147-183 | a peer is linked if and only if a canonical name that is not blank lists it, alone or behind its channel, up to case and blanks |
| SessionKey.KeyExactly | pkg/routing/session_key.go:46-121 | what any built key says: a known direct peer, under its linked name if it has one, in lower case, behind exactly the channel and account its scope asks for; main otherwise; groups by channel, kind and peer |
| SessionKey.LinkedPeersShareKey | pkg/routing/session_key.go:65-71 | with conversations told apart by peer alone, peers linked to one canonical name have one key, whatever the platform |
| SessionKey.MainScopeIgnoresLinks | pkg/routing/session_key.go:60-67 | in the main scope, which is the default, direct keys do not depend on links |
| SessionKey.ParseInvertsJoin | pkg/routing/session_key.go:103-121 | parsing undoes joining for every normal agent and every remainder that does not end in whitespace |
| SessionKey.ParseInvertsBuild | pkg/routing/session_key.go:40-121 | parsing any built key gives the exact remainder, and the normalised agent if and only if the key is no main key or that form is stable |
| SessionKey.GroupKeysInjective | pkg/routing/session_key.go:93-99 | with colon-free channels and kinds, group keys are equal if and only if agent, channel, kind and lower-cased peer are |
| SessionKey.DirectKeysInjective | pkg/routing/session_key.go:73-79 | with colon-free channels, direct keys per account, channel and peer are equal if and only if all of these are |
| Route.FilterBindings | pkg/routing/route.go:121-145 | the bindings for the channel and account, in order, and all of them |
| Route.FindPeerMatch | pkg/routing/route.go:147-163 | the first binding for the peer |
| Route.FindGuildMatch | pkg/routing/route.go:165-174 | the first binding for the guild |
| Route.FindTeamMatch | pkg/routing/route.go:176-185 | the first binding for the team |
| Route.FindAccountMatch | pkg/routing/route.go:187-200 | the first binding for an account as a whole |
| Route.FindChannelWildcardMatch | pkg/routing/route.go:202-215 | the first binding for a channel as a whole |
| Route.PickAgentID | pkg/routing/route.go:217-233 | the named agent if it is configured, else the default one |
| Route.ResolveDefaultAgentID | pkg/routing/route.go:235-252 | the first agent flagged as default that has an identifier, else the first agent, else main |
| Route.StageWins | pkg/routing/route.go:75-119 | the first filtered binding of the strongest level has the smallest level and position of all configured ones |
| Route.ReasonsExactly | pkg/routing/route.go:75-215 | the reason a binding wins for, in the order of the cascade: same channel and account, then peer, parent peer, guild, team, the account or the channel as a whole |
| Route.DefaultExactly | pkg/routing/route.go:235-252 | the first agent flagged as default that has an identifier is the default one; without any the first agent; `main` for a blank identifier or without agents |
| Route.PickedExactly | pkg/routing/route.go:217-233 | the agent asked for if it is not blank and is configured, up to normalising, or none is configured; the default one otherwise |
| Route.RouteKeyExactly | pkg/routing/route.go:42-74 | the session key of a route is for the message's own peer, the routed agent, its channel, account, scope and links; it is in lower case and parses to that remainder; the main key is that of the routed agent |
| Route.ResolveRoute | pkg/routing/route.go:42-119 | the chosen binding is the one of the smallest (level, position) among those for the channel and account; without one the default agent is chosen; level, agent and session keys are those of the choice |
| Route.NewAgentRegistry | pkg/agent/registry.go:20-55 | holds each configured agent under its normalised identifier, the last of several, and an implicit main agent when none is configured |
| Route.DefaultIsRegistered | pkg/routing/route.go:235-252 | the default agent always is a key of the registry |
| Route.RoutedAreRegistered | pkg/routing/route.go:217-252 | with agents configured, every routed agent is a key of the registry if and only if the default agent, normalised again, is |
| Route.RoutedAreFound | pkg/agent/registry.go:58-64 | the registry finds every routed agent if and only if its keys are closed under normalising |
| Route.StableIdsRoute | pkg/routing/route.go:217-252 | when configured identifiers normalise to stable forms, such as those beginning with a letter or digit, every routed agent is a key and found under it |
| Route.RouteMisses | pkg/routing/route.go:217-252 | a configuration whose only agent is routed to under an identifier that is no key |
| Route.EmptyListRoutes | pkg/routing/route.go:222-225 | with no agents configured, a binding's agent is registered if and only if it normalises to main |
| Route.SessionNamesAgent | pkg/routing/route.go:54-74 | a route's lower-cased session key parses to its remainder, and names the routed agent if and only if that identifier is stable |
| WeCom.Pkcs7UnpadWeCom | pkg/channels/wecom.go:586-605 | the checks and the loop over the padding bytes, with their four outcomes |
| WeCom.UnpadExactly | pkg/channels/wecom.go:586-605 | succeeds on non-empty data if and only if it is m and p copies of byte p with 1 <= p <= 32, and then gives m |
| WeCom.UnpadFailsExactly | pkg/channels/wecom.go:586-605 | each of the three errors if and only if its cause is there: a last byte outside 1 to 32, one beyond the length, or a padding byte that differs, at that distance from the end |
| WeCom.UnpadInvertsPad | pkg/channels/wecom.go:586-605 | inverts the padding of section 6.3 of RFC 5652 with block size 32 |
| WeCom.UnwrapExactly | pkg/channels/wecom.go:552-580 | a padded frame gives its message back if and only if the receiver is unchecked, absent or the expected one, and its end fits uint32 |
| WeCom.ParsesExactly | pkg/channels/wecom.go:558-579 | which of the ends a frame comes to, from the length in bytes 16 to 19 in network order: too short, beyond the data, beyond uint32, another receiver, or the message |
| WeCom.ParsedIsInFrame | pkg/channels/wecom.go:558-579 | whatever parses is the stretch the length field announces, followed by nothing or the expected receiver |

## Left out

- Characters: `Text` trims and lower-cases ASCII only; Go's `strings` functions also know Unicode whitespace and letters.
- SplitMessage.Split: for limits below 5 the slice arithmetic of the code goes out of range; no caller uses such limits.
- SplitterTermination.HaltsExactly: starts at limit 10, as do the results about what is injected; for text that is not shaped and balanced only the size bound, the content and termination with short headers are proved, not an exact condition for termination.
- Cron: UpdateJob, which overwrites a job with its caller's copy, and the accessors; names, payloads and time stamps of jobs; store files that cannot be read or written; identifiers are assumed new, as random ones are.
- Cron: cron expressions are a function from an expression and a time to an optional tick.
- Cooldown: the powers of `math.Pow` are integer powers; the accessors of the counters are left out.
- Fallback: ExecuteImage, the resolution of candidates, the error classifier, and latencies; a cancelled context counts as a kind of reply.
- Fallback.Execute: one call's whole run is not interleaved with the marks of other calls on the shared tracker; what the tracker guarantees then is in Cooldown.RestsUnlessCleared and Fallback.SharedProviderRests.
- Fallback.FailedProviderRests: assumes no marks of other calls meanwhile, which Fallback.SharedProviderRests does not.
- Fallback.EndsGrow: covers the call's own failures; a success marked by another call does clear a cooldown, and nothing else brings one forward (Cooldown.EndsStay).
- SearchCache: each operation reads the clock once; the copies made of result lists are plain sequences, so aliasing is not captured; the library's sort is modelled by its result.
- Trigrams.JaccardSimilarity: the quotient is exact instead of float64, which changes no comparison (Trigrams.RoundingKeepsOrder).
- History: message fields that the repair ignores (system parts, reasoning content, media) and duplicate or missing call identifiers, which it does not look at.
- Sessions: saving to and loading from disk, and GetOrCreate, which lets a caller hold the session outside the lock.
- AgentLoop: tool execution, messages sent to the user, and summarisation, whose only effect on a session is to truncate it and set its summary; it is not interleaved with a turn.
- PromptCache: files the code does not track (global and built-in skills, daily notes), and deletion; an edit is assumed to get a later modification time than any before.
- DedupRing: the network side of the channel; an identifier's lock is an atomic step.
- SessionKey: IsSubagentSessionKey.
- Route: the configuration itself, peers extracted from messages, and agents beyond their identifiers.
- WeCom: decryption, signatures and base64; data that decrypts to nothing is what the unpadding returns unchanged.
- The remaining packages: channel clients, provider adapters, tools, configuration and its migration.
