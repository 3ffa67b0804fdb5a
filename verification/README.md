# Verified models of the Antikythera runtime

Dafny models of the parts of Antikythera whose behaviour depends on
interleaving, on where a text happens to be cut, or on the order of a long run
of operations, with proofs of what they promise. `dafny verify dfyconfig.toml`
checks everything.

| file | what it models |
|---|---|
| `WorkerPool.dfy` | the JavaScript orchestrator: the worker pool of `dispatchMany`, its shared budget, the sequential path and `pipeline` |
| `ControlProtocol.dfy`, `ControlServer.dfy` | the correlation protocol of the Python server: a step machine over its lock regions, and the class whose methods are those steps |
| `RuntimeControl.dfy` | the same protocol in the Rust runtime, proved to give every POST-back it can decode the same verdict |
| `PostBack.dfy` | what a client posts back, as JSON, and how a refusal is made to read as a denial |
| `Sse.dfy` | server-sent events: the server's encoder and the client's incremental decoder |
| `RateLimit.dfy` | the sliding-window rate limiter with its session cap and idle eviction |
| `RateCapacity.dfy` | the exact number of requests that limiter can be brought to let through, and so the configurations whose limits hold |
| `ContextWindow.dfy` | pruning of a chat history to a token budget |
| `HooksLedger.dfy` | ownership of the global runtime-hooks slot |
| `Router.dfy` | tool registration, each lock region a step, and dispatch |
| `ToolLoop.dfy` | the tool loop against an arbitrary runner, model and tools |
| `LlmGate.dfy` | the per-session quota of model calls |
| `VersionSync.dfy` | the release-version scanner, the token rewriter, and the write and check modes |
| `WitTypes.dfy`, `BraceMatcher.dfy` | the WIT-to-Rust type translation and the brace matcher of the interface extractor |
| `Toml.dfy` | TOML escaping and sanitizing, against a scanner for basic strings (TOML v1.0.0, section "String") |
| `LogRing.dfy` | the log ring buffer and its paged reads |
| `Common.dfy` | small value types |

How the models are built. Where the source updates objects, there is a class
with the same fields whose methods are proved against a function on values, and
the laws are proved about that function over every run. An `await`, a released
lock or another thread is a separate step: what the others do meanwhile is
chosen freely (`:= *`), and the classes are proved for every choice. Clocks,
fresh ids, the answers of runtimes, models, tools and clients, and the Unicode
tables of the Rust standard library are parameters. Strings are sequences of
characters; the byte offsets of the Rust scanners are character offsets here,
which is the same thing at every ASCII character they stop at.

Where the code and its own documentation disagree, the model follows the code,
and a lemma says exactly when the documented claim holds:

- pruning "drops the oldest" (context_window.rs:83), but the loop skips rather than stops: `ContextWindow.KeepsOnlyTheNewestIff`;
- the hooks slot is "removed only when zero owners remain" (control.js:126), but a surviving owner without hooks also empties it: `HooksLedger.AbsentAfterReleaseIff`;
- the hour and day limits of the rate limiter do not survive the eviction after 300 idle seconds, in the default configuration either: `RateCapacity.BoundHoldsIff` says for which configurations they hold, the interval of the cleanup thread included, `RateCapacity.HourBoundIff` and `RateCapacity.DayBoundIff` in closed form;
- the per-session quota of model calls is forgotten when the table is emptied: `LlmGate.QuotaHoldsIff`;
- a rewritten version line may lose its marker, as the file itself notes for a major bump: `VersionSync.FixedPointIff` in general, `VersionSync.MajorBumpLosesTheMarker` for the pinned marker;
- a WIT result whose success arm holds a result with an error arm is split in the wrong place, and a result without a success or an error arm comes out with `_`, nothing or `Result` alone where Rust has `()`: `WitTypes.FaithfulIffSimple`;
- an MCP server whose registration failed half-way, or has not ended yet, has tools that answer "not connected" (`Router.NotConnectedIff`), and between the two locks of its first registration a local tool answers "no local handler" (`Router.DispatchIsSound`);
- an accepted POST-back is not always delivered: `ControlProtocol.AcceptedReachesTheWaiterIff`;
- a denial "must" carry the `permission:` prefix (loop_owner.py:65), but a reason that is neither falsy nor a string raises before it gets one: `ControlServer.RefusalsReadAsDenials`;
- the Rust server refuses a POST-back that does not decode, which the Python server accepts: `RuntimeControl.OneVerdict`.

## Model

| member | source | states |
|---|---|---|
| WorkerPool.NextKeepsInv | clients/npm/antikythera-sdk/orchestrator.js:162-175 | every segment of every worker, and any interference by other dispatches, keeps the pool invariant: each claimed position has its result or exactly one worker on it, refusals come last |
| WorkerPool.ResultsAreWrittenOnce | clients/npm/antikythera-sdk/orchestrator.js:159-175 | in every interleaving, a result once written is never written again |
| WorkerPool.EveryTaskExactlyOnce | clients/npm/antikythera-sdk/orchestrator.js:159-178 | in every interleaving, whatever else runs: one result per prompt at its own position, ids growing, refusals a suffix, and a refusal only when the budget is spent |
| WorkerPool.NextKeepsBalance | clients/npm/antikythera-sdk/orchestrator.js:336-370 | conservation: counters plus work in flight always equal the starting counters plus everything started |
| WorkerPool.OvershootBounded | clients/npm/antikythera-sdk/orchestrator.js:162-175 | at every moment of a run of W workers alone: from below maxTotalTasks, executed plus in-flight turns are at most maxTotalTasks - 1 + W; from a start at or past the limit nothing is started |
| WorkerPool.OvershootReached | clients/npm/antikythera-sdk/orchestrator.js:162-175 | the bound is tight: from every start below the limit, with prompts enough and a step budget that outlasts the turns that end, some run reaches it, one in which every worker starts before any goes on |
| WorkerPool.StepOvershootBounded | clients/npm/antikythera-sdk/orchestrator.js:162-175 | if no turn takes more than k iterations, steps taken plus steps in flight are at most maxTotalSteps - 1 + W * k at every moment of a lone run, and do not grow from a start at or past the limit |
| WorkerPool.StepOvershootReached | clients/npm/antikythera-sdk/orchestrator.js:162-175 | that bound is tight as well, with turns of k iterations and a start any number of turns below the limit |
| WorkerPool.CountersMatchResults | clients/npm/antikythera-sdk/orchestrator.js:354-358 | at the end the counters have grown by the number of results not refused and by the sum of their steps |
| WorkerPool.SegmentEnabled | clients/npm/antikythera-sdk/orchestrator.js:165-174 | an unfinished worker can always go on, and every segment brings the pool nearer to its end |
| WorkerPool.DispatchKeepsAnswers | clients/npm/antikythera-sdk/orchestrator.js:151-157 | dispatching one after the other keeps the answer laws and never exceeds the limit |
| WorkerPool.Orchestrator.RunTask | clients/npm/antikythera-sdk/orchestrator.js:336-370 | a turn, or a thrown error, becomes a result field by field, and costs one task and its iterations |
| WorkerPool.Orchestrator.Dispatch | clients/npm/antikythera-sdk/orchestrator.js:122-131 | no agent: an error and no change; else the result that the budget at the start decides, whatever runs during the turn; alone, exactly its cost on the counters |
| WorkerPool.DispatchOneMeaning | clients/npm/antikythera-sdk/orchestrator.js:122-131 | once a limit that is set is reached, a refusal at no cost; until then a turn, at the cost of one task and its iterations |
| WorkerPool.ChainIsHandedOn | clients/npm/antikythera-sdk/orchestrator.js:193-213 | what the loop of the pipeline builds is a chain of successes, each prompted with the output before it |
| WorkerPool.Orchestrator.Pipeline | clients/npm/antikythera-sdk/orchestrator.js:187-218 | with other dispatches at every await: the successful prefix, each stage prompted with its task and, below "Previous step output:", the output before it if there is one, the last output, the steps of that prefix, and the error of the task it stopped at; alone, consecutive ids and a budget that has paid for the prefix and, unless it was refused, for the failed turn |
| WorkerPool.Orchestrator.DispatchMany | clients/npm/antikythera-sdk/orchestrator.js:146-179 | on both paths and for every scheduler, others running at every await: the answer laws; alone, exact counters and both overshoot bounds |
| WorkerPool.Orchestrator.DispatchPool | clients/npm/antikythera-sdk/orchestrator.js:158-178 | the pool path: results and counters are those of a finished run of W = min(maxConcurrentTasks, number of prompts) workers; alone, exact counters and both overshoot bounds |
| WorkerPool.Orchestrator.DispatchInOrder | clients/npm/antikythera-sdk/orchestrator.js:151-157 | the sequential path, others running between and during its turns: the answer laws; alone, exact counters and no overshoot |
| WorkerPool.Activation.Resume | clients/npm/antikythera-sdk/orchestrator.js:162-175 | the code a worker runs between two awaits is one step of the pool machine |
| WorkerPool.Activation.ClaimNext | clients/npm/antikythera-sdk/orchestrator.js:165-170 | index, budget test and task id move in one segment, which is the claim step |
| WorkerPool.Activation.SettleTurn | clients/npm/antikythera-sdk/orchestrator.js:336-370 | the end of a turn moves the counters, which is the settle step |
| WorkerPool.Activation.StoreResult | clients/npm/antikythera-sdk/orchestrator.js:171 | the result goes to the claimed position, which is the store step |
| WorkerPool.Activation.Drive | clients/npm/antikythera-sdk/orchestrator.js:177 | any scheduler finishes every worker, through segments of the pool machine only |
| WorkerPool.Activation.Collect | clients/npm/antikythera-sdk/orchestrator.js:178 | the results array is complete and obeys the answer laws |
| ControlProtocol.DeliveredBodyIsTheAcceptedOne | clients/python/antikythera_agent/server/control.py:209-325 | over all interleavings at most one POST-back per id is accepted, and a body an await returns is that very body, accepted before and within the deadline |
| ControlProtocol.AcceptedReachesTheWaiterIff | clients/python/antikythera_agent/server/control.py:304-325 | exactly when acceptance is delivery: the waiting thread gets the accepted body if and only if its wait had not run out at the acceptance, and times out if and only if it had, whatever happens in between |
| ControlProtocol.RunKeepsTraceLaws | clients/python/antikythera_agent/server/control.py:235-325 | the trace laws extend along every run from every reachable state |
| ControlProtocol.AcceptedMayStillTimeOut | clients/python/antikythera_agent/server/control.py:312-314 | acceptance alone is no promise of delivery: from every state with a waiting thread, some run lets the wait expire, then accepts the POST-back, and times the thread out |
| ControlProtocol.RunsOfOthersRespectRely | clients/python/antikythera_agent/server/control.py:209-325 | however many steps others take, results and deadlines stay as set, entries that left stay away, a new result is not older than the run, and a suspended thread stays put |
| ControlProtocol.StepsOfOthersGuard | clients/python/antikythera_agent/server/control.py:227-280 | a request that only its owner cancels or awaits leaves the table for one reason, a passed deadline |
| ControlProtocol.FiredKeepsWellFormed | clients/python/antikythera_agent/server/control.py:72-87 | every step keeps the table well formed: a woken waiter has a body, and no wait outlasts the deadline |
| ControlProtocol.PostMeaning | clients/python/antikythera_agent/server/control.py:235-280 | a POST-back is accepted exactly for the id of its path, while that waits and in time, and is then the result; one that comes late costs the entry its place, any other changes nothing |
| ControlServer.RefusalsReadAsDenials | clients/python/antikythera_agent/server/loop_owner.py:64-69 | for every JSON value a peer may send as its reason: the refusal reads as a denial if and only if the reason is falsy or a string, and then in the words of the peer, behind the prefix if they lack it |
| ControlServer.ParsedIsResult | clients/python/antikythera_agent/server/wire.py:82-95 | a payload is read as its last values by name, with the defaults for what is missing or null |
| ControlServer.FailuresReadAsDenials | clients/python/antikythera_agent/server/loop_owner.py:233-237 | of all failures, exactly a lost correlation, a malformed result and a reason that is not a string do not read as denials |
| ControlServer.ControlChannel.CreateCorrelation | clients/python/antikythera_agent/server/control.py:209-225 | is the create step: a new entry whose deadline is now plus the TTL |
| ControlServer.ControlChannel.ResolvePostback | clients/python/antikythera_agent/server/control.py:235-280 | is the POST-back step, accepting exactly when the protocol does |
| ControlServer.ControlChannel.CancelPending | clients/python/antikythera_agent/server/control.py:227-233 | is the cancel step and reports whether there was an entry |
| ControlServer.ControlChannel.SweepExpired | clients/python/antikythera_agent/server/control.py:354-359 | after a sweep at t exactly the entries with deadline >= t remain |
| ControlServer.ControlChannel.AwaitBegin | clients/python/antikythera_agent/server/control.py:282-304 | unknown, already resolved, or a wait bounded by the timeout and what is left of the TTL |
| ControlServer.ControlChannel.AwaitPop | clients/python/antikythera_agent/server/control.py:305-325 | the entry leaves the table on both outcomes |
| ControlServer.ControlChannel.WaitReturns | clients/python/antikythera_agent/server/control.py:304 | the wait ends with True if the event is set, and with False only if it is still unset when the time is up |
| ControlServer.ControlChannel.AwaitPostback | clients/python/antikythera_agent/server/control.py:282-325 | with others running in between: no entry remains, a body is the accepted one, unknown means the entry was gone, and a timeout means the wait has run out and nothing was accepted before that |
| ControlServer.ControlChannel.ExecuteRemote | clients/python/antikythera_agent/server/loop_owner.py:197-238 | every exit leaves no entry; a result has the fields of the accepted payload: success only for a true boolean, and the last value given for each of the others or its default; every refusal has its cause: the flaw of the accepted body, no client, a deadline that has passed, or a wait that ended with nothing accepted; with no other thread, no client is answered exactly if none is connected |
| ControlServer.ControlChannel.RequestDecision | clients/python/antikythera_agent/server/loop_owner.py:306-341 | the same for hook requests, where a decision is the accepted text, or the encoding of what else was accepted; a hook that is not allowed changes nothing |
| RuntimeControl.ServersAgree | src/antikythera-server-runtime/src/control.rs:133-178 | along every run of the Python server whose POST-backs decode, the Rust server accepts exactly the same ones, although it keeps no accepted entries and never sweeps |
| RuntimeControl.OneVerdict | src/antikythera-server-runtime/src/http.rs:167-187 | in related states the Rust server accepts a POST-back if and only if the Python server does and the body decodes, the path check included |
| RuntimeControl.DecodesIff | src/antikythera-server-runtime/src/wire.rs:101-108 | a POST-back decodes exactly if id, flag and payload are there with their types and the reason is a string, null or missing |
| RuntimeControl.RelatedAfterPostIff | src/antikythera-server-runtime/src/wire.rs:101-108 | the proviso is exact: after a POST-back the Python server accepts, the two servers are still related if and only if it decodes |
| RuntimeControl.StaysSame | src/antikythera-server-runtime/src/control.rs:133-178 | every step whose POST-back, if any, decodes keeps the two servers related: same open requests, same delivered bodies |
| RuntimeControl.RefusalsReadAsDenials | src/antikythera-server-runtime/src/routing.rs:318-326 | of all failures exactly a malformed result does not read as a denial; a rejection is in the words of the peer, behind the prefix if they lack it |
| RuntimeControl.ControlChannel.RegisterPending | src/antikythera-server-runtime/src/control.rs:133-152 | a new open channel with its deadline |
| RuntimeControl.ControlChannel.CancelPending | src/antikythera-server-runtime/src/control.rs:155-160 | the entry goes and an unused channel closes |
| RuntimeControl.ControlChannel.CompletePostback | src/antikythera-server-runtime/src/control.rs:164-178 | accepts exactly in time and removes the entry in any case |
| RuntimeControl.ControlChannel.ExecuteRemote | src/antikythera-server-runtime/src/routing.rs:230-283 | for every decoder of tool results: every exit leaves no entry; once a body was received, the outcome is the rejection if and only if it says no, the decoded payload if and only if it decodes, and an invalid result if and only if it does not; otherwise nobody was connected, or the deadline came with nothing accepted before it |
| RuntimeControl.ControlChannel.RequestHookDecision | src/antikythera-server-runtime/src/wit.rs:90-139 | the same for hooks, where any payload, even null, is a decision: a text itself, anything else encoded |
| Sse.SplitMeaning | clients/npm/antikythera-sdk/runtime/sse.js:81-82 | splitting rebuilds the text and takes every separator at its leftmost place |
| Sse.FramesOfConcat | clients/npm/antikythera-sdk/runtime/sse.js:80-82 | the frames of x + y are those of x, then those of its leftover continued with y, wherever the cut falls |
| Sse.ChunkIndependence | clients/npm/antikythera-sdk/runtime/sse.js:76-83 | emitted frames and kept buffer depend on the text alone, not on its chunks |
| Sse.ItemIsReadBack | clients/python/antikythera_agent/server/control.py:111-119 | one encoded event or keepalive is one frame and reads back as its text or as nothing |
| Sse.EncodedIsReadBack | clients/python/antikythera_agent/server/control.py:52 | a whole encoded stream reads back as its texts, with an empty buffer |
| Sse.RoundTrip | clients/npm/antikythera-sdk/runtime/sse.js:74-100 | any events and keepalives, cut anywhere: the handler gets exactly the texts in order |
| Sse.Decoder.Feed | clients/npm/antikythera-sdk/runtime/sse.js:78-99 | after every read: the texts delivered are the non-empty data of all frames that have one, in order, and the id to resume from is that of the last frame with a non-empty one, or the one started with, both of the text read so far |
| Sse.Decoder.Parse | clients/npm/antikythera-sdk/runtime/sse.js:18-34 | the line loop: event, id and retry are what the last lines about them say, data all that its lines say, one below the other, and a frame without event, data and id is none |
| Sse.SaysIff | clients/npm/antikythera-sdk/runtime/sse.js:20-25 | a line is read as what it says: name, colon, value, one space after the colon not counting |
| Sse.FieldsAreLastSaid | clients/npm/antikythera-sdk/runtime/sse.js:26-29 | of event, id and retry the last line counts |
| Sse.DataIsAllSaid | clients/npm/antikythera-sdk/runtime/sse.js:27 | the data lines are joined by newlines, those left out that are empty before the first that is not |
| Sse.LinesMeaning | clients/npm/antikythera-sdk/runtime/sse.js:20 | splitting at newlines rebuilds the text, and no line holds one |
| Sse.IdLineIsRead | src/antikythera-server-runtime/src/http.rs:146-153 | the frame of an event with an id reads back as that id and that text |
| Sse.LastIdMeaning | clients/npm/antikythera-sdk/runtime/sse.js:86 | the id kept is that of the last frame with a non-empty one |
| Sse.DeliveredMeaning | clients/npm/antikythera-sdk/runtime/sse.js:87-97 | exactly the frames with data are handed on, in order |
| RateLimit.MinuteBound | src/antikythera-security/src/rate_limit.rs:145-208 | in every run of checks and cleanups, at most requests_per_minute + burst requests pass in any 60 seconds, evictions or not |
| RateLimit.WindowBound | src/antikythera-security/src/rate_limit.rs:50-66 | each window's bound holds in runs that evict the session only when it has been idle for that window |
| RateCapacity.CapacityIsExact | src/antikythera-security/src/rate_limit.rs:145-208 | for every configuration and sweep interval, the most requests any run lets through in n seconds is exactly Best(n), up to a day: no run exceeds it and one reaches it |
| RateCapacity.BoundHoldsIff | src/antikythera-security/src/rate_limit.rs:297-302 | for each window, the limit holds of every run if and only if that number for the length of the window is within the limit |
| RateCapacity.LongWindowExceeded | src/antikythera-security/src/rate_limit.rs:297-302 | otherwise, a run that exceeds it |
| RateCapacity.HourBoundIff | src/antikythera-security/src/rate_limit.rs:145-208 | with a day limit no smaller and any sweep interval: the hour limit holds of every run if and only if 56 times the minute limit is within it |
| RateCapacity.DayBoundIff | src/antikythera-security/src/rate_limit.rs:145-208 | with an hour limit that cannot bind and any sweep interval: the day limit holds of every run if and only if 1436 times the minute limit is within it |
| RateCapacity.ExceededIfReachedEarly | src/antikythera-security/src/rate_limit.rs:297-302 | a limit a session can use up five minutes before its window ends is exceeded by some run, whatever the sweep interval |
| RateCapacity.ExceededByFrequentSweeps | src/antikythera-security/src/rate_limit.rs:285-302 | with an interval of at most 300 seconds, a limit below one burst every five minutes is exceeded |
| RateCapacity.HoldsUnderRareSweeps | src/antikythera-security/src/rate_limit.rs:285-302 | with an interval of a day, a day limit of 25 times the hour limit holds of every run |
| RateCapacity.IntervalMatters | src/antikythera-security/src/rate_limit.rs:285-302 | two configurations that differ in the interval alone, of which one keeps its day limit and the other does not |
| RateCapacity.DefaultLimits | src/antikythera-domain/src/security.rs:86-99 | of the default configuration the minute limit holds of every run, the hour and the day limit do not |
| RateCapacity.BoundedIffShorterThanTheTimeout | src/antikythera-security/src/rate_limit.rs:297-302 | over all configurations, exactly the window no longer than the idle timeout bounds every run |
| RateCapacity.CapacityBound | src/antikythera-security/src/rate_limit.rs:145-208 | the upper half: a run falls into stretches between evictions, each within its three limits, starting with a sweep that found 300 idle seconds and comes one interval after the sweep before |
| RateCapacity.CapacityReached | src/antikythera-security/src/rate_limit.rs:145-208 | the lower half: bursts at the minute limit, with sweeps as close together as idle time and interval allow, reach it |
| RateLimit.SessionCap | src/antikythera-security/src/rate_limit.rs:155-170 | tracked sessions never exceed max_concurrent_sessions |
| RateLimit.FewSessionsAreAdmitted | src/antikythera-security/src/rate_limit.rs:155-170 | in a run over no more sessions than the cap, no check is turned away for it |
| RateLimit.ChainRecords | src/antikythera-security/src/rate_limit.rs:192-207 | a request counts in every window that had room before the one that refuses it, and in none after |
| RateLimit.AllowedIffEveryWindowHasRoom | src/antikythera-security/src/rate_limit.rs:193-206 | a check passes if and only if each of the three windows counts less than its limit |
| RateLimit.Bookkeeping | src/antikythera-security/src/rate_limit.rs:145-208 | over every run, a tracked session's windows count at least every accepted request of their span, and an untracked one has none |
| RateLimit.RateLimiter.CheckWindow | src/antikythera-security/src/rate_limit.rs:50-66 | the retain loop and the count |
| RateLimit.RateLimiter.CheckRequest | src/antikythera-security/src/rate_limit.rs:145-208 | a limiter that is off lets everything pass; a session that is not tracked is turned away if and only if the cap is reached; otherwise the request passes if and only if every window counts less than its limit and burst, and counts in each window up to the one that refuses it; the minute bound and the session cap hold after every call |
| RateLimit.RateLimiter.Cleanup | src/antikythera-security/src/rate_limit.rs:297-302 | exactly the sessions idle for less than 300 seconds stay |
| RateLimit.RateLimiter.CleanupLoop | src/antikythera-security/src/rate_limit.rs:282-305 | the loop that counts its wake-ups sweeps at most once an interval, whatever is checked in between |
| ContextWindow.PruningKeepsAndFits | src/antikythera-resilience/src/context_window.rs:89-124 | past the early return: all system messages first, an ordered selection of the rest, the minimum kept, the budget met beyond it, and nothing dropped would still fit |
| ContextWindow.GreedyMeaning | src/antikythera-resilience/src/context_window.rs:110-118 | the same for the backward loop on its own |
| ContextWindow.PruningIsIdempotent | src/antikythera-resilience/src/context_window.rs:89-124 | pruning twice is pruning once, for every history and policy |
| ContextWindow.KeepsOnlyTheNewestIff | src/antikythera-resilience/src/context_window.rs:82-84 | the kept messages are the newest ones exactly when nothing older fits the gap left by the newest run |
| ContextWindow.OldestMayOutliveNewer | src/antikythera-resilience/src/context_window.rs:112-118 | a history of which the oldest message is kept and a newer one dropped |
| ContextWindow.PruneMessages | src/antikythera-resilience/src/context_window.rs:89-124 | the loop from the newest backwards: a history whose cost and the reserve are within max_tokens comes back unchanged; otherwise system messages and an ordered selection of the others, at least the minimum, beyond it within the limit less the reserve, and no dropped message could be added; with a reserve that takes up the limit, no more than the minimum |
| ContextWindow.PrunedFitsTheLimit | src/antikythera-resilience/src/context_window.rs:72-124 | the same of the selection, in terms of max_tokens and reserve_for_response alone |
| ContextWindow.CostMeaning | src/antikythera-resilience/src/context_window.rs:16-32 | a message costs 4 and the sum of its parts, an image 85 and one more for every thousand bytes |
| ContextWindow.TextCost | src/antikythera-resilience/src/context_window.rs:12-14 | a text costs a token for four bytes, rounded down, but at least one |
| ContextWindow.TotalConcat | src/antikythera-resilience/src/context_window.rs:34-36 | the cost of a history is the sum of its parts |
| HooksLedger.SlotFollowsTheNewestOwner | clients/npm/antikythera-sdk/runtime/control.js:86-135 | after any run, acquire and successful release leave the newest live owner's provider in the slot; releasing another owner leaves it unchanged |
| HooksLedger.LegacyInstallTouchesOnlyItsOwner | clients/npm/antikythera-sdk/runtime/control.js:137-156 | the legacy install replaces or releases its own owner and no other, a foreign value in the slot having invalidated all of them before |
| HooksLedger.AbsentAfterReleaseIff | clients/npm/antikythera-sdk/runtime/control.js:123-135 | after a successful release the slot is empty exactly when, of the owners alive before, no other is left or the newest other one has no hooks |
| HooksLedger.AbsentWhileOwnersRemain | clients/npm/antikythera-sdk/runtime/control.js:96-108 | a run after which an owner with hooks is alive and the slot is empty |
| HooksLedger.NeverResurrected | clients/npm/antikythera-sdk/runtime/control.js:80-90 | an owner that was released or invalidated never comes back |
| HooksLedger.ForeignWriteDropsOwners | clients/npm/antikythera-sdk/runtime/control.js:86-121 | after other code has written the slot, an acquire leaves its own owner alone |
| HooksLedger.ActiveIsLatest | clients/npm/antikythera-sdk/runtime/control.js:96-100 | the last entry in insertion order is the newest live owner |
| HooksLedger.HooksModule.Reconcile | clients/npm/antikythera-sdk/runtime/control.js:86-90 | a foreign value in the slot invalidates every owner |
| HooksLedger.HooksModule.Publish | clients/npm/antikythera-sdk/runtime/control.js:96-108 | the slot gets the newest owner's provider |
| HooksLedger.HooksModule.AcquireProvider | clients/npm/antikythera-sdk/runtime/control.js:115-121 | the owners that still count, none of them if other code has written the slot, and the new one, whose provider is in the slot |
| HooksLedger.HooksModule.ReleaseProvider | clients/npm/antikythera-sdk/runtime/control.js:130-135 | likewise for release: true if and only if the token still counts, and then the newest other owner is in the slot |
| HooksLedger.HooksModule.InstallProvider | clients/npm/antikythera-sdk/runtime/control.js:145-156 | likewise for the legacy install, and the legacy owner is the new one or nobody |
| Router.TablesAgree | src/antikythera-server-runtime/src/routing.rs:65-127 | over any interleaving of registrations, failed ones included: a handler stands for a server-owned name, a server-owned name without one is between the two halves of its registration, and server mappings are exactly the mcp-owned names |
| Router.SteppedAgrees | src/antikythera-server-runtime/src/routing.rs:65-127 | every lock region of every registration keeps that agreement, and every owner |
| Router.NamesBegunAndFinished | src/antikythera-server-runtime/src/routing.rs:71-78 | server-owned are exactly the names whose registration has begun, and names with a handler exactly those of which one has finished |
| Router.OwnerNeverChanges | src/antikythera-server-runtime/src/registry.rs:83-97 | a registered tool keeps its owner for ever |
| Router.ClientToolsMeaning | src/antikythera-server-runtime/src/routing.rs:83-89 | definitions are registered up to the first that is taken by another owner, the last of each name, and nothing else changes |
| Router.McpToolsMeaning | src/antikythera-server-runtime/src/routing.rs:109-120 | likewise the tools of a server, whose names are then mapped to it |
| Router.DispatchIsSound | src/antikythera-server-runtime/src/routing.rs:165-228 | whatever others register between its lookups, each answer exactly for its cause: unregistered, not allowed, arguments that do not parse, a handler that runs once a registration has finished and is the last one, "no local handler" between the two inserts of the first registration, the client, and the connected server the tool is mapped to; "no server mapping" never; the server endpoint never reaches the client |
| Router.QuietMeansComplete | src/antikythera-server-runtime/src/routing.rs:71-78 | with no local registration half-way, no call misses a handler |
| Router.HandlersAreTheLastOnes | src/antikythera-server-runtime/src/routing.rs:65-80 | the handler of a name is the one filled in last |
| Router.ServersAreTheConnectedOnes | src/antikythera-server-runtime/src/routing.rs:94-127 | the connected servers are those with a connect that went through to its end |
| Router.NotConnectedIff | src/antikythera-server-runtime/src/routing.rs:285-300 | "not connected" is answered exactly for allowed mcp-owned tools whose server has not got through a connect, at the moment of each lookup |
| Router.HalfConnectedServer | src/antikythera-server-runtime/src/routing.rs:111-118 | a run after which nothing is in progress and a tool is left with that answer |
| Router.ToolRouter.Register | src/antikythera-server-runtime/src/registry.rs:83-97 | replaces an entry of the same owner, refuses another's |
| Router.ToolRouter.StartLocal | src/antikythera-server-runtime/src/routing.rs:71-74 | the registry half, which is one step |
| Router.ToolRouter.FinishLocal | src/antikythera-server-runtime/src/routing.rs:75-78 | the handler half, which is one step |
| Router.ToolRouter.RegisterLocalTool | src/antikythera-server-runtime/src/routing.rs:65-80 | two regions with others running in between: refused without a change, or registry first and its own handler last |
| Router.ToolRouter.RegisterClientTools | src/antikythera-server-runtime/src/routing.rs:83-89 | registers up to the first collision |
| Router.ToolRouter.StartConnect | src/antikythera-server-runtime/src/routing.rs:111-120 | the tools under both locks, which is one step |
| Router.ToolRouter.FinishConnect | src/antikythera-server-runtime/src/routing.rs:121-124 | the connected server, which is one step |
| Router.ToolRouter.ConnectMcpServer | src/antikythera-server-runtime/src/routing.rs:94-127 | two regions likewise: tools and mappings up to the first collision, and the server last, only without one |
| ToolLoop.IterationIsLawful | src/antikythera-server-runtime/src/loop_owner.rs:90-199 | one iteration: executed exactly when the drain holds no result for that tool, a success fed back at once |
| ToolLoop.LoopIsLawful | src/antikythera-server-runtime/src/loop_owner.rs:90-199 | the same over whole runs: nothing is prepared before the last call has been answered |
| ToolLoop.LoopCountsCalls | src/antikythera-server-runtime/src/loop_owner.rs:91-96 | at most max_steps model calls; a final outcome reports exactly the number made |
| ToolLoop.LoopIsTruthful | src/antikythera-server-runtime/src/loop_owner.rs:90-199 | over whole runs: a model is asked only if the gate let the call through, every event says what the environment answered in its step, and the run stops for the reason it gives |
| ToolLoop.RunToolLoop | clients/python/antikythera_agent/server/loop_owner.py:344-503 | for every environment: the laws, the count and the reasons, and the previous hook provider is back on every exit |
| LlmGate.TableIsExact | src/antikythera-server-runtime/src/wit.rs:72-85 | up to 1024 sessions the table counts exactly the calls let through, and no session exceeds its quota |
| LlmGate.QuotaForgotten | src/antikythera-server-runtime/src/wit.rs:78-80 | for every quota, a run with one session more that exceeds it |
| LlmGate.QuotaHoldsIff | src/antikythera-server-runtime/src/wit.rs:72-85 | the quota holds of every run with that many sessions if and only if they are at most 1024 |
| LlmGate.NoQuotaNoLimit | src/antikythera-server-runtime/src/wit.rs:72-75 | without a quota a run lets every call through and counts none |
| LlmGate.SharedState.CheckLlmGate | src/antikythera-server-runtime/src/wit.rs:72-85 | the insert-then-check order: without a quota every call passes; with one, exactly those of sessions that the table, emptied past 1024, counts below it |
| VersionSync.ScannerAcceptsExactlyVersions | src/scripts/sync-release-version.rs:261-311 | the scanner accepts exactly d+(.d+){2,}([-+][0-9A-Za-z.-]+)? |
| VersionSync.CheckVersion | src/scripts/sync-release-version.rs:261-311 | the index loops decide that grammar |
| VersionSync.LastWriteWins | src/scripts/sync-release-version.rs:332-349 | writing v then w on a line is writing w; writing v twice is writing it once |
| VersionSync.VersionsAreTokens | src/scripts/sync-release-version.rs:332-349 | every accepted version is a token the replacement finds again |
| VersionSync.ReplacedToken | src/scripts/sync-release-version.rs:332-349 | the token replaced is the maximal one at the first digit, the rest of the line is kept |
| VersionSync.ReplacedIff | src/scripts/sync-release-version.rs:332-349 | a line can be given a version exactly if the token after its first digit has a dot |
| VersionSync.RewrittenIff | src/scripts/sync-release-version.rs:318-330 | a file can exactly if it has a marker line and the first one can |
| VersionSync.Alphabets | src/scripts/sync-release-version.rs:261-349 | which characters are digits, suffix and token characters |
| VersionSync.RewriteTouchesOneLine | src/scripts/sync-release-version.rs:318-330 | only the first marker line changes, every other line is preserved |
| VersionSync.LaterRewriteWins | src/scripts/sync-release-version.rs:318-330 | on whole files the last version written wins while the line keeps its marker |
| VersionSync.FixedPointIff | src/scripts/sync-release-version.rs:318-330 | rewriting twice is a fixed point exactly when the line keeps its marker or the next marker line already carries the version |
| VersionSync.MajorBumpLosesTheMarker | src/scripts/sync-release-version.rs:73-87 | with the marker that pins the major version, on any file whose one marker line carries its version behind the marker: the run after a rewrite fails, whatever its version, if and only if the rewrite left the major version |
| VersionSync.MarkerSurvivesIff | src/scripts/sync-release-version.rs:73-87 | on such a line the marker survives a rewrite if and only if the new version keeps the major version |
| VersionSync.ReplaceVersionToken | src/scripts/sync-release-version.rs:332-349 | the index loop performs that replacement |
| VersionSync.RewriteVersionLine | src/scripts/sync-release-version.rs:318-330 | the line loop with its found flag performs that rewrite |
| VersionSync.Workspace.Sync | src/scripts/sync-release-version.rs:121-195 | check mode writes nothing; nothing is written unless every target was accepted and one is stale, and then all are rewritten and nothing else changes, up to the first write that fails; every outcome is explained by the files before it: the first target that cannot be read or has no version line where that is not let pass, nothing to change, or something |
| VersionSync.Workspace.Plan | src/scripts/sync-release-version.rs:127-171 | all rewrites are prepared in memory first, pending targets skipped only when tolerated; drift if and only if some target is stale |
| VersionSync.Workspace.WriteAll | src/scripts/sync-release-version.rs:187-193 | the writes take effect in order up to the first failure |
| VersionSync.CheckAfterWrite | src/scripts/sync-release-version.rs:164-180 | a strict check after a clean write passes exactly when every rewritten target is a fixed point |
| WitTypes.FaithfulIffSimple | src/scripts/build-component.rs:706-743 | with the program's primitives, the printed type translates to its Rust form if and only if every result has both arms and no success arm holds a result with an error arm |
| WitTypes.TranslationIsFaithfulIff | src/scripts/build-component.rs:706-754 | the same for any primitive table, in terms of commas in the success arms; and even up to the comparison of the conformance check |
| WitTypes.SplitsCorrectlyIff | src/scripts/build-component.rs:728-741 | every result is split in the right place if and only if no success arm has a comma in its text |
| WitTypes.NeverWritesParens | src/scripts/build-component.rs:706-743 | no text without an opening parenthesis is given one, so a unit type is never written |
| WitTypes.RustHasParens | src/scripts/build-component.rs:728-741 | a type with a missing arm has one in its Rust form |
| WitTypes.SpelledWrapped | src/scripts/build-component.rs:720-727 | `option` and `list` are spelled `Option` and `Vec` in Rust |
| WitTypes.SpelledBoth | src/scripts/build-component.rs:728-741 | so is `result` with both arms |
| WitTypes.SpelledHalf | src/scripts/build-component.rs:728-741 | and with one, where Rust has a unit type |
| WitTypes.PrimitiveRule | src/scripts/build-component.rs:707-719 | how the primitives are renamed |
| WitTypes.TrimMeaning | src/scripts/build-component.rs:730-733 | an arm loses the white space at its ends and nothing else |
| WitTypes.NormalizeMeaning | src/scripts/build-component.rs:745-754 | the conformance check ignores white space and case, character by character |
| WitTypes.FaithfulIfCommaFree | src/scripts/build-component.rs:706-743 | types whose success arms have no comma are split in the right places, missing arms written as `_` and as nothing |
| WitTypes.InflatedUnlessCommaFree | src/scripts/build-component.rs:728-741 | otherwise the translation panics or has more closing brackets than the type |
| WitTypes.NeverFewer | src/scripts/build-component.rs:720-741 | no text whatsoever loses a closing bracket in translation |
| WitTypes.CommaMeansErrorArm | src/scripts/build-component.rs:730-733 | a type text has a comma exactly when an error arm occurs in the type |
| WitTypes.CamelOfDashed | src/scripts/build-component.rs:758-772 | a kebab name becomes its words, each capitalised, joined |
| WitTypes.EitherSeparator | src/scripts/build-component.rs:758-772 | an underscore separates words like a hyphen |
| WitTypes.UpperIsAscii | src/scripts/build-component.rs:766 | only small ASCII letters are capitalised |
| WitTypes.KebabToCamel | src/scripts/build-component.rs:758-772 | the loop with its flag computes that |
| BraceMatcher.MatchesExactlyBlocks | src/scripts/build-component.rs:784-811 | a prefix is cut off if and only if it is a printed block: nested braces, string literals and escapes |
| BraceMatcher.FindMatchingBrace | src/scripts/build-component.rs:784-811 | the loop returns that prefix and its end |
| Toml.EscapedIsReadBack | src/antikythera-config/src/serializer.rs:30-32 | a scanner reads the escaped value back and stops right behind it, exactly when no forbidden control character is in it |
| Toml.RenderDisplayToml | src/antikythera-config/src/serializer.rs:13-28 | the rendered system prompt reads back as itself, followed by the template between its quotes, on a line of its own |
| Toml.SanitizeForToml | src/antikythera-domain/src/sanitize.rs:13-64 | the loop, with collapsing and trimming, computes the escape of the kept words joined by single spaces |
| Toml.SanitizedIsReadBack | src/antikythera-domain/src/sanitize.rs:13-64 | a scanner reads those words back; no doubled or outer space and no control character is left, and only spaces were lost |
| Toml.CollapsedIsJoined | src/antikythera-domain/src/sanitize.rs:17-62 | collapsing runs of spaces is joining the words, but for a space at either end |
| Toml.RawIsReadBackIff | src/antikythera-domain/src/sanitize.rs:66-71 | unescaped text reads back as itself exactly when no quote, backslash or forbidden control character is in it |
| Toml.NeedsSanitization | src/antikythera-domain/src/sanitize.rs:66-71 | needed exactly if there is a quote, a backslash, a control character or an emoji; text that does not need sanitizing reads back as it is |
| LogRing.HoldsTheLatest | src/antikythera-log/src/logger.rs:37-51 | after any run the buffer holds the last min(capacity, pushes since the last clear) entries |
| LogRing.NumberingIsConsecutive | src/antikythera-log/src/logger.rs:37-51 | their numbers are consecutive and end at the count of all pushes, across clears |
| LogRing.PagesConcatenate | src/antikythera-log/src/logger.rs:54-76 | pages read until has_more is false concatenate to the whole list, even if entries are appended between reads |
| LogRing.UntrimmedPushesAppend | src/antikythera-log/src/logger.rs:37-76 | pushes that trim nothing only append to what a filter sees, which is what paging needs |
| LogRing.PagingEndsIff | src/antikythera-log/src/logger.rs:66-72 | paging ends if and only if the limit is positive or there is nothing to read |
| LogRing.MatchingIsTheOrderedSelection | src/antikythera-log/src/entries.rs:207-227 | filtering selects exactly the entries wanted, in order |
| LogRing.MatchesIffWanted | src/antikythera-log/src/entries.rs:207-227 | wanted are the entries of at least the minimum level, and of the session and the source if given |
| LogRing.LogBuffer.Push | src/antikythera-log/src/logger.rs:37-51 | one push step |
| LogRing.LogBuffer.Clear | src/antikythera-log/src/logger.rs:90-95 | one clear step; the numbering goes on |
| LogRing.LogBuffer.GetLogs | src/antikythera-log/src/logger.rs:54-76 | the page of the wanted entries, the total, and whether more follow |
| LogRing.LogBuffer.GetLatest | src/antikythera-log/src/logger.rs:79-87 | the last min(count, length) entries |

## Left out

- OvershootBounded: stated for runs with no other dispatch on the orchestrator; with others running the shared counters can move by any amount.
- ExecuteRemote: only the thread that created a request cancels or awaits it, as in the source, where ids are fresh UUIDs.
- RequestDecision: likewise.
- CheckAfterWrite: for a write in which no file was locked; after a failed write some targets are old and some new.
- FaithfulIffSimple: `tuple<…>`, `borrow<…>` and the other WIT constructors the translation does not know fall through to the identifier case and are not types of the model; printed types have one space after a comma.
- ServersAgree: stated for POST-backs that decode; `RelatedAfterPostIff` shows the proviso is needed.
- OneVerdict: a POST-back is a JSON object here, each field given at most once. Of anything else the Python server makes an error or takes the last value given; the Rust decoder also takes an array of the four fields in order, and refuses a field given twice. JSON numbers are reals, without infinities.
- `find_fn_params`, `parse_rust_params` and the rest of the interface extractor.
- `EventEnvelope`, JSON encoding and decoding: texts are opaque, and the encoder's output is taken to be free of newlines; a data text that decodes to JSON null, which makes the JavaScript client drop the connection, is not modelled.
- HTTP, fetch, reconnection and backoff, UTF-8 decoding, Server-Sent Events separators other than LF LF.
- Writers of the Python channel, their failures, and keepalive threads: the set of connected clients changes freely instead.
- Session maps, `cancel` and `close` of the orchestrator, agent profiles, durations; a result carries its counter instead of the text `task-N`.
- Negative iteration counts and limits, and the overflow of machine integers (limits and counters are natural numbers; `start + limit` of a page does not wrap).
- CapacityIsExact: clock readings are whole seconds. A sweep never comes early, since every wake-up follows a sleep of at least a second, but it may come late: the capacity is that over all delays, and a punctual thread may let less through.
- Several clock readings within one rate-limit check: one reading is taken per check; `update_config`, `reset_session`, `remove_session` and usage reports.
- Wrapping of hook functions and the hook return values; a provider is an identity.
- Sorting in `definitions` and `definitions_for`; the JSON of tool results; MCP transports, whose answers are parameters.
- Wording of most error messages: errors are values that carry what the caller can act on.
- Registering the union of tools with the runner, and the initial call of the runner, before the tool loop; `local_loop.py`, which repeats the loop without remote routing.
- `read_workspace_version` and the search for the workspace root; printing and exit codes are the outcomes of `VersionSync`.
- The multi-line string of the rendered template, which the source emits verbatim and unescaped.
- Subscribers of the logger, and log output formats.
- The streaming decoders of `llm.rs`, the Python `dispatch_many` budget, the storage engine, the agent state machine, configuration schemas and prompt registries: nothing modelled here depends on them.
