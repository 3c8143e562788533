# Verified model of the server's scheduling, caching, migration and build-gate logic

This project models the parts of a multi-tenant backend server (Rust) whose behaviour is hardest
to see by reading: the concurrent execution of functions and cron jobs, two caches that must
agree with the database, the cron tables, the boot migrations, and the text algorithms of its
build gates and documentation generator. Each part is a specification with theorems over all
inputs, all runs or all reachable states, and beside it the code in the form the source has it
(classes with fields that methods update, loops over buffers), proved against that specification.

| part | specification and theorems | code |
|---|---|---|
| Execution system | `EngineModel`, `EngineHoldings`, `EngineSafety`, `EngineFifo`, `EngineAccounts`, `EngineCron`, `EngineTheorems`, `EngineLiveness`, `EngineDrain`, `EngineStranded` | `EngineCode` |
| Schedule index | `CronIndex`, `CronIndexTheorems` | `CronIndexCode` |
| Binding cache | `BindingCache`, `BindingCacheTheorems` | `BindingCacheCode` |
| Cron tables | `CronStore`, `CronStoreTheorems` | `CronStoreCode` |
| Admin tokens at boot | `AdminTokens`, `AdminTokensTheorems` | `AdminTokensCode` |
| Run-once migrations | `RunOnce`, `RunOnceTheorems`, `RunOnceMissed` | `RunOnceCode` |
| Edit distance | `Levenshtein` | `Levenshtein` |
| `use` trees | `UseTree`, `UseTreeProofs`, `UseTreeTheorem`, `UseTreeLayout` | `UseTreeCode` |
| Expression scanners | `Scanner`, `ScannerTheorems` | `ScannerCode` |
| Blanking | `Blanking`, `BlankingTheorems`, `BlankingDocuments`, `BlankingUtf8` | `BlankingCode` |

`dafny verify dfyconfig.toml` checks everything.

## How it is modelled

**Execution system.** One transition system in which every atomic operation of the source (a
counter update, a channel send or receive, taking or dropping a lock or permit, one database
access) is an action, and a run is any list of enabled actions. Queued invocations, synchronous
invocations and cron fires are tasks in phases; the tenant locks, the executor semaphore, the cron
gates, the cron permits, the in-flight set, the depth counters, the bounded channel and the minute
loop are state. The clock may step backwards, the index snapshot may be arbitrarily stale, any
database write may happen between any two steps, the channel's receiver may go away, and so may
the caller of a manual enqueue or of a synchronous run, at any of its suspension points. The
schedule predicate `is_due` is a parameter. `usize` wrap-around of `fetch_sub` is written out, and
proved never to happen.

**Caches.** The schedule index keeps lock objects apart from lock table entries, because
`invalidate` removes the entry while others hold clones; a reload's read may fail, and its caller
may go away after the commit. The binding cache has a clock; a load is
three steps, so it can straddle a commit and its invalidation.

**Boot migrations.** A boot is a list of statements, any of which can fail, and the process can
die between any two. The publish grant spans two databases, so marker and grant are two statements.

**Code under interleaving.** `EngineCode`, `CronIndexCode` and `BindingCacheCode` are whole methods in
the source's statement order. At every suspension point any number of arbitrary enabled steps of
everybody else may happen. Each method is proved to emit exactly its own steps, in order, inside a run
of the system, and to stop before its end only where none of its own steps is possible.

**Findings.**
- `src/functions/bindings.rs:10-15` says that the safety time-to-live bounds staleness to at most
  the TTL. The code bounds it by the TTL plus the duration of the load that inserted the value:
  `StalenessBounded` proves that bound, `SupersededBeyondTtl` builds, for every positive TTL and
  every delay, a run that serves a value superseded `delay + TTL - 1` ago, and `TtlBoundIff` says
  exactly when the documented bound holds. `InvalidationWorksIff` gives the exact condition under
  which an invalidation is final.
- When the executor's receiver goes away with invocations still in the channel, their depth slots
  are never returned (`OneStranded`, `StrandedForever`), and nothing else leaks
  but for the next point (`LeaksExactlyTheQueue`).
- When the caller of a manual enqueue goes away while it waits for the channel, its depth slot is
  never returned; after as many as the cap, nothing of that tenant is accepted again
  (`AbandonedSlotsNeverReturn`, `AbandonedRun`).
- When the caller of a cron mutation goes away between the commit and the end of the reload, or a
  reload cannot read, the index can stay wrong until the next mutation or boot (`LostReloadRun`,
  `Untouched`); `RecoversIff`, `LostReloadIff` and `FailedReadIff` say exactly when it does not. A
  soft delete whose caller goes away leaves the entry until the server restarts (`GhostEntryRun`).
- A boot that dies between stamping the publish marker and making the grant, or whose compensating
  reset fails, costs the tenant its grandfathered grant for good, and nothing else does
  (`MissedRun`, `MissedForever`, `MissedIff`); no grant is ever resurrected.
- A boot that dies or fails between adding `admins.role` or `tenants.owner_admin_id` and the UPDATE
  that fills it leaves that column unfilled for good, and nothing else does (`NotBackfilledRun`,
  `NotBackfilledForever`, `NotBackfilledIff`). On a fresh install no admin is then ever an owner,
  unless an operator makes one.
- The `use` expander leaves a stray `::` when blanks stand before a group's brace, as in
  `a:: {b}`, and keeps blanks around a path's `::`; every other layout expands correctly
  (`ExpandIsRightIff`).

## Model

| member | source | states |
|---|---|---|
| `EngineTheorems.OneExecutionPerTenant` | src/functions/executor.rs:81-94 | in every reachable state at most one task per tenant executes, queued, synchronous and cron-started together, and at most `permits` in all |
| `EngineTheorems.OneCronPermitPerTenant` | src/cron/scheduler.rs:37-50 | in every reachable state a tenant occupies at most one cron permit, and at most the limit are out |
| `EngineTheorems.OneFirePastOverlap` | src/cron/scheduler.rs:155-181 | at most one fire per (tenant, job) is past the overlap gate, and the in-flight set is exactly the keys of the fires that are |
| `EngineTheorems.SendOrder` | src/functions/executor.rs:141-178 | for each tenant the sequence sent is finished ++ running ++ lane ++ hand ++ channel (++ stranded), so queued runs start in send order whatever other tenants do |
| `EngineTheorems.DepthConserved` | src/functions/dispatcher.rs:193-242 | depth = probes in progress + accepted and unfinished + abandoned by their caller; accepted-in-system and abandoned together never exceed the cap; offered = dropped + lost + abandoned + finished + in system; no decrement meets a zero counter |
| `EngineTheorems.ChannelWithinCapacity` | src/functions/dispatcher.rs:238-238 | the channel never holds more than its capacity |
| `EngineTheorems.SpawnedAtMostOnce` | src/cron/scheduler.rs:64-86 | for every clock trace no (tenant, job id, minute) is spawned twice |
| `EngineCron.NextMinuteIs` | src/cron/scheduler.rs:56-61 | the minute a tick is for is the first full minute after `now`: later than it, by at most 60 seconds, and a multiple of them |
| `EngineCron.CollectDueLists` | src/cron/scheduler.rs:91-104 | what is collected is, tenant by tenant in snapshot order, one fire for each job whose schedule is due, in job order, for that minute, and nothing else |
| `EngineTheorems.OneOutcomePerFire` | src/cron/scheduler.rs:133-268 | fire by fire: each spawned fire has an id of its own and is live, as the fire it was spawned as, or has exactly one outcome, never both; an outcome is never replaced; nothing else is live or has one |
| `EngineTheorems.DispatchedRowWasFresh` | src/cron/scheduler.rs:208-247 | whatever row a fire dispatches, some earlier step of the run is that fire's own re-read, made while it held marker, gate and permit, and found exactly that row in the database: under the job's name, with its id, active, with the snapshot's schedule |
| `EngineTheorems.InvStep` | src/functions/executor.rs:199-213 | every action of every task keeps the combined invariant |
| `EngineLiveness.NoDeadlock` | src/cron/scheduler.rs:183-206 | in every reachable state with anything unfinished the system itself can step, across cron gate, cron permit, tenant lock and executor permit |
| `EngineDrain.MeasureStep` | src/functions/executor.rs:112-211 | every step of the system itself lowers the measure |
| `EngineDrain.RunsAreBounded` | src/functions/executor.rs:112-211 | without new work, a run is no longer than the measure of its first state |
| `EngineDrain.StopsOnlyWhenDone` | src/functions/executor.rs:112-211 | where the system cannot step, nothing is under way and every lock, permit, gate and marker is free |
| `EngineDrain.DrainsToQuiescence` | src/functions/executor.rs:112-211 | from every reachable state the system's own steps lead to such a state |
| `EngineStranded.StrandedForever` | src/functions/dispatcher.rs:238-241 | once the receiver is gone, in every continuation what sat in the channel stays there and keeps its depth slots |
| `EngineStranded.LeaksExactlyTheQueue` | src/functions/executor.rs:141-149 | wherever the system comes to rest after that, each tenant's counter is exactly the number of its invocations queued at that moment, and of those abandoned |
| `EngineStranded.OneStranded` | src/functions/executor.rs:141-149 | a run that strands one invocation, for every configuration and invocation |
| `EngineStranded.AbandonedSlotsNeverReturn` | src/functions/dispatcher.rs:117-133 | every caller of an enqueue that goes away between acceptance and the channel takes a slot for good: in every continuation what is in the system stays within the cap less those slots, and after `cap` of them every new probe is rejected |
| `EngineStranded.AbandonedRun` | src/functions/dispatcher.rs:238-241 | a run with any number of abandoned slots up to the cap, for every configuration and invocation |
| `EngineStranded.CancelledRunFrees` | src/functions/executor.rs:199-213 | a synchronous caller may go away while its function runs: the permit is free at once, the tenant lock it holds with the step after, which is possible whatever happens, and the run is gone |
| `EngineCode.CollectDueJobs` | src/cron/scheduler.rs:91-104 | the nested loops give exactly the due fires of the snapshot, in order: one for each due job, none for another |
| `EngineCode.Engine.Enqueue` | src/functions/dispatcher.rs:193-242 | the whole of `enqueue`, with arbitrary steps of everybody else at each suspension point: its own steps are exactly count, reject, drop (at the cap), or count, send, or count, lost (receiver gone), in that order inside a run, and it is over unless it still waits for a full channel |
| `EngineCode.Engine.CountAndSend` | src/functions/dispatcher.rs:205-241 | the invocation is dropped exactly when the previous value of the counter is at the cap, whatever others do meanwhile |
| `EngineCode.Engine.RunOne` | src/functions/executor.rs:199-213 | the whole of `run_one`: lock, permit, run, unlock in that order inside a run; it stops before the end only where lock or permit is taken and none of its own steps is possible; control returns to lane worker, fire or caller |
| `EngineCode.Engine.LaneWorker` | src/functions/executor.rs:157-172 | a lane worker makes whole turns of take, `run_one`, decrement, one after the other, as many as asked unless the next one is stuck at an empty lane, the lock or the permit, after exactly its first steps |
| `EngineCode.Engine.DrainLoop` | src/functions/executor.rs:141-149 | the drain loop alternates receive and route, with nothing in hand afterwards, and stops early only when nothing is queued or the channel is closed |
| `EngineCode.Engine.RunDueJob` | src/cron/scheduler.rs:133-268 | the whole of `run_due_job`: a gone tenant's fire ends at once, and no other does; whichever way it goes, its steps are those of that way in order, every way past the overlap gate ends by dropping permit, gate and marker, and the recorded outcome is that of the way; it stops early only where none of its own steps is possible |
| `EngineCode.Engine.RereadAndDispatch` | src/cron/scheduler.rs:208-268 | a row found under the job's name with the snapshot's id and schedule and active is dispatched, as it stands at that moment and by its kind, and then recorded; any other, or a failed read, dispatches nothing; it stops early only at the tenant lock or the executor permit |
| `EngineCode.Engine.ReassertRow` | src/cron/scheduler.rs:208-228 | the re-read yields the row of the job's name if and only if the read succeeds and the row has the fire's id, is active and has the fire's schedule |
| `EngineCode.Engine.MinuteTurn` | src/cron/scheduler.rs:438-461 | one turn of the minute loop is for the first full minute after `now`; if that lies after the last dispatched one, it spawns exactly one fire for each job of the snapshot that is due at it, carrying that minute, and records it; otherwise it spawns nothing |
| `EngineCode.RunEndsInductive` | src/functions/executor.rs:141-213 | the code's history relation can be taken to be "a run and its last state", so every state the code is in at a suspension point is a reachable state of the system |
| `Levenshtein.Compute` | build.rs:513-526 | the two swapped rows yield the length of a shortest insert/delete/substitute script, for all byte strings |
| `Levenshtein.FillRow` | build.rs:517-523 | the inner loop turns row i-1 of the table into row i |
| `Levenshtein.DistanceIsShortest` | build.rs:513-526 | some script of that length turns one string into the other and no shorter one does |
| `Levenshtein.DistanceIsMetric` | build.rs:513-526 | zero exactly on equal strings, symmetric, triangle inequality |
| `Levenshtein.SuggestSimilar` | build.rs:498-511 | names a nearest key, exactly when some key lies within 3 |
| `UseTreeTheorem.ExpandPrinted` | docs/gen-architecture.py:119-154 | for every nested tree, with aliases and with blanks around items, braces, aliases, each `::` and the whole: exactly which texts the expansion yields, in order |
| `UseTreeLayout.ExpandIsRightIff` | docs/gen-architecture.py:119-154 | that is the tree's list of full paths, aliases dropped, if and only if no blank stands around the `::` of a path or between the `::` and the brace of a group that imports something |
| `UseTreeLayout.BlanksBeforeBrace` | docs/gen-architecture.py:129-130 | for every path and any blanks before the brace, a stray `::` is left in the result |
| `UseTreeLayout.BlankBeforeBrace` | docs/gen-architecture.py:129-130 | `a:: {b}` expands to `a::::b` |
| `UseTreeCode.ExpandUseBody` | docs/gen-architecture.py:119-154 | the recursive code computes that expansion on every text and terminates: each piece is shorter than its body |
| `UseTreeCode.ExpandBraces` | docs/gen-architecture.py:127-154 | brace-free text, unclosed brace and group, each as specified |
| `UseTreeCode.SplitTopCommas` | docs/gen-architecture.py:99-116 | the loop with buffer and depth splits at depth-0 commas, drops an empty last piece, and no piece is longer than the text |
| `UseTreeCode.MatchingBrace` | docs/gen-architecture.py:131-140 | the brace that closes the first one, or -1 |
| `UseTreeCode.ExpandEach` | docs/gen-architecture.py:144-154 | the output loop gathers the pieces' expansions in order |
| `UseTreeCode.AppendAttached` | docs/gen-architecture.py:149-153 | prefix and sub-path are joined, or whichever is non-empty stands alone |
| `ScannerTheorems.ArgumentsRoundTrip` | build_support/ui_gates.rs:1347-1379 | for every non-empty list of argument expressions (atoms, quoted strings with escapes, nested brackets), blanks around them allowed, splitting the comma-joined text returns exactly that list |
| `ScannerTheorems.ArgumentsRejoin` | build_support/ui_gates.rs:1347-1379 | on any text the untrimmed pieces rejoin to the text and the result is their trimmed list |
| `ScannerTheorems.LeftOperandIsLast` | build_support/ui_gates.rs:395-424 | on every printed expression the extracted operand is the last one, trimmed |
| `ScannerTheorems.VerdictOnLastOperand` | build_support/ui_gates.rs:395-528 | the allowlist verdict on an expression is the verdict on its last operand alone |
| `ScannerTheorems.LeftOperandIdempotent` | build_support/ui_gates.rs:395-424 | on any text the extracted operand has no further split point and the same verdict |
| `ScannerTheorems.WholeCallIff` | build_support/ui_gates.rs:434-466 | a call with balanced arguments is taken as whole exactly when nothing follows its closing parenthesis |
| `ScannerTheorems.WholeCallEndsWithItsParen` | build_support/ui_gates.rs:434-466 | on any text, what is taken as a whole call ends with the parenthesis that closes its first one |
| `ScannerTheorems.TranslationVerdict` | build_support/ui_gates.rs:498-505 | `t.s(..)` is accepted exactly when its first argument is a literal and nothing follows |
| `ScannerTheorems.FormatVerdict` | build_support/ui_gates.rs:506-514 | `t.fmt..(..)` is accepted exactly when the name ends in `_html` and nothing follows |
| `ScannerTheorems.NameVerdict` | build_support/ui_gates.rs:481-527 | any other text that is its own last operand is accepted if and only if it is `i18n_js`, `body_html` or a list of alphanumeric words joined by underscores one of which is `json` |
| `ScannerTheorems.AnyTranslationVerdict` | build_support/ui_gates.rs:498-505 | any text beginning with `t.s(`, balanced or not, is accepted if and only if a double quote comes first in the parentheses and the call closes at the very end |
| `ScannerTheorems.AnyFormatVerdict` | build_support/ui_gates.rs:506-514 | any text beginning with `t.fmt` is accepted if and only if it has a parenthesis, `_html` stands right before the first one and the call closes at the very end |
| `ScannerTheorems.LastOfOperands` | build_support/ui_gates.rs:395-424 | in text without quotes and brackets, what follows the last of the six operators is the operand |
| `ScannerCode.SplitCallArgs` | build_support/ui_gates.rs:1347-1379 | the index loop, jumping over escapes, computes the automaton's trimmed pieces |
| `ScannerCode.PipeLeftOperand` | build_support/ui_gates.rs:395-424 | the index loop computes the automaton's last piece, trimmed |
| `ScannerCode.CallClosesAtEnd` | build_support/ui_gates.rs:434-466 | true exactly when the depth first returns to zero at the last character |
| `ScannerCode.IsAllowlistedSafeProducer` | build_support/ui_gates.rs:475-528 | the code returns the verdict, rule by rule |
| `BlankingTheorems.SpansTheorem` | build_support/ui_gates.rs:615-629 | spans are in bounds, sorted and disjoint, each from an opener to the first closer behind it; an opener in no span has no closer after it |
| `BlankingTheorems.NoOpenerInGaps` | build_support/ui_gates.rs:615-629 | no opener starts in the gap before a span |
| `BlankingTheorems.CommentsIdempotent` | build_support/ui_gates.rs:772-782 | no terminated comment is left, so blanking again changes nothing, unterminated openers included |
| `BlankingTheorems.BlankShape` | build_support/ui_gates.rs:555-611 | length and newline positions stay; a byte that changes becomes a space and lies in a comment or raw-text body that an opener before it begins |
| `BlankingTheorems.BlankIdempotent` | build_support/ui_gates.rs:555-611 | blanking a blanked text changes nothing, on all inputs, unterminated tags and comments included |
| `BlankingDocuments.DocumentBlanked` | build_support/ui_gates.rs:555-611 | for every document: prose, tags and look-alikes such as `<scriptish>` come through, comments and script/style bodies are blanked, and so is everything from an unterminated comment or tag on |
| `BlankingDocuments.EveryTextIsADocument` | build_support/ui_gates.rs:555-611 | every text, well-formed or not, is some document, so the above speaks of all texts |
| `BlankingUtf8.BlankKeepsUtf8` | build_support/ui_gates.rs:607-611 | well-formed UTF-8 (shortest forms, no surrogates, up to U+10FFFF) stays well-formed, so the final conversion cannot fail |
| `BlankingUtf8.CommentsKeepUtf8` | build_support/ui_gates.rs:781-781 | the same for comment blanking |
| `BlankingCode.DelimitedSpans` | build_support/ui_gates.rs:615-629 | the search loop returns the specified spans |
| `BlankingCode.BlankRange` | build_support/ui_gates.rs:557-563 | in place, exactly the range is blanked |
| `BlankingCode.BlankBlockComments` | build_support/ui_gates.rs:772-782 | the loops over spans and bytes compute the specified text |
| `BlankingCode.BlankNonExecuting` | build_support/ui_gates.rs:555-611 | the scanning loop over the byte buffer computes the specified text |
| `CronIndexTheorems.IndexAgrees` | src/cron/index.rs:66-100 | for any interleaving of mutations, reloads and scans: once a live tenant is loaded and no mutation is still to be reloaded, its entry lists the jobs of exactly the active rows the database has for it, in row order, and is absent when there are none, provided no reload of it failed to read or lost its caller |
| `CronIndexTheorems.ActiveJobsAre` | src/cron/index.rs:82-95 | the list a reload computes from rows is the one that lists the jobs of the active rows, each once per row, in row order, and no other list is |
| `CronIndexTheorems.RecoversIff` | src/cron/index.rs:59-77 | and with such mishaps, in every state of every run: the entry is exact whenever the tenant settles later on, if and only if a reload is yet to read, or nobody holds an outdated read and the entry is right or a reload has read what makes it so |
| `CronIndexTheorems.LostReloadIff` | src/cron/ops.rs:239-239 | a caller that goes away during its reload does no harm if and only if another reload is yet to read, or nobody holds an outdated read and the entry is right or about to be |
| `CronIndexTheorems.FailedReadIff` | src/cron/index.rs:69-75 | a reload whose read fails does no harm if and only if another reload is yet to read or the tenant has no active job |
| `CronIndexTheorems.Untouched` | src/cron/index.rs:3-5 | with nobody at work on a tenant its entry, right or wrong, stays in every continuation without a new mutation, reload, scan or delete of it |
| `CronIndexTheorems.LostReloadRun` | src/cron/ops.rs:239-239 | for every tenant and every set of jobs, a run in which they are committed and nobody is left to index them |
| `CronIndexTheorems.GhostEntryRun` | src/mgmt/tenants/crud.rs:721-721 | for every tenant and every set of jobs, a run after which the deleted tenant's entry is still there and nobody is left to remove it |
| `CronIndexTheorems.DeletedStaysAbsent` | src/cron/index.rs:102-118 | once an invalidate of a deleted tenant has removed the entry it is absent in every later state, although the lock object is thrown away under tasks that hold clones |
| `CronIndexTheorems.InvStep` | src/cron/index.rs:137-178 | every step keeps numbering, ownership, lock identity, freshness and the emptiness of swept entries |
| `CronIndexCode.ScheduleIndex.Reload` | src/cron/index.rs:66-77 | the whole of `reload`, with arbitrary steps of everybody else at each suspension point: enter, lock, read (or fail), apply, unlock, in that order inside a run; it stops only while another task holds the lock; afterwards the tenant is loaded |
| `CronIndexCode.ScheduleIndex.ApplyJobs` | src/cron/index.rs:82-100 | afterwards the tenant's entry lists the jobs of exactly the active rows, in row order; without any it is gone; the other entries stay |
| `CronIndexCode.ScheduleIndex.Mutate` | src/cron/ops.rs:209-240 | a mutation is the commit and then that whole reload |
| `CronIndexCode.ScheduleIndex.Invalidate` | src/cron/index.rs:113-118 | the whole of `invalidate`: lock, entry out, lock out of the table, unlock; when it returns the entry is absent, whatever others did meanwhile |
| `CronIndexCode.ScheduleIndex.BootScan` | src/cron/index.rs:138-178 | tenant after tenant a whole turn of its own; it stops only while another task holds the lock of the tenant whose turn it is; every tenant passed and readable is loaded |
| `CronIndexCode.ScheduleIndex.Snapshot` | src/cron/index.rs:122-127 | every indexed tenant once with its jobs, and nothing else |
| `BindingCacheTheorems.ServedIsRealAndYoung` | src/functions/bindings.rs:142-187 | for any interleaving of loaders and writers every served value lists the bindings of exactly the active rows whose triggers parse, in row order, as the table held them at a real read, younger than the TTL plus that load's duration |
| `BindingCacheTheorems.StalenessBounded` | src/functions/bindings.rs:142-147 | what a hit serves was superseded, if at all, less than TTL plus load duration ago |
| `BindingCacheTheorems.SupersededBeyondTtl` | src/functions/bindings.rs:10-15 | the TTL alone is no bound: a run for every positive TTL and every delay |
| `BindingCacheTheorems.TtlBoundIff` | src/functions/bindings.rs:10-15 | exactly when the documented bound holds: no hit of an entry, in any continuation, serves a value superseded a TTL ago or longer, if and only if the value had not been superseded when the load inserted it |
| `BindingCacheTheorems.InvalidationWorksIff` | src/functions/bindings.rs:134-136 | after an invalidation every later get reflects the commit if and only if no load in flight had read before it |
| `BindingCacheTheorems.CommitIsSeen` | src/functions/bindings.rs:134-187 | if no load holds a read when a commit happens, every get after its invalidation reflects it |
| `BindingCacheCode.Cache.ParseRows` | src/functions/bindings.rs:157-177 | the bindings of exactly the active rows whose triggers parse, each with its row's name and parsed triggers, in row order |
| `BindingCacheCode.Cache.GetOrLoad` | src/functions/bindings.rs:142-187 | the whole of `get_or_load`, with arbitrary steps of other loads and writers in between: a hit exactly within the TTL, served as it stands; otherwise miss, drop, read, insert in that order inside a run, and what it returns was read from the table during this very call; a failed read returns nothing |
| `BindingCacheCode.Cache.Mutate` | src/mcp/tools/functions.rs:62-77 | a mutation is commit and then `invalidate`; afterwards the slot is empty, and if no load held a read at the commit, every later get reflects it |
| `CronStoreTheorems.StoreTheorem` | src/cron/store.rs:118-281 | over every history, records after a delete included: unique names and ids, table within the limit, no run without its job, each live job keeps exactly the newest min(20, n) of its n recorded runs, `last_*` are those of the newest |
| `CronStoreTheorems.IdsNeverReused` | src/cron/store.rs:16-44 | ids are handed out in increasing order and every live job has one of them |
| `CronStoreTheorems.PruneKeepsNewest` | src/cron/store.rs:266-272 | the delete statement keeps exactly the newest rows of its job |
| `CronStoreTheorems.OthersUntouched` | src/cron/store.rs:180-281 | an operation on one job leaves the rows and runs of all others as they were |
| `CronStoreCode.CronTables.CreateJob` | src/cron/ops.rs:209-233 | a taken name is refused first, a full table second, and a refusal changes nothing; otherwise one row comes last, with the next id, the given columns and no run yet |
| `CronStoreCode.CronTables.UpdateJob` | src/cron/store.rs:180-204 | exactly the job of that name changes: schedule, payload and active to the given values where given, the time stamp, and no other column; nothing when there is no such job |
| `CronStoreCode.CronTables.DeleteJob` | src/cron/store.rs:208-228 | the row of that name goes and not one of its runs is left, every other job keeps its row and its runs; whether it existed |
| `CronStoreCode.CronTables.RecordRun` | src/cron/store.rs:243-281 | a live job ends up with the newest 20 of the runs it had and this one, and its `last_*` columns and time stamp say what this one reported; other jobs keep their rows and runs; nothing at all happens when the job is gone |
| `CronStoreCode.KeepNewest` | src/cron/store.rs:266-272 | the backward loop keeps exactly the newest rows of its job and all rows of the others, in order |
| `AdminTokensTheorems.BootAltersNoPreciousRow` | src/db/migrations.rs:1133-1290 | after any history of boots, broken boots and token operations, a boot, wherever it stops, leaves labeled and plaintext-bearing rows exactly as they were, and none of its statements fails |
| `AdminTokensTheorems.BootRows` | src/db/migrations.rs:1164-1269 | after any history, the rows a boot leaves, wherever it stops: the active hash-only unlabeled ones revoked as of now, all others as they were, and behind them only fresh active tokens of admins, with plaintext, without label or expiry |
| `AdminTokensTheorems.BootCoversEveryAdmin` | src/db/migrations.rs:1241-1269 | a boot that goes through leaves every admin with exactly one active unlabeled token |
| `AdminTokensTheorems.SecondBootChangesNothing` | src/db/migrations.rs:1164-1181 | a second consecutive boot leaves the whole state as it is |
| `AdminTokensTheorems.InterruptedRelaxRecovers` | src/db/migrations.rs:1284-1289 | after any history, a boot that dies between dropping the strict index and creating the relaxed one costs nothing: the next boot succeeds, touches no row and puts the relaxed index in place |
| `AdminTokensTheorems.DroppedOnTheWay` | src/db/migrations.rs:1284-1289 | a boot of a database without the relaxed index does stand there without any index |
| `AdminTokensTheorems.HistoryInv` | src/db/migrations.rs:1133-1290 | what boots and operations keep: uniqueness under the current index, without one at most one active plaintext row per admin, no labels before it is relaxed, no plaintext in old-shaped tables |
| `AdminTokensTheorems.OperationInv` | src/auth/admin_token.rs:37-57 | mint, reroll, revoke, refresh, invite and admin removal keep it |
| `AdminTokensTheorems.OperationEffect` | src/mgmt/admin_pat.rs:56-75 | after any history, what each operation does to the table, row by row: which rows are revoked, which one is added with which columns, which admins and rows go |
| `AdminTokensCode.TokenTable.MigrateTokens` | src/db/migrations.rs:1133-1290 | an uninterrupted boot is the whole script |
| `AdminTokensCode.TokenTable.PrepareTable` | src/db/migrations.rs:1164-1233 | revoke hash-only rows, swap the index, rebuild an old-shaped table |
| `AdminTokensCode.TokenTable.Backfill` | src/db/migrations.rs:1247-1269 | the loop gives every admin without one an active unlabeled token |
| `AdminTokensCode.TokenTable.Relax` | src/db/migrations.rs:1271-1290 | the strict index is dropped and the relaxed one created, once, and a relaxed one is left alone |
| `AdminTokensCode.TokenTable.RerollToken` | src/mgmt/admin_pat.rs:56-75 | the active unlabeled rows of the admin are revoked, one new unlabeled row is added, every other row stays; an unknown admin changes nothing |
| `AdminTokensCode.TokenTable.MintCliToken` | src/auth/admin_token.rs:37-57 | one row with the given label and expiry and a fresh id is added for a known admin, and nothing else changes |
| `RunOnceTheorems.EffectsAtMostOnce` | src/db/migrations.rs:1121-1131 | over every sequence of boots, edits, failures and crashes each backfill, each tenant's merge and each tenant's grant takes effect at most once |
| `RunOnceTheorems.OperatorChangesStay` | src/db/migrations.rs:1328-1351 | once an effect has taken place, every step but an operator's own change leaves its data as it is, so no later boot undoes a change |
| `RunOnceTheorems.PublishRolesStay` | src/storage/file_policy.rs:754-762 | from any state, over any number of boots that stop anywhere: a root rule with publish roles stays as it is until an operator changes it |
| `RunOnceTheorems.BootOnlyFillsNull` | src/storage/file_policy.rs:754-762 | a boot changes a tenant's root rule in one case only: the granting step of that tenant succeeds and its publish roles are null; then they become `["anon","user"]` |
| `RunOnceTheorems.MissedForever` | src/db/migrations.rs:710-739 | a tenant marked without a grant, and with no boot about to repair it, is never granted, in any continuation |
| `RunOnceMissed.MissedIff` | src/db/migrations.rs:723-738 | over every run: a tenant the run does not create stands so if and only if some earlier step died between mark and grant, or died or failed at taking the mark back |
| `RunOnceMissed.MissedRun` | src/db/migrations.rs:723-726 | a run from every start that reaches it |
| `RunOnceMissed.NotBackfilledIff` | src/db/migrations.rs:1128-1131 | over every run: a role or ownership column stands without its backfill, and no boot about to make it, if and only if some earlier boot died or failed between the two statements |
| `RunOnceMissed.NotBackfilledForever` | src/db/migrations.rs:1332-1351 | then no boot ever makes it, in any continuation, and without an operator's change the roles or owners stay as they were |
| `RunOnceMissed.NotBackfilledRun` | src/db/migrations.rs:1128-1131 | a run of three steps from every start that reaches it for the roles |
| `RunOnceTheorems.CleanBoot` | src/db/migrations.rs:1353-1397 | a boot in which nothing fails adds both columns with their backfills and settles every tenant |
| `RunOnceTheorems.MergeIsUnion` | src/db/migrations.rs:553-597 | the merge keeps every entry and adds, webhook by webhook in order, a webhook entry for its origin unless a webhook entry there by then normalizes to it, and nothing else |
| `RunOnceTheorems.MergeIdempotent` | src/db/migrations.rs:583-596 | merging covered origins adds nothing |
| `RunOnceTheorems.OwnersAdopted` | src/db/migrations.rs:1345-1350 | exactly the live tenants without an owner get the owner admin with the lowest id, if there is one; deleted and owned tenants stay |
| `RunOnceCode.Databases.LowestOwner` | src/db/migrations.rs:1347-1347 | the loop finds the owner admin with the lowest id, or none when there is none |
| `RunOnceCode.Databases.BackfillRoles` | src/db/migrations.rs:1121-1131 | the boot that adds the column, and no other, makes every admin an owner; if either statement fails the boot ends there and no role changes |
| `RunOnceCode.Databases.BackfillEgress` | src/db/migrations.rs:532-606 | unless it is marked or the statement fails, the tenant's list becomes the merge of its webhook origins and it is marked; no other tenant's changes |
| `RunOnceCode.Databases.MergeOrigins` | src/db/migrations.rs:581-596 | the loop computes the merge described above |
| `RunOnceCode.Databases.SeedPublishGrant` | src/db/migrations.rs:693-739 | the whole new state: the root changes only if the tenant was unmarked and has a file, mark and grant succeed and its publish roles were null, and then to `["anon","user"]`; the mark stays unless the grant failed and the reset succeeded; nothing else changes |
| `RunOnceCode.Databases.GrantRoot` | src/storage/file_policy.rs:754-762 | only a root rule whose publish roles are null is changed; an absent root and one with roles stay |
| `RunOnceCode.Databases.BackfillOwners` | src/db/migrations.rs:1328-1351 | the boot that adds the column, and no other, gives the live tenants without an owner the owner admin with the lowest id; if either statement fails the boot ends there |
| `RunOnceCode.Databases.MigrateTenants` | src/db/migrations.rs:1353-1397 | the boot loop: each tenant whose additive migration goes through has its egress merged and its grant seeded, exactly once, whatever becomes of the others; the rest are untouched |

## Left out

- Cron expressions: parsing and next-fire times belong to the `croner` library; `is_due` is an arbitrary predicate.
- SQL text, the SQLite engine, pools and WAL: tables are sequences, maps and sets; each writer or reader closure is one atomic step, and each `execute_batch` too.
- A crash inside `delete_job` (which runs under a plain writer) and inside the token table rebuild batch.
- The methods of the code modules tell of callers that stay; a caller that goes away is a step of the models, open to everybody else at every suspension point.
- A panic inside `run_one`: the lane worker would die with its lane, lock and permit would be freed, and the depth slots of its lane would leak; the model's runs return.
- `resolve_and_run`, the WebAssembly runner and what a function does: a run returns some outcome; a guest cannot re-enter the queue.
- EngineDrain.DrainsToQuiescence: shows that the system's own steps end; fairness between tasks is the runtime's business and is not modelled.
- EngineTheorems.DepthConserved: the drop counter is counted per tenant; the server-wide total is their sum.
- CronIndexTheorems.DeletedStaysAbsent: rests on reads of a deleted tenant yielding no jobs; re-creating a tenant under a deleted id is not modelled.
- Trigger parsing and matching (`parse_triggers`, `matches_record`): parsing is an arbitrary function.
- Validation in `cron::ops` before the writer closure (name, schedule, payload, target): it rejects without touching the tables.
- The 32-bit depth of `split_call_args`: modelled as an unbounded integer.
- `extract_use_crate_bodies`, `resolve_module_file` and the HTML output of the documentation generator; whitespace in `use` trees is ASCII.
- Message texts of `suggest_similar`, of errors and of logs.
- `seed_file_policy_root`: it seeds before it marks, so a failed marker write can repeat the seed; the run-once property is not claimed for it.
- RunOnceTheorems.OperatorChangesStay: markers change only as the source changes them; restoring a snapshot of the meta database is outside the model.
- The STRICT table rebuild and the additive per-tenant migration: a tenant's steps run or are skipped according to its outcome.
- `last_used_at` stamps on tokens, token generation and hashing: a fresh token is one never used before.
- `src/functions/enforce.rs`, HTTP routes, MCP server, CLI, configuration, start-up and shutdown wiring, code generators, the remaining UI gates, i18n and theme checks.
