# OwlClaw core: verified model

A Dafny model of the parts of OwlClaw whose correctness is about whole runs rather than single calls:

- **Governance proxy** (`GovernanceGates`, `GovernanceRuns`, `GovernanceSafety`; `GovernanceCalendar`, `GovernanceCaps`,
  `GovernanceBursts`, `GovernanceDays`, `GovernanceLimits`, `GovernanceWedge`). LLM calls pass a budget gate, a
  one-second sliding rate window and a circuit breaker under a lock, run outside it, and come back to be charged. The
  pure functions say what each lock-held section does to the proxy's tables; the class performs it in place; a run is
  any interleaving of such sections, cancellations and audit writes by any number of callers, with a monotone clock and date. Each
  caller's ghost history (tokens, running calls, completions, charges, audit records) is what the theorems speak about.
- **Dependency resolver** (`Versions`, `DependencyResolver`, `DependencyPlans`, `DependencyErrors`,
  `DependencyCompleteness`, `DependencyOffers`). Depth-first
  resolution over an index, with greedy newest-version selection.
- **Configuration** (`ConfigTree`, `ConfigManager`, `ConfigLayers`). Deep merge, structural diff, path-set patches, hot
  reload, and the layering of overrides over environment over file.
- **Ledger writer** (`Ledger`, `LedgerRuns`). The bounded drop-oldest queue and the batching writer coroutine, stepped
  from one await to the next, with commit failures, stops and restarts anywhere in between.
- **Contract diff** (`ContractDiff`), **LLM fallback loop** (`LlmFallback`), **in-memory ledger** (`InMemoryLedger`) and
  **skill selection** (`KnowledgeSelection`).

Code that updates state in place is a class whose methods are proved equal to specification functions; the theorems
are lemmas about those functions. `dafny verify dfyconfig.toml` checks everything.

Where code and documentation, or code and expectation, part ways, the model follows the code:

- The proxy checks a budget before a call and charges it after, so spend can pass the limit.
  `GovernanceSafety.SpendBound` gives the bound that holds whatever the date does. On runs whose dates follow the clock
  through the calendar, `GovernanceLimits.DailyLimitHoldsExactlyWhen` and `MonthlyLimitHoldsExactlyWhen` say for which
  settings the limits are never passed, and `DailyBoundIsSharp` that the bounds on a day cannot be lowered. With `C` the
  most a call may cost and `m` the seconds it may take, rounded up, at most `qps * m` calls are in flight, and at most
  `qps * (86400 + m)` are charged on one day (`qps * 86400` if calls take no time at all).
- A cancelled call reaches neither completion handler, so its half-open probe stays counted. The breaker can lock a
  caller out for good: `GovernanceSafety.WedgesExactlyWhen` says in which states, and
  `GovernanceWedge.LockoutIsPossibleExactlyWhen` that it can happen to every caller that can call at all.
- `per_service_qps` is not clamped by the constructor, so a rate of zero or less is modelled: it grants nothing.
- A caret (tilde) constraint admits the pre-releases of the next major (minor) release (`Versions.CaretMeaning`,
  `Versions.TildeMeaning`).
- Greedy selection can miss a plan that exists (`DependencyCompleteness.GreedyMissesAPlan`). It finds one whenever
  there is one if no dependency met on the way has two matching candidates (`ExistingPlanIsFound`), and where the
  dependencies of each name agree on their selection success is decided by the selections alone
  (`SingleChoiceComplete`). Whatever the skills depend on, nothing is missed exactly when no name is offered twice
  (`DependencyOffers.NothingIsMissedExactlyWhen`).
- The config diff reads a missing key as None, so a patch never deletes a key and never adds a None
  (`ConfigTree.RoundTrip` says exactly when the round trip is the identity). Paths are written with dots, which loses
  information for keys that are empty or contain a dot (`ConfigManager.SplitWritten`). A reload needs this only of
  the keys on the way to and below the hot paths.
- Merging three layers can depend on the grouping (`ConfigLayers.MergeAssociative` gives the exact condition).
- The contract diff compares whole lists and leaves by value but list elements by their text, and 1, 1.0 and true are
  one value in three texts. So levels do not compose and a gated history can break an early consumer
  (`ContractDiff.RespellingBreaks`); `ComposedStepBreaks` and `GateIsSafeExactlyWhen` give the exact conditions. A value
  that is not equal to itself makes a contract breaking against itself (`ContractDiff.EmbedsReflexive`).
- The in-memory ledger with a bound of zero keeps everything (`InMemoryLedger.StorageIsBounded`).

## Model

| member | source | states |
|---|---|---|
| GovernanceGates.GovernanceProxy.constructor | owlclaw/governance/proxy.py:38-70 | rates, thresholds and timeouts are kept if at least one and else set to one, limits and per-service rates are kept as they are; all tables start empty |
| GovernanceGates.GovernanceProxy.CheckRateLimit | owlclaw/governance/proxy.py:189-197 | pruning the deque in place and appending is the rate gate; nothing else changes |
| GovernanceGates.GovernanceProxy.CheckCircuit | owlclaw/governance/proxy.py:199-211 | the in-place breaker transition is the circuit gate; nothing else changes |
| GovernanceGates.GovernanceProxy.Admit | owlclaw/governance/proxy.py:117-120 | the locked section runs budget, rate and circuit in order and stops at the first rejection, keeping what earlier gates changed |
| GovernanceGates.GovernanceProxy.CompleteOk | owlclaw/governance/proxy.py:141-143 | a success charges the day and the month and resets the caller's breaker, for that caller only |
| GovernanceGates.GovernanceProxy.CompleteFail | owlclaw/governance/proxy.py:213-222 | a failure counts and trips the breaker at the threshold, for that caller only |
| GovernanceRuns.PrunedKeepsInv | owlclaw/governance/proxy.py:193-194 | the pruned deque holds exactly as many tokens as the whole grant history has within the last second |
| GovernanceRuns.AttemptKeepsInv | owlclaw/governance/proxy.py:106-120 | an attempt, admitted or rejected, keeps the tie between a caller's tables and its history |
| GovernanceRuns.CompletionKeepsInv | owlclaw/governance/proxy.py:137-156 | a completion, also a late one, keeps that tie |
| GovernanceRuns.OthersKeepInv | owlclaw/governance/proxy.py:178-229 | no caller's step disturbs another caller's window, breaker, budget or history |
| GovernanceRuns.RunKeepsInv | owlclaw/governance/proxy.py:106-229 | the tie holds in every reachable state, for every caller |
| GovernanceSafety.GateFollowsHistory | owlclaw/governance/proxy.py:178-211 | in every reachable state the verdict of an attempt is the one read off the caller's history: charges against both limits, tokens within a second, failures since the last success, recovery period, probes since the last completion |
| GovernanceSafety.WindowCount | owlclaw/governance/proxy.py:189-197 | tokens spaced as the window spaces them number at most qps*m in any closed interval of at most m seconds |
| GovernanceSafety.RateSafety | owlclaw/governance/proxy.py:189-197 | over a whole run no closed second holds more than qps tokens, and every running call holds a token of its own |
| GovernanceSafety.OwnRateSafety | owlclaw/governance/proxy.py:191-197 | the rate that holds is the caller's own where the settings have one, also below one, and the default otherwise |
| GovernanceSafety.RateLimitedExactlyWhen | owlclaw/governance/proxy.py:191-197 | with both budgets unspent, an attempt is turned down for its rate exactly when that many tokens were granted within the last second |
| GovernanceSafety.InflightBound | owlclaw/governance/proxy.py:137-156 | when no call runs longer than the given time, the rate window bounds how many are in flight |
| GovernanceSafety.SpendRun | owlclaw/governance/proxy.py:178-187 | the inductive form: what is charged plus what running calls may still charge stays below the limit plus the overrun |
| GovernanceSafety.SpendBound | owlclaw/governance/proxy.py:106-156 | with calls costing at most C and none still running after m seconds, every day's and month's spend is zero or strictly below its limit plus C*qps*m, whatever the date does |
| GovernanceCaps.SpentWithinCaps | owlclaw/governance/proxy.py:178-229 | on every run on the calendar, no day holds more than C*qps*(86400+m), and no month more than the caps of 31 days, of which all but the first lose what is left over from the day before |
| GovernanceLimits.DayWithinBounds | owlclaw/governance/proxy.py:178-229 | every day's spend is zero or strictly below the smaller of the two limits plus C*qps*m, and never more than C*qps*(86400+m) |
| GovernanceLimits.DailyBoundIsSharp | owlclaw/governance/proxy.py:178-229 | for every configuration and caller that can spend, some run on the calendar spends more on one day than the smaller of those two bounds less any given slack |
| GovernanceLimits.DailyLimitHoldsExactlyWhen | owlclaw/governance/proxy.py:178-229 | over all runs on the calendar no day passes the daily limit, exactly when the caller cannot spend (zero cost, no rate, or a limit not positive), or the monthly limit plus C*qps*m is within the daily one, or C*qps*(86400+m) is |
| GovernanceLimits.MonthlyLimitHoldsExactlyWhen | owlclaw/governance/proxy.py:178-229 | over all runs on the calendar no month passes the monthly limit, exactly when the caller cannot spend or the caps of 31 days fit into it: the first day's is the smaller of C*qps*(86400+m) and the daily limit plus C*qps*m, each further day's the smaller of C*qps*86400 and that |
| GovernanceSafety.BreakerFollowsHistory | owlclaw/governance/proxy.py:213-222 | the failure count is the failures since the last success, and the breaker is closed exactly below the threshold |
| GovernanceSafety.TrippedAdmission | owlclaw/governance/proxy.py:199-207 | an admission while tripped comes a full recovery period after the last failure, even with late completions of older calls |
| GovernanceSafety.ProbesBounded | owlclaw/governance/proxy.py:208-211 | once tripped, at most half_open_max_calls calls get in until one of the caller's calls completes |
| GovernanceSafety.HalfOpenProbes | owlclaw/governance/proxy.py:199-211 | half-open calls never exceed running plus cancelled ones, so a half-open rejection implies a running call or as many cancelled ones as there are probes; a tripped breaker admits exactly after the recovery period while probes are left |
| GovernanceSafety.WedgesExactlyWhen | owlclaw/governance/proxy.py:154-211 | the breaker rejects a caller for good, whatever happens, exactly when it is tripped with nothing running and all probes used, and that takes at least that many cancelled calls since the last completion |
| GovernanceWedge.LockoutIsPossibleExactlyWhen | owlclaw/governance/proxy.py:137-222 | some run locks the caller out for good exactly when its rate and both limits are positive, whatever its calls may cost and take |
| GovernanceSafety.CompletionLeavesHalfOpen | owlclaw/governance/proxy.py:213-222 | any completion leaves half-open: a success closes the breaker, a failure of a tripped one reopens it from now |
| GovernanceSafety.CostConservation | owlclaw/governance/proxy.py:137-152 | the month's counter is the sum of its days' counters, and the sum of all daily counters of a caller is that of its success records, written and about to be written |
| GovernanceSafety.AuditCatchesUp | owlclaw/governance/proxy.py:231-258 | the pending audit records of a caller can always be written, in the order of the events |
| Versions.SortedLastIsNewest | owlclaw/cli/resolver.py:71-72 | the last entry of the stable sort is the newest, and among equally new ones the last in index order |
| Versions.VersionOrder | owlclaw/cli/resolver.py:82-109 | versions are totally ordered, by major number, then minor, then the rest |
| Versions.IntervalSplits | owlclaw/cli/resolver.py:100-109 | an interval is the disjoint union of its two parts at any version within it |
| Versions.IntervalEnds | owlclaw/cli/resolver.py:100-109 | an interval holds its lower end unless it is empty, and never its upper end |
| Versions.RangesAreIntervals | owlclaw/cli/resolver.py:84-99 | caret and tilde constraints match exactly what the interval up to the next major or minor release matches, also without versions to compare |
| Versions.SelectionIsLatest | owlclaw/cli/resolver.py:71-72 | a candidate that parses is preferred to one that does not; among the former none is later than the selection, and among texts it is the last |
| Versions.SelectIsNewestMatch | owlclaw/cli/resolver.py:64-72 | the selection is the newest candidate that matches; its two errors mean exactly no candidate and none that matches |
| DependencyResolver.Visit | owlclaw/cli/resolver.py:35-59 | terminates on every index, cyclic or not; leaves open names as they were and every skill resolved earlier at its version and place in the order |
| DependencyResolver.Resolver.VisitSkill | owlclaw/cli/resolver.py:35-59 | the visit that mutates visiting, visited, resolved and order reaches the specified state or raises the specified error |
| DependencyResolver.Resolver.VisitAll | owlclaw/cli/resolver.py:45-48 | the loop over dependencies does likewise |
| DependencyResolver.ResolvePlan | owlclaw/cli/resolver.py:29-62 | the returned plan lists the resolved skills in order, or the error is the specified one |
| DependencyPlans.VisitOrdered | owlclaw/cli/resolver.py:35-59 | a visit keeps names distinct and every edge met strictly earlier, and its skill satisfies the edge it came by |
| DependencyPlans.VisitReached | owlclaw/cli/resolver.py:35-59 | everything a visit resolves is reached from its skill through plan edges |
| DependencyPlans.PlanIsCorrect | owlclaw/cli/resolver.py:29-62 | names distinct, root last, every edge met strictly earlier at a matching version, and the names are exactly those reached from the root |
| DependencyPlans.PlanKeepsConstraints | owlclaw/cli/resolver.py:64-109 | every edge of every plan is met strictly earlier by a version its constraint permits: within the interval, within the major or minor number or its next pre-releases, or of the very text |
| DependencyErrors.OutcomeIsExplained | owlclaw/cli/resolver.py:35-77 | a circular error exhibits a chain of selections back to an open name, a conflict two different selections of one name, a missing or unmatched dependency a selected skill that needs it; plan entries were selected |
| DependencyCompleteness.SingleChoiceComplete | owlclaw/cli/resolver.py:29-77 | when dependencies of one name met on chains of selections agree on the selection, resolution succeeds exactly when no chain repeats a name and every dependency met has a selection |
| DependencyCompleteness.ExistingPlanIsFound | owlclaw/cli/resolver.py:29-77 | when no dependency met has two matching candidates, resolution succeeds exactly when a plan drawn from the index exists |
| DependencyCompleteness.SingleVersionComplete | owlclaw/cli/resolver.py:29-77 | with one candidate per reachable name, resolution succeeds exactly when the reachable graph is acyclic, complete and constraint-satisfying |
| DependencyCompleteness.GreedyMissesAPlan | owlclaw/cli/resolver.py:64-77 | with two candidates a plan drawn from the index can exist while the resolver reports a conflict |
| DependencyOffers.NothingIsMissedExactlyWhen | owlclaw/cli/resolver.py:29-77 | for the same names and versions on offer, every existing plan is found whatever the root and the skills depend on, exactly when no name has two candidates |
| ConfigTree.ChangesArePrefixFree | owlclaw/config/manager.py:76-88 | no reported path is a prefix of another |
| ConfigTree.SetPathExtends | owlclaw/config/manager.py:91-102 | setting changed paths one by one gives a patch that depends only on which were set, not on the order |
| ConfigTree.MergePatch | owlclaw/config/manager.py:17-28 | merging the patch of any selection of changes puts the new values at those paths and nothing else |
| ConfigTree.MixAt | owlclaw/config/manager.py:201-213 | away from shared dictionaries the result has the new value at and below selected paths and the old value elsewhere |
| ConfigTree.MixLeaves | owlclaw/config/manager.py:76-88 | diffing the result against the new tree reports exactly the changes not selected |
| ConfigTree.RoundTrip | owlclaw/config/manager.py:17-102 | diff, patch, merge leaves no difference, and gives the new tree back exactly when it drops no key and adds no None |
| ConfigManager.SplitWritten | owlclaw/config/manager.py:80-92 | a path survives being written with dots and split again exactly when no key is empty or has a dot |
| ConfigManager.DeepMerge | owlclaw/config/manager.py:17-28 | the merge loop computes the merge, in any key order |
| ConfigManager.DictDiff | owlclaw/config/manager.py:76-88 | for all keys and in any key order, every changed path is reported as written, and every report is of a changed path so written, with its new value |
| ConfigManager.SplitChanges | owlclaw/config/manager.py:201-209 | applied and skipped split the diff by hot prefix, and the patch is that of the applied paths |
| ConfigManager.CleanHotChanges | owlclaw/config/manager.py:118-123 | clean keys on the way to and below the hot paths suffice for every change that reads as hot to have a clean path |
| ConfigManager.HotPathsAre | owlclaw/config/manager.py:118-123 | the hot paths: a first key beginning with governance, security or triggers, or below agent a key beginning with heartbeat_interval_minutes |
| ConfigManager.Manager.Load | owlclaw/config/manager.py:148-170 | what is validated and installed is the tree in which every lookup is decided by the overrides, then the environment, then the file; sources are remembered; the listeners are called with the old and the new config |
| ConfigManager.Manager.Reload | owlclaw/config/manager.py:182-222 | with the candidate decided the same way, from the remembered overrides, the installed config is the old one with the candidate's value at every applied path; listeners are called, with the old and the new config, only if something applied; the path is remembered |
| ConfigManager.ReloadSplitsTree | owlclaw/config/manager.py:118-123 | a reload installs the candidate on every hot path and keeps the old config on every other (and below a change that is not itself hot, of which the schema has none) |
| ConfigManager.ReloadTwice | owlclaw/config/manager.py:182-222 | a second reload from the same sources applies nothing, calls no listener, skips the same paths (with the same values unless two changes are written alike) and changes nothing |
| ConfigLayers.MergeIdentity | owlclaw/config/manager.py:17-28 | the empty tree is a two-sided identity of the merge, which is idempotent |
| ConfigLayers.MergeAssociative | owlclaw/config/manager.py:158-160 | merging three layers is independent of the grouping exactly under the stated condition on scalars between dictionaries |
| ConfigLayers.LookUpMeans | owlclaw/config/manager.py:17-28 | a lookup finds exactly what is at the end of the path, and else tells the first key that is missing or holds no dictionary |
| ConfigLayers.LookUpMerge | owlclaw/config/manager.py:17-28 | what a path lookup in a merge finds, from what it finds in each layer |
| ConfigLayers.Precedence | owlclaw/config/manager.py:154-161 | a lookup is decided by overrides, then environment, then file |
| ConfigLayers.DecidedIsUnique | owlclaw/config/manager.py:154-161 | the three layers leave only one tree in which every lookup is decided that way |
| Ledger.LedgerQueue.RecordExecution | owlclaw/governance/ledger.py:226-234 | enqueueing in place drops the oldest record when full |
| Ledger.LedgerQueue.OnRecord | owlclaw/governance/ledger.py:327-338 | one wake-up takes the record and drains up to the batch size, starting a flush when full |
| Ledger.LedgerQueue.OnCommit | owlclaw/governance/ledger.py:353-375 | a commit attempt ends the flush on success or on the last failure, else moves to the next attempt |
| Ledger.LedgerQueue.FlushBatch | owlclaw/governance/ledger.py:353-375 | the retry loop makes at most three attempts, stops at the first success, and sends the batch to the fallback log only after the third failure |
| Ledger.LedgerQueue.WriteToFallbackLog | owlclaw/governance/ledger.py:377-396 | one line per record; a line that cannot be written does not stop the rest |
| LedgerRuns.WakeUpDrains | owlclaw/governance/ledger.py:327-335 | a wake-up takes records in order until the queue is empty or the batch full |
| LedgerRuns.FlushBeginsExactlyWhen | owlclaw/governance/ledger.py:336-346 | a waiting writer begins a flush exactly when a record fills the batch, or on a timeout or stop with a batch that is not empty, each with its cause and first attempt |
| LedgerRuns.BatchLeavesTogether | owlclaw/governance/ledger.py:353-396 | one turn emits nothing or the whole batch: to the database exactly on a successful commit, else to the fallback lines that can be written |
| LedgerRuns.DatabaseHoldsCommitted | owlclaw/governance/ledger.py:353-375 | over every run the output is the records of the flushes that ended, and the database holds those of the flushes that committed |
| LedgerRuns.StepKeepsInv | owlclaw/governance/ledger.py:226-375 | every step of producer or writer keeps the record flow, the writer's bounds and the flush log |
| LedgerRuns.ConservationAndOrder | owlclaw/governance/ledger.py:226-396 | over every interleaving each submission is dropped, flushed, in the batch or queued; what was not dropped keeps its order, and is everything when nothing was dropped |
| LedgerRuns.QueueAndWriterBounds | owlclaw/governance/ledger.py:322-375 | the queue is the latest submissions within its bound, the batch is below its size at the loop head and never above, each flush makes at most three attempts |
| LedgerRuns.DropsExactlyWhenFull | owlclaw/governance/ledger.py:226-234 | a record is dropped exactly when a submission meets a full queue, and it is the oldest queued |
| LedgerRuns.WriterDrains | owlclaw/governance/ledger.py:322-375 | every run of the writer alone, from waiting or mid-flush and whatever the commits do, keeps all records in order, and after a number of non-idle turns fixed by what it held everything has been flushed; to the database if the commits succeed |
| LedgerRuns.WriterNeverStuck | owlclaw/governance/ledger.py:322-342 | until then some turn that makes progress is open to the writer |
| LedgerRuns.StartBringsUp | owlclaw/governance/ledger.py:147-152 | in every reachable state a start brings up a writer that is not being stopped, and leaves a running one as it is |
| LedgerRuns.EverythingCanReachTheDatabase | owlclaw/governance/ledger.py:147-346 | from every reachable state some run without submissions, with a start where the writer is stopped, brings the batch and the queue to the database in order and leaves the writer waiting |
| LedgerRuns.StopFlushesBatch | owlclaw/governance/ledger.py:154-160 | stopping flushes exactly the batch, whatever happens meanwhile, and takes nothing more from the queue until a restart |
| ContractDiff.Changes.WalkFields | scripts/contract_diff.py:142-153 | the walk over two objects adds exactly the removed, added and changed entries of their keys |
| ContractDiff.Changes.WalkDiff | scripts/contract_diff.py:136-165 | the walk adds exactly the removed, added and changed entries of the two documents; lists equal in value add none |
| ContractDiff.BreakingIff | scripts/contract_diff.py:30-32 | something is removed or changed exactly when the old contract does not embed in the new |
| ContractDiff.AddedIff | scripts/contract_diff.py:33-35 | when nothing breaks, something is added exactly when the contracts do not agree |
| ContractDiff.ReportsPoint | scripts/contract_diff.py:136-165 | a line is reported exactly for a difference met below some keys, and its path is those keys with dots between them |
| ContractDiff.AddedIsRemovedBack | scripts/contract_diff.py:136-165 | something is added exactly when it would be removed the other way round |
| ContractDiff.Classify | scripts/contract_diff.py:24-35 | breaking exactly without an embedding; compatible exactly when leaves are equal and lists are equal in value or up to order and duplication of their texts |
| ContractDiff.EmbedsReflexive | scripts/contract_diff.py:136-165 | a contract embeds in itself exactly when no leaf outside a list is unequal to itself |
| ContractDiff.EmbedsTransitive | scripts/contract_diff.py:155-165 | embedding composes over documents whose lists write no value in two ways |
| ContractDiff.ComposedStepBreaks | scripts/contract_diff.py:155-165 | two steps that break nothing break something together exactly when, at some list, one only respells, the other does not, and an element of the first version is gone in its text |
| ContractDiff.AgreesIsBothWays | scripts/contract_diff.py:136-165 | two contracts agree exactly when each embeds in the other |
| ContractDiff.LevelsCompose | scripts/contract_diff.py:30-35 | over such documents, two steps without a break are compatible end to end if both are, and else additive |
| ContractDiff.RespellingBreaks | scripts/contract_diff.py:155-161 | for any value in two texts: a compatible step, then an additive one, that together are breaking |
| ContractDiff.GatedHistoryIsSafe | scripts/contract_diff.py:38-53 | over such documents, releases each passed by the blocking gate never break the earliest consumer |
| ContractDiff.GateIsSafeExactlyWhen | scripts/contract_diff.py:38-53 | the gate protects every history over a set of texts exactly when no two of them are one value |
| LlmFallback.CallWithFallback | owlclaw/integrations/llm.py:541-584 | the nested loops make the calls of a run and answer accordingly; at most (1 + fallbacks) * max(1, max_retries) calls, and that many under rate limits throughout |
| LlmFallback.RunIsUnique | owlclaw/integrations/llm.py:541-584 | the outcomes determine calls and answer |
| LlmFallback.RunInOrder | owlclaw/integrations/llm.py:555-581 | all calls but the last failed without an authentication error, models are tried in list order without skips, and a repeat follows only rate limits |
| LlmFallback.CallBound | owlclaw/integrations/llm.py:551-566 | at most models times attempts calls, reached when every call is rate limited |
| InMemoryLedger.Ledger.RecordExecution | owlclaw/governance/ledger_inmemory.py:127-129 | appending and truncating keeps the stored records a function of the submission history |
| InMemoryLedger.StoredRecords | owlclaw/governance/ledger_inmemory.py:127-129 | the stored records are the latest ones, everything, or nothing, for a positive, zero or negative bound |
| InMemoryLedger.StorageIsBounded | owlclaw/governance/ledger_inmemory.py:127-129 | the bound holds on every history exactly when it is not zero |
| InMemoryLedger.Ledger.QueryRecords | owlclaw/governance/ledger_inmemory.py:131-164 | filtering one criterion at a time, sorting and slicing computes the query |
| InMemoryLedger.AnswerHoldsWanted | owlclaw/governance/ledger_inmemory.py:131-152 | a record occurs in the unpaged answer as often as it is stored if its tenant is the given one, every set filter equals its field and its time is within the set bounds, and else not at all |
| InMemoryLedger.OtherTenantsDoNotMatter | owlclaw/governance/ledger_inmemory.py:137 | removing the records of other tenants changes no answer, paged or not |
| InMemoryLedger.SortIsStable | owlclaw/governance/ledger_inmemory.py:154-157 | the result is ordered, a permutation, and keeps storage order among records of one instant, in both directions |
| InMemoryLedger.SortDirection | owlclaw/governance/ledger_inmemory.py:154-157 | ascending answers never go back in time, descending ones never forward, and without an order storage order stays |
| InMemoryLedger.PagesAreTheAnswer | owlclaw/governance/ledger_inmemory.py:159-162 | pages concatenate to a prefix of the unpaged answer, and to all of it when there are enough |
| InMemoryLedger.SlicesMeet | owlclaw/governance/ledger_inmemory.py:159-162 | cutting at any index, from either end, loses nothing and repeats nothing |
| InMemoryLedger.Ledger.GetCostSummary | owlclaw/governance/ledger_inmemory.py:166-195 | the total is the costs of the stored records of that tenant and agent in that time, and each capability's entry those of that capability; the entries sum to the total, which is that of the matching query |
| InMemoryLedger.SumByCapability | owlclaw/governance/ledger_inmemory.py:185-189 | accumulating by capability gives each capability met its sum, and the values sum to the total |
| KnowledgeSelection.SelectSkills | owlclaw/capabilities/knowledge.py:69-117 | the selection follows the greedy rule on the eligible skills in request order; the budget is the token limit if positive, else the maximum if positive, else the default |
| KnowledgeSelection.RequestedAre | owlclaw/capabilities/knowledge.py:92-98 | the names considered are those asked for that are strings and not empty, once normalised each at its first occurrence |
| KnowledgeSelection.WithinBudget | owlclaw/capabilities/knowledge.py:106-115 | the selection is within the budget, or is exactly one oversize skill |
| KnowledgeSelection.SelectionIsMaximal | owlclaw/capabilities/knowledge.py:108-109 | no skill left out could be added within the budget |
| KnowledgeSelection.GreedyIsUnique | owlclaw/capabilities/knowledge.py:90-115 | the rule determines the selection |
| KnowledgeSelection.Report | owlclaw/capabilities/knowledge.py:139-169 | selected and dropped, each without repeats, partition the distinct known requested names |

## Left out

- Governance proxy: the passthrough path for unexpected gate errors, negative or undefined costs, empty caller names and empty tenant or agent ids (the audit write then raises inside the handled block, so a charged success also runs the failure handler), and a clock or date that steps back. Money and time are reals, so rounding is not modelled. Audit records carry only status and cost, and count as written even when the audit store later discards them.
- GovernanceLimits.DailyLimitHoldsExactlyWhen: here and in the other calendar results the monotonic clock and the UTC date run together, a day lasting 86400 seconds of the clock; leap seconds, suspended hosts and adjusted clocks are not modelled, and midnight does not fall between the readings of one locked section. The theorems of `GovernanceSafety` do not assume this.
- Governance proxy: the response normalisation and the token-price estimate; a completed call's cost is a parameter.
- Resolver: parsing of version and constraint text. A version is its text with an optional parse; a constraint is given by its form and operands. Epochs are not modelled. The index answers the same throughout a resolution.
- Resolver: `ResolvedNode` carries the skill itself instead of copies of its fields.
- Configuration: file and environment reading, value coercion, and model validation, which is a function given to the manager and the identity on what a reload installs. Python values that compare equal across types count as one value. Locks take no part, and the listener list is reduced to the calls made to it.
- ConfigTree.SetPathExtends: path setting is a function on values; aliasing between the patch and the candidate's subtrees is not modelled. It never matters because no reported path lies below another.
- Ledger: field validation, database queries and cost summaries. A commit is atomic. Cancellation is delivered only while the writer waits for a record; one delivered during a flush is not modelled, nor are errors other than commit failures and unwritable fallback lines. Backoff delays take no part.
- Contract diff: the sorted order and multiplicity of report lines, file input, the audit log and the command line. Documents hold JSON values with string keys, and their serialisation is represented by the document itself with its scalar texts. Both versions are read by the same loader, so that a value such as NaN inside a list is one object and equal to itself there.
- LLM fallback: the classification of provider errors by name and message, the API keys and delays; an outcome says whether a failure reads as authentication or rate limit.
- In-memory ledger: validation of fields at recording time and record fields no query looks at; dates are given as the instants that bound them.
- Skill selection: name normalisation, focus matching and token estimation are parameters; the report's text is not modelled. The loader is taken to file each skill under its own name.
- CLI, HTTP and MCP transports, migrations, database backup, Hatchet and Langfuse integration, sanitizers, trigger parsing and the approval, routing, visibility and risk modules.
