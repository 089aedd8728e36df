# Verified model of the Nexus client SDK

This project models the parts of the Python Nexus client SDK whose correctness is hardest to see from one function,
and proves what they promise. `dafny verify dfyconfig.toml` checks all of it (Dafny 4.11).

**The concurrent input resolver** (`InputGraph`, `Protocol`, `Resolve*`, `InputCaches`). `InputCache.resolve` evaluates
an acyclic graph of readers and processors with one task per input, a polling loop and a shared cache. `Protocol` is a
transition system whose steps are the stretches of code between two suspensions; a run is any interleaving of steps of
any number of tasks and top-level callers, over any graph, any user code and any exception map. `InputGraph.Eval` is the
plain recursive evaluator every run is compared with. `InputCaches.InputCache` is the mutable object, with its loops;
each of its methods is proved to be one step of the system.

**Failures** (`ErrorMaps`, `ResolveFailures`, `ResolveDrift`, `ResolveMasking`). The scoped exception map, the verdict a
failure keeps on its way through the graph, the maps under which that verdict is a race, and the one circumstance in
which a failure can go unseen.

**Retrying and committing** (`Retry`, `RetryBuilders`, `Commit`, `Scheduling`, `Activation`, `RunVerdicts`). Retry
policies and the builder that shares its error list in the heap; submit-callback-acknowledge against an arbitrary
receiver; re-creation of runs against an arbitrary scheduler; the endings of a whole run in every environment; and what
a failed input of any resolver run means for the process.

**Three algorithms.** The execution tree over shared heap nodes and its text (`Text`, `ConstructorGraph`, `Trees`,
`TreePrinter`), reuse of remote runs by tag (`RemoteRuns`), and in-place normalisation of nested configuration keys
(`ConfigKeys`, `ConfigDicts`).

Several promises hold only under a condition. Each of these is stated with its exact condition, in both directions:

- A failed input writes `None` to the cache before its task is done. A poll misses the failure for some user code if and
  only if some input's `_context_close` suspends (`ResolveMasking.NeverMasksIffNoSlowClose`).
- Over all worlds and runs a failure keeps the verdict of where it began if and only if remapping twice is remapping
  once (`ResolveDrift.NeverDriftsIffSettled`); otherwise the verdict is a race between polls
  (`ResolveDrift.VerdictIsARace`). For a given configuration it is enough to look at the classes it maps to
  (`ErrorMaps.SettledIffVerdictsFixed`): caching targets and a catch-all settle it (`ErrorMaps.CachingMapSettles`), the
  framework's global default alone does not (`ResolveDrift.DefaultRaces`).
- A result is the recursive evaluation unless an input it needs has raised (`ResolveValues.ReturnedUnlessRaised`); if no
  `_context_close` suspends that exception falls away (`ResolveValues.ReturnedIsEvaluated`).
- A process ends with status 1 although its submission was confirmed if and only if something after the submission
  raises (`Activation.EndingsMeanCommit`).
- One `resolve` call creates one task per key if and only if it is not given an unscheduled input twice
  (`InputCaches.OneTaskPerKey`).
- The synchronous `complete_run` vouches for the commit if and only if it is given an exhaust error
  (`Commit.SyncVouchesIffExhaustError`).
- A tree shows every dependency edge if and only if no reachable class asks for two classes whose names differ in case
  only (`ConstructorGraph.TreeIsCompleteIff`).
- The key loop computes the recursive lower-cased map of every nested dictionary if and only if lower-casing is
  idempotent (`ConfigKeys.ExactIffIdempotent`); the popped key is there either way (`ConfigKeys.NeverMisses`).

Which of several failures a poll raises for is decided by the order in which their tasks were created, and within one
call that is the order of its arguments (`ResolveOrder.PollNamesFirst`, `ResolveOrder.EarlierArgumentDecides`).

The repository's own README shows an execution tree with chained edges on one line; the code prints one edge per line,
and the model follows the code.

## Model

| member | source | states |
|---|---|---|
| InputGraph.EvalDepsByAlias | src/nexus_client_sdk/nexus/abstractions/algorithm_cache.py:119-123 | the dictionary of dependencies has their aliases for keys and, under each, the evaluation of the last dependency of that alias |
| InputGraph.EvalDepsSome | src/nexus_client_sdk/nexus/abstractions/algorithm_cache.py:101-123 | the dictionary exists exactly when every dependency evaluates |
| InputGraph.EvalIsOwn | src/nexus_client_sdk/nexus/input/input_processor.py:87-89 | an input evaluates to what its own code produces on the run's arguments overridden, name by name, by its evaluated dependencies, and to nothing if one of these does not evaluate |
| InputGraph.NeedsIsLeast | src/nexus_client_sdk/nexus/input/input_processor.py:87-89 | the inputs a call needs are the least set with its arguments that is closed under dependencies |
| Protocol.InvAlways | src/nexus_client_sdk/nexus/abstractions/algorithm_cache.py:73-125 | every interleaving keeps cache, scheduled tasks, memoised data, counter and phases consistent with each other |
| Protocol.InvStep | src/nexus_client_sdk/nexus/abstractions/algorithm_cache.py:82-125 | each step keeps that invariant and touches no other actor's phase, entry or data |
| ResolveValues.ReturnedIsEvaluated | src/nexus_client_sdk/nexus/abstractions/algorithm_cache.py:73-125 | if no `_context_close` suspends, or nothing needed has raised, what `resolve` returns is the recursive evaluation of its arguments, all of which succeeded |
| ResolveValues.ReturnedUnlessRaised | src/nexus_client_sdk/nexus/abstractions/algorithm_cache.py:73-125 | in every world and interleaving what `resolve` returns is the recursive evaluation of its arguments, unless an input it needs has raised |
| ResolveValues.ReturnedByAlias | src/nexus_client_sdk/nexus/abstractions/algorithm_cache.py:119-123 | under the same condition the result has the arguments' aliases for keys and, under each, the evaluation of the last argument of that alias |
| ResolveValues.EndsByOwnCode | src/nexus_client_sdk/nexus/input/input_processor.py:87-99 | under the same condition an input whose own code ran ended with exactly the value or the exception that this code gives on its evaluated, overridden arguments |
| ResolveValues.CachedIs | src/nexus_client_sdk/nexus/abstractions/algorithm_cache.py:86-94 | in every run the cache holds None for an input that failed, and otherwise what it produced |
| ResolveValues.FullPollSucceeded | src/nexus_client_sdk/nexus/abstractions/algorithm_cache.py:104-117 | a poll that finds everything cached and no failed task has seen every dependency succeed, despite the `None` written for failures |
| ResolveValues.HealthyAlways | src/nexus_client_sdk/nexus/input/input_reader.py:95-107 | when every call evaluates, no task and no call ever fails, in any world and any interleaving |
| ResolveProgress.Progress | src/nexus_client_sdk/nexus/abstractions/algorithm_cache.py:96-117 | no deadlock: below any unfinished actor a step other than a fruitless poll is enabled |
| ResolveProgress.StepLowersMeasure | src/nexus_client_sdk/nexus/abstractions/algorithm_cache.py:104-117 | every such step strictly lowers a natural-number measure and no step raises it |
| ResolveProgress.ProductiveStepsBounded | src/nexus_client_sdk/nexus/abstractions/algorithm_cache.py:73-125 | a run of any length takes at most nine productive steps per actor |
| ResolveProgress.EveryRunCanFinish | src/nexus_client_sdk/nexus/abstractions/algorithm_cache.py:73-125 | from any reachable state productive steps alone finish every task and every call |
| ResolveProgress.EachStepAtMostOnce | src/nexus_client_sdk/nexus/abstractions/algorithm_cache.py:82-99 | over all overlapping calls each input is started, scheduled, computed and written at most once |
| ResolveOrder.TasksInArgumentOrder | src/nexus_client_sdk/nexus/abstractions/algorithm_cache.py:96-99 | in every run of every world, two arguments that one call scheduled stand in `_scheduled` in argument order, for good |
| ResolveOrder.EarlierTasksFirst | src/nexus_client_sdk/nexus/abstractions/algorithm_cache.py:96-99 | and whoever had a task before that call stands before both |
| ResolveOrder.PollNamesFirst | src/nexus_client_sdk/nexus/abstractions/algorithm_cache.py:104-117 | a poll raises exactly when some task has failed, for the one scheduled first, with its mapped class and its exception as cause; otherwise it is the last exactly when all arguments are cached |
| ResolveOrder.EarlierArgumentDecides | src/nexus_client_sdk/nexus/abstractions/algorithm_cache.py:97-115 | once an argument has failed no poll names a later argument of the same call, so the order of the arguments decides between two verdicts |
| ResolveFailures.FoundedAlways | src/nexus_client_sdk/nexus/abstractions/algorithm_cache.py:111-115 | every error the cache raises names a task that did fail, with that task's error as cause and its remapped class |
| ResolveFailures.VerdictsNeverDrift | src/nexus_client_sdk/nexus/abstractions/algorithm_cache.py:60-71 | with a settled map, at any depth, a failure has the verdict of some input whose own code raised |
| ResolveFailures.ConfiguredVerdicts | src/nexus_client_sdk/nexus/configurations/settings.toml:78-112 | under caching targets and a catch-all every failure the cache raises has the verdict of the flat configuration list for the class some input's own code raised |
| ResolveFailures.SingleOriginDecides | src/nexus_client_sdk/nexus/abstractions/algorithm_cache.py:60-71 | with one origin everyone who fails because of it fails with that origin's verdict |
| ResolveDrift.VerdictIsARace | src/nexus_client_sdk/nexus/abstractions/algorithm_cache.py:111-115 | two legal runs of one world with one origin: polling early, a caller fails with the mapped class of the origin; polling late, with the mapped class of that |
| ResolveDrift.DefaultRaces | src/nexus_client_sdk/nexus/configurations/settings.toml:75-112 | under the framework's default and an entry that matches it, one failure is fatal in one run and transient in the other |
| ResolveDrift.NeverDriftsIffSettled | src/nexus_client_sdk/nexus/abstractions/algorithm_cache.py:60-71 | over all worlds and runs, everyone who fails through the cache has the verdict of the class first raised, exactly when the map is settled |
| ResolveFailures.OnceFailedAllRaise | src/nexus_client_sdk/nexus/abstractions/algorithm_cache.py:105-117 | once a task has failed, whoever still has a poll ahead never gets a result, in any continuation |
| ResolveFailures.LateCallsRaise | src/nexus_client_sdk/nexus/abstractions/algorithm_cache.py:105-117 | a non-empty `resolve` that starts after a failure and has ended has raised |
| ResolveFailures.EmptyResolveNeverRaises | src/nexus_client_sdk/nexus/abstractions/algorithm_cache.py:104-105 | `resolve()` without inputs never polls and returns an empty dictionary whatever has failed |
| ResolveMasking.MaskingRun | src/nexus_client_sdk/nexus/abstractions/algorithm_cache.py:86-94 | a run in which a caller gets a result although its input failed, for any input whose `_context_close` suspends |
| ResolveMasking.NeverMasksIffNoSlowClose | src/nexus_client_sdk/nexus/abstractions/nexus_object.py:90-92 | failures are masked for no user code and no call exactly when no `_context_close` suspends |
| ResolveAccounting.CountersOrdered | src/nexus_client_sdk/nexus/abstractions/algorithm_cache.py:46-58 | cached inputs are scheduled, and cached <= executed <= scheduled after every run |
| ResolveAccounting.CacheOrderIsTopological | src/nexus_client_sdk/nexus/abstractions/algorithm_cache.py:101-123 | in every run the cache-write order of inputs whose own code ran is a topological order of the graph |
| ResolveAccounting.OwnCodeStartsLate | src/nexus_client_sdk/nexus/input/input_processor.py:87-89 | own code starts only when every direct dependency is cached |
| ResolveAccounting.CountersAfterSuccess | src/nexus_client_sdk/nexus/abstractions/algorithm_cache.py:46-58 | when every call has returned, in any world, both counters equal the number of inputs the calls need; exactly those are cached and ran their own code |
| ResolveAccounting.FinishedRunsAgree | src/nexus_client_sdk/nexus/abstractions/algorithm_cache.py:73-125 | a finished run of any world has every call returned if every argument of every call evaluates, and only if, unless some `_context_close` suspends |
| InputCaches.InputCache.BeginTask | src/nexus_client_sdk/nexus/abstractions/algorithm_cache.py:82-88 | entering a task up to its first suspension, in `_context_open` or in `process`, is the start step |
| InputCaches.InputCache.EnterContext | src/nexus_client_sdk/nexus/abstractions/nexus_object.py:85-88 | the end of a suspended `_context_open` is the enter step |
| InputCaches.InputCache.BeginProcessing | src/nexus_client_sdk/nexus/input/input_processor.py:91-99 | the memo test: a task with memoised data ends with it, any other goes on to resolve its dependencies |
| InputCaches.InputCache.SelectMissing | src/nexus_client_sdk/nexus/abstractions/algorithm_cache.py:96-97 | the list comprehension selects exactly the unscheduled inputs, at increasing positions of the argument list |
| InputCaches.InputCache.CreateTasks | src/nexus_client_sdk/nexus/abstractions/algorithm_cache.py:98-99 | the loop creates a task for each of them |
| InputCaches.InputCache.ScheduleInputs | src/nexus_client_sdk/nexus/abstractions/algorithm_cache.py:96-99 | the locked section is the schedule step |
| InputCaches.InputCache.PollOnce | src/nexus_client_sdk/nexus/abstractions/algorithm_cache.py:105-117 | counting and scanning for the first failed task, over all scheduled tasks, is the poll step |
| InputCaches.InputCache.FinishWaiting | src/nexus_client_sdk/nexus/abstractions/algorithm_cache.py:119-123 | building the result dictionary is the finish step |
| InputCaches.InputCache.RunOwnCode | src/nexus_client_sdk/nexus/input/input_processor.py:87-99 | user code on run arguments overridden by dependencies, and the memo it leaves, is the compute step |
| InputCaches.InputCache.WriteCache | src/nexus_client_sdk/nexus/abstractions/algorithm_cache.py:90-94 | the `finally` block, which writes `None` for a failure, is the write step |
| InputCaches.InputCache.LeaveContext | src/nexus_client_sdk/nexus/abstractions/nexus_object.py:90-92 | the end of a suspended `_context_close` makes the task done |
| InputCaches.OneTaskPerKey | src/nexus_client_sdk/nexus/abstractions/algorithm_cache.py:96-99 | one call creates one task per key exactly when it is not given an unscheduled input twice |
| ErrorMaps.GroupByClass | src/nexus_client_sdk/nexus/core/app_dependencies.py:143-148 | the append loop groups the configuration list by class, in order |
| ErrorMaps.GetCache | src/nexus_client_sdk/nexus/core/app_dependencies.py:138-160 | without a default class start-up fails; otherwise every lookup in the loaded map gives the flat list's verdict |
| ErrorMaps.GroupedRefinesFlat | src/nexus_client_sdk/nexus/exceptions/error_map.py:55-72 | group-then-scan gives the target of the first list entry of the caller's class that matches, else the default |
| ErrorMaps.EmptyListShadows | src/nexus_client_sdk/nexus/exceptions/error_map.py:18-30 | an entry with an empty error list makes later entries of its class dead |
| ErrorMaps.VerdictIsConfigured | src/nexus_client_sdk/nexus/abstractions/algorithm_cache.py:60-71 | a caching error keeps its class, and any other gets the target of the first entry of the flat list that applies, else the default; no other class meets this |
| ErrorMaps.CachingMapSettles | src/nexus_client_sdk/nexus/configurations/settings.toml:78-112 | caching targets and a catch-all make every verdict a caching error, and remapping it again changes nothing |
| ErrorMaps.ShippedVerdict | src/nexus_client_sdk/nexus/configurations/settings.toml:74-112 | under the shipped settings a failure is transient exactly when it is one of the seven listed database errors or transient already and not a fatal caching error, and the map is settled |
| ErrorMaps.SettledIffVerdictsFixed | src/nexus_client_sdk/nexus/exceptions/error_map.py:55-72 | a map is settled exactly when every class it re-raises anything with, among its default, configured targets and two own errors, is re-raised unchanged |
| ErrorMaps.DefaultCanDrift | src/nexus_client_sdk/nexus/exceptions/error_map.py:72 | without a catch-all a defaulted verdict can be remapped again to the opposite one |
| Retry.ExecuteMeets | src/nexus_client_sdk/clients/fault_tolerance/sync_retry_policy.py:24-49 | the first attempt that is no listed failure decides and is the last one made; with none, exhaustion after exactly max(retry_count, 0) attempts |
| Retry.NextAttemptDecides | src/nexus_client_sdk/clients/fault_tolerance/sync_retry_policy.py:24-49 | after n failures of listed classes: a value is returned at once, a failure of no listed class is propagated after that very attempt, and used-up tries give the exhaust error or nothing |
| Retry.AsyncIsSync | src/nexus_client_sdk/nexus/async_extensions/async_retry/async_retry_policy.py:91-122 | both forms make the same attempts, sleep the same and end the same, coroutine or not |
| Retry.SleptIs | src/nexus_client_sdk/clients/fault_tolerance/retry_policy.py:71-72 | the time slept is, over the retryable failures, the sum of the base delay and the drawn share of it |
| Retry.SleepBounds | src/nexus_client_sdk/clients/fault_tolerance/retry_policy.py:71-72 | n > 0 retryable failures sleep at least n and less than 2n base delays, with n the retry count on exhaustion |
| RetryBuilders.DefaultPolicy | src/nexus_client_sdk/clients/fault_tolerance/sync_retry_policy.py:69-77 | a default policy owns a new error list |
| RetryBuilders.RetryPolicyBuilder.constructor | src/nexus_client_sdk/clients/fault_tolerance/retry_policy.py:138-146 | a builder takes over the very list of its default policy |
| RetryBuilders.RetryPolicyBuilder.Fork | src/nexus_client_sdk/clients/fault_tolerance/retry_policy.py:148-153 | a fork has the defaults, not its parent's settings, and a list of its own |
| RetryBuilders.RetryPolicyBuilder.WithRetries | src/nexus_client_sdk/clients/fault_tolerance/retry_policy.py:155-162 | changes the retry count only |
| RetryBuilders.RetryPolicyBuilder.WithRetryBaseDelayMs | src/nexus_client_sdk/clients/fault_tolerance/retry_policy.py:164-171 | changes the base delay only |
| RetryBuilders.RetryPolicyBuilder.WithRetryExhaustErrorType | src/nexus_client_sdk/clients/fault_tolerance/retry_policy.py:173-180 | changes the exhaust error only |
| RetryBuilders.RetryPolicyBuilder.WithErrorTypes | src/nexus_client_sdk/clients/fault_tolerance/retry_policy.py:182-189 | extends the shared list, and thereby exactly the policies that share it |
| RetryBuilders.RetryPolicyBuilder.Build | src/nexus_client_sdk/clients/fault_tolerance/retry_policy.py:191-202 | a built policy has the builder's settings and shares its list |
| RetryBuilders.RetryPolicyBuilder.ForkAndBuild | src/nexus_client_sdk/clients/fault_tolerance/retry_policy.py:148-202 | whatever is configured on a fork, no earlier policy and no earlier builder changes |
| RetryBuilders.RetryPolicyBuilder.BuildTwice | src/nexus_client_sdk/clients/fault_tolerance/retry_policy.py:182-202 | a later `with_error_types` changes a policy built before it, and the default policy |
| RetryBuilders.ErrorTypesAccumulate | src/nexus_client_sdk/clients/fault_tolerance/retry_policy.py:182-189 | error types only accumulate, in call order |
| RetryBuilders.LastCallCounts | src/nexus_client_sdk/clients/fault_tolerance/retry_policy.py:155-180 | of the other settings the last call counts |
| RetryBuilders.UntouchedSettingStays | src/nexus_client_sdk/clients/fault_tolerance/retry_policy.py:155-180 | a setting that is never called keeps its value |
| Commit.ReceiverAsyncClient.AckPolicy | src/nexus_client_sdk/nexus/async_extensions/nexus_receiver_async_client.py:86-92 | the forked acknowledgement policy: ten tries, two seconds, network errors and refusals retried |
| Commit.ReceiverAsyncClient.CompleteRun | src/nexus_client_sdk/nexus/async_extensions/nexus_receiver_async_client.py:59-100 | by the receiver's answers: at most three submits, the callback, at most ten checks; it asks on while the answer is none, no or a network error, returns after the first yes and gives up after ten; every other ending is stated too |
| Commit.CompleteRunSync | src/nexus_client_sdk/clients/sync_helpers/_functions.py:37-85 | the same of the helper, with its one configured policy for both phases; with no error types given, refusals and network errors are retried |
| Commit.ReturnsIffPositive | src/nexus_client_sdk/clients/sync_helpers/_functions.py:21-34 | a check passes exactly when the receiver answers true |
| Commit.CompletionIs | src/nexus_client_sdk/nexus/async_extensions/nexus_receiver_async_client.py:75-100 | for any two policies the calls and the ending are those of the two phases, each ended by its first success, first unlisted exception or used-up tries, with the callback between them |
| Commit.CompletesOneWay | src/nexus_client_sdk/nexus/async_extensions/nexus_receiver_async_client.py:75-100 | and this leaves one ending and one list of calls for each receiver |
| Commit.NormalReturnIsCommitted | src/nexus_client_sdk/nexus/async_extensions/nexus_receiver_async_client.py:75-100 | a normal return means a successful submit, then the callback once if given, then a positive check, each phase within its retry count |
| Commit.NormalIffCommitted | src/nexus_client_sdk/nexus/async_extensions/nexus_receiver_async_client.py:94-100 | with exhaust errors set the call returns normally exactly when some check was positive |
| Commit.NormalIffReceiverAgrees | src/nexus_client_sdk/nexus/async_extensions/nexus_receiver_async_client.py:75-100 | exactly which receivers and callbacks make the call return normally: some submit and some check succeed within the retries, each after retryable failures only |
| Commit.NormalIffConfirmed | src/nexus_client_sdk/nexus/async_extensions/nexus_receiver_async_client.py:75-100 | the asynchronous client returns exactly when one of three submits is taken after network errors only, and one of ten checks says yes after refusals and network errors only |
| Commit.RaisesIff | src/nexus_client_sdk/nexus/async_extensions/nexus_receiver_async_client.py:75-100 | and raises exactly the class that the receiver's answers determine |
| Commit.SyncVouchesIffExhaustError | src/nexus_client_sdk/clients/sync_helpers/_functions.py:61-85 | the helper returns only from committed runs exactly when an exhaust error is given |
| Commit.SilentReceiver | src/nexus_client_sdk/clients/sync_helpers/_functions.py:72-85 | without one, a receiver that never answers makes the helper return normally |
| Scheduling.SchedulerAsyncClient.RunPolicy | src/nexus_client_sdk/nexus/async_extensions/nexus_scheduler_async_client.py:174-178 | the forked policy: defaults, scheduling failures retried, silent exhaustion if errors are not propagated |
| Scheduling.SchedulerAsyncClient.CreateAndAwaitAttempt | src/nexus_client_sdk/nexus/async_extensions/nexus_scheduler_async_client.py:150-172 | one attempt creates a run, calls back and waits for that run, and turns a failed scheduling into an exception |
| Scheduling.SchedulerAsyncClient.CreateAndAwait | src/nexus_client_sdk/nexus/async_extensions/nexus_scheduler_async_client.py:150-194 | one to three runs are created, each called back once with its id and then awaited; a run is replaced exactly after a network or scheduling error or a failed scheduling; a result is that of the last run, any other exception is raised, and a third repeated attempt gives nothing or the exhaust error |
| Scheduling.ResultIsOfLastRun | src/nexus_client_sdk/nexus/async_extensions/nexus_scheduler_async_client.py:150-194 | the same of the policy's recursion, one run per attempt, from what scheduler and callback do |
| Scheduling.AllInTurn | src/nexus_client_sdk/nexus/async_extensions/nexus_scheduler_async_client.py:150-172 | in the calls of any number of attempts every created run is called back once, at once and with its id, before it is awaited |
| Scheduling.SchedulingFailureCreatesAnother | src/nexus_client_sdk/nexus/async_extensions/nexus_scheduler_async_client.py:169-174 | a run whose scheduling failed is replaced by a new one while attempts are left |
| Activation.Nexus.CompleteWithError | src/nexus_client_sdk/nexus/core/app_core.py:235-247 | reports a bootstrap failure by one submission without result, through a client of its own |
| Activation.Nexus.HandleBootstrapFailure | src/nexus_client_sdk/nexus/core/app_core.py:264-291 | validation errors, startup configuration errors and HTTP errors of six statuses are reported, an HTTP error without a response makes the handler fail, all others only exit with 1 |
| Activation.Nexus.SubmitResult | src/nexus_client_sdk/nexus/core/app_core.py:192-233 | saves and submits a result, submits a fatal failure, or exits for a transient one |
| Activation.Nexus.Activate | src/nexus_client_sdk/nexus/core/app_core.py:249-373 | for every environment: at most one submission, none before `sys.exit(1)`, status 0 only after one that was confirmed; ending and submissions are those the three lemmas below characterise |
| Activation.EndingsMeanCommit | src/nexus_client_sdk/nexus/core/app_core.py:261-319 | at most one submission; `sys.exit(1)` only without any; status 0 only after exactly one that was confirmed; and status 1 after a confirmed one exactly when something after it raises |
| Activation.OutcomeByEnvironment | src/nexus_client_sdk/nexus/core/app_core.py:253-371 | by the environment alone, down to the failure's class and status and the receiver's answers: which runs return and which call `sys.exit(0)` or `sys.exit(1)` |
| Activation.SubmissionsByEnvironment | src/nexus_client_sdk/nexus/core/app_core.py:192-247 | by the environment alone: which result URI or error is submitted, and when it is confirmed |
| Activation.CrashByEnvironment | src/nexus_client_sdk/nexus/core/app_core.py:253-371 | exactly which runs end with an exception nobody handles, and with which class |
| RunVerdicts.FailedCallDecides | src/nexus_client_sdk/nexus/core/app_core.py:192-233 | from any resolver run whose caller failed to the end of the process: the flat configuration list's verdict on the class an input's own code raised decides alone between `sys.exit(1)` without submission and submitting exactly FatalCachingError |
| Text.SplitJoin | src/nexus_client_sdk/nexus/execution/trees.py:34 | splitting a joined text splits each part on its own |
| ConstructorGraph.DependentsAre | src/nexus_client_sdk/nexus/execution/trees.py:84-93 | which annotated parameters count as dependents, for a class and for the algorithm |
| ConstructorGraph.LastNameIsKept | src/nexus_client_sdk/nexus/execution/trees.py:36-43 | of dependents whose lower-cased names collide the last one is kept and no other |
| ConstructorGraph.KeptAllIff | src/nexus_client_sdk/nexus/execution/trees.py:36-43 | children keyed by lower-cased name keep every dependent exactly when different ones have different keys |
| ConstructorGraph.EdgesIffReached | src/nexus_client_sdk/nexus/execution/trees.py:91-106 | the recursive edge set is the set of edges that leave classes reachable by a path |
| ConstructorGraph.TreeEdgesAreDependencies | src/nexus_client_sdk/nexus/execution/trees.py:91-122 | a tree shows no edge that is no dependency |
| ConstructorGraph.TreeIsCompleteIff | src/nexus_client_sdk/nexus/execution/trees.py:91-122 | it shows every reachable dependency edge exactly when no reachable class has dependents differing in case only |
| ConstructorGraph.ReadableIff | src/nexus_client_sdk/nexus/execution/trees.py:84-93 | the walk meets no unreadable annotation exactly when the class's own are readable and so is the walk below each dependent |
| ConstructorGraph.WalkReads | src/nexus_client_sdk/nexus/execution/trees.py:84-116 | the whole walk is readable exactly when the algorithm's annotations are all classes and no reachable class has one without a name |
| ConstructorGraph.ParseEdgeLine | src/nexus_client_sdk/nexus/execution/trees.py:18-28 | an edge line, cut at its quotes, is upper-cased id, name, arrow with the other id, other name |
| Trees.GetParameterTree | src/nexus_client_sdk/nexus/execution/trees.py:91-106 | shared nodes: whatever was cached stays, every node below is complete, and nodes under construction are not touched |
| Trees.AddDependents | src/nexus_client_sdk/nexus/execution/trees.py:103-104 | the loop leaves the node with one child per kept dependent, also when the node was complete before |
| Trees.GetTree | src/nexus_client_sdk/nexus/execution/trees.py:109-122 | the tree of an algorithm is complete, and building fails exactly when the walk meets an unreadable annotation |
| TreePrinter.SerializeNode | src/nexus_client_sdk/nexus/execution/trees.py:21-34 | whatever the order of its lines, the edge lines of a node's text are the edges below the node |
| TreePrinter.SerializeTree | src/nexus_client_sdk/nexus/execution/trees.py:73-81 | below the header the printed lines draw, between the right ids, exactly the tree's edges, each of them once |
| TreePrinter.PrintTree | src/nexus_client_sdk/nexus/execution/trees.py:73-122 | building and printing together: exactly when there is a text, which edges its lines draw between which ids, that each has one line, and when these are all dependency edges |
| RemoteRuns.LatestIsMaximal | src/nexus_client_sdk/nexus/algorithms/_remote_algorithm.py:201-225 | sorting and taking the last yields a run of the tag that none was received after, the last listed of those received with it, and none only if the tag has no run |
| RemoteRuns.RemoteAlgorithm.CreateRemoteRun | src/nexus_client_sdk/nexus/algorithms/_remote_algorithm.py:190-249 | reuses the latest run of the tag or creates one, or raises what a call it makes raises; without a compressor it fails before asking the scheduler |
| RemoteRuns.RemoteAlgorithm.Launch | src/nexus_client_sdk/nexus/algorithms/_remote_algorithm.py:164-177 | payload by payload until a call raises, leaving the runs made so far; without `compress_payload`, or with a compressor, nothing else fails it |
| RemoteRuns.SubmissionReuses | src/nexus_client_sdk/nexus/algorithms/_remote_algorithm.py:164-249 | one new run, with the next id and reception time and the first payload's parameters, per distinct effective tag that had none; no run dropped; and for each payload in order the id of its tag's latest run |
| RemoteRuns.SubmissionByPayload | src/nexus_client_sdk/nexus/algorithms/_remote_algorithm.py:164-177 | a payload without a tag goes under the algorithm's: each payload gets the latest run of the tag it goes under, a tag has a run in the end exactly if it had one or some payload goes under it, and a new run carries the first of these payloads, compressed if so configured |
| RemoteRuns.ResubmissionIsIdempotent | src/nexus_client_sdk/nexus/algorithms/_remote_algorithm.py:201-225 | a second identical submission creates nothing and returns the same ids |
| RemoteRuns.ForcedCreatesAll | src/nexus_client_sdk/nexus/algorithms/_remote_algorithm.py:227-249 | with `force_run` every payload gets a run of its own with its parameters, in order |
| RemoteRuns.CutShort | src/nexus_client_sdk/nexus/algorithms/_remote_algorithm.py:164-177 | a submission cut short has done exactly the payloads before the first whose lookup, or whose creation if one is due, raises, and raises that |
| RemoteRuns.SubmittingAgainCompletes | src/nexus_client_sdk/nexus/algorithms/_remote_algorithm.py:201-225 | submitting again after a failing call ends with the very runs and ids of a submission in which no call failed |
| ConfigKeys.NeverMisses | src/nexus_client_sdk/nexus/configurations/configuration_model.py:250-252 | whatever the lower-casing function, every snapshot key is still there when its turn comes, so the pop never misses |
| ConfigKeys.ReinsertedIs | src/nexus_client_sdk/nexus/configurations/configuration_model.py:250-256 | after n turns the dictionary holds what is left of the snapshot and, over it, the lower-cased items done so far |
| ConfigKeys.LastCollidingWins | src/nexus_client_sdk/nexus/configurations/configuration_model.py:254-256 | of items that collide in lower case the last one wins |
| ConfigKeys.PutInPlace | src/nexus_client_sdk/nexus/configurations/configuration_model.py:254-256 | assigning to a key that is there leaves its item in place |
| ConfigKeys.NormalizedIsLowerTree | src/nexus_client_sdk/nexus/configurations/configuration_model.py:249-258 | the loop with its recursion ends as the lower-cased map at every level, the last colliding entry winning with all below it |
| ConfigKeys.LosesAnItem | src/nexus_client_sdk/nexus/configurations/configuration_model.py:250-256 | the dictionary that shows it fail for any other function: the second pop takes away the item that the first turn put under that key |
| ConfigKeys.ExactIffIdempotent | src/nexus_client_sdk/nexus/configurations/configuration_model.py:249-258 | over nested dictionaries the loop computes the recursive lower-cased map exactly when lower-casing is idempotent |
| ConfigKeys.Rotates | src/nexus_client_sdk/nexus/configurations/configuration_model.py:250-256 | on keys already in lower case the loop only rotates the items, back to where they were |
| ConfigKeys.NormalizedTwice | src/nexus_client_sdk/nexus/configurations/configuration_model.py:249-258 | normalising is idempotent on nested dictionaries, item order included |
| ConfigDicts.ConfigDict.Normalize | src/nexus_client_sdk/nexus/configurations/configuration_model.py:249-258 | the in-place loop leaves the recursive lower-cased map of the old contents, in the order of the pure loop, and touches only the dictionary's own objects |

## Left out

- Identity of cache keys: keys are taken to be injective (`cache_key` uses the object's address), and an actor is its key.
- Protocol: a call's inputs are required to be pairwise distinct, because tasks would otherwise be overwritten; the exact
  condition is `InputCaches.OneTaskPerKey`, and what happens after such an overwrite is not modelled.
- Run arguments: one `kwargs` for the whole run, and a failure's `__cause__` is kept but its message is not.
- Exceptions raised by an input's `_context_open` or `_context_close`; that either suspends is modelled.
- Task cancellation, real time between polls, and the metrics decorators around `process`.
- User code: `_read_input` and `_process_input` are functions of the object and its arguments that return or raise.
- Error lists: an entry of `errors` that cannot be located makes `isinstance` raise; entries are taken to be located.
- Commit: the random draws are parameters, shared by both phases; no statement of that module depends on them.
- Scheduling: the other calls of the scheduler client are single delegations under the same policy.
- Activation: a bootstrap failure's class and its HTTP details are independent; exceptions that are false in a boolean
  context, signals, logging and metrics; what happens after the submission is one step that succeeds or raises; saving a
  result is one step, its back-off included; leaving the bootstrapper's context is taken not to raise.
- Trees: classes are known by name, so two classes of one name are one; a cyclic constructor graph, on which the code
  recurses for ever, is excluded by the rank.
- TreePrinter: names are plain identifiers in both cases; the order of printed lines, sorted or not, is left open.
- RemoteRuns: runs without metadata, how content is encoded and compressed, and parent requests; a payload iterator that raises by itself.
- ConfigKeys: `str.lower` is a parameter; only the results about contents take it to be idempotent. Keys are strings.
- ConfigDicts: no two places of a configuration hold the same dictionary object.
- The cgo clients and their models, payload fetching, storage, serialisation and compression, telemetry recording,
  dependency injection, configuration loading, distributed and directed-graph algorithms: input/output, library calls
  or single-branch code that would only add easy members.
