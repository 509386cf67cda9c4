# Model of the delegated multi-agent platform

The system plans a user request as a graph of tasks, runs that graph through agents, hands each
agent a token whose scope is cut down to what both the user and the agent may do, limits what
reaches the agents, and keeps an audit trail. This project models the parts of it that carry state
or arithmetic and proves what they keep over whole runs.

- **Plans.** `DependencyGraph` is the theory: layers as "ready once everything before is done",
  longest chains, cycles, optimality. `Planner` is validation and the rule-based plan.
  `Expansion`, `Schedule`, `Growth`, `DispatchSteps` and `Dispatcher` are the dispatcher, whose
  plan grows while it runs: each finished web search adds fetch tasks, and the tasks waiting on
  the search wait on its fetches too. `GatewayPlan` is the gateway's separate executor,
  `AsciiFlow` the layering behind the printed flow diagram, and `Agreement` puts the three side
  by side. `Outcomes` reads a dispatcher run task by task. An agent call is an arbitrary function of round and request; tasks of one layer are a
  set and are taken in any order.
- **Scopes.** `Glob` is `fnmatch`; `Scope` is the identity provider's intersection, the token's
  space-separated scope and the agent's check; `Exchange` runs from the requested scope string,
  through its parser, to what an agent accepts; `GlobMarks` counts the brackets and spaces that
  decide what a granted string can reach, `Coverage` says which words cover anything, and
  `FrontDoor` which scopes the parser accepts for each action.
- **Limiters.** `CircuitBreaker`, `TokenBucket`, and `KeyStore` (fixed-window counter, proof
  replay marker, one-shot marker) over a clock that is a parameter.
- **Data structures.** `Sse` (frame printer and incremental reader), `SpanForest`, `AuditWriter`
  and `JwksCache`.

Where code and comments differ, the model follows the code:

- `_scope_matches` says `*` covers one segment; in the code `*` crosses `:` and `/`.
- The diagram's comment says its layers match the execution order. That holds after dropping the
  document tasks, which are never invoked, and the layers left empty (`Dispatcher.DispatcherNode`).
- `validate_dag` says a dependency must be declared before its task, but accepts a task that
  depends on itself (`Planner.SelfDependencyPassesValidation`). This is the only way a validated
  plan fails to be schedulable (`Planner.ValidPlanSchedulableIff`).
- `stop()` drains the queue, but not the events the loop had already taken into its local buffer.
  How many those are is `AuditWriter.HeldIs`. Some run loses an event exactly when the batch size is
  above one and the flush interval positive (`AuditWriter.NothingHeldIff`,
  `AuditWriter.BatchWriter.RunThenStop`).
- The token bucket's key expires after 3600 s, and an expired key starts full. Capacity plus refill
  bounds the grants of every run on one clock exactly when 3600 s refill a whole bucket, as with the
  shipped capacity 100 and rate 10, or nothing can be granted (`TokenBucket.OneClockBoundIff`). When
  callers' clocks may jump, the condition is another one: the server never sees 3600 s without a
  request, or nothing can be granted (`TokenBucket.JumpingClockBoundIff`).
- The shipped replay window (marker kept 120 s, skew 60 s) misses `ttl > 2 * skew` by one second;
  `KeyStore.ShippedReplayCorner` is the one schedule on which a proof passes twice.
- `intersect` grants the requested resource as a literal, and the agent reads it as a pattern. Call
  a policy tight when only its stars match the characters `*` and `?`; star-only policies are. For
  tight policies, what an agent accepts under the token stays within the policies exactly when the
  resource has no white space and no character class, or no word of the token can match a request
  (`Exchange.AttenuatesIff`, `Coverage.UsableIff`). The resource patterns of `parse_scope` admit
  both; `Exchange.ContactRequestLeaks` follows a request for contacts whose resource is
  `department:x *`. Actions with a colon or a pattern character do not get past `parse_scope`
  (`Exchange.ParsedIsPlain`). On the policy side, a policy contains what it grants exactly when it is
  tight or grants no bracket-free request (`Glob.PolicyContainsIff`).

## Model

| member | source | states |
|---|---|---|
| `DependencyGraph.LayerIsLongestChain` | agents/doc_assistant/nodes/dispatcher.py:22-38 | layer k is exactly the tasks of the schedulable part whose longest dependency chain has k edges |
| `DependencyGraph.SchedulableIffDeclaredAndAcyclic` | agents/doc_assistant/nodes/dispatcher.py:31-33 | layering succeeds if and only if every dependency is declared and no task reaches itself |
| `DependencyGraph.CoreIffNotBlocked` | agents/doc_assistant/nodes/dispatcher.py:27-33 | a task is ever layered if and only if it reaches no cycle and no undeclared dependency |
| `DependencyGraph.LayersPartitionCore` | agents/doc_assistant/nodes/dispatcher.py:34-38 | every schedulable task is in exactly one layer, nothing else is in any |
| `DependencyGraph.LayersAreValid` | agents/doc_assistant/nodes/dispatcher.py:28-31 | the layers are a valid layering: dependencies in strictly earlier layers |
| `DependencyGraph.GreedyIsOptimal` | agents/doc_assistant/nodes/dispatcher.py:22-38 | no valid layering of the plan has fewer layers |
| `DependencyGraph.GreedyIsEarliest` | agents/doc_assistant/nodes/dispatcher.py:22-38 | no valid layering puts any task earlier than the greedy one does |
| `DispatchSteps.TopoLayers` | agents/doc_assistant/nodes/dispatcher.py:22-38 | returns exactly for schedulable plans, and then the layers characterised above; otherwise the cycle error |
| `AsciiFlow.TopoLayers` | agents/doc_assistant/nodes/_ascii_flow.py:23-46 | total: the dispatcher's layers, followed by one row with the unschedulable rest if there is any |
| `AsciiFlow.EachTaskDrawnOnce` | agents/doc_assistant/nodes/_ascii_flow.py:36-46 | every task of any plan, cyclic or not, is in exactly one row |
| `Expansion.NextIdSeed` | agents/doc_assistant/nodes/dispatcher.py:100-106 | the loop computes the seed described by the next two rows |
| `Expansion.SeedIsLeast` | agents/doc_assistant/nodes/dispatcher.py:100-106 | the seed is one, or one past the number of some id |
| `Expansion.IdNumberMeaning` | agents/doc_assistant/nodes/dispatcher.py:102-105 | leading t's do not count, printed numbers are read back, and any other character makes an id count as none |
| `Expansion.GeneratedIdsFresh` | agents/doc_assistant/nodes/dispatcher.py:100-106 | for arbitrary existing ids, numbered ids from the seed on are new and pairwise different |
| `Expansion.BuildFetchTasks` | agents/doc_assistant/nodes/dispatcher.py:69-97 | one numbered fetch per distinct safe URL, in hit order, at most top_k of them |
| `Expansion.DistinctHitsMeaning` | agents/doc_assistant/nodes/dispatcher.py:78-86 | the URLs considered are exactly the safe non-empty ones among the hits, each once |
| `Expansion.PickedMeaning` | agents/doc_assistant/nodes/dispatcher.py:78-96 | the URLs picked are safe hits in the order they first come, at most top_k, and fewer only when there are no more |
| `Expansion.SpliceInto` | agents/doc_assistant/nodes/dispatcher.py:203-213 | the patch loop adds the new ids to exactly the undispatched dependents of the search and appends the new tasks |
| `Expansion.SpliceExpandsGraph` | agents/doc_assistant/nodes/dispatcher.py:203-213 | on the graph: new tasks depend on the search alone, dependents may gain the new ids, nothing else changes |
| `Expansion.ExpansionKeepsLayers` | agents/doc_assistant/nodes/dispatcher.py:181-213 | expanding a search of layer m leaves layers 0 to m as they were |
| `Expansion.ExpansionSchedulable` | agents/doc_assistant/nodes/dispatcher.py:181-213 | a schedulable plan stays schedulable, so no later round can meet a cycle |
| `Growth.DependentsOfLayerWait` | agents/doc_assistant/nodes/dispatcher.py:204-209 | when a search of the current layer expands, none of its dependents is dispatched yet |
| `Growth.ExpandKeepsLineage` | agents/doc_assistant/nodes/dispatcher.py:181-213 | one expansion keeps: unique ids, submitted tasks as a prefix with their deps as a prefix, every other task a fetch its search asked for, dependents waiting on all fetches |
| `DispatchSteps.NextLayer` | agents/doc_assistant/nodes/dispatcher.py:119-137 | the scan marks only documents and stops at the first layer with work left, taking all its non-document tasks |
| `DispatchSteps.InvokeWaveTasks` | agents/doc_assistant/nodes/dispatcher.py:139-179 | answers are recorded for exactly the wave; a raised answer is kept as an error record for a spawned fetch and is fatal for any other task |
| `DispatchSteps.ExpandTask` | agents/doc_assistant/nodes/dispatcher.py:181-213 | all early exits of the expansion (not a search, top_k not positive, no hits, no usable hit) agree with splicing the wanted fetches |
| `DispatchSteps.ExpandAllKeepsRunning` | agents/doc_assistant/nodes/dispatcher.py:181-213 | expanding the searches of a wave in any order keeps the run's invariant and its layers so far |
| `Dispatcher.DispatcherNode` | agents/doc_assistant/nodes/dispatcher.py:109-219 | terminates; the cycle error occurs if and only if the submitted plan is unschedulable; a finished run invoked, in order, exactly the diagram's rows of the final plan without documents, with results for exactly those tasks and the lineage of `Growth`; an aborted run stopped in the wave of a fatal task |
| `Dispatcher.EachTaskInvokedOnce` | agents/doc_assistant/nodes/dispatcher.py:119-179 | in a finished run every non-document task is in exactly one wave, documents in none |
| `Dispatcher.DepsInvokedEarlier` | agents/doc_assistant/nodes/dispatcher.py:119-154 | a task's non-document dependencies were invoked in strictly earlier waves |
| `Dispatcher.WaitsForEveryFetch` | agents/doc_assistant/nodes/dispatcher.py:204-213 | a submitted task that listed a search runs strictly after every fetch that search spawned |
| `Outcomes.SpawnedTask` | agents/doc_assistant/nodes/dispatcher.py:87-95 | field by field, every added task is a best-effort web fetch that depends on one submitted search and carries its query |
| `Outcomes.FailureIsSubmitted` | agents/doc_assistant/nodes/dispatcher.py:161-177 | a run fails only through a submitted task that is not best-effort and whose call in the last round raised |
| `Outcomes.FinishedTask` | agents/doc_assistant/nodes/dispatcher.py:119-179 | in a finished run documents are never asked, every other task is asked in exactly one round with its own fields, its answer is kept as it came, and a failure, possible for best-effort tasks only, as its own resource and the first 200 characters of the error |
| `Outcomes.FetchesOfSearch` | agents/doc_assistant/nodes/dispatcher.py:181-213 | the fetches of a finished search are for the distinct safe hits of its answer in order, as many as its own or the default limit allows |
| `Agreement.AllThreeAgree` | agents/doc_assistant/nodes/_ascii_flow.py:23-46 | for every plan, grown and with documents: the gateway's waves for the finished plan are the diagram's first rows, whatever fails, and without documents and empty rows the dispatcher's first waves; all of them when no task fails |
| `Agreement.SubmittedPlanAgrees` | agents/doc_assistant/nodes/_ascii_flow.py:23-46 | a plan without searches does not grow, so this holds of the submitted plan; without documents the three sequences are equal |
| `Planner.ValidateDag` | agents/doc_assistant/nodes/planner.py:44-61 | accepts exactly the plans whose every task passes its checks against the ids before it, and otherwise reports the first failing task with the first check that fails |
| `Planner.TaskErrorMeaning` | agents/doc_assistant/nodes/planner.py:46-61 | a task is accepted if and only if its id is new, its agent and action are known, its resource is well formed and its dependencies come before it or are itself; the first check that fails is reported |
| `Planner.ValidPlanSchedulableIff` | agents/doc_assistant/nodes/planner.py:50-61 | a validated plan is schedulable if and only if no task lists itself |
| `Planner.SelfDependencyPassesValidation` | agents/doc_assistant/nodes/planner.py:50-61 | a self-dependent task is accepted and never schedulable |
| `Planner.DataSourceTasks` | agents/doc_assistant/nodes/planner.py:91-156 | one data task per usable selection, in order, numbered consecutively from t1, without dependencies |
| `Planner.SourceTaskMeaning` | agents/doc_assistant/nodes/planner.py:98-127 | a base with a table makes a table read, a base alone a whole-base read, a document a document read, with these fields; anything else makes none |
| `Planner.RulePlan` | agents/doc_assistant/nodes/planner.py:178-236 | consecutively numbered independent source tasks in the stated order of precedence, never none, then one document task that depends on all of them |
| `Planner.GatheredWorkMeaning` | agents/doc_assistant/nodes/planner.py:184-227 | selections first, else the configured table when data is mentioned; the team when mentioned and configured; a search when research is mentioned or nothing else was found |
| `Planner.RulePlanValidIff` | agents/doc_assistant/nodes/planner.py:178-236 | a rule plan passes validation if and only if the resources gathered from selections and hints do, and is then schedulable |
| `GatewayPlan.Plan.constructor` | infra/gateway/routes/plan.py:48-54 | a stored plan starts running with every task pending |
| `GatewayPlan.Plan.RunWave` | infra/gateway/routes/plan.py:109-126 | exactly the ready tasks leave `remaining` and get the status of their outcome, whatever their order; failure if and only if some outcome is an exception |
| `GatewayPlan.Plan.Execute` | infra/gateway/routes/plan.py:82-128 | terminates; its waves are the first layers of the plan, all of them when nothing fails; after a failure nothing later starts; the plan is completed if and only if every task is |
| `GatewayPlan.CompletesExactlyTheUnblocked` | infra/gateway/routes/plan.py:98-126 | without task failures, exactly the tasks that reach no cycle and no undeclared dependency complete |
| `GatewayPlan.StopsAtFirstFailure` | infra/gateway/routes/plan.py:98-128 | a failed task is in the last wave, and the tasks still pending are exactly those beyond it |
| `GatewayPlan.StartedTaskStatus` | infra/gateway/routes/plan.py:115-126 | a started task ends failed with its exception's message, or completed with its result |
| `Glob.PatternConcat` | infra/idp/token_exchange/intersect.py:4-8 | a pattern whose first part is bracket-free matches exactly the strings that split into matches of its two parts |
| `Glob.ClassMeaning` | infra/idp/token_exchange/intersect.py:8 | a class of plain characters matches one of them, and with `!` in front one other character |
| `Glob.RangeMeaning` | infra/idp/token_exchange/intersect.py:8 | a range matches what lies between its ends, `?` any one character, and an unclosed bracket itself |
| `Glob.ClosingBracketFirst` | infra/idp/token_exchange/intersect.py:8 | a closing bracket that comes first belongs to its class |
| `Glob.GlobTransitive` | infra/idp/token_exchange/intersect.py:4-8 | a string matched by a tight policy and then used as a class-free pattern matches nothing the policy does not |
| `Glob.PolicyContainsIff` | infra/idp/token_exchange/intersect.py:4-8 | every policy, classes included, contains all bracket-free strings it grants, read as patterns, if and only if no token but a star accepts `*` or `?`, or some token accepts nothing but `[` or nothing at all |
| `Glob.BracketFreeContainsIff` | infra/idp/token_exchange/intersect.py:4-8 | a bracket-free policy contains them if and only if it has no `?` |
| `GlobMarks.GrantedContainedIff` | agents/common/server.py:40-44 | a granted string, read as a pattern, stays within every tight policy that matches it if and only if it has no character class, or some class that accepts no character |
| `Coverage.UsableIff` | agents/common/server.py:34-36 | the scopes of a token cover some request with a colon-free action if and only if the tokens of one of them can be followed, one by one, through the stages of action, colon and resource |
| `Scope.Intersect` | infra/idp/token_exchange/intersect.py:11-22 | the loop returns the scope strings of the granted requests, in request order |
| `Scope.GrantedIff` | infra/idp/token_exchange/intersect.py:17-21 | a request is granted if and only if it was asked for and both callee and user policies match it |
| `Scope.GrantedInOrder` | infra/idp/token_exchange/intersect.py:16-22 | grants come in the order of the requests |
| `Scope.JoinSplit` | infra/idp/token_exchange/handler.py:157 | scopes joined with spaces and split on white space come back unchanged when none is empty or has white space |
| `Scope.SplitsAt` | agents/common/auth.py:53-57 | two words are separated by any of the listed blanks |
| `Scope.SingleScopeSurvivesIff` | agents/common/auth.py:53-57 | one scope survives the trip through the token if and only if it has no white space |
| `Scope.ExtractDenyReasons` | agents/common/server.py:22-37 | empty if and only if the intent is complete, a capability matches and a scope covers it; each reason if and only if its own condition fails |
| `Scope.ScopeCovers` | agents/common/server.py:40-44 | a scope with a plain action covers a colon-free action only if the actions are equal and the resource matches |
| `Scope.DelegationAttenuates` | agents/common/server.py:22-44 | for tight policies and any list of requests without white space and classes, whatever the agent accepts under the token the callee's and the user's policies and the agent's own capability match directly |
| `Exchange.ParsedIsPlain` | infra/idp/token_exchange/intent.py:5-20 | what the parser admits: a listed action without separator, pattern character or white space, and a non-empty resource without outer white space |
| `Exchange.ParsesBack` | infra/idp/token_exchange/intent.py:5-20 | a listed action and a fitting stripped resource come back from the scope string they form; the next rows say which resources fit |
| `FrontDoor.ContactScopes` | infra/idp/config.py:57 | accepted if and only if the stripped resource is `department:` and one line, and then parsed unchanged |
| `FrontDoor.CalendarScopes` | infra/idp/config.py:58 | accepted if and only if the stripped resource is `calendar:` and one line, and then parsed unchanged |
| `FrontDoor.DocumentScopes` | infra/idp/config.py:59 | accepted if and only if the stripped resource is `document_id:` and one line, and then parsed unchanged |
| `FrontDoor.WriteScopes` | infra/idp/config.py:60 | accepted if and only if the stripped resource is `doc_token:` and one line, and then parsed unchanged |
| `FrontDoor.BaseScopes` | infra/idp/config.py:56 | accepted if and only if the stripped resource is `app_token:` and a name without `/`, and then parsed unchanged |
| `FrontDoor.TableScopes` | infra/idp/config.py:55 | accepted if and only if the stripped resource is `app_token:A/table:T` with A and T free of `/`, and A present unless T is a star, and then parsed unchanged |
| `FrontDoor.SearchScopes` | infra/idp/config.py:61 | accepted if and only if the stripped resource is a star or an http or https address, and then parsed unchanged |
| `FrontDoor.FetchScopes` | infra/idp/config.py:62 | accepted if and only if the stripped resource is an https address, and then parsed unchanged |
| `FrontDoor.AgentScopes` | infra/idp/config.py:63 | accepted if and only if the stripped resource is `agent:` and lower-case letters or underscores, and then parsed unchanged |
| `FrontDoor.OuterSpaceIgnored` | infra/idp/token_exchange/intent.py:8-10 | white space around the action and around the resource does not matter |
| `FrontDoor.WriteTaskParses` | agents/doc_assistant/nodes/planner.py:229-235 | the write task of every rule plan can be asked for |
| `FrontDoor.SourceTaskParses` | agents/doc_assistant/nodes/planner.py:106-126 | so can every task made from a selection of plain ids |
| `Exchange.AttenuatesIff` | infra/idp/token_exchange/handler.py:90-157 | for every scope the parser admits, and all tight policies: the agent accepts only what both policies match, if and only if the resource has no white space and no class, or no word of the token can match a request |
| `Exchange.BracketFreeAttenuatesIff` | infra/idp/token_exchange/handler.py:90-157 | for a resource without `[`, that holds if and only if the resource has no white space |
| `Exchange.ContactRequestLeaks` | infra/idp/config.py:57 | the request `feishu.contact.read:department:x *` parses, and under its token an agent accepts reading calendars although the user's tight policy does not match that |
| `CircuitBreaker.UpstreamBreaker.BeforeCall` | infra/gateway/routing/circuit_breaker.py:41-55 | admission and next state in every state, with the probe budget refilled when the open period is over |
| `CircuitBreaker.UpstreamBreaker.OnSuccess` | infra/gateway/routing/circuit_breaker.py:57-62 | closes from any state and forgets the failures, nothing else |
| `CircuitBreaker.UpstreamBreaker.OnFailure` | infra/gateway/routing/circuit_breaker.py:64-72 | counts, and opens from half-open or at the threshold, restarting the open period |
| `CircuitBreaker.StateFromReports` | infra/gateway/routing/circuit_breaker.py:57-72 | for every threshold, the failure count is the length of the trailing run of failures, and the breaker is closed if and only if that is below the threshold, or below one for a smaller threshold |
| `CircuitBreaker.ReportsDecide` | infra/gateway/routing/circuit_breaker.py:57-72 | histories with the same reports agree on the count and on closed or not, wherever their calls fall and whatever their times |
| `CircuitBreaker.HealthyAdmitsAll` | infra/gateway/routing/circuit_breaker.py:41-55 | while the trailing failures are below the threshold every call passes and changes nothing |
| `CircuitBreaker.FailureOpens` | infra/gateway/routing/circuit_breaker.py:64-69 | a failure at the threshold opens the breaker at its own time, also when it was open |
| `CircuitBreaker.OpenThenProbes` | infra/gateway/routing/circuit_breaker.py:44-55 | after it, calls are refused until the open period is over, and of those that come then exactly the probes pass |
| `CircuitBreaker.AdmissionBound` | infra/gateway/routing/circuit_breaker.py:41-72 | over a stretch that starts not closed and sees no success, at most probes * (whole open periods + 1) calls pass, however late failures interleave |
| `CircuitBreaker.ReachableAdmissionBound` | infra/gateway/routing/circuit_breaker.py:41-72 | the same bound after any history that left the breaker not closed |
| `CircuitBreaker.BoundReached` | infra/gateway/routing/circuit_breaker.py:41-72 | for every configuration and every number of open periods, some history and some calls reach that bound |
| `CircuitBreaker.ExhaustedHalfOpenIsStuck` | infra/gateway/routing/circuit_breaker.py:52-55 | half-open with no probe left refuses every call at any later time until some report arrives |
| `CircuitBreaker.ExhaustedIsReachable` | infra/gateway/routing/circuit_breaker.py:41-72 | every configuration reaches that state |
| `TokenBucket.BucketKey.Evaluate` | infra/gateway/middleware/rate_limit.py:15-39 | the script's reply, stored level and renewed expiry, an expired key counting as absent |
| `TokenBucket.WindowBound` | infra/gateway/middleware/rate_limit.py:15-39 | from any call up to a granted one at most capacity + refill * elapsed calls are granted, as long as the key does not expire in between; the callers' clock may jump |
| `TokenBucket.JumpingClockBoundIff` | infra/gateway/middleware/rate_limit.py:15-39 | over all runs whose pauses on the server's clock are at most d, the bound holds if and only if d is below 3600 s or the capacity below one |
| `TokenBucket.OneClockBoundIff` | infra/gateway/middleware/rate_limit.py:15-39 | on one clock that does not go back, the bound holds of every run, expiry included, if and only if 3600 s refill a whole bucket or the capacity is below one |
| `TokenBucket.LevelStaysInRange` | infra/gateway/middleware/rate_limit.py:26-38 | with callers' clocks that do not go back the level stays between 0 and the capacity, whenever the key expires |
| `TokenBucket.SpacedNeverRefusedIff` | infra/gateway/middleware/rate_limit.py:26-33 | callers who leave time for one token between calls are never refused, whenever the key expires, if and only if the capacity is at least one |
| `TokenBucket.ExpiryUnobservableIff` | infra/gateway/middleware/rate_limit.py:31-37 | dropping the key after 3600 s never changes the level seen if and only if 3600 s refill a whole bucket |
| `TokenBucket.ExpiryKeepsGrantsIff` | infra/gateway/middleware/rate_limit.py:31-37 | on one clock, every run is granted as much as with an everlasting key, if and only if 3600 s refill a whole bucket or the capacity is below one |
| `TokenBucket.RefusalsLeaveNoTraceIff` | infra/gateway/middleware/rate_limit.py:26-38 | on one clock, leaving the refused requests out of any run gets all others granted still and leaves the same level to later ones, if and only if 3600 s refill a whole bucket |
| `KeyStore.Store.SetNxWithTtl` | infra/idp/storage/redis.py:30-33 | sets exactly when no live entry exists, and otherwise changes nothing |
| `KeyStore.Store.IncrWithWindow` | infra/idp/storage/redis.py:80-87 | counts within the live window or starts one; an existing expiry is kept; other keys untouched |
| `KeyStore.Store.VerifyDpopJti` | infra/idp/dpop/validator.py:121-128 | a proof passes if and only if its time is within the skew and its marker is not live; only then is the marker set |
| `KeyStore.Store.ConsumeOneShot` | infra/gateway/authz/one_shot.py:9-16 | consumes exactly when not marked, for at least one second and up to the token's expiry |
| `KeyStore.SameKeyApart` | infra/idp/storage/redis.py:30-33 | over any interleaving, two accepted marks of one key are at least the first one's ttl apart |
| `KeyStore.FirstUsePasses` | infra/idp/storage/redis.py:30-33 | the first mark of a key is accepted, whatever else was marked |
| `KeyStore.ReplayFreeIff` | infra/idp/dpop/validator.py:121-128 | no run accepts one proof twice if and only if ttl > 2 * skew |
| `KeyStore.ShippedReplayCorner` | infra/idp/config.py:83 | with ttl 120 and skew 60 a second acceptance needs a proof dated exactly 60 s ahead and used again 120 s later |
| `KeyStore.OneShotBeforeExpiry` | infra/gateway/authz/one_shot.py:9-16 | a one-shot token is consumed at most once before its expiry, and never twice in one second |
| `KeyStore.WindowBound` | infra/idp/storage/redis.py:80-87 | over any interval the allowed calls are at most limit - 1 left over plus limit for each window that can start in it |
| `KeyStore.TwiceTheLimit` | infra/idp/storage/redis.py:80-87 | a half-open interval of one window length sees at most 2 * limit - 1 allowed calls |
| `KeyStore.BoundReached` | infra/idp/storage/redis.py:80-87 | from an unused key that bound is reached, for every limit and every window of at least two seconds |
| `Sse.EventGenerator` | infra/audit-api/main.py:255-274 | prints one connected frame, then one frame per wait until the client is gone |
| `Sse.ConnectedOnTheWire` | infra/audit-api/main.py:259 | the text of the first frame |
| `Sse.HeartbeatOnTheWire` | infra/audit-api/main.py:271 | the text of a heartbeat frame |
| `Sse.EventOnTheWire` | infra/audit-api/main.py:268 | the text of an audit event's frame |
| `Sse.StreamAuditEvents` | apps/web/lib/api.ts:219-235 | for every chunking, delivers what splitting the whole text once would, the unfinished last part excepted |
| `Sse.SplitResumes` | apps/web/lib/api.ts:224-226 | splitting may resume from the last part, also when the cut falls inside a separator |
| `Sse.PrintedIsDelivered` | apps/web/lib/api.ts:227-234 | on the server's frames the reader delivers exactly the parsable audit events, in order, and ignores the other frames |
| `Sse.PartialFrameWaits` | apps/web/lib/api.ts:225-226 | a proper prefix of a frame contains no complete part |
| `Sse.AnyCutDelivers` | apps/web/lib/api.ts:219-235 | a printed stream cut anywhere delivers the events of exactly the frames that arrived whole |
| `Sse.StreamDelivers` | infra/audit-api/main.py:255-274 | end to end, the reader of a whole stream delivers the parsable events dequeued before the disconnect, in order, and nothing else |
| `SpanForest.GetTrace` | infra/audit-api/queries.py:80-102 | the index and wiring loops produce the roots and child lists in order of first appearance, later rows overriding earlier ones |
| `SpanForest.ParentsMeaning` | infra/audit-api/queries.py:80-93 | the spans are the span ids of the rows, or event ids where there is none, each with the parent of its last row |
| `SpanForest.SiblingsInOrder` | infra/audit-api/queries.py:95-102 | roots, and the children of each span, come in the order of their first rows |
| `SpanForest.LevelIsLayer` | infra/audit-api/queries.py:95-102 | the spans n steps below the roots are distinct and are layer n of the parent relation |
| `SpanForest.ForestIsExact` | infra/audit-api/queries.py:95-102 | the forest lists a span at most once, and lists it if and only if its parent chain leaves the trace or ends at an empty parent |
| `SpanForest.ForestCompleteIff` | infra/audit-api/queries.py:95-102 | every span is reached if and only if no span is its own ancestor |
| `AuditWriter.BatchWriter.Enqueue` | infra/audit-api/writer.py:154-164 | accepts exactly below the queue bound; a refused event goes to the backup and leaves the queue alone |
| `AuditWriter.BatchWriter.Run` | infra/audit-api/writer.py:166-184 | at every turn flushed, buffered and queued events are the accepted ones in order; batches hold 1 to batch_size events, the buffer fewer; an elapsed interval leaves it empty |
| `AuditWriter.BatchWriter.Drain` | infra/audit-api/writer.py:186-194 | empties the queue into one flush, in order |
| `AuditWriter.BatchWriter.RunThenStop` | infra/audit-api/writer.py:144-152 | a stop at the queue wait loses one contiguous piece, of exactly the length the loop holds by `Held` |
| `AuditWriter.HeldIs` | infra/audit-api/writer.py:166-184 | that length is the number of events taken since the interval last ran out, modulo the batch size |
| `AuditWriter.NothingHeldIff` | infra/audit-api/writer.py:144-184 | no run loses anything at such a stop if and only if the batch size is at most one or the flush interval not positive |
| `AuditWriter.FlushedIsKept` | infra/audit-api/writer.py:196-216 | a flushed event is in a stored batch or in the backup whenever each failed flush could be backed up |
| `AuditWriter.StoredIff` | infra/audit-api/writer.py:196-206 | the store holds exactly the batches whose commit succeeded |
| `AuditWriter.BackedUpIff` | infra/audit-api/writer.py:161-216 | the backup holds exactly the batches whose commit or broadcast failed and the events that found the queue full, as far as it could be written |
| `JwksCache.Cache.Refresh` | infra/gateway/jwt_token/jwks_cache.py:56-78 | a failed refresh changes nothing; a successful one merges in published order and evicts from the old end |
| `JwksCache.Cache.Get` | infra/gateway/jwt_token/jwks_cache.py:34-50 | the lookup with its refresh on age and on a miss; a hit is touched, a miss leaves the refreshed contents |
| `JwksCache.DictMeaning` | infra/gateway/jwt_token/jwks_cache.py:62-68 | a document's keys are those of its entries with a key id, the last entry for each id |
| `JwksCache.DictInOrder` | infra/gateway/jwt_token/jwks_cache.py:62-68 | in the order in which the ids first come |
| `JwksCache.RefreshTracks` | infra/gateway/jwt_token/jwks_cache.py:69-75 | a refresh keeps the cache at the ten most recently touched key ids of its history, in that order, each with its latest key |
| `JwksCache.LookupTracks` | infra/gateway/jwt_token/jwks_cache.py:34-50 | so does a lookup, which answers if and only if the id is among those ten, with the key last published for it |
| `JwksCache.EveryRunTracks` | infra/gateway/jwt_token/jwks_cache.py:34-78 | after any sequence of refreshes and lookups on a new cache, it holds the ten key ids touched last, in that order, with their latest keys |
| `JwksCache.EveryRunAnswers` | infra/gateway/jwt_token/jwks_cache.py:34-50 | after any such sequence, a lookup answers exactly those ten ids, each with the key last published |
| `JwksCache.JustPublishedAnswers` | infra/gateway/jwt_token/jwks_cache.py:34-75 | after any run and a refresh with a document of at most ten ids, a lookup of a listed id answers the document's last key for it |
| `JwksCache.MissFindsPublished` | infra/gateway/jwt_token/jwks_cache.py:38-46 | a lookup of an id not cached answers what the document of its one refresh lists |
| `JwksCache.PublishedKeptIff` | infra/gateway/jwt_token/jwks_cache.py:69-74 | a just-published key stays if and only if it is among the last ten published; with at most ten, all stay |

## Left out

- Tokens, signatures, thumbprints and key decoding: claims arrive verified; a key is an opaque value.
- Policy decisions, the agent registry and upstream calls: an agent call or gateway task is an arbitrary outcome per round and task.
- HTTP, Redis networking, SQLite, logging, metrics and configuration loading; clocks are parameters.
- A cancellation that lands inside a flush instead of the queue wait.
- The language-model planner and the document task it may append; matching words in a prompt and reading environment defaults enter `Planner` as hints.
- `_safe_https` is an arbitrary predicate on URLs; ids with digits outside ASCII, and a `fetch_top_k` that is no number, are not modelled.
- Dispatcher.DispatcherNode: requires unique ids, which `validate_dag` ensures; with repeated ids the code keeps only the last task of each id in its lookup while the list keeps all.
- GatewayPlan.Plan.Execute: requires unique ids, which the gateway assumes of its callers without checking.
- Dispatcher tasks are values and layers are sets: aliasing between the task list and its lookup is not captured, and the order inside a layer is any order.
- GatewayPlan: result references and error messages are opaque; an outcome that is a base exception but no `Exception` counts as completed, as in the code.
- Text of the rendered flow diagram beyond its rows.
- Glob: character ranges written backwards and case folding on case-insensitive systems.
- The exchange's phases other than parsing, intersection and the scope claim; `verify_delegation` and `check_sod`.
- Scope.DelegationAttenuates: assumes tight policies, plain requested actions, colon-free actions in the agent's own capability, and resources without white space or classes; `Exchange.AttenuatesIff` is exact for the resource.
- Floating point: token levels and times are real numbers, so rounding in the script's number printing is not captured.
- KeyStore: the application's and the store's clocks are one integer clock; `sadd_member` reads and sets its expiry in two commands and is left out.
- The upstream client reports once per finished call; calls that end without any report are covered by `CircuitBreaker.ExhaustedHalfOpenIsStuck` only.
- Sse: event JSON is one opaque line in braces; byte decoding, aborts, the broadcaster's queues and filters are not modelled.
- SpanForest: spans are named by id instead of nested by reference; counts and timestamps of the trace are left out.
- AuditWriter.BatchWriter.Enqueue: the backup is a list of batches and a failed backup write is a flag; duplicate events the database ignores and partly applied inserts are not modelled.
- JwksCache: concurrent callers are serialised by the code's lock; a key that is no longer published stays until evicted, as in the code.
