# A verified model of the Lambda runtime interface emulator's protocols

The emulator stands between an invoker, a language runtime and its extensions. What is hard about it is not
any single function but the way threads meet: `/response` and `/error` callers race with a time-out, timers
expire runtimes that are being handed out, extensions and runtimes are suspended in the middle of a
transition, shutdown races with init. This project models those protocols in Dafny and proves what they keep
over every run.

Two forms are used.

* **Objects under a lock** (`RuntimePool`, `RecentCache`, `Gate`, `Runtime`, `Agent`, `AgentsMap`,
  `RegistrationService`, `Bucket`, `Throttler`, `ChunkIterator`, `BandwidthLimitingWriter`, `Server`,
  `StateGuard`, `Recording`, `ItemToWatch`, `ApplicationContext`) are classes. Their methods are proved
  against functions on values (a sequence of IDs, a pool value, a gate value); the theorems are about every
  sequence of calls of those functions.
* **Protocols between threads** (`RunningInvoke`, `InvokeRouter`, the monitor in `Gate`, the runs in
  `RuntimeStates`, `AgentInit`, `AgentInvoke`, `InvokeFlow`, `WholeInvoke`, `InvokeTimeouts`, `ReplyServer`, `ReplyHandover`,
  `AppLifecycle`) are step systems: a state, an
  event for each atomic action of each thread, a predicate saying when it can happen and a function giving
  its effect. A run is any sequence of enabled events from the initial state, so the theorems hold for every
  interleaving and any number of callers. Timers, deadlines, cancellations and the results of foreign calls
  are events or parameters that may come at any moment with any value.

| file | what it holds |
|---|---|
| `RunningInvoke.dfy`, `RunningInvokeSafety.dfy`, `RunningInvokeGuarantees.dfy` | one running invoke: steps, invariants, theorems |
| `RuntimePool.dfy`, `RecentCache.dfy`, `InvokeRouter.dfy`, `InvokeTimeouts.dfy` | the pool of runtimes, the timeout cache, the router on top of both, and the router with the running invokes |
| `Gate.dfy`, `RuntimeStates.dfy`, `Agents.dfy` | gates with their waiters, the runtime's ten states, agents, agent maps and registration |
| `AgentInit.dfy`, `AgentInitSafety.dfy`, `AgentInitGates.dfy`, `AgentInitGuarantees.dfy`, `AgentInvoke.dfy`, `InvokeFlow.dfy`, `WholeInvoke.dfy` | init with extensions, the agents' share of a series of invokes, init, restore and the runtime's share of it, and both shares together, on real gates |
| `TokenBucket.dfy`, `BandwidthLimiter.dfy` | the token bucket in 64-bit arithmetic, waiting for tokens, chunked writing |
| `ReplyServer.dfy`, `ReplyHandover.dfy`, `AppLifecycle.dfy` | reply once per reservation; handing a reply over; the application's lifecycle |
| `FilePoller.dfy`, `RuntimeRelease.dfy`, `TraceHeader.dfy`, `Text.dfy` | snapshot comparison and the text transformations |
| `Wrappers.dfy`, `Collections.dfy` | shared types and facts about collections |

## What turned out to be different from the expectation

Each of these is kept as the code has it, with a lemma that exhibits the behaviour and, where an expected
property fails, one that says exactly when it holds.

* An answer with a foreign invocation ID is consumed if its caller compares IDs before the invoke has
  recorded its own (`ForeignAnswerIsConsumed`, `CheckAdmits`).
* After a failed send to the runtime nothing is announced, and a caller that was already accepted waits for
  ever (`FailedSendStrandsCaller`, `WaitingCallersAreAnswered`); nor is the atomic closed, so that answers are
  accepted even after the invoker has been told (`PlainErrorReply`, `AnswersAfterFailedSend`,
  `LateErrorIsAccepted`).
* `SetCount` opens a gate without waking the threads parked at it (`LoweringTheCountStrands`,
  `StepKeepsWakeups`).
* `Clear` keeps a gate's count. An extension that is ready before the new count is set can be refused because
  of the count of the previous generation, and init then waits for ever (`StaleCountShutsOut`,
  `GateOpensExactlyWhen`).
* An invoke of a runtime that waits for a restore uses its release up on ending that wait
  (`SkippedRestoreHangs`, `CanCompleteExactlyWhenPrompt`).
* An extension that reports its exit, which cancels nothing, is still released and waited for, so that the
  invoke hangs and no later one completes (`ExitDuringInvokeHangs`, `NextInvokeCanCompleteExactlyWhen`).
* A reply written after an invoke has set its stream and before it has set the phase waits with the mutex held
  for a call that waits for the mutex (`EarlyReplyDeadlocks`, `HandedOverExactlyWhen`); and a call left over
  from a released reservation may receive another one's metrics (`LeftoverCallReceives`).
* A bucket whose capacity and refill together exceed 64 bits goes negative (`WrappingBucketGoesNegative`,
  `TokensInRangeExactlyWhen`). Its writer does not get its tokens in the time they take
  (`WaitBoundHoldsExactlyWhen`) and may wait for ever (`WrappingBucketNeverSuffices`).
* Negative rates whose product wraps to a positive refill are accepted, and the bound by the rate does not hold
  for them (`NegativeRateAccepted`, `StreamedBoundExactlyWhen`).
* The chunk iterator panics after the last chunk when length and chunk size together exceed 64 bits, and on a
  nil slice (`LargestChunkSizePanics`, `IteratesToTheEndExactlyWhen`, `ChunkedWrite`).
* A signal left over from an earlier tick costs one more wait than the missing tokens account for
  (`WaitBoundIsReached`, `Throttler.AwaitTokens`).
* A directory poll detects that something changed, but reports a rename as a removal only
  (`RenameIsOnlyARemoval`, `EveryChangeReportedExactlyWhen`), and a failed poll forgets what it knew
  (`FailedStatForgets`, `FailedListingForgets`).
* The runtime release is documented as limited to 128 bytes, but a longer User-Agent token is stored whole
  (`TooLongExactlyWhen`).
* Parsing a built trace header gives the components back exactly if none contains `;` or `=`
  (`RoundTripExactlyWhen`).

## Model

| member | source | states |
|---|---|---|
| `RunningInvokeSafety.StepKeepsClaims` | internal/lambda-managed-instances/invoke/running_invoke.go:289-345 | Every step of every thread keeps the claims on the atomic and the four channels: who holds the response state, who was accepted, what is in each channel and who may still be waiting. |
| `RunningInvokeSafety.OthersUndisturbed` | internal/lambda-managed-instances/invoke/running_invoke.go:289-345 | A step of one caller never disturbs the claim of another: only its own holder undoes a response. |
| `RunningInvokeSafety.AnnouncementKeepsClaims` | internal/lambda-managed-instances/invoke/running_invoke.go:178-179 | When main announces its result, no accepted caller has been answered yet, so each announcement finds its channel empty. |
| `RunningInvokeSafety.StepKeepsTrace` | internal/lambda-managed-instances/invoke/running_invoke.go:117-270 | Every step keeps the shape of the calls on the response sender in agreement with main's position and the body sender's. |
| `RunningInvokeSafety.StepKeepsEcho` | internal/lambda-managed-instances/invoke/running_invoke.go:297-317 | Every step keeps that a caller which passed the comparison after the ID was recorded echoed nothing or that ID. |
| `RunningInvokeSafety.StepKeepsConsumed` | internal/lambda-managed-instances/invoke/running_invoke.go:141-157 | Main only ever works on the request of the accepted caller. |
| `RunningInvokeSafety.StepKeepsReply` | internal/lambda-managed-instances/invoke/running_invoke.go:118-170 | Every step keeps the registration of a timed-out ID ahead of the plain error reply and, for an invoke that was sent, the closing of the atomic too. |
| `RunningInvokeSafety.StepKeepsClosed` | internal/lambda-managed-instances/invoke/running_invoke.go:118-170 | Every step keeps that the atomic says an error won if and only if an error caller swapped it or main stored it, which it does not after a failed send. |
| `RunningInvokeGuarantees.RunKeepsInv` | internal/lambda-managed-instances/invoke/running_invoke.go:101-350 | All of these hold after every run. |
| `RunningInvokeGuarantees.AtMostOneAnswerEnters` | internal/lambda-managed-instances/invoke/running_invoke.go:289-327 | In every run at most one response and at most one error ever enter their channels, and the two sends never block. |
| `RunningInvokeGuarantees.GotErrorIsAbsorbing` | internal/lambda-managed-instances/invoke/running_invoke.go:146-160 | Once the atomic says that an error won, it says so for ever. |
| `RunningInvokeGuarantees.Agreement` | internal/lambda-managed-instances/invoke/running_invoke.go:136-181 | Main's result, the accepted response caller's result and the error the accepted error caller reads are the same; main never blocks while announcing. |
| `RunningInvokeGuarantees.WaitingCallersAreAnswered` | internal/lambda-managed-instances/invoke/running_invoke.go:118-181 | Once main has returned, a waiting caller can go on exactly when the invoke had reached the runtime. |
| `RunningInvokeGuarantees.UnsentLeavesCallersWaiting` | internal/lambda-managed-instances/invoke/running_invoke.go:118-131 | After a failed send an accepted caller waits in every continuation. |
| `RunningInvokeGuarantees.CallersTerminate` | internal/lambda-managed-instances/invoke/running_invoke.go:289-345 | A caller is answered after at most five actions of its own, and nobody else moves it. |
| `RunningInvokeGuarantees.MainBlocksOnlyForOthers` | internal/lambda-managed-instances/invoke/running_invoke.go:101-243 | Main can always move, except where it waits for an answer, a cancellation or a body sender that can itself move. |
| `RunningInvokeGuarantees.SenderTrace` | internal/lambda-managed-instances/invoke/running_invoke.go:101-270 | When main returns, the sender was called in one of the four shapes and the last call reports exactly main's result; trailers never precede the body sender's return. |
| `RunningInvokeGuarantees.PlainErrorReply` | internal/lambda-managed-instances/invoke/running_invoke.go:118-170 | After a plain error reply the atomic is closed if and only if the invoke had been sent or an error caller had swapped it; and the ID is in the timeout cache, registered once and before the reply, exactly when that error is a time-out. |
| `RunningInvokeGuarantees.AnswersAfterFailedSend` | internal/lambda-managed-instances/invoke/running_invoke.go:118-131 | After the reply to a failed send a response is still accepted exactly if no answer was or is being checked, an error exactly if no error was. |
| `RunningInvokeGuarantees.FailedSendStrandsCaller` | internal/lambda-managed-instances/invoke/running_invoke.go:118-131 | A run of nine steps in which the runtime answers early, the send fails and the caller waits, in every continuation of it. |
| `RunningInvokeGuarantees.LateErrorIsAccepted` | internal/lambda-managed-instances/invoke/running_invoke.go:118-131 | The same run, with the invoker told, goes on to accept an error. |
| `RunningInvokeGuarantees.ErrorAcknowledgedMeansReported` | internal/lambda-managed-instances/invoke/running_invoke.go:327-344 | A runtime told that its error was sent shares that error's type with what the invoker was told. |
| `RunningInvokeGuarantees.ConsumedAnswerMatches` | internal/lambda-managed-instances/invoke/running_invoke.go:297-317 | An accepted answer whose caller compared IDs after the recording echoed no ID or the recorded one. |
| `RunningInvokeGuarantees.CheckAdmits` | internal/lambda-managed-instances/invoke/running_invoke.go:297-317 | The comparison lets an echo through if and only if it is empty, right, or compared before the ID was recorded. |
| `RunningInvokeGuarantees.ForeignAnswerComparedTooEarly` | internal/lambda-managed-instances/invoke/running_invoke.go:297-317 | An accepted foreign answer was compared before the ID was recorded. |
| `RunningInvokeGuarantees.ForeignAnswerIsConsumed` | internal/lambda-managed-instances/invoke/running_invoke.go:104-150 | A run in which main records one ID and then consumes an answer that echoes another. |
| `RuntimePool.RuntimePool.Add` | internal/lambda-managed-instances/invoke/runtime_pool.go:35-45 | Appends to the idle runtimes, or refuses when idle and reserved ones reach the size. |
| `RuntimePool.RuntimePool.Reserve` | internal/lambda-managed-instances/invoke/runtime_pool.go:47-71 | Moves the oldest idle runtime to the ID, or names the reason why not and changes nothing. |
| `RuntimePool.RuntimePool.Acquire` | internal/lambda-managed-instances/invoke/runtime_pool.go:73-90 | Hands out the reserved runtime, else the oldest idle one, else none. |
| `RuntimePool.RuntimePool.DequeueIdle` | internal/lambda-managed-instances/invoke/runtime_pool.go:92-100 | Takes the oldest idle runtime. |
| `RuntimePool.RuntimePool.ExpireReservation` | internal/lambda-managed-instances/invoke/runtime_pool.go:102-114 | Puts the reserved runtime back at the end, and does nothing for an ID without reservation. |
| `RuntimePool.StepConserves` | internal/lambda-managed-instances/invoke/runtime_pool.go:35-114 | Each operation conserves the runtimes held and handed out. |
| `RuntimePool.Conservation` | internal/lambda-managed-instances/invoke/runtime_pool.go:35-114 | After every sequence of operations, with expiries late or stale, idle, reserved and handed-out runtimes are a permutation of those added. |
| `RuntimePool.Bounded` | internal/lambda-managed-instances/invoke/runtime_pool.go:39-41 | Idle and reserved runtimes never exceed the size. |
| `RuntimePool.NoRuntimeTwice` | internal/lambda-managed-instances/invoke/runtime_pool.go:47-114 | Of distinct runtimes none is handed out twice, none is held twice, and none handed out is still held. |
| `RuntimePool.FirstComeFirstServed` | internal/lambda-managed-instances/invoke/runtime_pool.go:73-100 | Without reservations the runtimes handed out followed by the idle ones are the added ones in order. |
| `RuntimePool.ReservationIsHonoured` | internal/lambda-managed-instances/invoke/runtime_pool.go:47-90 | An invoke gets exactly the runtime reserved for it, whatever happened to other IDs meanwhile. |
| `RecentCache.RecentCache.Register` | internal/lambda-managed-instances/invoke/timeout/timeout_cache.go:29-48 | The map and the linked list stay in step, and the IDs become the sequence with this ID moved or added at the back and the oldest one evicted if it was full. |
| `RecentCache.RecentCache.Consume` | internal/lambda-managed-instances/invoke/timeout/timeout_cache.go:50-55 | Answers whether the ID is there and removes it. |
| `RecentCache.RecentCache.TryDelete` | internal/lambda-managed-instances/invoke/timeout/timeout_cache.go:57-65 | Removes the ID from the map and the list together. |
| `RecentCache.RecentCache.EvictOldest` | internal/lambda-managed-instances/invoke/timeout/timeout_cache.go:39-44 | Removes exactly the least recently registered ID. |
| `RecentCache.IndexedIsDistinct` | internal/lambda-managed-instances/invoke/timeout/timeout_cache.go:16-27 | The map and the list index the same IDs, once each. |
| `RecentCache.MoveKeepsIndexed` | internal/lambda-managed-instances/invoke/timeout/timeout_cache.go:33-36 | Moving an element to the back keeps the two indices in step. |
| `RecentCache.StepKeepsWellformed` | internal/lambda-managed-instances/invoke/timeout/timeout_cache.go:29-65 | At most 1000 distinct IDs, after every operation. |
| `RecentCache.RecentlyRegisteredIsThere` | internal/lambda-managed-instances/invoke/timeout/timeout_cache.go:29-55 | An ID registered, then fewer than 1000 registrations and no consumption of it: it is still there. |
| `RecentCache.ThousandOthersEvict` | internal/lambda-managed-instances/invoke/timeout/timeout_cache.go:39-48 | The bound is tight: 1000 other IDs evict it from any cache. |
| `RecentCache.LastRegisteredAreLast` | internal/lambda-managed-instances/invoke/timeout/timeout_cache.go:29-48 | Distinct registrations end up at the back in their order. |
| `RecentCache.LedgerBalances` | internal/lambda-managed-instances/invoke/timeout/timeout_cache.go:29-65 | Every ID that entered is still there, was consumed once or was evicted once. |
| `RecentCache.ExactlyOneLateAnswer` | internal/lambda-managed-instances/invoke/timeout/timeout_cache.go:50-65 | An ID registered once and not evicted is consumed by exactly one late answer, or still waits. |
| `InvokeRouter.StepKeepsRouting` | internal/lambda-managed-instances/invoke/invoke_router.go:101-128 | Every step keeps the routing map equal to the in-flight invokes, one per ID. |
| `InvokeRouter.StepKeepsRuntimes` | internal/lambda-managed-instances/invoke/invoke_router.go:117-141 | Every step keeps the pool's conservation, and each invoke's runtime its own. |
| `InvokeRouter.StepKeepsLate` | internal/lambda-managed-instances/invoke/invoke_router.go:143-172 | Every step keeps a timed-out ID in the cache until it is evicted or consumed. |
| `InvokeRouter.OneInvokePerID` | internal/lambda-managed-instances/invoke/invoke_router.go:110-128 | In every run an in-flight invoke is the only one with its ID and the entry is its own: a rejected duplicate never removes it. |
| `InvokeRouter.EntriesAreInFlight` | internal/lambda-managed-instances/invoke/invoke_router.go:110-128 | An entry never outlives its invoke. |
| `InvokeRouter.RuntimesAreNotShared` | internal/lambda-managed-instances/invoke/invoke_router.go:117-127 | Invokes that run at the same time run on different runtimes, none of them back in the pool. |
| `InvokeRouter.TimedOutIsNeverUnknown` | internal/lambda-managed-instances/invoke/invoke_router.go:143-172 | A late answer reaches the running entry or the timeout entry, and is told the ID is unknown only after eviction or consumption. |
| `InvokeRouter.OneLateAnswerPerTimeout` | internal/lambda-managed-instances/invoke/invoke_router.go:143-172 | In every run of the router, of the answers to an ID that timed out once and was not evicted exactly one is told that it is late, or none while the ID is still in the cache. |
| `InvokeRouter.PlaceholderExactlyBeforeBinding` | internal/lambda-managed-instances/invoke/invoke_router.go:110-125 | An answer meets the nil entry if and only if an invoke with its ID has no runtime bound. |
| `InvokeTimeouts.StepKeepsInv` | internal/lambda-managed-instances/invoke/running_invoke.go:118-170 | Every step of the router and of the running invokes behind it keeps what the router knows of an invoke in agreement with it. |
| `InvokeTimeouts.RouterRuns` | internal/lambda-managed-instances/invoke/invoke_router.go:101-172 | A run of the router with its running invokes is a run of the router, so that its guarantees hold there too. |
| `InvokeTimeouts.TimedOutExactlyWhenTold` | internal/lambda-managed-instances/invoke/running_invoke.go:118-170 | In every run an ID has entered the timeout cache if and only if some invoke with it has told its invoker of a time-out or does so next. |
| `InvokeTimeouts.AnswerAfterTimeoutReply` | internal/lambda-managed-instances/invoke/invoke_router.go:143-172 | An answer to an invoke that told of a time-out is never told that the ID is unknown before eviction or consumption. |
| `InvokeTimeouts.OneLateAnswerPerTimeoutReply` | internal/lambda-managed-instances/invoke/invoke_router.go:143-172 | Of the answers to an ID that exactly one invoke told a time-out for, and that was not evicted, exactly one is told that it is late, or none while the ID is cached. |
| `Gate.Gate.SetCount` | internal/lambda/core/gates.go:40-49 | Sets the expected arrivals, or refuses fewer than have arrived. |
| `Gate.Gate.Reset` | internal/lambda/core/gates.go:51-57 | Forgets the arrivals of a gate that is not cancelled. |
| `Gate.Gate.WalkThrough` | internal/lambda/core/gates.go:66-81 | One more arrival and a broadcast exactly on opening, or a refusal when already open. |
| `Gate.Gate.CancelWithError` | internal/lambda/core/gates.go:104-110 | Cancels with the cause. |
| `Gate.Gate.Clear` | internal/lambda/core/gates.go:113-120 | Forgets arrivals and cancellation and keeps the count. |
| `Gate.StepKeepsWakeups` | internal/lambda/core/gates.go:40-120 | A step keeps "nobody is parked at an open or cancelled gate" if and only if it is not a SetCount that opens the gate under a parked thread. |
| `Gate.RunKeepsWakeups` | internal/lambda/core/gates.go:40-120 | No wake-up is lost in any run without such a step. |
| `Gate.CallersAreDisciplined` | internal/lambda/core/gates.go:40-49 | Setting counts before anyone is parked excludes such steps. |
| `Gate.OpenGateReleasesEveryone` | internal/lambda/core/gates.go:85-101 | Then every thread at an open or cancelled gate can return, with nil exactly when the gate is open and not cancelled. |
| `Gate.ArrivalsNeverExceedCount` | internal/lambda/core/gates.go:40-120 | Arrivals never exceed the count, in any order of operations. |
| `Gate.NilMeansOpen` | internal/lambda/core/gates.go:85-101 | A thread returns nil exactly when it checks the gate open and not cancelled. |
| `Gate.LoweringTheCountStrands` | internal/lambda/core/gates.go:40-49 | The stranded thread, concretely. |
| `Gate.OpenMeansEveryoneWalked` | internal/lambda/core/gates.go:66-81 | A gate is open exactly when as many walks got through since it was emptied as it expects. |
| `RuntimeStates.Runtime.CallReady` | internal/lambda/core/states.go:236-446 | The locked part of /next in each of the ten states: new state, walks, result. |
| `RuntimeStates.Runtime.CallRestoreReady` | internal/lambda/core/states.go:259-273 | The locked part of /restore/next. |
| `RuntimeStates.Runtime.CallInvocationResponse` | internal/lambda/core/states.go:363-367 | A response is accepted in Running only. |
| `RuntimeStates.Runtime.CallInvocationErrorResponse` | internal/lambda/core/states.go:369-373 | An error response is accepted in Running only. |
| `RuntimeStates.Runtime.CallResponseSent` | internal/lambda/core/states.go:396-418 | Completing a response walks the response gate. |
| `RuntimeStates.Runtime.CallInitError` | internal/lambda/core/states.go:276-280 | Init errors are accepted in Started only. |
| `RuntimeStates.Runtime.CallRestoreError` | internal/lambda/core/states.go:308-312 | Restore errors are accepted in Restoring only, and cancel the init flow. |
| `RuntimeStates.Runtime.Resume` | internal/lambda/core/states.go:32-37 | A woken thread consumes the release and goes on only if the state is still the one it waited in. |
| `RuntimeStates.Runtime.Release` | internal/lambda/core/states.go:41-46 | Sets the operator condition and nothing else. |
| `RuntimeStates.StepKeepsInv` | internal/lambda/core/states.go:229-446 | Every call, wake-up and release keeps the walks, responses and releases in step with the state. |
| `RuntimeStates.InvokeWalksAlternate` | internal/lambda/core/states.go:229-446 | In every run with any number of suspended threads the invoke walks alternate, a response first, and accepted responses never outnumber releases. |
| `RuntimeStates.InitWalksOnce` | internal/lambda/core/states.go:236-306 | Each init gate is walked at most once, restore-ready never after runtime-ready. |
| `RuntimeStates.FailuresAreFinal` | internal/lambda/core/states.go:276-328 | A failed init or restore is never left. |
| `RuntimeStates.LateWakeupIsHarmless` | internal/lambda/core/states.go:332-446 | A thread woken while a response is processed is told so and disturbs nothing. |
| `RuntimeStates.InvokeCycle` | internal/lambda/core/states.go:332-446 | Release, response, response sent, next: back in Ready, one response and one pair of walks richer. |
| `InvokeFlow.StepKeepsInv` | internal/lambda/core/flow.go:159-223 | Every step of the driving thread, of the runtime and of a cancellation keeps gates, states and completed invokes in step. |
| `InvokeFlow.OneResponsePerInvoke` | internal/lambda/rapid/handlers.go:434-494 | In every run, between two invokes the runtime has accepted exactly one response and made one pair of walks for each completed invoke and waits in Ready; during one, at most one more. |
| `InvokeFlow.WalksAreRefusedOnlyWhenCancelled` | internal/lambda/core/flow.go:92-192 | A gate refuses a runtime's walk only after it was cancelled; the init gates never do. |
| `InvokeFlow.WaitingMeansRuntimesTurn` | internal/lambda/rapid/handlers.go:475-494 | In every reachable state in which an invoke waits at a closed, uncancelled gate, and its runtime was ready when released, the runtime has an enabled move that brings the end nearer. |
| `InvokeFlow.PromptInvokeCompletes` | internal/lambda/rapid/handlers.go:475-494 | From every such state at most six steps, without a cancellation, complete the invoke. |
| `InvokeFlow.CanCompleteExactlyWhenPrompt` | internal/lambda/rapid/handlers.go:475-494 | A waiting invoke can complete without a cancellation if and only if its runtime was ready when it was released. |
| `InvokeFlow.UnpromptInvokeHangs` | internal/lambda/rapid/handlers.go:475-484 | If the runtime was not ready when released, the invoke waits in every run without a cancellation. |
| `InvokeFlow.SkippedRestoreHangs` | internal/lambda/rapid/handlers.go:826-847 | A run in which that happens: a runtime at /restore/next is invoked without a restore. |
| `Agents.Agent.Register` | internal/lambda/core/externalagent_states.go:26-35 | Subscribes event by event, registers and walks the gate, or stops at the first event that is not allowed. |
| `Agents.Agent.Ready` | internal/lambda/core/externalagent_states.go:57-126 | From Registered walks the init gate, from Running the invoke gate, and suspends. |
| `Agents.Agent.Resume` | internal/lambda/core/externalagent_states.go:60-67 | A woken thread moves on to Running only if the agent is still Ready. |
| `Agents.Agent.InitError` | internal/lambda/core/internalagent_states.go:59-142 | Accepted once in Registered; repeated calls keep the first error type. |
| `Agents.Agent.ExitError` | internal/lambda/core/externalagent_states.go:78-182 | Accepted from Registered, Ready and Running; repeated calls keep the first error type. |
| `Agents.Agent.ShutdownFailed` | internal/lambda/core/externalagent_states.go:136-139 | Only a running external agent. |
| `Agents.Agent.Exited` | internal/lambda/core/externalagent_states.go:142-145 | Only a running external agent. |
| `Agents.Agent.LaunchError` | internal/lambda/core/externalagent_states.go:38-42 | Only a started external agent, with the error type its cause maps to. |
| `Agents.AgentsMap.Insert` | internal/lambda/core/agentsmap.go:33-46 | Adds to both indices or, on a collision of name or ID, to neither. |
| `Agents.AgentsMap.FindByID` | internal/lambda/core/agentsmap.go:55-58 | Finds by ID exactly the agent found by that agent's name. |
| `Agents.AgentsMap.Clear` | internal/lambda/core/agentsmap.go:83-86 | Empties both indices. |
| `Agents.IndicesAgree` | internal/lambda/core/agentsmap.go:19-46 | The two indices hold the same agents and have the same size. |
| `Agents.RegistrationService.CreateExternalAgent` | internal/lambda/core/registrations.go:224-243 | Adds a name not used by any agent while registration is on, without a limit. |
| `Agents.RegistrationService.CreateInternalAgent` | internal/lambda/core/registrations.go:246-269 | The same with a limit of ten, in the source's order of checks. |
| `Agents.RegistrationService.CountAgents` | internal/lambda/core/registrations.go:169-185 | The number of names present. |
| `Agents.RegistrationService.TurnOff` | internal/lambda/core/registrations.go:379-384 | Registration is off. |
| `Agents.RegistrationService.GetRegisteredAgentsSize` | internal/lambda/core/registrations.go:305-309 | The 16-bit sum of the truncated sizes is the truncated number of names. |
| `AgentInitSafety.StepKeepsAgents` | internal/lambda/core/externalagent_states.go:26-182 | Every step keeps, for each agent, its state in agreement with the gates it walked and its suspended threads. |
| `AgentInitSafety.StepKeepsLaunch` | internal/lambda/rapid/handlers.go:131-188 | Every step keeps the external agents equal to the launched paths, all different, within the limit. |
| `AgentInitGates.StepKeepsReadyGate` | internal/lambda/rapid/handlers.go:383-393 | Every step keeps the ready gate's arrivals equal to the walks that got through. |
| `AgentInitGuarantees.AllRegisteredWhenOpen` | internal/lambda/rapid/handlers.go:183-185 | When the registration gate lets init pass, every launched agent has registered. |
| `AgentInitGuarantees.InitWaitsForEveryAgent` | internal/lambda/rapid/handlers.go:375-393 | Init completes only when every agent present has itself gone from Registered to Ready and every launched one has registered. |
| `AgentInitGuarantees.AgentsWalkOnce` | internal/lambda/core/externalagent_states.go:57-126 | No agent walks the ready gate twice or keeps two threads suspended, and there are never more than eleven. |
| `AgentInitGuarantees.TerminalStatesAreKept` | internal/lambda/core/internalagent_states.go:128-158 | Terminal agent states are never left and keep their first error type. |
| `AgentInitGuarantees.AgentsAreFixedAfterTurnOff` | internal/lambda/core/registrations.go:224-269 | Once registration is off the set of agents is fixed. |
| `AgentInitGuarantees.GateOpensExactlyWhen` | internal/lambda/rapid/handlers.go:386-392 | The ready gate is open if and only if every agent is ready and no more of them came early than the stale count let through. |
| `AgentInitGuarantees.FirstGenerationOpens` | internal/lambda/core/flow.go:129-137 | In the first generation it is open if and only if every agent is ready. |
| `AgentInitGuarantees.StaleCountShutsOut` | internal/lambda/core/flow.go:121-126 | A run of a later generation in which it stays shut although every agent is ready. |
| `AgentInvoke.StepKeepsInv` | internal/lambda/core/flow.go:160-214 | Every step of the driving thread and of an agent keeps the agent gate's arrivals equal to the walks since its reset, and each agent at rest unless it was released and is not back. |
| `AgentInvoke.InvokeWaitsForAgents` | internal/lambda/rapid/handlers.go:446-519 | In every run, between two invokes every agent released for the last one has gone back to Ready since then, once, and every agent is suspended in Ready or gone. |
| `AgentInvoke.GateOpensExactlyWhenAllBack` | internal/lambda/rapid/handlers.go:510-519 | While an invoke waits for its agents the uncancelled gate is open if and only if every released agent is back, and it refuses none. |
| `AgentInvoke.InvokeCompletes` | internal/lambda/rapid/handlers.go:510-519 | If no released agent is gone, some run brings each of them back and completes the invoke. |
| `AgentInvoke.GoneAgentHoldsInvoke` | internal/lambda/rapid/handlers.go:510-519 | A released agent that is gone before it came back holds the invoke up in every run without a cancellation. |
| `AgentInvoke.CanCompleteExactlyWhen` | internal/lambda/rapid/handlers.go:510-519 | So a waiting invoke can complete without a cancellation if and only if there is no such agent. |
| `AgentInvoke.LostAgentStopsInvokes` | internal/lambda/rapid/handlers.go:446-519 | With a subscribed agent already gone, before or during an invoke, no invoke completes in a run without a cancellation. |
| `AgentInvoke.NextInvokeCanCompleteExactlyWhen` | internal/lambda/rapid/handlers.go:446-519 | At every moment, also before an invoke, a further one can complete without a cancellation if and only if no subscribed agent is lost; between invokes, if and only if none is gone. |
| `AgentInvoke.ExitDuringInvokeHangs` | internal/lambda/rapi/handler/agentexiterror.go:36-60 | A run in which a released extension reports its exit and the invoke waits for it, in every continuation without a cancellation. |
| `AgentInvoke.InitLeavesAgentsAtRest` | internal/lambda/rapid/handlers.go:375-393 | After a successful init every agent is at rest, as a series of invokes needs it. |
| `WholeInvoke.StepKeepsInv` | internal/lambda/rapid/handlers.go:434-519 | Every step keeps the runtime's and the agents' shares of an invoke in step with the one thread that drives both. |
| `WholeInvoke.InvokesAreWhole` | internal/lambda/rapid/handlers.go:434-519 | In every run, between two invokes the runtime has accepted one response for each completed one and every agent released for the last one is back. |
| `WholeInvoke.WholeInvokeCompletes` | internal/lambda/rapid/handlers.go:475-519 | A waiting invoke that can go on is completed by some run, runtime and agents together. |
| `WholeInvoke.WholeInvokeCanCompleteExactlyWhen` | internal/lambda/rapid/handlers.go:475-519 | A waiting whole invoke can complete without a cancellation if and only if the runtime was ready when released, or is done, and no released agent is gone without having come back. |
| `TokenBucket.NewBucket` | internal/lambda-managed-instances/core/bandwidthlimiter/throttler.go:19-34 | A bucket exactly for parameters in range. |
| `TokenBucket.Bucket.ProduceTokens` | internal/lambda-managed-instances/core/bandwidthlimiter/throttler.go:44-50 | One refill, capped, in 64-bit arithmetic. |
| `TokenBucket.Bucket.ConsumeTokens` | internal/lambda-managed-instances/core/bandwidthlimiter/throttler.go:52-60 | Takes n tokens exactly when they are there. |
| `TokenBucket.TokensInRangeExactlyWhen` | internal/lambda-managed-instances/core/bandwidthlimiter/throttler.go:19-60 | In every run the tokens stay within 0 and the capacity if and only if a refill on an almost full bucket fits in 64 bits. |
| `TokenBucket.WrappingBucketGoesNegative` | internal/lambda-managed-instances/core/bandwidthlimiter/throttler.go:44-50 | Otherwise some run drives the count below zero. |
| `TokenBucket.WrittenIsPaidFor` | internal/lambda-managed-instances/core/bandwidthlimiter/throttler.go:139-156 | What a run writes comes out of its first tokens and its refills. |
| `TokenBucket.BandwidthBound` | internal/lambda-managed-instances/core/bandwidthlimiter/throttler.go:44-156 | Between any two points of any run with k ticks between them at most capacity + k * refill bytes are written. |
| `TokenBucket.EightRefillsPerSecond` | internal/lambda-managed-instances/core/directinvoke/util.go:18-25 | Eight refills never exceed the rate, although the product may wrap. |
| `TokenBucket.StreamedWriterAccepted` | internal/lambda-managed-instances/core/directinvoke/util.go:20-31 | A streamed writer is made exactly for a positive burst and a product of rate and interval that is at least 1000 after wrap-around, which for products that fit is a rate of at least 8. |
| `TokenBucket.NegativeRateAccepted` | internal/lambda-managed-instances/core/directinvoke/util.go:20-31 | A negative rate that is accepted, because the product wraps to a positive one. |
| `TokenBucket.StreamedBound` | internal/lambda-managed-instances/core/directinvoke/util.go:20-31 | Eight ticks of a streamed writer with a positive rate pass at most burst + rate bytes. |
| `TokenBucket.StreamedBoundExactlyWhen` | internal/lambda-managed-instances/core/directinvoke/util.go:20-31 | That bound holds of all runs of an accepted writer if and only if its rate is positive. |
| `BandwidthLimiter.Throttler.AwaitTick` | internal/lambda-managed-instances/core/bandwidthlimiter/throttler.go:104-120 | Receiving a signal: how many ticks produced meanwhile, and whether one is left pending. |
| `BandwidthLimiter.Throttler.AwaitTokens` | internal/lambda-managed-instances/core/bandwidthlimiter/throttler.go:144-155 | The wait loop ends, with the tokens taken, after at most as many signals as refills are missing, plus one if a signal was pending. |
| `BandwidthLimiter.Throttler.BandwidthLimitingWrite` | internal/lambda-managed-instances/core/bandwidthlimiter/throttler.go:139-156 | Refuses more than the capacity without effect; otherwise waits within that bound, takes the tokens after the ticks waited for and writes the piece once, more ticks falling during the write. |
| `BandwidthLimiter.PaidByRefills` | internal/lambda-managed-instances/core/bandwidthlimiter/throttler.go:139-156 | The bytes written and the tokens left come out of the tokens at the start and the refills of the ticks. |
| `BandwidthLimiter.WrappingBucketNeverSuffices` | internal/lambda-managed-instances/core/bandwidthlimiter/throttler.go:44-155 | An accepted bucket that wraps and never holds the tokens of a piece that fits it, whatever the number of ticks. |
| `BandwidthLimiter.WaitBoundHoldsExactlyWhen` | internal/lambda-managed-instances/core/bandwidthlimiter/throttler.go:19-156 | For an accepted bucket, whatever was written before, every piece that fits gets its tokens within the refills that are missing, if and only if a refill on an almost full bucket fits in 64 bits. |
| `BandwidthLimiter.EdgeBreaksBound` | internal/lambda-managed-instances/core/bandwidthlimiter/throttler.go:44-155 | Otherwise a count is reached from which a piece of the capacity does not get its tokens in that bound. |
| `BandwidthLimiter.SlowestWaitIsCeiling` | internal/lambda-managed-instances/core/bandwidthlimiter/throttler.go:139-156 | The number of missing refills is the missing tokens divided by the refill, rounded up. |
| `BandwidthLimiter.NotEnoughYet` | internal/lambda-managed-instances/core/bandwidthlimiter/throttler.go:144-155 | As long as the tokens do not suffice, fewer ticks than that have passed. |
| `BandwidthLimiter.WaitBoundIsReached` | internal/lambda-managed-instances/core/bandwidthlimiter/throttler.go:104-155 | Some schedule uses the whole bound, the left-over signal included. |
| `BandwidthLimiter.NewChunkIterator` | internal/lambda-managed-instances/core/bandwidthlimiter/util.go:6-15 | No iterator exactly for a nil slice. |
| `BandwidthLimiter.ChunkIterator.Next` | internal/lambda-managed-instances/core/bandwidthlimiter/util.go:23-32 | The next chunk, nil or a panic, with the end computed in 64-bit arithmetic. |
| `BandwidthLimiter.IteratesToTheEndExactlyWhen` | internal/lambda-managed-instances/core/bandwidthlimiter/util.go:23-32 | Iterating yields everything and then nil if and only if length and chunk size together fit in 64 bits and the chunk size is positive, or both are zero. |
| `BandwidthLimiter.LargestChunkSizePanics` | internal/lambda-managed-instances/core/bandwidthlimiter/util.go:23-32 | With the largest chunk size every buffer that is not empty is yielded whole and the next call panics. |
| `BandwidthLimiter.BandwidthLimitingWriter.ChunkedWrite` | internal/lambda-managed-instances/core/bandwidthlimiter/bandwidthlimiter.go:32-45 | Delivers exactly the prefix whose length it returns, in order, in pieces no larger than the capacity, paid for by the tokens at the start and the refills of the ticks; it panics if and only if no write fails and the slice is nil or its length and the capacity exceed 64 bits, and delivers everything if no write fails and it does not. |
| `BandwidthLimiter.BandwidthLimitingWriter.Write` | internal/lambda-managed-instances/core/bandwidthlimiter/bandwidthlimiter.go:47-53 | The same; the size error cannot reach the caller, a nil slice is harmless, and no slice of at most half the 64-bit range panics. |
| `ReplyServer.Server.Reserve` | internal/lambda/rapidcore/server.go:160-203 | A new reservation under a non-empty ID, or a refusal while one is held. |
| `ReplyServer.Server.SetReplyStream` | internal/lambda/rapidcore/server.go:229-248 | Sets the stream once per reservation, before any reply. |
| `ReplyServer.Server.Release` | internal/lambda/rapidcore/server.go:251-267 | Gives the reservation up. |
| `ReplyServer.Server.GetCurrentInvokeID` | internal/lambda/rapidcore/server.go:270-279 | Empty exactly when nothing is reserved. |
| `ReplyServer.Server.SendResponseUnsafe` | internal/lambda/rapidcore/server.go:292-350 | The checks in order; buffered replies settle the reservation on success only, direct ones always. |
| `ReplyServer.Server.SendResponse` | internal/lambda/rapidcore/server.go:352-358 | The same, with the runtime state set first. |
| `ReplyServer.Server.SendErrorResponse` | internal/lambda/rapidcore/server.go:373-387 | The same for an error. |
| `ReplyServer.Server.SendInitErrorResponse` | internal/lambda/rapidcore/server.go:360-371 | During an invoke it goes to the current reservation, and is refused without one; otherwise it is kept. |
| `ReplyServer.StepKeepsInv` | internal/lambda/rapidcore/server.go:160-387 | Every critical section keeps replies matched with reservations and ReplySent equal to "a settling reply was written". |
| `ReplyServer.OneReplyPerReservation` | internal/lambda/rapidcore/server.go:292-350 | In every interleaving all that is written goes to the stream and ID of its reservation, and nothing follows a successful reply of the same reservation. |
| `ReplyServer.ReservationHolds` | internal/lambda/rapidcore/server.go:160-350 | Until a release the reservation, its ID, its stream and ReplySent are never lost, and after a reply nothing more is written. |
| `ReplyServer.OversizedReplyLeavesRoomForOne` | internal/lambda/rapidcore/server.go:313-350 | An oversized reply changes nothing, a later one that fits is written in full, and every further one is refused until the release. |
| `ReplyServer.DefaultErrorFailsOnlyAsSent` | internal/lambda/rapidcore/server.go:608-614 | The default error, whose ID is read in an earlier critical section, fails only because a reply was sent, unless the reservation is released meanwhile. |
| `ReplyServer.ReleasedIDIsInvalid` | internal/lambda/rapidcore/server.go:293-295 | After a release, until the same ID is reserved again, every reply to it is refused as invalid. |
| `ReplyServer.SentMeansWritten` | internal/lambda/rapidcore/server.go:347-349 | ReplySent holds if and only if exactly one settling reply of the reservation was written, the last of its own. |
| `ReplyHandover.StepKeepsCurrent` | internal/lambda/rapidcore/server.go:229-350 | Every step keeps a call of FastInvoke behind the current reservation's stream until its reply is handed over. |
| `ReplyHandover.HandedOverExactlyWhen` | internal/lambda/rapidcore/server.go:331-344 | In every reachable state with a reply waiting to be handed over, some continuation does it if and only if some call is past setting its phase; if none is, the call of this very reservation waits for the mutex to set it. |
| `ReplyHandover.NoDeadlockAfterPhase` | internal/lambda/rapidcore/server.go:528-592 | A reply is not stuck once the call for its reservation has set its phase. |
| `ReplyHandover.DeadlockIsForEver` | internal/lambda/rapidcore/server.go:110-115 | Otherwise no reservation, release, reply or call makes progress in any continuation. |
| `ReplyHandover.EarlyReplyDeadlocks` | internal/lambda/rapidcore/server.go:529-544 | A run of four steps into that state: a reply between setting the stream and setting the phase. |
| `ReplyHandover.LeftoverCallReceives` | internal/lambda/rapidcore/server.go:538-591 | A run in which a call left over from a released reservation receives the metrics of the next one. |
| `AppLifecycle.StateGuard.SetState` | internal/lambda-managed-instances/raptor/internal/raptor_state.go:62-71 | Moves exactly along valid transitions, and never down unless to Idle. |
| `AppLifecycle.TransitionsClimb` | internal/lambda-managed-instances/raptor/internal/raptor_state.go:73-93 | A valid transition other than to Idle climbs, and shutting down is valid exactly before it has begun. |
| `AppLifecycle.StepKeepsInv` | internal/lambda-managed-instances/raptor/app.go:68-184 | Every step of every Init, Invoke, Shutdown and monitor thread keeps the once's owner, the status, the channels and the stored error in step. |
| `AppLifecycle.RankNeverFalls` | internal/lambda-managed-instances/raptor/app.go:68-184 | The status rank and the channel closings are monotone over every run. |
| `AppLifecycle.OnceTransitionsSucceed` | internal/lambda-managed-instances/raptor/app.go:137-169 | Neither transition inside the once can fail, and only one thread is ever inside. |
| `AppLifecycle.ChannelsCloseOnceAndInOrder` | internal/lambda-managed-instances/raptor/app.go:154-167 | Each channel is closed at most once, the start before the end. |
| `AppLifecycle.ErrorIsTheReasonOfTheShutdown` | internal/lambda-managed-instances/raptor/app.go:151-154 | From the announced start on, the stored error is the reason of the one call that shuts down, for ever. |
| `AppLifecycle.OneInitHandled` | internal/lambda-managed-instances/raptor/app.go:70-84 | Only one Init ever reaches HandleInit. |
| `AppLifecycle.InvokesFollowInit` | internal/lambda-managed-instances/raptor/app.go:109-135 | An invoke is admitted only after an Init succeeded and before a shutdown is announced. |
| `AppLifecycle.NoInvokeAfterShutdownStarts` | internal/lambda-managed-instances/raptor/app.go:86-135 | After the announcement, or a failing Init's return, no invoke is admitted. |
| `AppLifecycle.DriverIsEnabled` | internal/lambda-managed-instances/raptor/app.go:86-94 | While a failing Init waits, some thread can take the next step toward the closing it waits for. |
| `AppLifecycle.WaitsOnlyForFourMoves` | internal/lambda-managed-instances/raptor/app.go:86-94 | In every run, as long as it waits, that thread has taken fewer than the four steps needed. |
| `AppLifecycle.FailingInitReturns` | internal/lambda-managed-instances/raptor/app.go:86-94 | From every such state at most four steps of it let the Init return its own error. |
| `FilePoller.Recording.Clear` | cmd/localstack/filenotify/poller.go:183-190 | Empties the recording entry by entry. |
| `FilePoller.Recording.Record` | cmd/localstack/filenotify/poller.go:192-232 | Records what the file system answers, whatever was recorded before. |
| `FilePoller.ItemToWatch.CheckForChanges` | cmd/localstack/filenotify/poller.go:257-305 | Reports an error, an operation on the item, or the scan of its entries. |
| `FilePoller.Scan` | cmd/localstack/filenotify/poller.go:281-303 | One event with the true operation for every changed name of the larger listing and no other event, in any map order. |
| `FilePoller.ItemToWatch.Poll` | cmd/localstack/filenotify/poller.go:157-164 | A poll, after which the new recording is the baseline, also on failure. |
| `FilePoller.Watch` | cmd/localstack/filenotify/poller.go:146-173 | Over every series of ticks each poll compares with exactly what the previous one saw, on two recordings that are exchanged. |
| `FilePoller.EventExactlyWhenChanged` | cmd/localstack/filenotify/poller.go:281-303 | There is an event if and only if some name in either listing has changed, although only the larger is scanned. |
| `FilePoller.AtLeastHalfIsReported` | cmd/localstack/filenotify/poller.go:281-303 | There are at least as many events as changes left out. |
| `FilePoller.EveryChangeReportedExactlyWhen` | cmd/localstack/filenotify/poller.go:281-303 | Every change is reported if and only if the smaller listing has no name of its own. |
| `FilePoller.RenameIsOnlyARemoval` | cmd/localstack/filenotify/poller.go:281-303 | A renamed file is reported as removed and its new name not as created. |
| `FilePoller.SilenceMeansUnchanged` | cmd/localstack/filenotify/poller.go:146-173 | A watch without reports has seen the same names throughout, and the same mode, time and size of every name that was never a directory. |
| `FilePoller.FailedStatForgets` | cmd/localstack/filenotify/poller.go:192-202 | After a failed stat the next successful poll reports a creation and nothing else. |
| `FilePoller.FailedListingForgets` | cmd/localstack/filenotify/poller.go:208-224 | After a failed listing the next successful poll reports every entry as created and nothing else. |
| `RuntimeRelease.CreateRuntimeReleaseFromRequest` | internal/lambda/appctx/appctxutil.go:59-96 | The greedy loop computes the release with the selected features. |
| `RuntimeRelease.SelectedInOrder` | internal/lambda/appctx/appctxutil.go:77-86 | The features appended are an in-order subsequence of the header's. |
| `RuntimeRelease.SelectedAtPositions` | internal/lambda/appctx/appctxutil.go:77-86 | The features appended are those at ascending positions of the header's list. |
| `RuntimeRelease.SelectedFitsAndIsMaximal` | internal/lambda/appctx/appctxutil.go:66-86 | They fit, and the feature of no position passed over fits into what is left, also if it was taken elsewhere. |
| `RuntimeRelease.CreatedFits` | internal/lambda/appctx/appctxutil.go:88-96 | With features the release is at most 128 bytes, extends the given one and ends in a bracket. |
| `RuntimeRelease.TooLongExactlyWhen` | internal/lambda/appctx/appctxutil.go:27-96 | A release exceeds 128 bytes if and only if the given one already does. |
| `RuntimeRelease.LeftOutDoNotFit` | internal/lambda/appctx/appctxutil.go:77-96 | The feature of no position left out could be added within the limit. |
| `RuntimeRelease.ChosenHaveNoBrackets` | internal/lambda/appctx/appctxutil.go:62-64 | The features contain no brackets and no white space. |
| `RuntimeRelease.FeaturesReadBack` | internal/lambda/appctx/appctxutil.go:88-93 | Splitting what is between the brackets gives the features back. |
| `RuntimeRelease.ApplicationContext.UpdateWithRuntimeRelease` | internal/lambda/appctx/appctxutil.go:102-120 | Answers true exactly when it stores, which is exactly when the release changes. |
| `RuntimeRelease.ExtendedAtMostOnce` | internal/lambda/appctx/appctxutil.go:104-112 | A stored release is extended at most once. |
| `RuntimeRelease.StoredAtMostTwice` | internal/lambda/appctx/appctxutil.go:102-120 | Over every sequence of requests a release is stored at most twice, the second extends the first, and none exceeds 128 bytes unless it is a User-Agent token. |
| `TraceHeader.ParseTracingHeader` | internal/lambda/telemetry/tracer.go:110-131 | The loop over the pairs computes the fold that the lemmas below are about. |
| `TraceHeader.BuildFullTraceID` | internal/lambda/telemetry/tracer.go:136-152 | Joins root, parent if any, and sample or its default; empty without root. |
| `TraceHeader.RoundTripExactlyWhen` | internal/lambda/telemetry/tracer.go:110-152 | Parsing a built header gives the components back if and only if none contains a separator. |
| `TraceHeader.ParsedAreClean` | internal/lambda/telemetry/tracer.go:110-131 | No parsed component contains a separator, whatever the header. |
| `TraceHeader.RebuiltParsesTheSame` | internal/lambda/telemetry/tracer.go:110-152 | Rebuilding a parsed header loses the lineage and nothing else. |
| `TraceHeader.LastPairWins` | internal/lambda/telemetry/tracer.go:112-129 | A pair appended to any header overrides its component and no other. |
| `Text.SplitJoined` | internal/lambda/telemetry/tracer.go:111-114 | Splitting joined parts gives them back if none contains the separator. |
| `Text.JoinSplit` | internal/lambda/telemetry/tracer.go:111-151 | Joining split parts gives the string back. |
| `Text.FieldsJoined` | internal/lambda/appctx/appctxutil.go:77-92 | The fields of words joined by spaces are those words. |

## Left out

- HTTP routing, handlers, rendering, servers, command line and environment parsing, logging, metrics and telemetry relays: plumbing around foreign calls.
- Process supervision, system calls, the X-Ray daemon, archive download and privileges: foreign calls.
- internal/lambda-managed-instances/core gates, flow, states and agents: near copies of internal/lambda/core with fewer states; the richer one is modelled.
- Clocks and durations: timers, deadlines and ticks are events that may happen at any moment, so nothing is stated about how long a reservation or a time-out lasts.
- The threads of running_invoke.go, invoke_router.go, app.go and the init and invoke threads of handlers.go are step systems on values rather than methods, because their point is the interleaving; aliasing between their shared objects is not modelled.
- RunningInvoke: the body bytes, the tracing data, RuntimeNextWait and the metrics of an invoke are not modelled; an error's cause and message are not part of the error.
- InvokeTimeouts: answers reach a running invoke at any moment rather than only when the router delivers one, so that the model has more runs than the source.
- InvokeRouter: reserving a runtime for an ID does not look at the in-flight entries first, so that the model has more runs than the source; what an answer does on the nil entry is only recorded as meeting it.
- RuntimePool.RuntimePool.Reserve: the timer is not part of the reservation; an expiry may come for an ID at any moment, also after the ID was reused.
- `gateImpl.Register` and the public SetState of runtimes and agents: no caller in the modelled flows.
- InvokeFlow: the clearing of gates by a reset is not part of the series of invokes; a cancelled flow ends the series.
- AgentInvoke: the runtime's share of an invoke is one step with an arbitrary result (`WholeInvoke` joins the two); the agents subscribed to invokes are the same throughout, as no agent registers after init.
- AgentInit: one generation; agent IDs are taken to be unique, events other than their validity are not modelled there (`Agents` has both).
- BandwidthLimiter.Throttler.AwaitTokens: requires that capacity and refill fit in 64 bits together, which is exactly when the bound it promises holds (`WaitBoundHoldsExactlyWhen`).
- BandwidthLimiter.Throttler.BandwidthLimitingWrite: requires the same, because it waits.
- BandwidthLimiter.BandwidthLimitingWriter.ChunkedWrite: requires the same, because it waits; Go's int is taken to have 64 bits.
- BandwidthLimiter.BandwidthLimitingWriter.Write: requires the same, because it waits.
- Starting and stopping the ticker and the throughput metric are not modelled.
- ReplyServer.Server.SendResponseUnsafe: handing the metrics over, for which the source keeps the mutex, is part of the call (`ReplyHandover` takes it apart); what a direct reply writes is not constrained; reservation tokens are numbers.
- ReplyHandover: what a call does after it has returned or passed its invoke on, and the mutex of other getters and setters, are not modelled.
- ReplyServer.Server.SendInitErrorResponse: reading the phase and the ID and sending are one call here; what happens between reading an ID and sending to it is `DefaultErrorFailsOnlyAsSent` and `ReleasedIDIsInvalid`.
- AppLifecycle: HandleInit, HandleInvoke and HandleShutdown return at an arbitrary moment with an arbitrary result; the health check is not modelled beyond the status it reads.
- FilePoller: the joined path of an event is the pair of watched item and entry name; adding, removing and closing watches is not modelled; a change of an entry between file and directory is no change, as the source has it.
- Text.FieldsJoined: strings are sequences of code points, so that headers that are not valid UTF-8 are not modelled.
