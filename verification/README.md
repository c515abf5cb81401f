# Runtara in Dafny

A Dafny model of the parts of Runtara that carry a law of their own, with proofs of those laws for every
input, every interleaving or every run. One module per component; `dafny verify dfyconfig.toml` checks them
all. State that the program updates in place is a class with fields, or, where many callers interleave, a
state machine whose steps are the program's separate atomic actions. Loops that the program writes as loops
are methods with invariants.

- **TokenBucket** (connections facade): the Redis script that refills a bucket lazily and admits or denies.
  It decides exactly as a bucket that is topped up every millisecond; a denial changes no later decision on
  a monotone clock (on a clock that may go back it can, unless it was made at the reading of the last refill);
  the wait it returns is exact; over any stretch of any run admissions are paid for by the burst and the
  forward movement of the clock.
- **WarnSlot** (connections facade): any number of threads load an atomic timestamp and try to swap it.
  Loads are relaxed and may see any earlier value. Successive winners are at least the interval apart, so a
  range of readings has a bounded number of them.
- **TokenRotation** (connections facade and repository): many processes fetch, refresh and persist one
  connection's tokens under an optimistic guard. The guard is the update statement of the repository: the
  stored hash is NULL or equal to the expected one; hashes are taken to be injective. The stored tokens form
  one chain, and with single-use tokens the stored token is current or exactly one process holds its successor.
- **ComponentCache** (component host): loaders that stat, look up, compile outside the lock and store, while
  files are redeployed. `load_instance_pre` is fresh in every run exactly when stamps are distinct; the cache
  stays within 32 entries and evicts by last use.
- **Interruption** (component host, executor and dispatcher): the epoch callback, the watchdog and the memory
  limiter over explicit time, for every guest behaviour.
- **Compensation** (core): one trigger and any number of completing workers as separate persistence steps.
- **Conditions** (DSL): the short-circuiting evaluator. Its specification also returns which mapping values
  were read, in order, so equal evaluations also stop at the same place with the same error. **ConditionLaws**
  says what each operator computes, independently of the functions the evaluator is made of.
- **Coercion** (DSL and agent macro): the macro's type printer, the coercion that parses its output, and a
  structural coercion on types that it equals. **CoercionLaws** gives the table of conversions.
- **ProcessTree** and **WorkflowGraphs** (memory benchmark script): the worklist over parent links, and the
  generators of linear, branching and split workflows.
- **Fingerprint** (server build script): FNV-1a and the decision to rebuild.
- **S3Listing** (agents): the hand-written listing parser, against a reader of whole tags.
- **Decimal**, **JsonValues**, **Common**: decimal printing and reading, JSON values, `Option`.

## Where code and description part ways

The code is modelled. Each of these properties fails of the code; the lemmas named say exactly when it holds,
and for which inputs or runs it does not.

- `complete_checkpoint_compensation` is documented to return whether all compensations are done; it returns
  true while some are pending and false when all are done and one failed. It returns what the documentation
  says exactly when nothing was outstanding and everything succeeded (`ReturnedFlag`, `FlagIsHonestIff`, `DoneButFalse`).
- Once every worker has stopped, the instance is sure to be completed or failed exactly when no worker of a
  triggered checkpoint can be cut short by a persistence error. In every store, any single worker that can be
  leaves some run `triggered` for good, with nothing outstanding (`FinalIffNoneCutShort`, `LeftTriggered`).
- Reconnecting a connection writes new tokens but leaves the stored refresh-token hash. That keeps the guard
  right, and every later run safe, exactly when no token was ever rotated and no process is in flight
  (`ReconnectKeepsGuardIff`, `ReconnectIsSafeIff`). On an idle connection that was rotated before, every
  later write is dropped as a lost race (`ReconnectAfterRotationIsStuck`). A process in flight that refreshed
  the replaced token still lands its write, over the new grant (`InFlightWriteReplacesGrant`).
- `load` does not compare the stamp again at its last lock, so it can return a component older than the file
  was at its stat. With distinct stamps, a call is fresh in every continuation exactly when, at its stat, every component compiled
  for the path and not yet stored is of the version then deployed (`LoadAtStatIsFreshIff`, `LoadIsFreshIff`).
- A run ends within one tick of its stop time, in every run that should stop then, exactly when that time lies
  a tick or more after the start (`OneTickIffStopsLate`). So it does in all runs of a call exactly when the call
  cannot be cancelled and its budget is a tick or more (`OneTickIff`). Two ticks are always enough.
- A denied call stores the tokens earned so far together with its own reading, so a clock that later goes back
  earns them twice. It is without effect on every later run exactly when it was made at the reading of the last
  refill, or burst is 0 (`DenialIsTransparentIff`, `RewindAfterDenial`); if the clock only goes
  forward from it, exactly when the clock had not gone back before it (`DenialIsTransparentOnwardsIff`).
- A greater-than is the negation of the less-or-equal only for values of one ordered kind (`OrderNegatesIff`).
- With `i64::MIN` as interval, saturation lets every reading win (`SaturationIsExactIff`).

## Model

| member | source | states |
|---|---|---|
| `TokenBucket.RateLimiter.CheckRateLimit` | crates/runtara-connections/src/facade.rs:544-604 | missing or zero configuration and backend failures admit and touch nothing; otherwise the key's hash and the verdict are those of one atomic script step, and no other key changes |
| `TokenBucket.TokensStayInRange` | crates/runtara-connections/src/facade.rs:645-666 | after every sequence of calls with arbitrary clock readings the stored tokens are within 0..burst |
| `TokenBucket.WaitIsLeast` | crates/runtara-connections/src/facade.rs:663-665 | the computed wait is the least number of milliseconds that earns the missing part of a token |
| `TokenBucket.WaitIsExact` | crates/runtara-connections/src/facade.rs:585-590 | after a denial, a call at any reading is admitted if and only if burst is at least 1 and the wait has passed; the wait is in 1..ceil(1000/rps), so the sign encoding decodes unambiguously |
| `TokenBucket.AdvanceIsRefill` | crates/runtara-connections/src/facade.rs:648-653 | topping up every millisecond with a cap gives the same tokens as one lazy refill over the whole gap |
| `TokenBucket.LazyRefinesEager` | crates/runtara-connections/src/facade.rs:645-666 | on every non-decreasing sequence of readings the lazy bucket decides exactly as the eager one, from any bucket in range |
| `TokenBucket.FreshKeyRefinesEager` | crates/runtara-connections/src/facade.rs:645-646 | a key never seen before decides as an eager bucket that was full from any earlier moment |
| `TokenBucket.DenialIsTransparentIff` | crates/runtara-connections/src/facade.rs:649-666 | what a denial leaves decides every sequence of later readings, on any clock, as if the call had not happened if and only if it was made at the very reading of the last refill, or burst is 0 |
| `TokenBucket.RewindAfterDenial` | crates/runtara-connections/src/facade.rs:649-662 | for every denial after the last refill, the readings that tell: back to that refill, then forward by the wait |
| `TokenBucket.DenialIsTransparentOnwardsIff` | crates/runtara-connections/src/facade.rs:649-666 | on readings that only go forward from the denied call, if and only if that call's reading had not gone back, or burst is 0 |
| `TokenBucket.DroppingADenial` | crates/runtara-connections/src/facade.rs:649-666 | on a non-decreasing clock, leaving any denied call out of a run changes no other decision of the run |
| `TokenBucket.AdmissionsArePaidFor` | crates/runtara-connections/src/facade.rs:645-666 | admissions of a run are at most the starting tokens plus rps/1000 times the forward clock movement, for arbitrary readings |
| `TokenBucket.WindowBound` | crates/runtara-connections/src/facade.rs:645-666 | between any two calls of any run, at most burst plus rps/1000 times the forward clock movement between them are admitted |
| `TokenBucket.ForwardIsElapsed` | crates/runtara-connections/src/facade.rs:649-662 | on a monotone clock the forward movement is the plain elapsed time |
| `WarnSlot.SaturationIsExactIff` | crates/runtara-connections/src/facade.rs:67-70 | the saturating comparison is the exact one for all readings if and only if the interval is not the least i64 |
| `WarnSlot.InvHolds` | crates/runtara-connections/src/facade.rs:67-73 | in every interleaving, with relaxed loads that may see any value the cell has held, every pending load saw such a value and successive cell values pass the interval test |
| `WarnSlot.WinnersAreSpaced` | crates/runtara-connections/src/facade.rs:67-73 | successive winning readings are at least the interval apart in every interleaving |
| `WarnSlot.SpacedCount` | crates/runtara-connections/src/facade.rs:65-73 | values at least an interval apart have at most width/interval + 1 members in a range of that width |
| `WarnSlot.WinnersPerRange` | crates/runtara-connections/src/facade.rs:65-73 | a range of readings of width w has at most w/interval + 1 winners in every run |
| `WarnSlot.SwapWinsIff` | crates/runtara-connections/src/facade.rs:67-73 | in every reachable state a swap appends its reading if and only if the interval has passed, as exact integers, since the value it saw and that value is still the newest; otherwise the cell stays; either way the call is over |
| `WarnSlot.LoneCall` | crates/runtara-connections/src/facade.rs:67-73 | a call on its own wins if and only if the interval has passed since the initial value |
| `WarnSlot.NextCallWins` | crates/runtara-connections/src/facade.rs:67-73 | after every run, an undisturbed call that sees the newest value wins if and only if the interval has passed since it |
| `TokenRotation.ConnectionRow.PersistRefreshedOauth` | crates/runtara-connections/src/repository/connections.rs:1059-1099 | the row changes, and one row is counted, if and only if its hash is NULL or equals the expected hash |
| `TokenRotation.ConnectionRow.PersistRotatedCredentials` | crates/runtara-connections/src/facade.rs:448-522 | the row is untouched unless it has no hash or that of the very token refreshed; otherwise every key of the merged object is given: the new access token, the new refresh token and expiry where the provider sent them, all else as it was; the hash is that of the refresh token kept; only a refused write of a rotating provider is an error and drops the cache |
| `TokenRotation.LateWriterNeverOverwrites` | crates/runtara-connections/src/facade.rs:491-500 | in every interleaving the stored tokens form one chain, each issued from the one it replaced, and a write lands exactly when the row still holds the token it was refreshed from |
| `TokenRotation.RotationHolds` | crates/runtara-connections/src/facade.rs:445-522 | with single-use tokens, at all times the provider's one live token is the stored one, or its successor is held by exactly one process yet to persist, or was lost with a refused write |
| `TokenRotation.ReconnectKeepsGuardIff` | crates/runtara-connections/src/repository/connections.rs:1008-1034 | after a reconnect the guard accepts exactly the stored token if and only if no hash was stored and no process is in flight |
| `TokenRotation.ReconnectKeepsInvIff` | crates/runtara-connections/src/repository/connections.rs:1008-1034 | a reconnect keeps the invariant of the protocol under the same condition and no other |
| `TokenRotation.ReconnectBeforeRotationIsSafe` | crates/runtara-connections/src/repository/connections.rs:1008-1034 | under that condition every later run has one chain of tokens and lands a write exactly on the token it came from |
| `TokenRotation.ReconnectIsSafeIff` | crates/runtara-connections/src/repository/connections.rs:1008-1034 | all later runs are safe in that sense if and only if no hash was stored and no process is in flight |
| `TokenRotation.InFlightWriteReplacesGrant` | crates/runtara-connections/src/repository/connections.rs:1059-1099 | a write in flight during a reconnect replaces the new grant if it was refreshed from the replaced token, and is dropped otherwise |
| `TokenRotation.ReconnectAfterRotationIsStuck` | crates/runtara-connections/src/repository/connections.rs:1008-1034 | reconnecting an idle, once rotated connection: no later write lands in any run, and once the token is retired the row holds a dead token for good |
| `TokenRotation.WedgedForever` | crates/runtara-connections/src/repository/connections.rs:1059-1099 | a row whose hash stands for another token than the stored one, with every process in flight working on the stored one, never changes again without a reconnect |
| `TokenRotation.ReconnectExample` | crates/runtara-connections/src/repository/connections.rs:1008-1034 | the shortest run in which the stored token is dead although nobody else wrote |
| `ComponentCache.Cache.Lookup` | crates/runtara-component-host/src/workflow.rs:308-330 | a hit on path and stamp returns the entry's component and sets its time of use to the clock, all else unchanged; a miss changes nothing |
| `ComponentCache.Cache.Insert` | crates/runtara-component-host/src/workflow.rs:346-362 | the entry is stored as given and the cache is back within 32 entries, through an eviction only if it was exceeded; no other entry is altered |
| `ComponentCache.Cache.EvictLru` | crates/runtara-component-host/src/workflow.rs:742-755 | terminates with at most 32 entries, unchanged and backed by files; an evicted entry lost its file or was used no later than every kept one, and then exactly 32 are kept |
| `ComponentCache.LeastRecentlyUsed` | crates/runtara-component-host/src/workflow.rs:745-753 | finds an entry used no later than any other |
| `ComponentCache.TimeIsLastUse` | crates/runtara-component-host/src/workflow.rs:308-362 | in every run, an entry's time is the clock reading of the last hit or store at its path |
| `ComponentCache.EvictedWereUsedEarlier` | crates/runtara-component-host/src/workflow.rs:742-755 | in every run, an entry dropped while its file exists was last hit or stored no later than every entry kept, and 32 are kept |
| `ComponentCache.LoadRemembersCommand` | crates/runtara-component-host/src/workflow.rs:280-305 | a `load` that answers from the cache leaves its command in that entry and answers with its component; otherwise it answers with its own |
| `ComponentCache.Cache.CommandFor` | crates/runtara-component-host/src/workflow.rs:280-305 | the command wraps the current entry's component, or the caller's own if the entry is gone, and is remembered in its entry |
| `ComponentCache.StepKeepsInv` | crates/runtara-component-host/src/workflow.rs:280-362 | every step of every call and every redeploy keeps: content at least as new as the stamp, a command wraps its own entry, at most 32 entries, fresh results |
| `ComponentCache.LoadInstancePreIsFresh` | crates/runtara-component-host/src/workflow.rs:308-362 | in every interleaving, what `load_instance_pre` returns is at least as new as the file was at the call's stat |
| `ComponentCache.FreshnessIffDistinct` | crates/runtara-component-host/src/workflow.rs:233-243 | all runs are fresh if and only if no two versions of a file share a stamp |
| `ComponentCache.CollidingStampsGoStale` | crates/runtara-component-host/src/workflow.rs:308-330 | any two versions with one stamp give a run that returns the older for the newer |
| `ComponentCache.LoadIsFreshIff` | crates/runtara-component-host/src/workflow.rs:280-305 | with distinct stamps, a `load` call at any point answers fresh in every continuation if and only if no call at its path holds an older compiled component, nor, once it has its own, does the cache |
| `ComponentCache.LoadAtStatIsFreshIff` | crates/runtara-component-host/src/workflow.rs:280-362 | seen from the stat: if and only if every component compiled for the path and not yet stored is of the version now deployed |
| `ComponentCache.RunKeepsNoneOlder` | crates/runtara-component-host/src/workflow.rs:280-362 | that condition is kept by every run, up to the call's answer |
| `ComponentCache.OlderStoreGoesStale` | crates/runtara-component-host/src/workflow.rs:280-305 | whenever it fails there is a continuation in which `load` answers with the older component, even from a full cache |
| `ComponentCache.StaleLoadExample` | crates/runtara-component-host/src/workflow.rs:280-305 | a run with distinct stamps in which `load` returns an older component |
| `Interruption.WorkflowLimiter.MemoryGrowing` | crates/runtara-component-host/src/workflow.rs:135-148 | grants exactly the requests within the cap and keeps the account of peak and denial |
| `Interruption.GrowKeepsLimiter` | crates/runtara-component-host/src/workflow.rs:127-157 | the peak stays the largest granted growth, within the cap; a denial is on record exactly when a request exceeded it |
| `Interruption.EndsOnTime` | crates/runtara-component-host/src/workflow.rs:411-490 | for every guest behaviour a run lasts at most two ticks past its stop time, and at most one if that lies a tick or more after the start |
| `Interruption.SecondTickIsReal` | crates/runtara-component-host/src/workflow.rs:431-455 | for every earlier stop time, by budget or by cancellation, there is a guest that outlives it by more than one tick |
| `Interruption.OneTickIffStopsLate` | crates/runtara-component-host/src/workflow.rs:411-455 | all runs that should stop at a given time do so within one tick if and only if it lies a tick or more after the start |
| `Interruption.OneTickIff` | crates/runtara-component-host/src/workflow.rs:411-455 | all runs of a call stop within one tick if and only if the call cannot be cancelled and its budget is a tick or more |
| `Interruption.BlockedTimeMeansTheRingEndsIt` | crates/runtara-component-host/src/workflow.rs:411-455 | past the stop time, when a ring is due, its next step ends the run |
| `Interruption.RingLetsTimePass` | crates/runtara-component-host/src/workflow.rs:411-455 | before the stop time, the due ring's next step lets a whole tick pass |
| `Interruption.ExitIsJustified` | crates/runtara-component-host/src/workflow.rs:457-490 | a timeout means the budget elapsed, a cancellation that the flag was raised, a memory-limit failure that a grow was denied, a plain failure that none was; the peak is the largest granted growth and within the cap |
| `Interruption.ExitIsExact` | crates/runtara-component-host/src/workflow.rs:457-490 | every ended run was ended by one event, and each of the six exits holds if and only if that event was the one it names: a good or bad return, a trap with or without a denied grow, a ring with or without the flag raised |
| `Interruption.DispatcherAgrees` | crates/runtara-component-host/src/dispatcher.rs:390-445 | without a cancel flag the dispatcher classifies every run as the executor does |
| `Compensation.CompensationManager.TriggerCompensation` | crates/runtara-core/src/compensation.rs:86-124 | all compensatable checkpoints are marked triggered and returned in order, and the instance with them; with none nothing changes; a persistence error leaves exactly the marks made before it |
| `Compensation.CompensationManager.CompleteCheckpointCompensation` | crates/runtara-core/src/compensation.rs:129-196 | one checkpoint gets its outcome; if that leaves none outstanding the instance gets the overall outcome, which is also the result; otherwise the instance is untouched and the result is true; an error at any of the persistence calls leaves exactly what the calls before it did |
| `Compensation.CompensationManager.GetCompensationStatus` | crates/runtara-core/src/compensation.rs:199-240 | the counters are the sizes of the sets of checkpoints in each state, those without a state left out, and the reported state is the overall one |
| `Compensation.CountsGiveOverallState` | crates/runtara-core/src/compensation.rs:204-230 | deciding by counters is deciding by: all completed, else some failed, else some triggered |
| `Compensation.InvHolds` | crates/runtara-core/src/compensation.rs:86-196 | every interleaving of the trigger and the workers, with errors anywhere, keeps the invariant |
| `Compensation.AttemptsAreRecorded` | crates/runtara-core/src/compensation.rs:151-169 | in every run the log only grows and holds every attempt that was counted, with its outcome |
| `Compensation.NeverFinalTooEarly` | crates/runtara-core/src/compensation.rs:171-191 | the instance is completed or failed only when nothing is outstanding, with the right verdict, which the status report shares |
| `Compensation.FinalWhenAllReturned` | crates/runtara-core/src/compensation.rs:129-196 | once every worker returned, the instance is completed exactly when every compensation succeeded and failed otherwise |
| `Compensation.ReturnedFlag` | crates/runtara-core/src/compensation.rs:126-196 | the result is false exactly when nothing was outstanding and some compensation failed; it has its documented meaning exactly when nothing was outstanding and all succeeded |
| `Compensation.FlagIsHonestIff` | crates/runtara-core/src/compensation.rs:126-196 | seen from the store before a call that runs alone: the result tells whether all are done if and only if every other checkpoint is completed and this one succeeds |
| `Compensation.DoneButFalse` | crates/runtara-core/src/compensation.rs:175-192 | in every store, a failed compensation that comes last returns false although all are done |
| `Compensation.FinalIffNoneCutShort` | crates/runtara-core/src/compensation.rs:129-196 | for every store and every set of workers that may be cut short: all runs in which every worker has stopped end final if and only if no checkpoint of the store is among them |
| `Compensation.LeftTriggered` | crates/runtara-core/src/compensation.rs:151-191 | for every store and every worker of it, a run in which only that worker is cut short and the instance stays triggered with nothing outstanding, and which no continuation changes |
| `Conditions.NegatedLoop` | crates/runtara-dsl/src/condition_eval.rs:79-103 | the loop over negated arguments with the opposite stop value reads the same, stops at the same place, fails with the same error, and yields the negation |
| `Conditions.DeMorgan` | crates/runtara-dsl/src/condition_eval.rs:79-103 | both De Morgan laws, including the error returned and where evaluation stops, for all arguments and contexts |
| `Conditions.LoopConcat` | crates/runtara-dsl/src/condition_eval.rs:79-103 | a loop over two lists is the first loop followed by the second if the first did not stop or fail |
| `Conditions.Flattening` | crates/runtara-dsl/src/condition_eval.rs:79-103 | a nested AND in an AND, or OR in an OR, can be spliced in anywhere without changing value, error or reads |
| `Conditions.StrictSucceedsIff` | crates/runtara-dsl/src/condition_eval.rs:71-162 | evaluation without short circuit succeeds if and only if every operator node is client-evaluable with the right arity |
| `Conditions.ShortCircuitAgrees` | crates/runtara-dsl/src/condition_eval.rs:71-162 | whenever strict evaluation succeeds, the short-circuiting one gives the same value |
| `Conditions.WellFormedNeverFails` | crates/runtara-dsl/src/condition_eval.rs:211-230 | a well-formed expression evaluates in every context |
| `Conditions.ErrorsAreBlamed` | crates/runtara-dsl/src/condition_eval.rs:71-230 | every error names a node of the expression that is server-only or has the wrong number of arguments |
| `Conditions.DependsOnlyOnReads` | crates/runtara-dsl/src/condition_eval.rs:154-209 | contexts that agree at the paths actually read give the same evaluation |
| `Conditions.ReadsAreReferences` | crates/runtara-dsl/src/lib.rs:377-386 | every path read is one of the expression's collected references |
| `Conditions.DependsOnlyOnReferences` | crates/runtara-dsl/src/condition_eval.rs:46-230 | contexts that agree at the expression's reference paths give the same value or error, and the same reads |
| `Conditions.StringOrderIsTotal` | crates/runtara-dsl/src/condition_eval.rs:246-271 | the string order is total and strict |
| `Conditions.OrderNegatesIff` | crates/runtara-dsl/src/condition_eval.rs:246-271 | GT negates LTE, and LT negates GTE, if and only if both values are numbers or both are strings |
| `Conditions.ValueByPath` | crates/runtara-dsl/src/condition_eval.rs:194-209 | the moving cursor ends at the value the path denotes, null if a segment is missing |
| `Conditions.ResolveMappingValue` | crates/runtara-dsl/src/condition_eval.rs:164-192 | immediate values as they are; a reference its value, its default where that is null, else null; null for composites and templates |
| `Conditions.EvaluateLoop` | crates/runtara-dsl/src/condition_eval.rs:79-96 | the early-return loops compute the specified AND and OR |
| `Conditions.EvaluateFixed` | crates/runtara-dsl/src/condition_eval.rs:97-152 | operators of fixed arity evaluate arguments left to right up to the first error |
| `Conditions.EvaluateExpression` | crates/runtara-dsl/src/condition_eval.rs:61-152 | the evaluator computes the specified outcome for every expression |
| `Conditions.EvaluateCondition` | crates/runtara-dsl/src/condition_eval.rs:46-52 | false exactly on null, false, zero and empty values; or the error |
| `ConditionLaws.JunctionsDecide` | crates/runtara-dsl/src/condition_eval.rs:79-96 | AND is false at the first void argument, OR true at the first that is not, either fails where an argument fails before that, and the end decides otherwise |
| `ConditionLaws.NotAndDefined` | crates/runtara-dsl/src/condition_eval.rs:97-138 | NOT is true exactly on void values, IS_DEFINED on all but null |
| `ConditionLaws.Sizes` | crates/runtara-dsl/src/condition_eval.rs:297-315 | LENGTH counts characters, elements or fields; IS_EMPTY and IS_NOT_EMPTY say whether there are none |
| `ConditionLaws.StartsWithIff` | crates/runtara-dsl/src/condition_eval.rs:232-244 | STARTS_WITH holds if and only if both are strings and the left is the right followed by something |
| `ConditionLaws.EndsWithIff` | crates/runtara-dsl/src/condition_eval.rs:232-244 | ENDS_WITH holds if and only if both are strings and the left is something followed by the right |
| `ConditionLaws.ContainsIff` | crates/runtara-dsl/src/condition_eval.rs:317-323 | CONTAINS holds if and only if the right string stands in the left, or an element of the left array is the right value or denotes the same real |
| `ConditionLaws.InIff` | crates/runtara-dsl/src/condition_eval.rs:325-330 | IN and NOT_IN by membership up to numeric equality |
| `ConditionLaws.NumbersCompare` | crates/runtara-dsl/src/condition_eval.rs:246-284 | on numbers the six comparisons are those of the reals denoted |
| `ConditionLaws.StringsCompare` | crates/runtara-dsl/src/condition_eval.rs:246-278 | on strings they are those of the order by the first differing position |
| `ConditionLaws.OthersCompare` | crates/runtara-dsl/src/condition_eval.rs:246-278 | on other pairs only equality is decided |
| `ConditionLaws.WrongOperation` | crates/runtara-dsl/src/condition_eval.rs:71-78 | server-only operators and wrong argument counts fail with their own error before anything is read |
| `ConditionLaws.FirstErrorWins` | crates/runtara-dsl/src/condition_eval.rs:102-126 | the leftmost failing argument is the error |
| `ConditionLaws.SplitCutsAtDots` | crates/runtara-dsl/src/condition_eval.rs:199-199 | joining the segments of a path with dots gives it back, and no segment holds a dot |
| `ConditionLaws.PathLeadsToChild` | crates/runtara-dsl/src/condition_eval.rs:194-209 | a path leads one field further than the path without its last segment |
| `ConditionLaws.CollectedReferences` | crates/runtara-dsl/src/lib.rs:432-439 | a composite collects exactly what its parts collect |
| `Coercion.PrintedForms` | crates/runtara-agent-macro/src/lib.rs:568-604 | what a printed type can look like: an identifier, `ident<T>` for one printed argument, or a string with punctuation no base name has |
| `Coercion.ExtractUndoesPrint` | crates/runtara-dsl/src/coercion.rs:180-187 | stripping `wrapper<` and `>` undoes the printer, and finds nothing in other unmarked printed types |
| `Coercion.StringCoercionIsStructural` | crates/runtara-dsl/src/coercion.rs:47-187 | for every type and value, coercing by the printed and option-stripped string is coercing by the type's structure |
| `Coercion.CoercionIsIdempotent` | crates/runtara-dsl/src/coercion.rs:47-187 | coercing twice is coercing once, for every value and every type string |
| `Coercion.CoerceInput` | crates/runtara-dsl/src/coercion.rs:148-159 | the remove-and-insert loop coerces field after field; non-objects pass unchanged |
| `Coercion.CoerceFieldsPerField` | crates/runtara-dsl/src/coercion.rs:148-159 | no field appears or disappears, undeclared ones are untouched, declared ones are coerced from their original value |
| `Coercion.DeclaredFieldsAreCoercedByType` | crates/runtara-agent-macro/src/lib.rs:1315-1326 | end to end, from declared Rust types through printed metadata: each declared field is coerced by its type's structure, all others untouched, and a second pass changes nothing |
| `CoercionLaws.FieldIsConverted` | crates/runtara-dsl/src/coercion.rs:47-178 | the table of conversions, by kind of value and type name, under `Option` and elementwise under `Vec`; every other pair is unchanged |
| `CoercionLaws.NamedFieldIsConverted` | crates/runtara-dsl/src/coercion.rs:56-120 | the same table for coercion by a plain type name |
| `CoercionLaws.InputIsConverted` | crates/runtara-dsl/src/coercion.rs:148-159 | and for every declared field of a whole input |
| `CoercionLaws.PrintedText` | crates/runtara-agent-macro/src/lib.rs:568-604 | the exact text printed for generics, paths, the unit type and other types |
| `CoercionLaws.OptionIsUnwrapped` | crates/runtara-agent-macro/src/lib.rs:1315-1326 | the name and the optional flag derived for an `Option` and for a plain type |
| `ProcessTree.IndexChildren` | scripts/measure_memory.py:469-471 | the index lists exactly the children of each parent |
| `ProcessTree.Walk` | scripts/measure_memory.py:473-482 | terminates on every table, cyclic or not, having seen exactly the processes reachable from positive roots |
| `ProcessTree.EndIsExact` | scripts/measure_memory.py:473-482 | with an empty stack the seen set is exactly the reachable one |
| `ProcessTree.CollectTree` | scripts/measure_memory.py:468-486 | the pids are exactly the reachable ones in ascending order, each summed once |
| `ProcessTree.SumsAddUp` | scripts/measure_memory.py:484-485 | the sums add over lists and are a process's own figures for one process |
| `WorkflowGraphs.ReadUndoesRender` | scripts/measure_memory.py:252-260 | the spelling of step ids is injective for every number |
| `WorkflowGraphs.DistinctIsSpelledApart` | scripts/measure_memory.py:252-260 | the distinct ids of a graph are distinct as the strings that key its dictionary; every sound graph, nested ones included, has this |
| `WorkflowGraphs.CountStepsOf` | scripts/measure_memory.py:198-207 | the recursive loop counts all steps, nested graphs included |
| `WorkflowGraphs.PathsClimb` | scripts/measure_memory.py:234-393 | along every path of a certified graph the insertion order strictly rises |
| `WorkflowGraphs.CertifiedIsSound` | scripts/measure_memory.py:234-393 | a certified graph has distinct ids, existing endpoints, all steps reachable, no cycle, paths no longer than the step count, and only finish as an end |
| `WorkflowGraphs.Grow` | scripts/measure_memory.py:251-261 | appending a step with edges from existing steps keeps the certificate |
| `WorkflowGraphs.BuildLinearGraph` | scripts/measure_memory.py:234-262 | fails exactly below 2 steps; otherwise a sound graph with exactly the requested number of steps; the kinds of all steps in order |
| `WorkflowGraphs.BuildBranchingGraph` | scripts/measure_memory.py:265-312 | fails exactly below 4 steps; otherwise a sound graph with exactly the requested number of steps, in which exactly the edges out of conditions are labelled, each with the branch it leads to; the kinds of all steps in order |
| `WorkflowGraphs.SubgraphIsSound` | scripts/measure_memory.py:315-344 | the body of a Split step is itself sound |
| `WorkflowGraphs.BuildSplitGraph` | scripts/measure_memory.py:347-393 | fails exactly below 4 steps; otherwise a graph, sound with all its nested graphs, whose total count is the requested one and whose finish returns the outputs of the step right before it; the kinds of all steps in order, with the parallelism and the bodies of Split steps |
| `WorkflowGraphs.BuildWorkflow` | scripts/measure_memory.py:396-413 | succeeds exactly for a known shape with enough steps, with the kinds of that shape; the count check at the end never fires |
| `Fingerprint.Fnv1a64.Write` | crates/runtara-server/build.rs:314-319 | the state becomes the hash of the bytes from the old state |
| `Fingerprint.HashConcat` | crates/runtara-server/build.rs:314-319 | writes compose over concatenation |
| `Fingerprint.WrappingMulIsUndone` | crates/runtara-server/build.rs:317-317 | multiplication by the odd prime modulo 2^64 has an inverse |
| `Fingerprint.MixIsInjective` | crates/runtara-server/build.rs:315-318 | one step is injective in the state for a byte and in the byte for a state |
| `Fingerprint.HashIsInjective` | crates/runtara-server/build.rs:314-319 | hashing the same bytes from different states never collides |
| `Fingerprint.OneByteChangesHash` | crates/runtara-server/build.rs:314-319 | streams that differ in exactly one place hash differently |
| `Fingerprint.HexIsInjective` | crates/runtara-server/build.rs:276-276 | fixed-width hexadecimal printing is injective |
| `Fingerprint.HexReadsBack` | crates/runtara-server/build.rs:276-276 | the digits printed are lower-case hexadecimal and stand for the number |
| `Fingerprint.PublishedVector` | crates/runtara-server/build.rs:309-319 | the published FNV-1a value of "a" |
| `Fingerprint.XorByBits` | crates/runtara-server/build.rs:316-316 | exclusive or has a one exactly where the binary digits differ |
| `Fingerprint.StreamIsParts` | crates/runtara-server/build.rs:258-274 | what is hashed is the version and, file after file, path, zero byte, content, zero byte |
| `Fingerprint.VersionByteChangesFingerprint` | crates/runtara-server/build.rs:259-259 | replacing one byte of the version always changes the digits |
| `Fingerprint.PathByteChangesFingerprint` | crates/runtara-server/build.rs:261-264 | replacing one byte of one path always changes the digits |
| `Fingerprint.ValidationWasmFingerprint` | crates/runtara-server/build.rs:251-277 | the loop over files prints the hash of version, paths and contents with their separators |
| `Fingerprint.OneByteChangesFingerprint` | crates/runtara-server/build.rs:251-277 | replacing one byte of one file always changes the sixteen digits |
| `Fingerprint.StoredLineReadsBack` | crates/runtara-server/build.rs:107-109 | trimming the stored line gives back the fingerprint |
| `Fingerprint.TrimIsExact` | crates/runtara-server/build.rs:107-109 | trimming takes off the white space at both ends and nothing else |
| `Fingerprint.OutputDir.BuildIfNeeded` | crates/runtara-server/build.rs:84-166 | up to date exactly when all outputs exist and the stored fingerprint matches; otherwise rebuilt and stored, or a panic without the tool |
| `Fingerprint.OneByteForcesRebuild` | crates/runtara-server/build.rs:103-115 | after a build, the files with one byte replaced are up to date if and only if the byte is the same |
| `S3Listing.NoMatchBefore` | crates/runtara-agents/src/s3_client.rs:418-424 | pieces without a tag contain no match of it, not even one that runs on into what follows |
| `S3Listing.ExtractIsReadField` | crates/runtara-agents/src/s3_client.rs:418-424 | on every document of text and whole tags, extraction returns what lies between the first opening tag and the next closing tag |
| `S3Listing.SplitIsSplitBlock` | crates/runtara-agents/src/s3_client.rs:397-397 | splitting the string at a tag is splitting the pieces at it |
| `S3Listing.ParsedIsReadListing` | crates/runtara-agents/src/s3_client.rs:393-424 | on every such document, whatever its tags and nesting, the parser finds what a reader of whole tags finds |
| `S3Listing.FieldReadsBack` | crates/runtara-agents/src/s3_client.rs:398-403 | in a row of optional elements with different names every field reads back |
| `S3Listing.EntriesReadBack` | crates/runtara-agents/src/s3_client.rs:397-413 | each block reads as its own entry's object, in order, the last one running on into the tail |
| `S3Listing.ParseListObjectsXml` | crates/runtara-agents/src/s3_client.rs:393-416 | the loop computes the specified objects and token for every string |
| `S3Listing.ParsingUndoesRendering` | crates/runtara-agents/src/s3_client.rs:393-424 | parsing a listing gives back exactly its keyed entries in order, defaults for omitted fields and nothing from a neighbour, and the optional token, whatever other elements stand before, in, between and after the entries, in whatever order, and wherever the token stands |
| `S3Listing.S3ListingReadsBack` | crates/runtara-agents/src/s3_client.rs:393-424 | in particular for plain entries with the token before, between or after them |
| `S3Listing.KeyedEntriesSurvive` | crates/runtara-agents/src/s3_client.rs:405-413 | if every entry has a key, all come back, each in its place |
| `S3Listing.WrittenOut` | crates/runtara-agents/src/s3_client.rs:395-413 | with the tag names written out: each element goes to the field of its name |
| `Decimal.ShowReadsBack` | crates/runtara-agents/src/s3_client.rs:399-401 | reading a printed number gives the number |
| `Decimal.ParseU64Iff` | crates/runtara-agents/src/s3_client.rs:399-401 | exactly the digit strings below 2^64, with or without a plus sign, are read, as the number they stand for |

## Left out

- IEEE rounding and Lua's number printing in the token bucket: tokens are exact reals.
- Two-way rounding of JSON numbers to `f64` in conditions: numbers project to reals; NaN cannot occur in JSON.
- The limiter's cap on table elements: one comparison, with nothing recorded.
- Redis, SQL, HTTP and OpenTelemetry transport: the script and each persistence call are single atomic steps.
- Wasmtime, WASI and tokio: only the step structure the executor depends on is modelled. Host calls that block their thread without yielding are outside it, as they are outside the executor's promise.
- Persistence contracts of compensation: the repository has only default bodies for them, so each call is taken as atomic, the pending count as the checkpoints neither completed nor failed, and the compensatable checkpoints as fixed once triggered. Each checkpoint has one worker.
- ComponentCache.LoadInstancePreIsFresh: a compile reads one version of the file; a file that changes while it is being read is not modelled.
- ComponentCache: hashing order among equally old entries is a free choice.
- Fingerprint: walking directories and sorting paths; the files come as a list. Trimming knows ASCII white space only.
- Coercion: the standard library's number parsers and printers are parameters of which nothing is assumed; identifiers are free of the printer's punctuation, as Rust's are.
- Conditions: parsing and serialising expressions.
- S3Listing: XML escaping and comments, which the parser does not know either; a tag with attributes is one with another name. The bucket listing beside it works the same way.
- WorkflowGraphs: names, schemas and payload variables of the generated documents.
- Collecting terminal errors in the DSL, metadata tables, routers, URL validation and encodings: they would only add easy members.
