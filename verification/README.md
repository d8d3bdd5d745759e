# eon-id: a verified model

eon-id hands out 63-bit identifiers made of a millisecond timestamp, a datacenter id, a worker id and a
sequence number. Three parts of it are modelled here.

- The **generator** takes one sequence number after another under an arbitrary wall clock, with three policies
  for a clock that runs backward, an optional pre-filled sequence cache, and a bounded retry loop. Its class
  carries the source's fields and its loops; each method is proved against a function of the old state
  (`GeneratorSpec.Try` is one attempt without any cache), and the theorems are about that function over whole runs.
- The **worker-id lease protocol** lets many instances share one Redis: a counter hands out candidate ids, a key
  per worker id carries the owner's instance id and an expiry, heartbeats renew it, recovery replaces a lost id,
  and a gate before generation closes when the lease may be gone. It appears three times. The classes
  `WorkerIDManager`, `RedisServer` and `PlugSnowflake` run one instance as the source does; `Lifecycle`
  interleaves the goroutines of one manager at its mutex and atomic flags; `FleetSpec` interleaves any number of
  instances in any number of datacenters, with a Redis command, its answer, and each local section as separate steps.
- The **rate limiter** is a token bucket per client with whole-second refill and eviction of idle buckets.

## How the files fit together

| file | content |
|---|---|
| `Bits.dfy`, `MixedRadix.dfy` | shifts, masks and wrap-around of 64-bit words; four-digit positional arithmetic |
| `Snowflake.dfy` | layouts, packing, parsing |
| `GeneratorSpec.dfy`, `Generator.dfy` | one attempt as a function; the generator object |
| `GeneratorRuns.dfy`, `GeneratorIds.dfy` | all runs of one generator: sequence numbers, order, clock, identifiers |
| `GeneratorProgress.dfy` | what a generator is bound to do: issue under a steady clock, catch up after a wait |
| `GeneratorReplay.dfy` | runs of generator objects against those runs, with and without the cache |
| `StoreKeys.dfy`, `RedisSpec.dfy` | names of the store's entries; counter script, keys with expiry, heartbeat script |
| `ManagerSpec.dfy`, `WorkerManager.dfy`, `Plugin.dfy` | manager sections as functions; store, manager and plugin objects |
| `Lifecycle.dfy` | one manager's goroutines, interleaved |
| `FleetSpec.dfy` | many instances on one store, step by step |
| `FleetLease.dfy` | keys, deadlines and worker ids: an invariant of every fleet |
| `FleetOrphans.dfy` | gates that reopen after unregistration, and the keys withheld for as long |
| `FleetInvariant.dfy`, `FleetStore.dfy` | who may issue and what was issued: an invariant of careful fleets |
| `FleetTheorems.dfy` | uniqueness and lease results |
| `FleetLimits.dfy`, `FleetGate.dfy` | runs that show every condition is needed; the exact conditions |
| `FleetRecovery.dfy` | runs that recover under a fresh id, lose an answer, or give up |
| `HeartbeatSlack.dfy` | whether heartbeats come often enough |
| `RateLimiterSpec.dfy`, `RateLimiter.dfy` | buckets and limiter as functions; as objects |

## What the proofs found

- Packing and parsing are inverse exactly while `timestamp - epoch < 2^(63 - shift)`; the timestamp range check in
  `ParseID` (generator.go:494-499) never rejects a non-negative identifier.
- The (timestamp, sequence) pairs of one generator strictly increase if and only if no attempt goes on at a
  millisecond after its overflow wait. The code does not ensure that: generator.go:307-313 has already set the
  sequence to 0 when it asks for the wait, so a reading of the same millisecond issues sequence number 1 again
  (`GeneratorIds.StandingClockReissues`, in every drift mode).
- The branch for an invalid cache entry (generator.go:294-304) is never taken, and the deferred cleanup of a
  heartbeat loop (worker_manager.go:324-332) never has anything left to clear.
- `RegisterSpecificWorkerID` does not read the shutdown flag: shutdown is final exactly in the interleavings in
  which it claims nothing afterwards (`Lifecycle.ShutdownIsFinalIff`).
- An open gate means ownership of the worker id if and only if the slack covers the delay of a heartbeat's answer
  and the fraction of a second that the heartbeat's TTL loses, and unregistration does not overtake a heartbeat in
  flight (`FleetGate.GateMeansOwnedIff`). The lease deadline of a registration never exceeds its key; that of a
  renewed lease does by at most that delay and fraction, which is attained. Both hold of every fleet.
- The fleet issues no identifier twice if and only if four conditions hold, or its gates never open because callers
  stop more than a TTL before the deadline (`FleetLimits.SafeExactlyWhenCareful`, for every accepted setting):
  - callers stop long enough before the lease deadline to cover the delay of a heartbeat's answer, the fraction of a
    second that the heartbeat's TTL loses, and the time from gate to attempt, but no more than a TTL before it;
  - a deleted key is not granted again while a call may still be under way;
  - where unregistration can overtake a heartbeat in flight or a loop's own health store, that pause also covers the
    delay of the answer and the rest of a TTL, for which the gate may stay open without a key;
  - the clock has moved on after an overflow wait.
- Open gates before one worker id are excluded if and only if the corresponding conditions without the time from gate
  to attempt hold (`FleetGate.GatesDisjointIff`).
- The code itself stops exactly at the deadline. It is safe only when answers and attempts take no time, the TTL is
  whole seconds, attempts are patient, and a deleted key stays free for a millisecond, or for more than a TTL when
  unregistration can overtake a heartbeat (`FleetGate.OwnGateSafeIff`).
- Eviction of idle buckets can be noticed if and only if the capacity is positive and exceeds the whole seconds in
  the TTL plus one nanosecond.
- README.md of the repository says that ignore mode goes on at `lastTimestamp + 1`. The code stays on
  `lastTimestamp` and adds a millisecond only when that one is used up (generator.go:269-276, 350-367); the model
  follows the code.

## Model

| member | source | states |
|---|---|---|
| Snowflake.PackedWordIsSum | generator.go:327-330 | for every timestamp, even past the lifetime, the shift/or word is the arithmetic sum of the fields with the timestamp offset cut to the bits above the shift |
| Snowflake.PackIsSum | generator.go:83-90 | within the lifetime the identifier is the sum of offset, datacenter, worker and sequence, each scaled by its shift, and lies in 0..2^63-1 |
| Snowflake.PackSign | generator.go:327-330 | until twice the lifetime has passed, an identifier is non-negative exactly within the lifetime |
| Snowflake.AtLeast41TimestampBits | generator.go:597-614 | every accepted bit allocation leaves at least 2^41 milliseconds |
| Snowflake.AcceptedAllocations | generator.go:597-614 | the accepted bit allocations are exactly those within the stated limits on each field, on the total, and on the share of the sequence |
| Snowflake.ParseAcceptsNonNegative | generator.go:483-508 | every non-negative int64 is parsed, into parts that fit their fields and the lifetime |
| Snowflake.ParseRefusesNegative | generator.go:484-486 | exactly the negative identifiers are refused |
| Snowflake.ParseOfPack | generator.go:483-508 | parsing a packed identifier gives back all four parts if and only if the timestamp is within the lifetime |
| Snowflake.PackOfParse | generator.go:483-508 | packing the parsed parts of any non-negative int64 restores it, so both are bijections |
| Snowflake.PackPreservesOrder | generator.go:327-330 | identifiers are ordered as (timestamp, datacenter, worker, sequence), in both directions |
| Snowflake.PackInjective | generator.go:327-330 | two identifiers are equal if and only if all parts are |
| GeneratorSpec.NextSequence | generator.go:307 | incrementing under the mask counts up to the maximum and then starts at zero |
| GeneratorSpec.AttemptIsDecided | generator.go:205-322 | in each drift mode an attempt fails, waits or issues exactly when flag, reading, last timestamp and used-up sequence stand as stated, with tolerance, 5 s and one hour as limits |
| GeneratorSpec.AttemptReports | generator.go:219-330 | error, duration of a wait, and the four parts and the new state of an issue, case by case |
| GeneratorObject.Generator.constructor | generator.go:55-127 | a new generator has issued nothing and carries the given worker id |
| GeneratorObject.Generator.RefillSequenceCache | generator.go:516-564 | the cache holds 1, 2, ... up to its length or the largest sequence number, and zeros beyond |
| GeneratorObject.Generator.HandleSequenceOverflow | generator.go:350-367 | in ignore mode the next synthetic millisecond, otherwise a wait; timestamp and worker stay as they are |
| GeneratorObject.Generator.ConsumeSequence | generator.go:284-324 | with the cache or without it the sequence number taken is that of the cacheless function, and the cache is hit exactly when it still has entries for the same millisecond |
| GeneratorObject.Generator.CheckClockDriftNoSleep | generator.go:370-395 | reports a forward jump of more than the tolerance, in error mode only, and never on the first call |
| GeneratorObject.Generator.TryGenerateID | generator.go:201-336 | outcome and new state are those of the cacheless attempt, the identifier is the packed outcome, and the invalid-entry branch is dead |
| GeneratorObject.Generator.SetWorkerID | generator.go:415-422 | an id out of range changes nothing, any other replaces the worker id and nothing else |
| GeneratorObject.Generator.Shutdown | generator.go:469-480 | only the shutdown flag changes |
| GeneratorObject.Generator.Serve | generator.go:201-336 | any sequence of attempts, worker switches and shutdowns gives the outcomes and the state of the cacheless run, each with its identifier |
| GeneratorObject.Generator.SleepOutsideLock | generator.go:183-195 | a drift wait is cut only where it would reach past the deadline, counted from the time of the remaining budget, and then ends there; an overflow wait is the fixed spin sleep |
| GeneratorObject.Generator.BeforeRetry | generator.go:168-195 | the call gives up exactly when the shutdown flag is seen or the budget is spent; otherwise time moves on by the sleep, which ends at most one spin sleep past the deadline |
| GeneratorObject.Generator.AttemptOnce | generator.go:141-196 | an attempt either ends the call as its outcome, flag and clock demand, or leaves it in its next round |
| GeneratorObject.Generator.GenerateID | generator.go:131-197 | for any interleaved work of other goroutines it terminates; no attempt follows a shutdown that was seen or a spent budget; an issued timestamp is the reading of the last attempt, in ignore mode at most an hour and a millisecond later, and the identifier is its packed parts; at most one is issued, and total requested sleep is at most 2 s + 50 µs |
| GeneratorRuns.RunIsDense | generator.go:201-336 | in every reachable state every past millisecond has used 0..k, the current one 0..top, and no later one any |
| GeneratorRuns.SequenceNumbersAreDense | generator.go:295-322 | at every timestamp of every run the issued sequence numbers are 0..k without a gap |
| GeneratorRuns.OverflowMeansFull | generator.go:307-314 | an overflow wait or a synthetic millisecond comes only after all sequence numbers of the last one were issued |
| GeneratorRuns.ReissueDuplicates | generator.go:307-313 | an attempt that does go on hands out a pair that is already in the history |
| GeneratorRuns.PairsAscendIffNeverReissued | generator.go:201-336 | over every run in every drift mode with arbitrary worker switches, the issued (timestamp, sequence) pairs strictly increase, and are distinct, if and only if no attempt goes on after its overflow wait |
| GeneratorReplay.HistoryIsIssued | generator.go:201-336 | the history of every run is, in order, what its outcomes issued, and its state the one the inputs lead to |
| GeneratorReplay.Replay | generator.go:201-336 | a generator object, cached or not, answers any inputs with the outcomes of the run, issues exactly the tickets of its history, and returns their packed identifiers |
| GeneratorReplay.CacheIsInvisible | generator.go:284-322 | two generator objects that differ only in the cache, run on the same readings, worker switches and shutdowns, return the same identifiers, waits and errors; only the hits differ, and without a cache there are none |
| GeneratorIds.TimestampsFollowClock | generator.go:219-280 | over whole runs a timestamp is its reading in wait and error mode, at most an hour and a millisecond ahead in ignore mode; timestamps never go back, and under protection in error mode never jump beyond the tolerance |
| GeneratorIds.WaitBridgesDrift | generator.go:244-258 | after the wait that wait mode asks for, the clock has caught up and the next attempt issues, unless the longest wait ends on a last millisecond that is used up; the wait is never more than one millisecond beyond the drift |
| GeneratorIds.TicketsArePackable | generator.go:326-330 | readings within the lifetime, in ignore mode less its drift margin, give only identifiers within the lifetime |
| GeneratorIds.DisciplinedIdsAreDistinct | generator.go:201-336 | identifiers of a disciplined run are distinct across worker switches, and increase whenever the millisecond moves on or the worker is the same |
| GeneratorIds.IdsDistinctIffNeverReissued | generator.go:201-336 | under one worker id the identifiers are distinct if and only if the run never goes on after an overflow wait |
| GeneratorIds.OneMillisecond | generator.go:284-315 | n+1 readings of one millisecond leave the sequence at n and nothing exhausted, up to the maximum |
| GeneratorIds.StandingClockReissues | generator.go:307-313 | a clock that stands still across the overflow wait makes a generator issue a pair twice, in every drift mode |
| GeneratorProgress.SteadyClockNeverFails | generator.go:219-322 | readings that never go back, and in error mode never step beyond the tolerance, fail nowhere before a shutdown, wait only for a used-up millisecond, and leave the generator at the last reading |
| GeneratorProgress.EveryReadingAnswered | generator.go:201-336 | every attempt of a run is answered, and outside ignore mode whatever it issues is issued at its own reading |
| GeneratorProgress.IssuesUnderLastWorker | generator.go:415-422 | an identifier carries the worker id set last within range, and the configured datacenter |
| GeneratorProgress.NothingAfterShutdown | generator.go:205-211 | after a shutdown every attempt at every reading is refused |
| GeneratorProgress.OverflowIsOvercome | generator.go:191-195 | a call alone on a used-up millisecond ends with its second attempt, at sequence 0 of the later millisecond it then reads |
| GeneratorProgress.DriftIsOvercome | generator.go:183-190 | a call alone in wait mode goes on through readings up to 5 s behind while the budget lasts, and issues at the first later reading |
| GeneratorProgress.CallAfterOverflow | generator.go:131-197 | the object returns the packed identifier of that millisecond and stands at it |
| GeneratorProgress.CallAfterDrift | generator.go:131-197 | the object returns the packed identifier of the first later reading and stands at it |
| StoreKeys.ParseOfDecimal | worker_manager.go:741-749 | a printed number is read back exactly when it fits 64 bits |
| StoreKeys.NormalizeKeyPrefix | worker_manager.go:774-782 | the prefix ends in a separator; an empty one is the default, a well-ended one is unchanged, any other gains a colon |
| StoreKeys.WorkerKeysCollideIff | worker_manager.go:785-791 | two worker keys are equal if and only if prefix, datacenter and worker id are |
| StoreKeys.CounterKeysCollideIff | worker_manager.go:793-795 | two counter keys are equal if and only if prefix and datacenter are |
| StoreKeys.KindsOfKeysDisjoint | worker_manager.go:785-799 | worker keys, counter keys and registry keys never coincide, whatever the prefixes |
| StoreKeys.MemberRoundTrip | worker_manager.go:734-749 | a registry member splits and parses back into its datacenter and worker id, for all 64-bit ids |
| RedisSpec.ReturnsSuccessorResidue | lua_scripts.go:10-19 | from any non-negative counter both branches of the script store and return the successor residue |
| RedisSpec.ReturnedValue | lua_scripts.go:10-19 | execution n returns (counter + n) mod total + 1 |
| RedisSpec.FullCycle | lua_scripts.go:10-19 | any window of total consecutive executions returns each value in 1..total, and none twice |
| RedisSpec.ReturnedInRange | lua_scripts.go:6-9 | every returned value is in 1..total |
| WorkerManagerObject.RedisServer.EvalIncrWithReset | lua_scripts.go:10-19 | counter and result are those of the script as a function |
| WorkerManagerObject.RedisServer.SetNX | worker_manager.go:155 | claims a key exactly when it is absent or expired |
| WorkerManagerObject.RedisServer.EvalHeartbeat | lua_scripts.go:27-41 | refreshes a visible key of the caller and distinguishes a missing key from a foreign one |
| WorkerManagerObject.RedisServer.DeleteOwned | worker_manager.go:691-708 | every other key and every record of another instance stays as it is; the caller's own visible record is gone |
| WorkerManagerObject.FindsFreeID | worker_manager.go:112-117 | one cycle of probes meets no id twice, and meets a free key whenever one was free at its start |
| WorkerManagerObject.FirstFree | worker_manager.go:117-155 | the first probe whose key is free, with every key before it found taken |
| WorkerManagerObject.WorkerIDManager.constructor | types.go:403-416 | a manager that registers itself starts unhealthy |
| WorkerManagerObject.WorkerIDManager.IsHealthyNow | worker_manager.go:284-295 | the gate is open exactly with the flag set and the deadline absent or not passed; the flag is left as the answer |
| WorkerManagerObject.WorkerIDManager.StartHeartbeatLocked | worker_manager.go:299-312 | starts one loop with a new context unless one is running, after cancelling any earlier one |
| WorkerManagerObject.WorkerIDManager.StopHeartbeatLocked | worker_manager.go:472-477 | cancels the present context and forgets it |
| WorkerManagerObject.WorkerIDManager.CleanUpAfterLoop | worker_manager.go:324-332 | clears the heartbeat only if it is still that loop's |
| WorkerManagerObject.WorkerIDManager.RegisterWorkerID | worker_manager.go:88-204 | probes each id at most once; a success is the first free key, recorded in store, manager and generator; undisturbed it succeeds whenever some id was free as it began, and reports all occupied only when every key was taken; an error leaves store and generator alone |
| WorkerManagerObject.WorkerIDManager.SettleAtOnce | worker_manager.go:92-110 | a negative maximum or an announced shutdown ends a registration with the gate shut, an existing registration with its own id, in this order; otherwise only the maximum is kept |
| WorkerManagerObject.WorkerIDManager.Acquire | worker_manager.go:108-203 | a success after n probes is id (counter + n - 1) mod total, with store record, lease, heartbeat, flag and generator set for it and no other key touched |
| WorkerManagerObject.WorkerIDManager.ProbeUntilGranted | worker_manager.go:116-203 | the retry loop: as many counter executions as probes, and on success the state of the successful probe alone |
| WorkerManagerObject.WorkerIDManager.ProbeOnce | worker_manager.go:118-197 | one probe ends granted, with its key found taken, or stopped by cancellation or a Redis error |
| WorkerManagerObject.WorkerIDManager.NextCandidate | worker_manager.go:128-138 | the candidate is in 0..total-1 and is the one the counter is due to return |
| WorkerManagerObject.WorkerIDManager.ClaimCandidate | worker_manager.go:141-197 | a granted claim writes the key under a fresh instance id, counts the lease from before the request, and updates the generator; any other end leaves store and generator unchanged |
| WorkerManagerObject.WorkerIDManager.AcceptGrant | worker_manager.go:162-180 | lease, generator, heartbeat and health flag together make the finished registration |
| WorkerManagerObject.WorkerIDManager.RegisterSpecificWorkerID | worker_manager.go:208-269 | claims the wanted id whatever the shutdown flag says; a conflict or a negative id clears the health flag, a Redis error does not; a second call succeeds only for the same id |
| WorkerManagerObject.WorkerIDManager.SendHeartbeat | worker_manager.go:581-645 | the lease moves on only when the script refreshed the key, from the time the answer is seen |
| WorkerManagerObject.WorkerIDManager.TryReRegister | worker_manager.go:383-447 | an own key is renewed; a key gone or taken leads to a fresh id, or to no registration with the gate shut; without an answer nothing changes |
| WorkerManagerObject.WorkerIDManager.GiveUpWorkerID | worker_manager.go:467-479 | flag, lease, worker id and registration are cleared and the loop is cancelled |
| WorkerManagerObject.WorkerIDManager.ReacquireFreshWorkerID | worker_manager.go:459-502 | succeeds whenever a free id can be had undisturbed before shutdown; success ends healthy, with store record, instance id and lease deadline those of one of the registrations tried and the generator on the fresh id; failure ends unregistered with the gate shut, store and generator alone, and starts a background recovery only if none is running |
| WorkerManagerObject.WorkerIDManager.AttemptRegisterFresh | worker_manager.go:507-532 | up to the given number of registrations, none once shutdown was announced, and the first succeeds if a free id can be had undisturbed; success is the record of one of them, a failure leaves everything as it was but for the instance id |
| WorkerManagerObject.WorkerIDManager.UnregisterWorkerID | worker_manager.go:649-711 | announces shutdown and closes the registration; its own visible key is gone, and every other key and every record of another instance is unchanged |
| PluginObject.PlugSnowflake.Startup | lifecycle_context.go:102-144 | a configured id whose key is free is registered, without touching the counter; otherwise the id comes from the counter, and startup succeeds whenever one can be had undisturbed before shutdown; success leaves manager, generator and store record agreed and the gate open, failure leaves the manager unregistered |
| PluginObject.PlugSnowflake.AutoRegister | lifecycle_context.go:133-141 | the registered id is the counter's for that probe, in range, the generator's, and its key carries the manager's instance id; it succeeds whenever an id can be had undisturbed before shutdown |
| PluginObject.PlugSnowflake.StopCleanup | lifecycle_context.go:156-180 | the worker id is given back, its own visible key is gone and no other record touched, and the generator refuses every later reading |
| PluginObject.PlugSnowflake.GenerateID | types.go:689-708 | the call passes exactly when the flag is set and the lease absent or not passed; otherwise the generator is untouched; state, outcome and identifier are those of the attempts made |
| PluginObject.PlugSnowflake.BeatOnce | worker_manager.go:342-373 | the flag follows the beat: up with a renewed key and lease, down with nothing else changed |
| PluginObject.PlugSnowflake.HeartbeatTick | worker_manager.go:337-447 | whether or not a worker id is registered: the gate flag is set exactly when the failures are forgotten, and a registered manager's record in the store is then its own; below three failures only the flag changes; a link between manager and generator survives every tick that ends registered |
| PluginObject.PlugSnowflake.Retry | worker_manager.go:353-366 | the third failure reopens the gate exactly when re-registration succeeds, which it is bound to when the key is still its own or a fresh id can be had undisturbed before shutdown; without a worker id or an answer only the flag is down |
| Lifecycle.InvHolds | worker_manager.go:299-332 | every interleaving keeps the relation between registration, heartbeat context, loops, lock and recovery |
| Lifecycle.OneLoopIffRegistered | worker_manager.go:299-332 | in every reachable state registered, heartbeat running and exactly one uncancelled loop agree, and at most one background recovery runs |
| Lifecycle.CleanupTouchesNoSuccessor | worker_manager.go:324-332 | the deferred cleanup of a loop changes nothing of the manager |
| Lifecycle.CancelledLoopLeaves | worker_manager.go:315-340 | a cancelled loop returns and cleans up, leaving the manager and the live loops as they are |
| Lifecycle.RecoveryHandsOver | worker_manager.go:459-493 | from every reachable state a loop that loses its worker id and registers afresh leaves exactly one new live loop, itself cancelled, the gate shut in between and open on the new lease after |
| Lifecycle.BackgroundTakesOver | worker_manager.go:498-577 | a loop that cannot register starts one background recovery, which ends the outage with exactly one new live loop |
| Lifecycle.FailedRegistrationShutsGate | worker_manager.go:92-107 | a registration is refused at shutdown with the gate shut; one that finds every id occupied shuts the gate, any other failure changes nothing |
| Lifecycle.UnmanagedStaysOpen | types.go:414-416 | a manager that is not to register itself lets every call pass at every time, whatever checks and shutdowns it sees, while nothing registers |
| Lifecycle.ShutdownIsFinal | worker_manager.go:649-686 | once the section of unregistration has run, no interleaving without a specific registration registers again or leaves a loop uncancelled |
| Lifecycle.ShutdownIsFinalIff | worker_manager.go:649-686 | after the section of unregistration the manager stays unregistered, without an uncancelled loop, throughout if and only if no specific registration follows |
| Lifecycle.SpecificRegistrationOutlivesShutdown | worker_manager.go:208-226 | the shortest such run: a specific registration after unregistration registers and starts a loop |
| FleetLease.LeaseStepKeeps | worker_manager.go:88-711 | in every fleet, whatever its delays, slack, pauses and retries are, each step keeps the relation of keys, instance ids, deadlines and worker ids |
| FleetLease.LeaseRunKeeps | worker_manager.go:88-711 | that relation holds after every interleaving of all steps |
| FleetOrphans.OrphanStepKeeps | worker_manager.go:649-708 | when the slack covers a late answer and the pause what an open gate may outlast its key by, each step keeps the key of an instance whose gate may reopen after unregistration out of the store |
| FleetOrphans.OrphanRunKeeps | worker_manager.go:649-708 | that holds after every interleaving of all steps |
| FleetInvariant.GateMeansLease | worker_manager.go:284-295 | with enough slack, the open gate of a registered instance means the visible key of its generator's worker id is its own, and lasts for what the slack leaves |
| FleetInvariant.GateMeansWithheld | worker_manager.go:284-295 | the open gate of an unregistered instance means its key is gone from the store, was last its own, and is not granted again before any call it lets through has ended |
| FleetStore.AttemptIsFresh | generator.go:284-336 | an attempt of the key's holder repeats nothing that any instance ever issued |
| FleetStore.StepKeeps | worker_manager.go:88-711 | whatever step any instance takes next, the keys, leases, gates, generators and issued identifiers stay in the relation that uniqueness rests on |
| FleetStore.RunKeeps | worker_manager.go:88-711 | that relation holds after every interleaving of all steps |
| FleetTheorems.GloballyUnique | types.go:689-708 | under the four conditions no two identifiers issued by any instances are equal, over any interleaving of registration, heartbeats, expiry, recovery, unregistration and gated generation |
| FleetTheorems.GateOpenMeansOwned | types.go:455-461 | with slack for a late answer and a lost fraction, and quiet unregistration, an open gate implies registered, the store's record carries the instance id, and the generator issues under that id, within range |
| FleetTheorems.LeasesAreDisjoint | worker_manager.go:271-295 | under the same two conditions, instances of a datacenter with open gates neither hold nor issue under the same worker id |
| FleetTheorems.OpenGatesAreDisjoint | worker_manager.go:271-295 | also where unregistration overtakes heartbeats, open gates of a datacenter never stand before the same worker id if a deleted key is left alone for as long as a gate may outlast it |
| FleetTheorems.StaysSilent | worker_manager.go:284-295 | with more slack than a lease lasts no gate opens and nothing is ever issued |
| FleetTheorems.DeadlineAgainstKey | worker_manager.go:619-635 | in every fleet: while the lease of a registered instance lasts its key is there and expires with it; the deadline does not exceed that before the first renewal, and afterwards by at most response delay and lost fraction |
| FleetTheorems.RegistrationLeaseNeverExceedsKey | worker_manager.go:141-165 | in every fleet, from a granted claim until the first heartbeat script of its holder, whatever else happens, the deadline is never later than the key's expiry |
| FleetTheorems.GateShutUntilPushed | worker_manager.go:459-502 | with quiet unregistration alone, the gate is shut through recovery and registration until the generator has the fresh id |
| FleetLimits.SlackNeeded | worker_manager.go:619-635 | with too little slack some run issues an identifier twice, after a late heartbeat answer |
| FleetLimits.RegrantGapNeeded | worker_manager.go:688-708 | with too short a pause after a deletion some run does |
| FleetLimits.QuietUnregisterNeeded | worker_manager.go:675-686 | a heartbeat answered after unregistration reopens the gate, and for every pause up to answer delay, rest of the TTL and time to the attempt together some run issues an identifier twice |
| FleetLimits.PatientRetryNeeded | generator.go:191-195 | an attempt in the millisecond of its overflow wait makes some run issue an identifier twice |
| FleetLimits.SafeExactlyWhenCareful | worker_manager.go:271-295 | for every accepted setting, TTL, delay and pause the fleet never issues the same parts twice if and only if the four conditions hold or the slack exceeds the TTL |
| FleetGate.GateMeansOwnedIff | worker_manager.go:284-295 | for all settings an open gate means ownership if and only if the slack covers late answer and lost fraction and unregistration is quiet, or the slack exceeds the TTL and the gate never opens |
| FleetGate.GatesDisjointIff | worker_manager.go:271-295 | for every accepted setting no two open gates of a datacenter stand before the same worker id if and only if the slack covers late answer and lost fraction and either unregistration is quiet or the pause exceeds answer delay and rest of the TTL; or the slack exceeds the TTL |
| FleetGate.ShutInTransitionIff | worker_manager.go:459-502 | the gate stays shut whenever a worker id is being replaced or is gone if and only if unregistration does not overtake a heartbeat |
| FleetGate.DeadlineBoundAttained | worker_manager.go:619-635 | some run exceeds the key by exactly response delay and lost fraction, for every TTL and delay |
| FleetGate.OwnGateSafeIff | worker_manager.go:284-295 | without slack the gate is the code's own, and no parts are issued twice if and only if answers and attempts take no time, the TTL is whole seconds, attempts are patient, and the pause is positive, or exceeds the TTL where unregistration is not quiet |
| FleetRecovery.RecoversUnderFreshID | worker_manager.go:459-493 | in every fleet whose gates can open, some run takes an instance from an expired key through loss, probe, claim, record, push and finish to an open gate in step with its generator under a fresh id of its own |
| FleetRecovery.LostAnswerBlocksKey | worker_manager.go:155-158 | a claim whose answer is lost keeps its key from the other instance for a whole TTL and registers nobody |
| FleetRecovery.FailedBeatShutsGate | worker_manager.go:342-351 | one failed heartbeat shuts the gate of a serving instance |
| FleetRecovery.ProbeMayGiveUp | worker_manager.go:118-135 | a registration may end in mid-probe with nothing registered and no key taken |
| HeartbeatSlack.KeyOutlasts | worker_manager.go:579-645 | the key outlasts the beat after next of the last successful one |
| HeartbeatSlack.NeverLostIff | worker_manager.go:617-620 | no disciplined schedule of late and failed beats ever loses the key if and only if two intervals and the lateness fit into the whole seconds of the TTL |
| HeartbeatSlack.ValidatedSettingsNeverLoseKey | config_validator.go:88-124 | validated settings never lose the key to beats up to two seconds late, no two in a row failed |
| RateLimiterSpec.TokensAreConserved | security.go:474-495 | tokens stay within 0..capacity, and what was allowed plus what is left never exceeds what was there plus whole seconds |
| RateLimiterSpec.BurstAfterIdle | security.go:478-494 | of a burst after any idle time exactly as many requests are served as there are tokens left and whole seconds since the last refill, up to the capacity |
| RateLimiterSpec.ClientsAreIndependent | security.go:449-464 | a client's answers are those of a limiter on which only its own requests are made |
| RateLimiterSpec.WindowBound | security.go:474-495 | a window of length T that starts at a request allows at most capacity + T in seconds, rounded up |
| RateLimiterSpec.WindowBoundIsTight | security.go:482-487 | that bound is attained, for every capacity above zero and every window, by an ordered schedule of exactly that length |
| RateLimiterSpec.TellTaleDiffers | security.go:429-446 | otherwise a concrete schedule of requests and one sweep is answered differently |
| RateLimiterSpec.EvictionInvisibleIff | security.go:429-464 | eviction is invisible to all schedules under a nondecreasing clock if and only if the capacity is not positive or refills within the shortest idle time before an eviction |
| RateLimiterObject.TokenBucket.Consume | security.go:474-495 | bucket and answer are those of the function |
| RateLimiterObject.RateLimiter.EnsureBucket | security.go:451-460 | a client asked for the first time gets a full bucket; nothing else changes |
| RateLimiterObject.RateLimiter.ConsumeFrom | security.go:463 | only the client's own bucket changes |
| RateLimiterObject.RateLimiter.Allow | security.go:449-464 | all buckets and the answer are those of the function; no two clients share a bucket |
| RateLimiterObject.RateLimiter.Cleanup | security.go:429-446 | exactly the buckets idle for longer than the TTL are gone, the others untouched |

## Assumptions of the fleet

One shared, nondecreasing millisecond clock; Redis commands and scripts are atomic; instance ids are unique; a key is
visible up to and including its expiry instant. Keys are named by datacenter and worker id, which
`StoreKeys.WorkerKeysCollideIff` justifies. `Params` makes the remaining ones explicit: delays, the slack
before the deadline, the pause before a deleted key is granted again, quiet unregistration, and patient retries.

## Left out

- FleetTheorems.GloballyUnique: until the layout's lifetime ends; afterwards offsets lose their top bits (`Snowflake.ParseOfPack` says exactly when).
- GeneratorObject.Generator.GenerateID: the monotonic clock is taken to advance by at least one tick between two reads and by at least each requested sleep.
- PluginObject.PlugSnowflake.HeartbeatTick: one tick of the loop; ticker, goroutine scheduling and cancellation are in `Lifecycle`.
- WorkerManagerObject.WorkerIDManager.RegisterWorkerID: no other instance changes counter or keys during the call, which in the fleet they do; a SetNX that took effect although its answer was lost appears only in the fleet, as `ClaimUnanswered`.
- RateLimiterObject.RateLimiter.Allow: one clock reading per request, where the source takes one in `consume` and two more when it creates a bucket; elapsed seconds are whole by integer division, without the rounding of a float.
- The number of probes of one registration is not bounded in the fleet, which only adds runs; the bound is in `WorkerIDManager.RegisterWorkerID`.
- Between a re-registration and the old loop's own health store (worker_manager.go:358-364) the fleet has gate checks, attempts and unregistration, but no beat, loss or recovery of the successor loop.
- The fleet runs the registration, heartbeat and recovery of one instance one at a time; their interleaving is in `Lifecycle`. The second assignment of the generator's worker id at startup is one step with the registration.
- A key expiring between the Get and the Del of unregistration.
- Lease times in nanoseconds: the manager and the store count milliseconds.
- Overflow of a duration in nanoseconds: readings come from a nanosecond clock, so their differences fit.
- Most configuration validation: accepted configurations are preconditions; that an epoch is not negative stands for its being at most fifty years old.
- The unknown drift action, a nil Redis client, a nil callback and a nil generator: rejected at construction or by the wiring.
- Random backoff between probes and between recovery attempts: timing only.
- JSON of the worker info and the script's code for an invalid format: the store keeps instance id and expiry.
- Maintenance of the registry set: best-effort monitoring with errors ignored.
- Metrics, statistics counters, histograms and logging: no effect on identifiers.
- Plugin lifecycle events, health reports, resource lookup and the stand-alone plugin: framework plumbing.
- Encryption, API keys, address lists and the audit log: library calls around the generator.
- Panics of goroutines and data races on unlocked reads: mutex sections and Redis commands are atomic steps.
