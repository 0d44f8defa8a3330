# A verified model of the parallel execution engine

The engine executes the transactions of a block on many threads at once and promises the
result of executing them one after another (`README.md:21`, and the comparison in
`crates/pevm/tests/common/runner.rs:32-48`). Workers race over two counters, execute
transactions against a multi-version store, record what they read and wrote, validate
what was read, take invalid executions back by turning their writes into estimates, and
execute them again. Some balances are not read at all but updated lazily, and worked out
by whoever needs them.

This project models that protocol and proves that it keeps its promise, for any block, any
number of workers and any interleaving. It also covers the two smaller pieces of arithmetic
and encoding that sit beside the engine: the byte format of order-book transactions and the
average entry price of a position.

Check everything with `dafny verify dfyconfig.toml`.

## How it is organised

| file | what it is about |
|---|---|
| `Types.dfy` | statuses, locations, values, entries, origins |
| `LazyBalances.dfy` | the backward walk of a reader and the forward fold of the block end |
| `MultiVersion.dfy` | reading, rereading and validating one column of the store |
| `SchedulerSteps.dfy` | the scheduler as a value: atomic actions and whole operations |
| `Engine.dfy` | the transition system: workers, stages, one atomic action at a time, runs |
| `Owners.dfy`, `Columns.dfy`, `History.dfy`, `Coverage.dfy`, `Progress.dfy` | five groups of invariants, each kept by every action |
| `Invariant.dfy` | the invariant over whole runs, and states at rest |
| `Serializability.dfy` | the main theorem, at the end of a run and in the middle of one |
| `Guarantees.dfy` | further safety results over states, steps and runs |
| `Addresses.dfy` | the addresses noted for the evaluation at the end of the block |
| `Standstill.dfy`, `Locks.dfy` | no deadlock, in the engine and at the level of single mutexes |
| `Scheduler.dfy`, `MvMemory.dfy`, `VmDb.dfy`, `EndOfBlock.dfy` | the code's objects and loops, proved against the specifications above |
| `Refinement.dfy` | an uninterrupted worker performs the operations of those objects |
| `SoloRuns.dfy`, `InOrder.dfy` | stretches of a run by a single worker, and whole runs made of them |
| `StaleVerdicts.dfy`, `DrainedAccount.dfy` | verdicts that come too late, and a run that is not serial |
| `Transfers.dfy` | raw transfers, lazy or not, in blocks with or without other transactions |
| `Restoration.dfy` | what the evaluation at the end of a block makes up for |
| `Hybrid.dfy` | printer and parser of order-book operations |
| `EntryPrice.dfy` | the weighted entry price |
| `Arithmetic.dfy` | products |

## What one atomic action is

An action is what a worker does between two points at which another worker can see or
change shared state. Apart from the counters, shared state is behind mutexes and behind
the guards of the concurrent map, so an action is either one access to a counter, or one
critical section with at most one access to a counter in it. Longer critical sections
that touch several counters, such as `finish_execution`, are cut into several actions, and
the status lock they keep meanwhile is part of the model (`Engine.HoldsLock`): others that
need it have to wait. Split are, in particular: claiming a counter and looking at the
status; the single reads of one execution; recording (one location at a time, removals
before insertions), publishing the result, and `finish_execution`; the reads of one
validation, its verdict, the abort, the conversion of each entry, and the rescheduling.
The mutex around the last read and write sets of a transaction is not used to exclude
anything: the model allows every interleaving it would rule out, and more.

The virtual machine is a function of the transaction, of whether it updates lazily, and of
the values read so far. Whether it updates lazily is left open at the start of every
execution, because it depends on timing.

## Assumptions of the main theorem

* `Columns.WellFormed`: locations hold values of their kind; estimates are seeded only where
  the transaction will write (the beneficiary, which every execution rewards).
* `Serializability.Sequential`: one after another, the transactions do execute.
* `Serializability.LazinessIsHarmless` and `Serializability.Funded`: lazy updates have the
  effects of ordinary ones and neither overflow nor overdraw. For blocks in which only raw
  transfers update lazily both are theorems (`Transfers.MixedBlockIsSerial`).
* `Serializability.NoneDrained`: see the first finding below.
* The run is not aborted.

These assumptions do not exclude everything: `InOrder.SerialBlockFinishes` gives, for every
block that meets them and any number of workers, a run that finishes. For raw transfers the
existence of a sequential execution need not be assumed either: an evaluation without
faults says that there is one (`Restoration.EvaluationRestoresSequential`), and it finds a
fault only if what the workers left behind is not one (`Restoration.EvaluationDecides`).

## Where code and intention differ

* **A drained account disappears.** A reader that falls back to storage, finds no account
  there, and has counted changes that cancel out exactly, reports that there is no account
  (`crates/pevm/src/vm.rs:359-363`). If one of the changes was a transaction the account
  sent, its nonce is lost. `LazyBalances.BackwardMeetsForward` shows that, as long as the
  forward evaluation neither overflows nor overdraws, this is the only case in which the
  reader disagrees with it (out of range they may disagree otherwise,
  `LazyBalances.SaturatedWalksDiffer`), and `LazyBalances.DrainedAccountIsLost` is the
  smallest instance. The main theorem therefore assumes that no transaction looks at a
  drained account that no lower transaction is sure to have written outright, and
  `DrainedAccount.DrainedReadIsNotSerial` shows that it cannot do without: a block of two
  transactions meets every other assumption, and a finished run of it has another store
  and another result than the sequential execution.
* **Validation is always needed.** The flag that asks for validation has no bits
  (`crates/pevm/src/lib.rs:204`), so it is contained in any flags and the first and the lazy
  transactions are validated like all others. The model follows. If the flag could be absent,
  `finish_execution` would count one transaction twice (lines 246-247 followed by 256-257 of
  `crates/pevm/src/scheduler.rs`); that branch is
  modelled as it stands in `SchedulerSteps.FinishExecution`, and
  `SchedulerSteps.WithoutFlagCountsTwice` says exactly when it would count twice.
* **Stale verdicts do have effects.** A comment (`crates/pevm/src/mv_memory.rs:135-139`) says
  that the verdict of a slow validation has none. The code compares no incarnations.
  `StaleVerdicts.VerdictHitsWhateverIsThere` says exactly when a verdict changes the status
  of another incarnation, `StaleVerdicts.StaleIffTakenBetween` that this is so if and only
  if an incarnation was taken since the validation was handed out, and
  `StaleVerdicts.StaleVerdictIsReachable` gives a run of two workers over two transactions
  in which a verdict about incarnation 0 aborts incarnation 1. Safety follows from coverage
  instead: `Guarantees.MismatchIsCovered`.
* **A place order at the end cannot be decoded.** The parser asks for 89 bytes where the body
  of a place order has 85 (`crates/pevm/src/hybrid.rs:116`), so exactly the lists that end
  in a place order are printed but not parsed: `Hybrid.CodecRoundTrip`.
* **A flip can keep the old entry price.** `EntryPrice.OtherSideFill` says exactly when. And
  a fill of nothing, although it changes no size, moves the entry price to its own
  (`EntryPrice.NothingToAverage`).

## Model

| member | source | states |
|---|---|---|
| `Serializability.Serializable` | crates/pevm/src/pexe.rs:203-232 | Serializability: in every reachable state with no worker at a task and both counters past the block, every column evaluated below every index is the sequential state there, and every result slot holds the sequential result |
| `Serializability.FinishedRunIsSerial` | crates/pevm/tests/common/runner.rs:32-48 | the same once all workers have left, whatever the interleaving was |
| `Serializability.SettledPrefixIsSerial` | crates/pevm/src/scheduler.rs:108-165 | already in the middle of a run: where a prefix of the block is settled, the store evaluates to the sequential states and the slots hold the sequential results |
| `Serializability.WalkIsState` | crates/pevm/src/vm.rs:281-393 | where the store agrees with the sequential states below a transaction, a reader that is not blocked gets the sequential value, unless the account is drained |
| `DrainedAccount.DrainedReadIsNotSerial` | crates/pevm/src/vm.rs:359-363 | a finished run of a block that meets every premise but the one on drained accounts, whose store and result are not the sequential ones |
| `InOrder.SerialBlockFinishes` | crates/pevm/src/pexe.rs:203-232 | any number of workers can take a serial block from the start to a state, not aborted, in which all have left |
| `InOrder.Round` | crates/pevm/src/pexe.rs:383-443 | a worker that is alone executes, validates and settles one transaction after the others, and the store then holds exactly that execution |
| `Serializability.RunsOnce` | crates/pevm/src/vm.rs:534-556 | a deterministic machine has one execution on one state, so the sequential reference is well defined |
| `Serializability.EitherWay` | crates/pevm/src/vm.rs:174-178 | an ordinary execution on the sequential state has the sequential effects, by determinism; of a lazy one this is the premise that laziness is harmless, which the transfer rows below discharge |
| `Serializability.ReadsSequentialValue` | crates/pevm/src/vm.rs:249-372 | in a settled prefix, what the recorded origins of a transaction stand for is what the sequential run reads there |
| `Serializability.WalkValue` | crates/pevm/src/vm.rs:281-344 | the writes a reader collects on its way down, folded forwards, are the value below it |
| `Invariant.RunInv` | crates/pevm/src/pexe.rs:197-232 | safety over whole runs: every state of every run that is not aborted satisfies all five groups of invariants |
| `Invariant.AtRestExitTestMet` | crates/pevm/src/scheduler.rs:112-118 | no lost work: at rest all transactions are validated, the count is the block size, and the exit test succeeds, so nobody yields there for ever |
| `Invariant.ExitedIsAtRest` | crates/pevm/src/scheduler.rs:108-165 | when the last worker has left, both counters are past the block |
| `Invariant.PrefixColumn` | crates/pevm/src/pexe.rs:245-255 | in a settled prefix each result slot is filled, by the very incarnation whose writes are in the store, so taking the results at the end cannot fail |
| `Invariant.PrefixMatches` | crates/pevm/src/mv_memory.rs:140-176 | and every recorded read there still matches the store |
| `Invariant.AtRestIsSettled` | crates/pevm/src/scheduler.rs:108-165 | at rest the whole block is settled |
| `Invariant.AtRestNoEstimates` | crates/pevm/src/pexe.rs:287-328 | at rest no estimate is left anywhere, seeded ones included |
| `Owners.StepKeepsOwnership` | crates/pevm/src/scheduler.rs:94-301 | every action keeps: one owner for each transaction under way, lists that match the owners, and an exact count of validated transactions |
| `Columns.StepKeepsColumns` | crates/pevm/src/mv_memory.rs:87-187 | every action keeps what the store holds for each transaction in step with the phase its owner is in |
| `History.StepKeepsHistory` | crates/pevm/src/vm.rs:249-474 | every action keeps all executions, running and recorded, consistent: each value read is the one its origins stand for |
| `Coverage.StepKeepsCoverage` | crates/pevm/src/scheduler.rs:227-251 | every action keeps every stale read of a finished transaction covered by the counter or by some worker |
| `Progress.StepKeepsProgress` | crates/pevm/src/scheduler.rs:108-165 | every action keeps ready and executed transactions ahead of their counters or about to be picked up |
| `Guarantees.AbortingHasOneOwner` | crates/pevm/src/scheduler.rs:171-197 | a transaction is Aborting if and only if it waits in a list or is held by an aborting worker; never both, never twice |
| `Guarantees.DependentsWait` | crates/pevm/src/scheduler.rs:171-190 | a list of dependents belongs to an unfinished transaction and holds higher transactions that are Aborting |
| `Guarantees.LockOrderHolds` | crates/pevm/src/scheduler.rs:171-213 | so the order of transactions on which the lock order relies holds in every reachable state of the engine |
| `Guarantees.DebugAssertionsHold` | crates/pevm/src/scheduler.rs:192-206 | the debug assertions on status and incarnation hold in every reachable state |
| `Guarantees.CounterIsExact` | crates/pevm/src/scheduler.rs:253-300 | the counter is the number of validated transactions in every reachable state, so it never underflows |
| `Guarantees.MismatchIsCovered` | crates/pevm/src/scheduler.rs:285-292 | re-validation coverage: a finished transaction with a read that no longer matches is below the validation counter, or some worker still has to check, revoke, or lower the counter for it |
| `Guarantees.StepFollows` | crates/pevm/src/lib.rs:126-136 | whatever a worker does, every status stays or takes one transition of the documented state machine |
| `Guarantees.RunMovesOn` | crates/pevm/src/lib.rs:126-136 | over any stretch of a run incarnations never decrease, and a taken incarnation is never offered again |
| `Guarantees.TakenOnce` | crates/pevm/src/scheduler.rs:94-106 | each incarnation of each transaction is handed out at most once in a run |
| `Guarantees.RecordedOnce` | crates/pevm/src/vm.rs:670 | over a whole run each incarnation is recorded by at most one step, of any worker |
| `Guarantees.LogGrows` | crates/pevm/src/vm.rs:670 | and what it recorded stays what it was |
| `Guarantees.VersionDeterminesValue` | crates/pevm/src/lib.rs:151-163 | the same version found at the same location at two points of a run has the same value |
| `Guarantees.EstimateDiscipline` | crates/pevm/src/mv_memory.rs:87-187 | in every reachable state a finished transaction has exactly its current write set in the store, and any other, outside the windows of recording and aborting, nothing but estimates |
| `Guarantees.StepKeepsPrefix` | crates/pevm/src/scheduler.rs:208-240 | no action of any worker touches a settled prefix of the block |
| `Guarantees.SettledPrefixIsStable` | crates/pevm/src/scheduler.rs:108-165 | a settled prefix keeps its statuses, incarnations, entries and results for the rest of the run |
| `History.RepeatableReads` | crates/pevm/src/vm.rs:197-206 | a second successful read of a location within one execution gives the value and the origins of the first, whatever other workers did |
| `Standstill.SomebodyBusyCanAct` | crates/pevm/src/scheduler.rs:199-213 | in every reachable state with a worker busy with a transaction, some busy worker can act, whatever idle workers do |
| `Standstill.SomebodyCanAct` | crates/pevm/src/pexe.rs:197-232 | and unless all have left some worker can act |
| `StaleVerdicts.VerdictHitsWhateverIsThere` | crates/pevm/src/scheduler.rs:266-301 | a verdict about one incarnation changes the status of another if and only if the transaction is by then open to it (finished, or for a valid one Executed) at another incarnation |
| `StaleVerdicts.VerdictStartsFresh` | crates/pevm/src/scheduler.rs:137-145 | the incarnation a worker is handed for validation is the finished one at that moment |
| `StaleVerdicts.StaleIffTakenBetween` | crates/pevm/src/mv_memory.rs:132-139 | between being handed a validation and acting on it, a finished transaction is still at that incarnation if and only if none was taken in between |
| `StaleVerdicts.StaleVerdictIsReachable` | crates/pevm/src/mv_memory.rs:132-139 | a reachable state and a step in which a verdict about incarnation 0 aborts incarnation 1 |
| `Addresses.LazyEntriesAreKnown` | crates/pevm/src/vm.rs:659-662 | at rest every location left with a lazy entry belongs to an address the end of the block evaluates |
| `Locks.NoCyclicWait` | crates/pevm/src/scheduler.rs:171-213 | no reachable state has a circle of workers, of any length, each waiting for a mutex the next one holds |
| `Locks.SomebodyMoves` | crates/pevm/src/scheduler.rs:171-213 | while a worker is inside an operation, one that is inside can take its next lock |
| `Locks.DependentsAreGated` | crates/pevm/src/scheduler.rs:174-187 | nobody waits for a dependents lock: it is only asked for under the status lock of the same transaction |
| `MultiVersion.ValidationDecidesRereading` | crates/pevm/src/mv_memory.rs:140-176 | validation of an account read succeeds if and only if reading again yields the same origins, down to a strict value or storage |
| `MultiVersion.ValidationOfSingleOrigins` | crates/pevm/src/mv_memory.rs:140-176 | the same for storage slots; for code hashes it succeeds if and only if rereading agrees and no estimate is the closest entry |
| `MultiVersion.EstimateIsOpaque` | crates/pevm/src/mv_memory.rs:150-163 | replacing an estimate by anything keeps what matched, since nobody can have read through it |
| `MultiVersion.RewalkRepeats` | crates/pevm/src/vm.rs:286-311 | a second account read that is not turned away has walked the chain of the first |
| `MultiVersion.WalkIsComplete` | crates/pevm/src/vm.rs:281-372 | the origins of a read form a complete chain and stand for the writes it collected |
| `MultiVersion.BlockedByTheEstimate` | crates/pevm/src/vm.rs:287-343 | a first read of an account is blocked by transaction j if and only if j holds an estimate with nothing but lazy writes between it and the reader |
| `MultiVersion.SlotReadsTheNextEntry` | crates/pevm/src/vm.rs:441-474 | a slot is read from the next entry below: an estimate blocks and is named, a write gives its value, no entry means storage; a different origin than before is inconsistent |
| `MultiVersion.CodeHashReadsPastEstimates` | crates/pevm/src/vm.rs:208-243 | a code hash likewise, except that an estimate sends the reader to storage |
| `LazyBalances.BackwardMeetsForward` | crates/pevm/src/vm.rs:274-393 | for a chain whose forward fold stays in range, the sign-and-magnitude walk gives its balance and nonce if and only if the chain does not drain an account unknown to storage |
| `LazyBalances.SaturatedWalksDiffer` | crates/pevm/src/vm.rs:319-393 | a concrete chain out of range on which the two walks differ without draining anything |
| `LazyBalances.WalkIsExact` | crates/pevm/src/vm.rs:319-336 | as long as the forward fold stays in range the backward sum never saturates, at any point of the walk |
| `LazyBalances.DrainedAccountIsLost` | crates/pevm/src/vm.rs:359-363 | the concrete chain on which the reader reports no account and the nonce is lost |
| `SchedulerSteps.ValidationIsAlwaysNeeded` | crates/pevm/src/lib.rs:196-209 | the validation flag is contained in any flags |
| `SchedulerSteps.FinishedExecutionAwaitsValidation` | crates/pevm/src/scheduler.rs:199-260 | with the real flags, finishing an execution leaves it Executed, counts nothing, and returns a validation if and only if the validation counter had passed it |
| `SchedulerSteps.WithoutFlagCountsTwice` | crates/pevm/src/scheduler.rs:238-258 | without the flag the count would grow by two if and only if the transaction lies between the minimum and the validation counter, else by one |
| `SchedulerSteps.ResumeAllWakes` | crates/pevm/src/scheduler.rs:208-213 | every dependent becomes ready as its next incarnation, within reach of the execution counter |
| `SchedulerSteps.DependencyIsWoken` | crates/pevm/src/scheduler.rs:171-213 | what add_dependency puts to sleep finish_execution wakes, as the next incarnation and within reach of the execution counter |
| `SchedulerSteps.AbortedIsRescheduled` | crates/pevm/src/scheduler.rs:266-301 | an abort and its finish: next incarnation, ready or handed out if and only if the execution counter has passed it, higher ones to be validated, the count corrected |
| `SchedulerSteps.NextTaskIsSound` | crates/pevm/src/scheduler.rs:108-165 | a task fits its transaction; counters never pass over a transaction that needs the task; there is no task only if both are past the block, and the exit test decides between leaving and waiting |
| `SchedulerSteps.ValidationComesFirst` | crates/pevm/src/scheduler.rs:124-150 | a validation counter that is behind is served first, and the execution counter stays |
| `SchedulerSteps.ExecutionComesNext` | crates/pevm/src/scheduler.rs:157-162 | with no validation behind, the execution counter hands out what it stands at if that is ready, at its incarnation, and otherwise moves past it |
| `SchedulerSteps.ClaimOfUnderWay` | crates/pevm/src/scheduler.rs:145-162 | past a transaction that is Aborting both counters are looked at again; past one that is Executing the execution counter has its turn |
| `SchedulerSteps.TakenIffReady` | crates/pevm/src/scheduler.rs:94-106 | a transaction is taken if and only if it is in the block and ready; otherwise nothing changes |
| `SchedulerSteps.DependencyIsRefusedIffFinished` | crates/pevm/src/scheduler.rs:171-190 | behind a finished transaction nobody is queued and nothing changes; otherwise the transaction is Aborting at the end of the list |
| `SchedulerSteps.AbortIsRefusedIffUnfinished` | crates/pevm/src/scheduler.rs:266-280 | only a finished transaction is taken back, with the count if it was validated; any other stays as it is |
| `SchedulerSteps.ValidVerdictCountsOnce` | crates/pevm/src/scheduler.rs:293-300 | a valid verdict makes Executed Validated and counts one; on any other status, and a second time, it changes nothing; there is never a task |
| `SchedulerSteps.AbortUndoesTheVerdict` | crates/pevm/src/scheduler.rs:266-298 | taking back what a valid verdict has counted leaves what an abort without the verdict leaves |
| `SchedulerSteps.RescheduledExactly` | crates/pevm/src/scheduler.rs:285-292 | the whole state and the task after an aborted validation |
| `SchedulerSteps.ResumeAllIsExact` | crates/pevm/src/scheduler.rs:208-213 | exactly the dependents are woken, as their next incarnations, and the execution counter comes down just far enough |
| `SchedulerSteps.FinishExecutionIsExact` | crates/pevm/src/scheduler.rs:199-260 | for every combination of flags: all statuses, lists, the three counters, the count and the task |
| `Scheduling.Scheduler.constructor` | crates/pevm/src/scheduler.rs:68-88 | everything ready at incarnation 0 without dependents, the execution counter at 0, the validation counter and its minimum at the block size |
| `Scheduling.Scheduler.Abort` | crates/pevm/src/scheduler.rs:90-92 | sets the flag that next_task looks at |
| `Scheduling.Scheduler.TryExecute` | crates/pevm/src/scheduler.rs:94-106 | takes a ready transaction inside the block, at its incarnation, or changes nothing |
| `Scheduling.Scheduler.ClaimValidation` | crates/pevm/src/scheduler.rs:125-155 | one claim of the validation counter is the specified claim |
| `Scheduling.Scheduler.NextTask` | crates/pevm/src/scheduler.rs:108-165 | the loop computes the specified next task, or leaves at once when aborted |
| `Scheduling.Scheduler.AddDependency` | crates/pevm/src/scheduler.rs:171-190 | queues the transaction and marks it Aborting unless the blocking one is finished |
| `Scheduling.Scheduler.SetReadyStatus` | crates/pevm/src/scheduler.rs:192-197 | ready again, as the next incarnation |
| `Scheduling.Scheduler.FinishExecution` | crates/pevm/src/scheduler.rs:199-260 | refines the specified operation, which `SchedulerSteps.FinishExecutionIsExact` states for every combination of flags |
| `Scheduling.Scheduler.TryValidationAbort` | crates/pevm/src/scheduler.rs:266-279 | takes a finished transaction back, whatever its incarnation, with the count |
| `Scheduling.Scheduler.FinishValidation` | crates/pevm/src/scheduler.rs:285-301 | refines the specified operation, of which `SchedulerSteps.ValidVerdictCountsOnce` and `SchedulerSteps.RescheduledExactly` say what both verdicts do, field by field |
| `Refinement.FinishExecutionAlone` | crates/pevm/src/scheduler.rs:199-260 | the engine's actions, uninterrupted, are the scheduler's finish_execution |
| `Refinement.FinishValidationAlone` | crates/pevm/src/scheduler.rs:285-301 | the engine's actions after an abort, uninterrupted, are the scheduler's finish_validation |
| `Refinement.ValidVerdictAlone` | crates/pevm/src/scheduler.rs:293-300 | a worker with a valid verdict, uninterrupted, ends in the state of finish_validation, without a task |
| `Refinement.AbortAlone` | crates/pevm/src/scheduler.rs:266-280 | an invalid verdict, uninterrupted, is try_validation_abort: the abort goes on, or comes too late and ends like a valid verdict |
| `Refinement.AddDependencyAlone` | crates/pevm/src/scheduler.rs:171-190 | a blocked worker, uninterrupted, performs add_dependency and starts over if it is refused |
| `Refinement.NextTaskAlone` | crates/pevm/src/scheduler.rs:108-165 | an idle worker, uninterrupted, performs next_task: the same task, the same counters, and it leaves or waits when the loop does |
| `Refinement.ConvertAlone` | crates/pevm/src/mv_memory.rs:181-187 | the conversion, uninterrupted, turns exactly the last written locations the store knows into estimates |
| `Refinement.MachineStep` | crates/pevm/src/vm.rs:656-704 | what each answer of the virtual machine leads to: an error ends the run, missing funds or a wrong nonce wait for the transaction before (and end the run for the first), a finished execution is logged |
| `Refinement.ReadStep` | crates/pevm/src/pexe.rs:389-415 | a blocked read waits for the transaction it names, an inconsistent one starts the execution over, and one that succeeds is remembered with its origins |
| `Refinement.RecordAlone` | crates/pevm/src/mv_memory.rs:87-126 | the engine's recording, uninterrupted, replaces exactly the entries of its transaction and knows whether a location is new |
| `Refinement.CheckAlone` | crates/pevm/src/mv_memory.rs:140-176 | the engine's validation, uninterrupted, is valid if and only if every recorded read still matches |
| `MultiVersionMemory.EstimatesFor` | crates/pevm/src/mv_memory.rs:45-74 | the initial store has an estimate at each seeded location and transaction, and nothing else |
| `MultiVersionMemory.MvMemory.Record` | crates/pevm/src/mv_memory.rs:87-126 | record is exact: entries of the transaction, remembered locations, other transactions, and the answer about new locations |
| `MultiVersionMemory.MvMemory.ClearOld` | crates/pevm/src/mv_memory.rs:96-109 | the index loop with swap_remove drops exactly the locations not written any more |
| `MultiVersionMemory.MvMemory.InsertNew` | crates/pevm/src/mv_memory.rs:111-125 | the insert loop writes every location at the new incarnation, a later pair winning |
| `MultiVersionMemory.RecordIsExact` | crates/pevm/src/mv_memory.rs:87-126 | if the remembered locations were all the transaction held, apart from seeds it now writes, it holds exactly its new write set |
| `MultiVersionMemory.MvMemory.ValidateReadLocations` | crates/pevm/src/mv_memory.rs:140-176 | true if and only if every recorded read matches the store |
| `MultiVersionMemory.MvMemory.ValidateOrigins` | crates/pevm/src/mv_memory.rs:142-167 | the loop with the moving iterator decides the match of one column |
| `MultiVersionMemory.MvMemory.ConvertWritesToEstimates` | crates/pevm/src/mv_memory.rs:181-187 | exactly the last written locations the store knows become estimates |
| `MultiVersionMemory.MvMemory.ConsumeLazyAddresses` | crates/pevm/src/mv_memory.rs:189-191 | hands out all lazy addresses and forgets them |
| `MultiVersionMemory.MvMemory.AddLazyAddresses` | crates/pevm/src/mv_memory.rs:76-81 | adds exactly these addresses |
| `VmDatabase.FetchAccount` | crates/pevm/src/vm.rs:267-372 | the account loop, with its comparison of origins and its running sum, reads what the specification reads, on a first and on a later read |
| `VmDatabase.Accumulate` | crates/pevm/src/vm.rs:319-336 | the branches on sign and magnitude count one lazy write |
| `VmDatabase.DescendOne` | crates/pevm/src/vm.rs:285-344 | one turn of that loop, in every case: estimate, inconsistent origin, strict value, lazy value, bottom |
| `VmDatabase.VmDb.ReadAccount` | crates/pevm/src/vm.rs:249-427 | mocks for a lazy transfer; otherwise the specified read with its nonce check and code hash, every outcome determined; of the read set exactly the account and its code hash are recorded, each with the origins of its read, and everything read before stays |
| `VmDatabase.VmDb.GetCodeHash` | crates/pevm/src/vm.rs:208-243 | the tracked read of a code hash, from storage when an estimate is closest |
| `VmDatabase.VmDb.ReadStorage` | crates/pevm/src/vm.rs:441-474 | the tracked read of a slot, blocked by an estimate |
| `VmDatabase.VmDb.Open` | crates/pevm/src/vm.rs:148-181 | in every case the specified read of the recipient's code hash, recorded; lazy if and only if it succeeds, there is no code, and the store knows one side |
| `EndOfBlock.Evaluate` | crates/pevm/src/pexe.rs:257-376 | either every entry is sound, and the account shown after each is absent if and only if empty accounts are dropped and its balance and nonce are 0, and has exactly that balance and nonce otherwise; or the first faulty entry is reported with its fault |
| `EndOfBlock.EvaluateEntry` | crates/pevm/src/pexe.rs:285-345 | one entry: the fault it has, or the balance and nonce after it |
| `EndOfBlock.SoundIffChecked` | crates/pevm/src/pexe.rs:289-346 | an entry has no fault if and only if it is a balance, its lazy sender holds the maximal fee, and the sender of the transaction ran with the nonce it names |
| `EndOfBlock.FaultsAreExact` | crates/pevm/src/pexe.rs:289-346 | which fault an entry has, with the numbers in it, for every kind of entry |
| `EndOfBlock.MaxFeeIsTheWorstCase` | crates/pevm/src/pexe.rs:306-314 | the maximal fee is gas times price plus value plus blob gas times blob fee, or the largest balance if that is more |
| `EndOfBlock.EvaluationIsSequential` | crates/pevm/src/pexe.rs:257-376 | after a finished run, the evaluation shows exactly the balance and nonce of the sequential account, or no account if those are 0 and empty accounts are dropped; and senders ran with the nonces they named |
| `EndOfBlock.NoPanicAtTheEnd` | crates/pevm/src/pexe.rs:327-328 | after a finished run the unreachable arm is not entered |
| `EndOfBlock.EvaluationFundsSenders` | crates/pevm/src/pexe.rs:298-325 | where the balance check passes, a lazy sender is not overdrawn |
| `Restoration.EvaluationRestoresSequential` | crates/pevm/src/pexe.rs:298-345 | without assuming a sequential execution: after a finished run over raw transfers whose evaluation finds no fault there is one, with all checks, and the engine's states and results are its |
| `Restoration.SequentialPassesEvaluation` | crates/pevm/src/pexe.rs:289-346 | the converse: a block of transfers that executes one after another, with all checks, is evaluated without a fault at every address after any finished run |
| `Restoration.EvaluationDecides` | crates/pevm/src/pexe.rs:289-346 | so the evaluation succeeds if and only if what the workers left behind is a sequential execution |
| `Transfers.LazyOrStrict` | crates/pevm/src/vm.rs:586-625 | writing a payable transfer lazily or strictly has the same effect on every location |
| `Transfers.LazyIsTransfer` | crates/pevm/src/vm.rs:593-605 | the lazy writes with the reward are in range and are the transfer, for any coincidence of sender, recipient and beneficiary |
| `Transfers.StrictIsTransfer` | crates/pevm/src/vm.rs:606-625 | the strict writes with the reward are in range and are the same transfer |
| `Transfers.EmptyIsNotWritten` | crates/pevm/src/vm.rs:586-624 | where empty accounts are dropped no strict write is of an empty account; otherwise the recipient is written if and only if it received something or was not there |
| `Transfers.TransferByParties` | crates/pevm/src/vm.rs:586-625 | party by party: the value moves from sender to recipient, the sender pays the fee, the beneficiary earns the reward, the sender's nonce grows by one, and nobody else changes |
| `Transfers.ApplyReward` | crates/pevm/src/vm.rs:769-789 | the reward goes into the existing write of the beneficiary, or becomes a lazy write; an error if that write is no balance |
| `Transfers.RewardIsAdded` | crates/pevm/src/vm.rs:774-785 | the reward is added to a balance or a lazy addition and taken off a lazy subtraction, up to saturation; the nonce stays |
| `Transfers.SenderPays` | crates/pevm/src/vm.rs:716-723 | the sender pays the gas price, or priority plus base fee if that is less, on every unit of gas; the saturation in between never shows |
| `Transfers.BeneficiaryEarns` | crates/pevm/src/vm.rs:716-733 | with a base fee the beneficiary earns the priority fee, or what the gas price leaves above the base fee if that is less or none is named, and nothing below it; without one it earns the whole fee |
| `Transfers.BaseFeeIsBurnt` | crates/pevm/src/vm.rs:724-726 | fee and reward differ by exactly the base fee, as far as the gas price reaches, on every unit of gas |
| `Transfers.CostIsBounded` | crates/pevm/src/vm.rs:716-738 | the beneficiary never earns more than the sender pays, nor the sender pays more than the maximal fee |
| `Transfers.SequentialTransfer` | crates/pevm/src/vm.rs:586-625 | a raw transfer of the sequential run was payable and is the transfer, whichever way it is written |
| `Transfers.TransferBlockWellFormed` | crates/pevm/src/chain/ethereum.rs:129-142 | a block of transfers meets the assumptions: the seeded beneficiary is written by every one |
| `Transfers.MixedBlockIsSerial` | crates/pevm/src/vm.rs:174-178 | for any block in which only raw transfers update lazily, harmless laziness and funded lazy updates are theorems |
| `Transfers.TransferBlockIsSerial` | crates/pevm/src/vm.rs:174-178 | in particular for a block of raw transfers |
| `Transfers.FinishedTransfersAreTheLedger` | crates/pevm/src/pexe.rs:257-376 | after any interleaving, every balance is what was stored plus received and earned minus sent and paid, and every nonce counts the transfers sent |
| `Transfers.TransfersConserve` | crates/pevm/src/vm.rs:709-792 | over all accounts concerned, exactly the gas nobody earns goes missing |
| `Transfers.BaseFeeGoesMissing` | crates/pevm/src/vm.rs:709-792 | which is the base fee for all the gas used, where every gas price reaches it |
| `Hybrid.CodecRoundTrip` | crates/pevm/src/hybrid.rs:97-331 | parsing what was printed succeeds if and only if the list does not end in a place order |
| `Hybrid.DecodedToItself` | crates/pevm/src/hybrid.rs:97-331 | and gives the very list if and only if, in addition, no order expires at 0 and nothing is cancelled for market 0 |
| `Hybrid.ZeroComesBackAsNothing` | crates/pevm/src/hybrid.rs:150-216 | where a zero is named nothing comes back, and the rest of the list is kept |
| `Hybrid.PrintIsInjective` | crates/pevm/src/hybrid.rs:276-331 | equal bytes mean equal lists, up to zeros, and equal lists if they name none |
| `Hybrid.TxRoundTrip` | crates/pevm/src/hybrid.rs:57-94 | a whole transaction survives but for the gas price, which comes with the carrier, and for zeros named in its operations |
| `Hybrid.TxLayout` | crates/pevm/src/hybrid.rs:260-274 | the 44 bytes in front of the operations, the gas price cut to 64 bits |
| `Hybrid.TxOnAnyBytes` | crates/pevm/src/hybrid.rs:57-94 | whatever the bytes: too short if and only if there are fewer than 44, otherwise the fields at their places, or the reason why the rest is no list of operations |
| `Hybrid.DecodeOperations` | crates/pevm/src/hybrid.rs:97-255 | the parsing loop computes the parser, of which the rows on layouts and on any bytes say what it reads |
| `Hybrid.DecodePlaceOrder` | crates/pevm/src/hybrid.rs:114-171 | the moving offset reads the fields at the places `Hybrid.PlaceOrderOnAnyBytes` names |
| `Hybrid.DecodeCancelOrder` | crates/pevm/src/hybrid.rs:172-202 | the identifier loop, with the wrapping length check |
| `Hybrid.UnknownKindIsRejected` | crates/pevm/src/hybrid.rs:250 | a kind above 4 is rejected |
| `Hybrid.PlaceOrderOnAnyBytes` | crates/pevm/src/hybrid.rs:114-171 | whatever the bytes, a place order is read if and only if 89 follow its kind and the order type is known, and then field by field: any byte but zero is short, or true, and an expiry of zero is none |
| `Hybrid.CancelOrderOnAnyBytes` | crates/pevm/src/hybrid.rs:172-202 | a cancellation is read if and only if all announced identifiers are there, although the check wraps around; where it is fooled the announced list is too long to allocate |
| `Hybrid.OthersOnAnyBytes` | crates/pevm/src/hybrid.rs:203-249 | the other three kinds, byte by byte; market 0 means all markets |
| `Hybrid.DecodedInOrder` | crates/pevm/src/hybrid.rs:105-254 | operations come in the order of their bytes and the first error ends the list |
| `Hybrid.EncodeOperations` | crates/pevm/src/hybrid.rs:276-331 | the printing loop computes the printer |
| `Hybrid.PlaceOrderLayout` | crates/pevm/src/hybrid.rs:279-305 | the 86 printed bytes of a place order, field by field, zeros for no expiry |
| `Hybrid.CancelOrderLayout` | crates/pevm/src/hybrid.rs:306-313 | the printed bytes of a cancellation: market, count, and every identifier at its place |
| `Hybrid.OtherLayouts` | crates/pevm/src/hybrid.rs:314-327 | the printed bytes of the other three kinds |
| `Hybrid.PrintedInOrder` | crates/pevm/src/hybrid.rs:277 | lists are printed one operation after another |
| `Hybrid.BytesRoundTrip` | crates/pevm/src/hybrid.rs:291-304 | big-endian integers are read back |
| `Hybrid.BigEndian` | crates/pevm/src/hybrid.rs:291-304 | the most significant byte comes first |
| `EntryPrice.SameSideFill` | crates/pevm/src/perpdex/executor.rs:747-770 | a fill on the same side that does not overflow: the new entry price is the mean of the two prices, weighted by size, or below it by less than 1 + 2 * 10^18 / S; the margin is exact to one unit; leverage is the new one and the funding index stays |
| `EntryPrice.EntryNeverAboveFills` | crates/pevm/src/perpdex/executor.rs:728-800 | after any number of such fills the position holds their total, its entry price is at most the highest price paid, and its margin is exact to one unit |
| `EntryPrice.ModestRunFits` | crates/pevm/src/perpdex/executor.rs:740-760 | prices below 2^128 and a total size below 2^127 never overflow |
| `EntryPrice.MarginBound` | crates/pevm/src/perpdex/executor.rs:712-725 | the margin is the notional divided by the leverage to within one unit, from both sides, for all that is rounded on the way |
| `EntryPrice.FreshPosition` | crates/pevm/src/perpdex/executor.rs:787-799 | a first fill opens the position at its own price and with funding index 0; a size that does not fit is cut, but the margin is for all of it |
| `EntryPrice.EveryUpdate` | crates/pevm/src/perpdex/executor.rs:772-786 | any update keeps the funding index, takes the new leverage, and has the exact margin of its entry price and size |
| `EntryPrice.NothingToAverage` | crates/pevm/src/perpdex/executor.rs:747-770 | an empty position starts over at the price of the fill; a fill of nothing also sets the entry price to its own, or to 0 if there was no position |
| `EntryPrice.OversizedWrapsAround` | crates/pevm/src/perpdex/executor.rs:740-745 | a position that outgrows 128 bits comes out on the other side, by exactly 2^128 |
| `EntryPrice.OtherSideFill` | crates/pevm/src/perpdex/executor.rs:761-770 | a fill on the other side keeps the entry price if and only if it is smaller than twice the position, flips included |
| `EntryPrice.FlipKeepsOldPrice` | crates/pevm/src/perpdex/executor.rs:763-769 | a concrete flip that keeps the old price |

## Left out

- Aborted runs: nothing is claimed about a run that falls back to sequential execution, meets an execution error or reads a self-destructed account.
- Liveness: retries after an inconsistent read, and waiting for the transaction before, may go on for ever on a faulty block.
- Relaxed memory ordering, sharding of the concurrent map, thread spawning and deferred dropping: accesses are atomic and sequentially consistent, mutexes are correct.
- The virtual machine itself, gas metering, bytecode, precompiles, receipts, new bytecodes and code loading: a deterministic function stands for them.
- Hashing of locations: locations are identities, so two of them never collide.
- An account unknown to storage and an empty one are the same to the modelled machine; where empty accounts are kept, a strict write of an empty account is a write without effect.
- Storage errors, and values of the wrong kind in a column of the engine: `Columns.WellFormed` rules the latter out, and `VmDatabase` and `EndOfBlock` report them.
- The width of nonces and incarnations (64 bits) and of indices.
- The Optimism reward policy and its further beneficiaries.
- Cumulative gas, and the code and storage parts of the accounts in the results.
- `LazyBalances.BackwardMeetsForward`: strict values in the chain are accounts, as they are at every account location.
- The debug build's panics on integer overflow: `Hybrid` and `EntryPrice` model the release build, where integers wrap around.
- The engine's log of executions and the owners of transactions are auxiliary: no action looks at them.
- `Scheduling.Scheduler.NextTask`: one worker's view; where the code yields until another worker changes a counter, the method returns.
- `Scheduling.Scheduler.FinishExecution`: takes the two flags as booleans; `SchedulerSteps.FinishedExecutionAwaitsValidation` ties them to the bits.
- The rest of the order-book module: operations of one transaction do not see each other's writes, so nothing is conserved across them.
- `RpcStorage`, the fetch tool, block files, benchmarks and reports: input and output.
