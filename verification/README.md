# Verification of the pevm parallel executor

pevm executes the transactions of a block optimistically in parallel, in the style of Block-STM: a
collaborative scheduler hands execution and validation tasks to worker threads, a multi-version memory
keeps what every transaction wrote, reads leave the chain of origins they came from, and validation
re-checks those chains. The promise is that the outcome is that of executing the block one transaction
at a time. This project models the scheduler, the memory, the tracked reads with lazy balance deltas,
the workers, the end-of-block evaluator and the fee rewards, and proves that promise and the laws it
rests on. `dafny verify dfyconfig.toml` checks everything.

## How a run is modelled

* A transaction is a deterministic program of the values it has read (`Blocks.Tx`); the EVM itself is
  not modelled.
* The system is a transition system (`Machine`). One step of a worker is one access to shared state: a
  load or an update of an index, a critical section under a transaction's status lock, one read, or one
  operation on the entries of one location. `record`, `validate_read_locations`,
  `convert_writes_to_estimates`, `next_task` and `finish_validation` are all broken up.
  `finish_execution`, which holds the status lock of its transaction throughout, is one step.
* `Step(b, s, w, l)` is the next step of worker w, at location l where it works through a set of
  locations. A run is `Run(b, workers, schedule)`, where the schedule says who steps and where; "for
  every schedule" is every interleaving of any number of workers.
* Locks other than the status locks are not modelled, so workers interleave in more ways than the locks
  of the memory would let them. Memory accesses are sequentially consistent.
* History variables (`Machine.History`) record what each version wrote and how it came to it. No step
  reads them.
* Nothing is claimed of a run once its abort flag is up: its result comes from sequential execution or
  is an error.
* What the code does in place is also modelled in place: the classes `Scheduler`, `MvMemory` and `VmDb`
  and the evaluator, reward and pre-fill loops are methods proved against the functions the transition
  system is made of. `Atomicity` shows that the small steps of a worker nobody interrupts add up to the
  whole operations.

## Main results

* Serializability: when all workers have left an unaborted run without lazy transfers, memory evaluated
  at every k is the state after the first k transactions in order, and the results are the sequential
  ones (`Serializability.Serializable`). Fee rewards to the beneficiary and the other recipients are
  lazy deltas in those runs, saturating additions included. A block without plain transfers meets the
  condition in every run (`Serializability.SerializableBlock`).
* Serializability with lazy transfers, exactly (`Transfers.SerializableExactly`): a finished run of a block
  that is valid in order has the sequential values, gas and receipts at every prefix if and only if every
  transfer it evaluated lazily goes to an account that in order has no code when the transfer comes, from
  an account that has an absolute value below it or keeps some balance. Valid in order means that every
  transaction succeeds, no account overflows, and executing a transfer explicitly does what its lazy form
  says. The only-if half also needs that a call of code is distinguishable from a plain transfer.
* Whatever the run evaluates lazily, it is enough that no transfer meets code deployed below it at a
  recipient that storage has no code for, and that its sender existed before the block or keeps some
  balance (`Transfers.SerializableTransfers`). `Transfers.GoodBlocksExist` shows such a block, with code
  deployed at the recipient after the transfer.
* Both branches that fail have their input. `LazyTransfers.NotSerializableWithLazyTransfers` is a reachable
  final state of a deployment and a payment to the deployed address; `Transfers.EmptiedLosesNonce` says
  what a debit does to an account without absolute value that it empties, and
  `Evaluation.AbsentAccountLosesNonce` gives one.
* The evaluator accepts an entry exactly when in order the caller is left with the nonce after its own
  and, if it sent lazily, could pay the maximum fee (`Evaluation.EvaluatorMatchesSequential`,
  `Transfers.EvaluatorMatchesTransfers`), so it accepts every block with valid senders
  (`Transfers.EvaluatorAccepts`). When it succeeds, every result shows every evaluated account with the
  balance and nonce it has in order after that transaction (`Evaluation.ResultsSequential`,
  `Transfers.ResultsOfTransfers`).
* When a run may end early: a step aborts the block if and only if the transaction fails for good or reads
  a self-destructed account or a value of another kind (`StepLaws.AbortsExactly`). A read waits for
  exactly the transaction whose ESTIMATE it comes to, which is then not done
  (`StepLaws.BlocksExactly`, `RunLaws.BlocksOnUnfinished`), and starts over exactly when it meets something
  else than before (`StepLaws.RestartsExactly`). `ReadLaws` says all of this, and the value of every
  read, of the entries alone.
* No stale read is forgotten, in every run and at the level of single locations, of transactions not
  evaluated lazily (`RunLaws.NoStaleReadForgotten`).
* No stuck scheduler, and no worker leaves work behind (`SchedulerLaws.NoStuckScheduler`,
  `SchedulerLaws.ExitedMeansDone`).
* Prefix stability: once everything below k is settled for good, every execution of k that starts from then on
  reads and records values that validate from then on, in every run (`PrefixStability.PrefixStable`).
* Whether such an execution can still be aborted depends on the workers at the moment the prefix settles.
  Only one that holds a failing check of k then can abort k later (`PrefixStability.AbortedByOlderCheck`),
  without such a worker k stays done (`PrefixStability.PrefixNeverAborts`), and a worker with such a check
  needs at most two steps of its own to be ready to abort (`PrefixStability.HarmfulFails`).
  `LateAbort.LateValidationAborts` is a run of two workers in which that happens.
* Parked transactions, version uniqueness, repeatable reads, ESTIMATE markers and the validated counter
  (`RunLaws`).
* Validation refines re-reading (`Reads.ValidExactlyRereads`), the newest-first evaluation of lazy
  deltas is exact (`Accounts.AccumulationExact`) and agrees with the oldest-first evaluator
  (`Evaluation.MidBlockReadAgrees`).

## Where code and documentation differ

* A lazy transaction that finishes inside the validation window is counted twice by `num_validated`
  (crates/pevm/src/scheduler.rs:246-258). The model does the same; the counter law has a term for it.
* The comments at crates/pevm/src/mv_memory.rs:131-139 and crates/pevm/src/scheduler.rs:263-265 say that a
  late validation of an older incarnation has no effect and that one failing validation of a version can
  abort. The code does not compare incarnations (crates/pevm/src/scheduler.rs:266-281).
  `LateAbort.LateValidationAborts` is a run in which both failed validations of one version abort, the
  second one a newer incarnation with valid reads. The model follows the code.
* An account that is absent from storage and whose lazy deltas cancel reads as absent, although the
  evaluator has given it a nonce (crates/pevm/src/vm.rs:352-356). `Evaluation.MidBlockReadAgrees` states
  exactly when, `Evaluation.AbsentAccountLosesNonce` gives the input.

## Files

* `Types`, `Blocks`: locations, values, statuses; transactions and blocks.
* `Accounts`, `Reads`, `Memory`, `Scheduling`, `Rewards`: the operations on values.
* `ReadLaws`: what a read returns, said of the entries alone.
* `Sequential`: the specification, one transaction at a time.
* `Machine`, `StepLaws`: workers, steps and runs; when a step aborts, blocks, restarts, parks or hands out
  what.
* `Accounting`, `SchedulerLaws`: who is responsible for each transaction.
* `MemoryLaws`, `MemorySteps`: what entries, read sets and executions stand for.
* `StaleReads`, `Invariants`: no stale read is forgotten; the invariant of every step.
* `Serializability`, `PrefixStability`, `RunLaws`: the theorems about runs.
* `Transfers`, `LazyTransfers`: lazy transfers, when they are serializable and a run that is not.
* `LateAbort`: the run in which a late validation aborts a newer incarnation.
* `Evaluation`, `Fees`, `Estimating`: end-of-block evaluation, reward merging, pre-filled markers.
* `SchedulerClass`, `MvMemoryClass`, `VmDbClass`, `Atomicity`: the objects, and their link to the steps.

## Model

| member | source | states |
|---|---|---|
| `Serializability.Serializable` | crates/pevm/src/pevm.rs:232-263 | every unaborted run without lazy transfers that all workers have left agrees with sequential execution at every prefix: values at every location, results, success |
| `Serializability.SerializableBlock` | crates/pevm/src/pevm.rs:207-263 | the same for every run of a block in which no transaction is a plain transfer |
| `Serializability.SnapshotIsSequential` | crates/pevm/src/mv_memory.rs:87-176 | data without ESTIMATE whose entries are the last write sets and whose last read sets all validate is the sequential state at every prefix |
| `Serializability.ReadsSequential` | crates/pevm/src/vm.rs:241-461 | in such data each transaction read exactly the sequential values, so its recorded result is the sequential one |
| `Serializability.WritesSequential` | crates/pevm/src/vm.rs:571-703 | and its recorded write set, rewards merged in, takes the memory from the sequential state before it to the one after it |
| `Serializability.OverlayStep` | crates/pevm/src/vm.rs:287-336 | reading one transaction later overlays that transaction's entry on what was read before |
| `Sequential.FinalWritesCommit` | crates/pevm/src/pevm.rs:469-502 | recording the write set with merged rewards has the effect of committing the execution and then paying the fees |
| `Sequential.ReplayIsRun` | crates/pevm/src/vm.rs:571-737 | an execution that read the values of a state behaves as if run on that state |
| `Transfers.SerializableExactly` | crates/pevm/src/pevm.rs:207-263 | a finished run of a block valid in order agrees with sequential execution at every prefix if and only if each transfer it evaluated lazily goes to an account that in order has no code, from an account with an absolute value below it or some balance left |
| `Transfers.SerializableTransfers` | crates/pevm/src/pevm.rs:207-263 | every finished run, lazy transfers included, of a block valid in order whose transfers meet no code deployed below them and whose senders existed before the block or keep some balance agrees with sequential execution at every prefix: values at every location, gas and receipts |
| `Transfers.GoodRun` | crates/pevm/src/vm.rs:161-174 | every finished run of such a block has only safe lazy transfers, which is all that the results below ask for |
| `Transfers.LazyFollows` | crates/pevm/src/vm.rs:608-623 | the lazy form of a transfer with the rewards merged in does to every account, a sender absent from storage included, what executing the transfer and then paying the rewards does |
| `Transfers.ShowsNext` | crates/pevm/src/vm.rs:287-384 | an account evaluated through absolute values, credits and debits follows the sequential account, one transaction at a time, unless a debit empties an account without absolute value |
| `Transfers.EmptiedLosesNonce` | crates/pevm/src/vm.rs:352-356 | such a debit makes the account read as absent although in order it has a nonce |
| `Transfers.MergedValue` | crates/pevm/src/vm.rs:683-703 | the exact value that merging rewards leaves at a lazy sender, a lazy recipient, or an account not written |
| `Transfers.LazyAttempt` | crates/pevm/src/vm.rs:161-174 | a lazy transaction recorded the lazy form of its transfer, and storage has no code at its recipient |
| `Transfers.EvaluatorMatchesTransfers` | crates/pevm/src/pevm.rs:286-403 | in every finished run whose lazy transfers are safe the evaluator has the sequential account after every transaction, and it accepts an entry if and only if in order the caller is left with the nonce after its own and a lazy sender could pay the maximum fee |
| `Transfers.ResultsOfTransfers` | crates/pevm/src/pevm.rs:374-400 | when the evaluation of such a run succeeds, every result shows each evaluated account as it is in order after its transaction: cleared exactly if empty, without code in storage and from EIP-161 on, else with that balance and nonce and the code and storage mentioned before or the code in storage; other accounts are untouched |
| `Transfers.EvaluatorAccepts` | crates/pevm/src/pevm.rs:318-373 | in those runs, if the senders are valid in order, no entry of any address is objected to |
| `Transfers.GoodBlocksExist` | crates/pevm/src/vm.rs:161-174 | a block with a plain transfer, and code deployed at its recipient afterwards, meets all the conditions |
| `LazyTransfers.NotSerializableWithLazyTransfers` | crates/pevm/src/vm.rs:715-719 | a run of two workers over a deployment and a payment ends unaborted with a result that sequential execution does not give: the lazy payment is never checked |
| `LazyTransfers.SequentialResult` | crates/pevm/src/pevm.rs:469-502 | in order the payment of that block sees the deployed code |
| `RunLaws.NoStaleReadForgotten` | crates/pevm/src/scheduler.rs:215-259 | in every run, a read that no longer validates, of a done transaction not evaluated lazily, is ahead of the validation index, being checked or aborted, or covered by a worker committed to lowering the index |
| `StaleReads.StepCovered` | crates/pevm/src/scheduler.rs:122-165 | every step of every worker keeps every stale read covered |
| `StaleReads.RecordOneBreaks` | crates/pevm/src/mv_memory.rs:93-125 | re-writing or removing a location invalidates no read unless the location is new, and then the recording worker covers it |
| `StaleReads.ValidationLowered` | crates/pevm/src/scheduler.rs:217-262 | finish_execution sends the validation index low enough for every transaction its record could invalidate, or returns the validation task |
| `StaleReads.RevalidatesExactly` | crates/pevm/src/scheduler.rs:217-259 | a transaction the index had passed is validated again exactly when a new location was written below it and it is at or past the floor, and the finished one is handed to its worker exactly when the index had passed it |
| `Invariants.StepInv` | crates/pevm/src/scheduler.rs:108-301 | every step of every worker keeps the invariant of the whole system |
| `Invariants.RunInv` | crates/pevm/src/pevm.rs:225-263 | the invariant holds in every state of every run |
| `SchedulerLaws.NoStuckScheduler` | crates/pevm/src/scheduler.rs:109-121 | when no worker holds a task and both indices are past the block, every transaction is Validated and the exit test succeeds |
| `SchedulerLaws.ExitedMeansDone` | crates/pevm/src/scheduler.rs:109-121 | when all workers have left unaborted, both indices are past the block and every transaction is Validated |
| `SchedulerLaws.RunAccounted` | crates/pevm/src/scheduler.rs:171-301 | in every state each Executing transaction has one executor, each Aborting one is kept once, and no ready or executed one is let go of |
| `SchedulerLaws.RunWatched` | crates/pevm/src/scheduler.rs:109-121 | while an index is inside the block, some worker is yet to look at it |
| `SchedulerLaws.RunCounted` | crates/pevm/src/scheduler.rs:217-300 | num_validated is the number of Validated transactions plus the finishes of lazy ones inside the window |
| `SchedulerLaws.RunDispatchedOnce` | crates/pevm/src/scheduler.rs:94-134 | over a whole run each (transaction, incarnation) is handed out for execution at most once, by the normal, stealing and post-abort paths together |
| `RunLaws.CounterExact` | crates/pevm/src/scheduler.rs:266-300 | the counter never underflows and is exact without lazy transfers |
| `RunLaws.LeavesExactly` | crates/pevm/src/scheduler.rs:112-120 | in every run a worker that found both indices past the block leaves if and only if the Validated transactions, double counts included, are at least as many as those at or past the validation floor |
| `RunLaws.AbortingIsParkedOnce` | crates/pevm/src/scheduler.rs:171-197 | an Aborting transaction is listed exactly once, in one list, under a lower transaction still to execute, or is owned by exactly one aborting worker, never both |
| `RunLaws.WaitsForLower` | crates/pevm/src/scheduler.rs:171-213 | dependents are higher and Aborting, and done transactions have empty lists, so waiting is acyclic |
| `RunLaws.StatusAssertions` | crates/pevm/src/scheduler.rs:183-206 | the debug assertions of add_dependency, set_ready_status and finish_execution hold at every call |
| `RunLaws.ExclusiveSlot` | crates/pevm/src/pevm.rs:110-141 | at most one worker executes a transaction at a time, so its result slot is exclusive |
| `RunLaws.SingleValue` | crates/pevm/src/mv_memory.rs:112-119 | a location, transaction and incarnation carry the same value in any two states of a run |
| `RunLaws.RepeatableReads` | crates/pevm/src/vm.rs:260-363 | two reads of a location in one attempt return the same value, whatever other workers do in between |
| `RunLaws.OriginsKept` | crates/pevm/src/vm.rs:190-199 | a successful read keeps the origins of every location read before |
| `RunLaws.ValidationRereads` | crates/pevm/src/mv_memory.rs:140-176 | in every state, the last read set of a done transaction validates if and only if reading every location again finds the recorded origins, code reads with their exception |
| `RunLaws.DoneHasNoEstimate` | crates/pevm/src/mv_memory.rs:87-126 | the entries of a done transaction are exactly its last write set |
| `RunLaws.UnfinishedHasOnlyEstimates` | crates/pevm/src/mv_memory.rs:57-65 | a transaction that is neither done nor being rewritten has ESTIMATEs where it is expected to write and nothing else |
| `RunLaws.BlocksOnUnfinished` | crates/pevm/src/pevm.rs:432-441 | in every run the transaction a read blocks on has an ESTIMATE at that location and is not done |
| `RunLaws.LazyValuesCovered` | crates/pevm/src/vm.rs:710-713 | the account of every lazy value ever recorded is in the lazy address set that the end-of-block evaluation consumes |
| `RunLaws.RunAddresses` | crates/pevm/src/vm.rs:705-713 | in every run the lazy address set holds the fee recipients of the block and both addresses of every transfer that was recorded lazily |
| `PrefixStability.PrefixStable` | crates/pevm/src/mv_memory.rs:140-187 | while all transactions below k stay done, executions of k that start from then on read values that validate, and record a read set that validates in every later state |
| `PrefixStability.OnlyOlderChecksFail` | crates/pevm/src/mv_memory.rs:140-176 | a worker that holds a failing check of k later on held a failing check of k already when the prefix settled |
| `PrefixStability.AbortedByOlderCheck` | crates/pevm/src/scheduler.rs:266-281 | a step that aborts such an execution of k is the attempt of a worker that held a failing check of k when the prefix settled |
| `PrefixStability.HarmfulFails` | crates/pevm/src/pevm.rs:453-464 | conversely a worker with a failing check of k gets to the abort attempt in at most two steps of its own |
| `PrefixStability.PrefixNeverAborts` | crates/pevm/src/pevm.rs:453-464 | if no worker holds a failing check of k when the prefix settles, an execution of k that is done stays done, with the same incarnation and valid reads, to the end of the run |
| `PrefixStability.AbortedExactlyByFailure` | crates/pevm/src/scheduler.rs:266-281 | a step aborts a done transaction if and only if it is the abort attempt of a failed validation of it, of whichever incarnation |
| `LateAbort.LateValidationAborts` | crates/pevm/src/scheduler.rs:263-281 | a run of two workers in which, with everything below settled since before it started, the second incarnation of a transaction is done with valid reads and a failed validation of the first one aborts it |
| `Reads.ValidExactlyRereads` | crates/pevm/src/mv_memory.rs:140-176 | a chain validates exactly when a fresh walk finds the same origins, with the exception of code reads, and what validates has the same value |
| `Reads.RereadsMeansValid` | crates/pevm/src/vm.rs:208-231 | what a walk finds validates, unless a code read went to storage past an ESTIMATE or a value of another kind |
| `Reads.WalkLeavesChain` | crates/pevm/src/vm.rs:273-345 | a successful walk leaves a chain whose meaning in the log is what the walk found |
| `Reads.RepeatedReadSame` | crates/pevm/src/vm.rs:292-350 | a repeated read that is accepted met exactly the origins of the first one |
| `Reads.EstimateGoneKeepsValid` | crates/pevm/src/mv_memory.rs:143-168 | replacing or removing an ESTIMATE never invalidates a chain |
| `ReadLaws.AccountFromStorage` | crates/pevm/src/vm.rs:347-363 | an account read that meets only lazy deltas evaluates them on the account in storage and registers their origins, newest first, then storage; repeated it must meet exactly the same |
| `ReadLaws.AccountBlocks` | crates/pevm/src/vm.rs:280-284 | one that comes through lazy deltas to an ESTIMATE blocks on its transaction |
| `ReadLaws.AccountFromEntry` | crates/pevm/src/vm.rs:285-336 | one that comes to data evaluates the deltas on the account there, or fails on a value of another kind; repeated it must be in step with the first read |
| `ReadLaws.SlotRead` | crates/pevm/src/vm.rs:429-461 | a slot read returns the newest word below, or storage, blocks on an ESTIMATE and fails on another kind of value |
| `ReadLaws.CodeRead` | crates/pevm/src/vm.rs:201-235 | a code read returns the newest code below, falls back on a self-destructed account, and goes to storage past anything else |
| `ReadLaws.FailsExactly` | crates/pevm/src/vm.rs:201-461 | exactly when any read blocks, and on whom, falls back, fails on its type, or is inconsistent |
| `Accounts.AccumulationExact` | crates/pevm/src/vm.rs:314-332 | the sign-and-magnitude loop equals the true signed sum after every iteration if and only if every running sum fits 256 bits |
| `Accounts.SmallTotalExact` | crates/pevm/src/vm.rs:314-332 | it suffices that credits plus debits stay below 2^256 |
| `Accounts.SettleClamps` | crates/pevm/src/vm.rs:365-384 | where every running sum fits, a read adds the true sum of the deltas to the account below them, kept within 256 bits, and one nonce per debit; an absent account stays absent at sum zero |
| `Types.WordWidths` | crates/pevm/src/vm.rs:268-332 | the words of the model are 64, 128 and 256 bits wide |
| `Accounts.SettleCredit` | crates/pevm/src/vm.rs:365-384 | saturating newest-first accumulation of credits equals crediting one at a time, oldest first |
| `Evaluation.MidBlockReadAgrees` | crates/pevm/src/vm.rs:262-384 | with running balances in range, an account read by t is what the evaluator has after all entries below t, except that an account without base reads as absent at balance zero |
| `Evaluation.AbsentAccountLosesNonce` | crates/pevm/src/vm.rs:352-356 | an absent account credited and debited by the same amount reads as absent while the evaluator gives it nonce 1 |
| `Evaluation.Evaluate` | crates/pevm/src/pevm.rs:288-403 | the loop over one address leaves in each result the oldest-first fold up to its entry, cleared if empty from EIP-161 on and with the code and storage the result or the chain had, and nothing else changed; or it returns the error of the first entry that has one |
| `Evaluation.EvaluateAll` | crates/pevm/src/pevm.rs:286-403 | the loop over all lazy addresses, in any order, leaves the evaluated account of every address in every result whose transaction has an entry for it, or returns the error of the first objection at some address |
| `Evaluation.Visit` | crates/pevm/src/pevm.rs:318-374 | one iteration: the new account, or the lack of funds for the maximum fee, the unreachable or mismatched nonce, or the type error |
| `Evaluation.EvaluatorMatchesSequential` | crates/pevm/src/pevm.rs:286-403 | on a finished run without lazy transfers the account after each transaction is the sequential one, and an entry is accepted if and only if in order the caller is left with the nonce after its own |
| `Evaluation.ResultsSequential` | crates/pevm/src/pevm.rs:374-400 | when the evaluation of a finished run without lazy transfers succeeds, every result shows each evaluated account as it is in order after its transaction, in the same sense, and leaves the others alone |
| `Evaluation.ObjectsExactly` | crates/pevm/src/pevm.rs:318-373 | where the fold has the sequential accounts before and after a transaction, the evaluator objects exactly when the checks fail on those accounts |
| `Evaluation.EvaluatorNeverPanics` | crates/pevm/src/pevm.rs:316-357 | on every finished run, lazy transfers included, the evaluator meets only account values, never an ESTIMATE |
| `Fees.FeesConserved` | crates/pevm/src/vm.rs:683-703 | merging rewards changes every account by exactly its total reward if and only if no addition saturates |
| `Fees.MergeAtMost` | crates/pevm/src/vm.rs:683-703 | merging rewards never creates value |
| `Fees.RiseFees` | crates/pevm/src/chain/rise.rs:151-178 | on RISE a deposit pays nothing and any other transaction gas used times the larger of effective price and base fee |
| `Fees.RiseRewards` | crates/pevm/src/chain/rise.rs:151-178 | for every address, what a transaction pays it on RISE: the beneficiary the effective price less the base fee, at least zero, and the base fee recipient the base fee, each times the gas used and saturating; anybody else nothing |
| `Fees.MergeOneInto` | crates/pevm/src/vm.rs:683-702 | one reward is added to the entry of its account in the write vector, or appended; the type error only on an ill-typed entry |
| `Fees.MergeInto` | crates/pevm/src/vm.rs:683-703 | the loop over the write vector keeps keys distinct and represents the merged write set; the type error is never returned |
| `Fees.EthereumFees` | crates/pevm/src/chain/ethereum.rs:181-193 | on Ethereum the beneficiary gets gas used times the effective price, less the base fee from EIP-161 on |
| `Fees.EthereumRewards` | crates/pevm/src/chain/ethereum.rs:181-193 | the same on Ethereum, where only the beneficiary is paid |
| `Rewards.RecipientsWritten` | crates/pevm/src/chain/rise.rs:108-178 | every pre-filled ESTIMATE is overwritten by any write set its transaction records |
| `Rewards.OnlyRecipientsChange` | crates/pevm/src/vm.rs:683-703 | merging touches no location but the fee recipients |
| `Estimating.BuildEstimates` | crates/pevm/src/chain/rise.rs:108-149 | the pre-fill loops list exactly the fee-paying transactions at each fee recipient |
| `Estimating.Indices` | crates/pevm/src/chain/ethereum.rs:166-179 | on Ethereum every transaction is listed |
| `SchedulerClass.Scheduler.constructor` | crates/pevm/src/scheduler.rs:68-88 | all ready at incarnation 0, execution from 0, validation past the block |
| `SchedulerClass.Scheduler.Abort` | crates/pevm/src/scheduler.rs:90-92 | raises the flag and nothing else |
| `SchedulerClass.Scheduler.TryExecute` | crates/pevm/src/scheduler.rs:94-106 | starts a ready transaction and returns its version |
| `SchedulerClass.Scheduler.Poll` | crates/pevm/src/scheduler.rs:109-163 | one iteration of next_task: leave, go round again, or the task it hands out, with the new indices and statuses |
| `SchedulerClass.Scheduler.AddDependency` | crates/pevm/src/scheduler.rs:171-190 | refuses when the blocking transaction is done, else parks and lists the dependent |
| `SchedulerClass.Scheduler.SetReadyStatus` | crates/pevm/src/scheduler.rs:192-197 | ready at the next incarnation |
| `SchedulerClass.Scheduler.ResumeDependents` | crates/pevm/src/scheduler.rs:208-213 | every dependent is ready again and the execution index is at or below it |
| `SchedulerClass.Scheduler.FinishExecution` | crates/pevm/src/scheduler.rs:199-261 | new statuses, lists, indices, counter and task of finish_execution, double count included |
| `SchedulerClass.Scheduler.Settle` | crates/pevm/src/scheduler.rs:215-259 | where to validate from next, the new status, the counter and the task, once the dependents are resumed |
| `SchedulerClass.Scheduler.TryValidationAbort` | crates/pevm/src/scheduler.rs:266-281 | aborts a done transaction and uncounts a Validated one |
| `SchedulerClass.Scheduler.FinishValidation` | crates/pevm/src/scheduler.rs:285-301 | resumes an aborted transaction and possibly takes over its execution, or confirms an executed one |
| `Accounting.FinishExecutionEffect` | crates/pevm/src/scheduler.rs:199-261 | what finish_execution does to statuses, lists and the execution index, stated without its loop |
| `MvMemoryClass.MvMemory.constructor` | crates/pevm/src/mv_memory.rs:45-74 | an ESTIMATE for every expected write, empty last locations and the initial lazy addresses |
| `MvMemoryClass.MvMemory.Record` | crates/pevm/src/mv_memory.rs:87-126 | exactly this transaction's entries become the new write set, the write list ends duplicate-free and equal to it, and the flag is set if and only if some location is new |
| `MvMemoryClass.MvMemory.RemoveOld` | crates/pevm/src/mv_memory.rs:96-109 | the swap_remove scan drops exactly the locations no longer written, from the list and the data |
| `MvMemoryClass.MvMemory.RegisterNew` | crates/pevm/src/mv_memory.rs:111-125 | the insertion loop adds the new entries and extends the list by the new locations |
| `MvMemoryClass.MvMemory.ChainMatches` | crates/pevm/src/mv_memory.rs:143-167 | the iterator-consuming inner loop decides whether a chain matches |
| `MvMemoryClass.MvMemory.ValidateReadLocations` | crates/pevm/src/mv_memory.rs:140-176 | true if and only if every recorded chain is valid |
| `MvMemoryClass.MvMemory.ConvertWritesToEstimates` | crates/pevm/src/mv_memory.rs:181-187 | exactly the last write locations become ESTIMATEs |
| `MvMemoryClass.MvMemory.AddLazyAddresses` | crates/pevm/src/mv_memory.rs:76-81 | the loop adds exactly the given addresses |
| `MvMemoryClass.MvMemory.ConsumeLazyAddresses` | crates/pevm/src/mv_memory.rs:189-191 | hands over the lazy addresses and leaves none |
| `VmDbClass.VmDb.SetTx` | crates/pevm/src/vm.rs:143-174 | the per-transaction reset; a call reads its recipient's code, which is what the entries below evaluate to, with the error and read set of that read, and is lazy if and only if there is none and the sender or the recipient has entries |
| `VmDbClass.VmDb.PushOrigin` | crates/pevm/src/vm.rs:190-199 | registers the first origin, and accepts a later one only if it is the last registered |
| `VmDbClass.VmDb.GetCodeHash` | crates/pevm/src/vm.rs:201-235 | value, error and read set of a code read, an ESTIMATE being skipped to storage |
| `VmDbClass.VmDb.WalkBack` | crates/pevm/src/vm.rs:273-345 | the backward loop finds the walk's origins, account, signed sum and nonce count, or its error |
| `VmDbClass.VmDb.Basic` | crates/pevm/src/vm.rs:241-416 | mock accounts for sender and recipient of a lazy transfer, leaving no origin; otherwise account and code are what the entries below evaluate to, the recipient's code what was read at the start, with their origins in the read set; refused exactly when the account cannot be read, the sender's nonce is not the transaction's, blocking on the transaction before or invalid for the first one, or the code cannot be read |
| `VmDbClass.VmDb.ReadAccount` | crates/pevm/src/vm.rs:260-384 | value, error and read set of an account read through lazy deltas |
| `VmDbClass.AccountAnswer` | crates/pevm/src/vm.rs:365-400 | an answered sender has the transaction's nonce, and a refusal carries a failed read |
| `VmDbClass.AnswersExactly` | crates/pevm/src/vm.rs:260-416 | what is answered and when, said of the entries below the transaction |
| `VmDbClass.TrackedReadSees` | crates/pevm/src/vm.rs:190-461 | a tracked read that succeeds returns what the entries below evaluate to, notes the origins of its walk and leaves the other origins alone |
| `VmDbClass.VmDb.Storage` | crates/pevm/src/vm.rs:429-461 | value, error and read set of a slot read |
| `Atomicity.PollAlone` | crates/pevm/src/scheduler.rs:108-165 | the steps of an uninterrupted iteration of next_task do what the whole iteration does |
| `Atomicity.FinishValidationAlone` | crates/pevm/src/scheduler.rs:285-292 | so do the steps of finish_validation after an abort |
| `Atomicity.RecordStarts` | crates/pevm/src/mv_memory.rs:87-94 | finishing an execution starts a record of which nothing is done yet |
| `Atomicity.RecordEnds` | crates/pevm/src/mv_memory.rs:87-126 | so do the single-location steps of record, in any order, and the flag they collect |
| `Atomicity.RecordGoesOn` | crates/pevm/src/mv_memory.rs:96-125 | each of those steps keeps what has been recorded so far a part of the whole |
| `Atomicity.ConvertSteps` | crates/pevm/src/mv_memory.rs:181-187 | so do the single-location steps of the conversion |
| `MemorySteps.StepRemembered` | crates/pevm/src/pevm.rs:410-464 | every step keeps entries, read sets, results and executions consistent with the log of what each version wrote |
| `MemorySteps.ReadFaithful` | crates/pevm/src/vm.rs:260-363 | a successful read keeps the attempt a replay of the values its read set stands for |
| `StepLaws.AbortsExactly` | crates/pevm/src/pevm.rs:427-447 | a step aborts the block if and only if its worker is executing and the transaction fails for good, or fails on nonce or funds as the first one, or reads a self-destructed account or a value of another kind |
| `StepLaws.BlocksExactly` | crates/pevm/src/vm.rs:740-759 | an execution waits for a transaction if and only if it reads its ESTIMATE, or fails on nonce or funds right after it |
| `StepLaws.RestartsExactly` | crates/pevm/src/pevm.rs:420-425 | an execution starts over if and only if it reads a location again and meets something else |
| `StepLaws.GoesLazyExactly` | crates/pevm/src/vm.rs:163-172 | a plain transfer is evaluated lazily if and only if its sender or its recipient has entries |
| `StepLaws.ListsExactly` | crates/pevm/src/vm.rs:710-713 | the lazy address set grows by the two addresses of a transfer finished lazily and by nothing else |
| `StepLaws.ParksExactly` | crates/pevm/src/pevm.rs:432-441 | a waiting worker parks its transaction under the other one if and only if that is not done, and otherwise executes again at once |
| `StepLaws.RemovesFirst` | crates/pevm/src/mv_memory.rs:96-125 | record removes where the transaction no longer writes before it inserts anything |
| `StepLaws.ValidatesFirst` | crates/pevm/src/scheduler.rs:110-123 | a worker goes for an execution only when no transaction below the execution index it loaded is left to validate |
| `StepLaws.InspectsExactly` | crates/pevm/src/scheduler.rs:124-155 | it executes a ready transaction, validates a done one, passes over an aborting one and falls back to an execution otherwise |
| `StepLaws.AbortRevalidates` | crates/pevm/src/scheduler.rs:285-292 | after an abort exactly the transactions above are validated again |
| `StepLaws.AbortedLeaves` | crates/pevm/src/scheduler.rs:108-109 | an aborted block stays aborted, and a worker about to start or look for a task leaves |

## Left out

- The EVM, gas, bytecode, journal and receipts: foreign code, abstracted as a deterministic program; in the transition system its nonce and fund checks and the mock accounts of a lazy transfer are part of that program, and `VmDbClass` has them as the code does.
- Serializable: is stated for runs without lazy transfers, because with them it can fail; SerializableExactly says exactly when.
- SerializableExactly: takes as given what executing a plain transfer explicitly does to sender and recipient, since the EVM is not modelled; it does not compare the write sets of results, which are lazy in the run.
- PrefixNeverAborts: needs that no worker holds a failing check of k when the prefix settles; LateValidationAborts is the run that shows why.
- SchedulerClass.Scheduler.Poll: is one iteration of the loop of next_task; the loop itself spins until other workers make progress and has no bound of its own.
- StepFinishExecution: takes the index updates that finish_execution makes under one status lock, and the two loads of the exit test of next_task, as one step each; other workers' index updates do not come in between.
- Liveness: that every run ends is not proved; a faulty block can block for ever on nonces or funds.
- Errors of the storage back end: reading the chain state before the block never fails, and bytecode is known by its hash.
- 64-bit location hashes: distinct locations are assumed to have distinct hashes.
- Weak memory ordering, lock internals, thread spawning and unsafe indexing: steps are atomic and sequentially consistent.
- The sequential fallback after a read of a self-destructed account: an aborted run makes no claim.
- Receipts and cumulative gas of the results: in a run a result is a write set, gas and an opaque receipt; the evaluator works on the accounts a result mentions.
- Incarnations, nonces and indices are unbounded; balances, amounts and prices have their widths.
- Hard-fork tables, transaction and block conversion, receipt roots, storage back ends and the command-line tools.
