# Optimistic execution, graph scheduling and DAG ingestion, verified

This project models three parts of the repository and proves properties of every run, every
input and every reachable state of them.

**Optimistic parallel execution (pevm).** Workers take one atomic operation or one lock section
at a time on the shared scheduler and the multi-version memory. `transaction_program.dfy` has
transactions as deterministic programs that issue reads, and their execution one after another.
`memory_model.dfy` has versions, read origins, the backward walk of a read with the value it
finds, and the validation walk. `balance_walk.dfy` says exactly when that value is the forward fold
of the writes, and `serial_execution.dfy` compares the two ways to run a block one by one: with the
reads of the code, and with every write applied to the state.
`protocol.dfy` is the state machine; `ownership.dfy`, `versions.dfy`, `versions_steps.dfy`,
`obligations.dfy`, `obligations_steps.dfy` and `completion.dfy` are what every step keeps;
`serializability.dfy`, `progress.dfy`, `leaving.dfy` and `aborts.dfy` are the promises, the last of
them when a run may be aborted; `lone_worker.dfy`, `rounds.dfy` and `always_completes.dfy` show that no
run reaches a dead end. `mv_memory.dfy`, `vm_db.dfy` and `lazy_evaluation.dfy` are the in-place code of
the memory, of the read interception and of the end-of-block evaluation, tied to the functions that
the state machine uses; `read_meaning.dfy` says what these functions mean without naming the walk, and
`lazy_transfers.dfy` compares lazy transfers with explicit ones.
`NeedValidation` is the zero bit, so every execution needs validation; the machine follows the code in
this.

**Dependency graphs (pevm).** `graph_model.dfy`, `graph_building.dfy` and `graph_merging.dfy` say
what a transaction graph is and what building and merging keep; `list_schedule.dfy` and `graham.dfy`
say what the simulator's state means and bound its makespan; `dependency_graph.dfy` is the
`TransactionGraph` class. `graph_reorder.dfy` and `greedy_integrator.dfy` cover reordering and greedy
grouping; `graph_scheduler.dfy` is the state machine of the heap, the statuses and the dependency
counters, and `graph_progress.dfy` shows that it loses no transaction.

**DAG ingestion, quorums and durability (mysticeti-core).** `block_manager.dfy`, `committee.dfy`,
`threshold_clock.dfy`, `dag_quorums.dfy`, `proposal_invariant.dfy`, `compression.dfy`, `recovery.dfy`
and `consensus_core.dfy` follow a block from delivery to the proposal that includes it, and the bytes of
the log back to the queue, the last own block and the store; `range_map.dfy` and `votes.dfy` are the
vote aggregator; `wal.dfy` is the log file, which the core writes and is opened from.
`core_examples.dfy` has a concrete byte format with which a core starts, proposes and restarts.

Some promises turned out to hold only under a condition, which is stated exactly:

- A read of an account finds the folded writes exactly when it is not so that nothing is stored for
  the address, its writes are lazy updates only, at least one, and they cancel out
  (`BalanceWalk.WalkIsFold`, `VmDatabase.VmDb.ReadBasic`, `VmDatabase.SpentAccountReadsNone`,
  `VmDatabase.UnpaidAccountReadsNone`). So every unaborted run equals the serial execution with the
  code's reads (`Serializability.ParallelIsSerial`), equals the sequential one when no such account is
  read (`Serializability.ParallelIsSequential`), and differs from it on a concrete block
  (`Serializability.SpentBlockDiffers`).
- A run is aborted exactly when a worker met an error that a retry does not resolve
  (`Aborts.DoomedHasCause`), which does not happen on a block without failing or destroying transactions
  whose first transaction has its funds and nonce (`Aborts.NeverAborted`).
- The threshold clock is past every round of which it has seen a quorum, for every sequence of blocks,
  exactly when no authority alone is a quorum; a single one that is holds the clock at its round until a
  second block of it comes (`ThresholdClock.NeverLags`).
- The touchers of an address form one path exactly when neighbouring ones conflict or were connected by
  a merge; a reader between two writers breaks the chain (`GraphBuilding.TouchersFormAPath`,
  `DependencyGraph.ReaderBetweenWriters`).
- The log replays to the live state exactly when the core was itself opened from a log, a block was
  proposed after genesis or the committee has one member (`ConsensusCore.RecoversExactly`). So after a
  restart a proposed block is valid exactly when the last own block is not genesis, the rebuilt clock is
  past round 1, or the own authority alone is a quorum (`ConsensusCore.RestartAndPropose`,
  `ConsensusCore.Core.TryNewBlock`); a core of four authorities that restarts before its first
  proposal logs an invalid block (`CoreExamples.ProposesInvalidBlock`).
- Iterating over the log panics exactly when some padding is shorter than a header (`Wal.ReadAll`,
  `Wal.NarrowLog`).
- `mutate_range` changes only keys of its range exactly when the range is not empty or the mutation keeps
  the value of every interval around its start; a vote for an empty range therefore counts for the rest
  of a tracked interval (`RangeMaps.RangeMap.MutateRange`, `Votes.EmptyVotesComplete`), and registering
  one breaks the map exactly when its offset is not tracked (`Votes.TransactionAggregator.RegisterRange`).
- Merging keeps a graph valid exactly when the two have no common transaction id
  (`DependencyGraph.TransactionGraph.IntegrateGraph`).
- A lazy transfer leaves what a successful explicit one leaves exactly when it is not so that nothing is
  sent to an account that does not exist (`LazyTransfers.SameValues`).

Integers are unbounded; U256 saturation is modelled where it occurs. Digests, location hashes and
identifiers identify their objects.

## Model

| member | source | states |
|---|---|---|
| Serializability.ParallelIsSequential | pevm/crates/pevm/src/pevm.rs:173-235 | on every block whose sequential execution reads only balances in range and accounts that the walk does not forget: for every interleaving of any number of workers that all leave without an abort, every transaction has its sequential result and the entries give every location its final sequential value |
| Serializability.ParallelIsSerial | pevm/crates/pevm/src/pevm.rs:173-235 | without any condition on the values: every such run gives each transaction the result, and the memory the writes, of running the transactions one after another with the code's own reads |
| Serializability.FaultyBlockNeverCompletes | pevm/crates/pevm/src/vm.rs:720-741 | a block with a transaction that does not complete serially is never completed: every run of it is aborted or goes on |
| Serializability.SpentBlockDiffers | pevm/crates/pevm/src/vm.rs:367-385 | on a block where a new account receives 5, sends 5 and is asked for, every unaborted run reports no account although the sequential execution finds one |
| SerialExecution.SerialIsSequential | pevm/crates/pevm/src/vm.rs:268-446 | as long as every transaction reads exactly, running with the code's reads and running with every write applied have the same writes and outcomes |
| SerialExecution.ProbeTellsForgotten | pevm/crates/pevm/src/vm.rs:367-385 | a transaction that asks for an account has its sequential outcome if and only if the account is not forgotten |
| SerialExecution.SpentAccountIsMissed | pevm/crates/pevm/src/vm.rs:367-385 | the spent account has nonce 1 in the sequential state, and the two executions report differently |
| Serializability.PrefixIsSequential | pevm/crates/pevm/src/mv_memory.rs:113-233 | when all recorded reads validate and the earlier transactions read exactly, the entries below any index give every location the value of running the earlier transactions one by one |
| Serializability.PrefixIsSerial | pevm/crates/pevm/src/mv_memory.rs:113-233 | when all recorded reads validate, the entries below any index are the writes of the serial execution with the code's reads |
| Serializability.ValidReadIsCurrent | pevm/crates/pevm/src/mv_memory.rs:187-225 | a read that validates by version saw what the backward walk over the memory finds now |
| Serializability.CompletedIsValid | pevm/crates/pevm/src/scheduler.rs:112-173 | when the last worker leaves an unaborted run, every transaction is Validated, every recorded read validates, and the counter equals the block size |
| Serializability.StaleReadIsPending | pevm/crates/pevm/src/scheduler.rs:205-307 | in every reachable state, a finished transaction with an outdated read is at or above the validation index, held by a validator, or below it a worker is bound to lower that index |
| Serializability.NotStuck | pevm/crates/pevm/src/scheduler.rs:112-218 | with both indexes past the block and no busy worker nothing is left to do: wait-for chains descend, so no transaction is forgotten |
| Serializability.IdleFinished | pevm/crates/pevm/src/scheduler.rs:175-218 | an aborted transaction waits only for a lower unfinished one, so in an idle state all are finished |
| Serializability.OncePerIncarnation | pevm/crates/pevm/src/scheduler.rs:98-110 | each incarnation of a transaction is handed out at most once and aborted at most once in a run |
| Serializability.ExactlyOneOwner | pevm/crates/pevm/src/lib.rs:121-137 | an Executing transaction has exactly one executor; an Aborting one is held by one worker or is in the list of exactly one lower unfinished transaction |
| Serializability.NoEstimateRemains | pevm/crates/pevm/src/mv_memory.rs:113-185 | after an unaborted run the memory holds data entries only |
| Progress.NeverStuck | pevm/crates/pevm/src/scheduler.rs:112-307 | in every reachable state of every run, aborted or not, in which a worker has not left, some worker can take a step |
| Progress.HoldersMove | pevm/crates/pevm/src/scheduler.rs:112-307 | no deadlock, whatever other workers do: in every state of a run that nobody has aborted, a worker that cannot move waits while another one holds a lock, every holder of last locations can move, and while status locks are held one of their holders can |
| Aborts.DoomedHasCause | pevm/crates/pevm/src/vm.rs:719-742 | a run is aborted, or about to be, if and only if some worker has met an error: a failure for good, too little funds or too low a nonce of the first transaction, or a read of a destroyed account |
| Aborts.NeverAborted | pevm/crates/pevm/src/pevm.rs:421-461 | no run is aborted on a block whose transactions neither fail for good nor destroy an account, whose first one has its funds and nonce, over a storage without destroyed accounts; later transactions may lack theirs on any stale read |
| LoneWorker.LoneCounts | pevm/crates/pevm/src/scheduler.rs:98-307 | in every reachable state, while the others hold no lock and work on no lower transaction, each step of a worker between two looks for work lowers a well-founded measure: blocking, inconsistent reads, retries and failed validations do not repeat for ever |
| AlwaysCompletes.CanComplete | pevm/crates/pevm/src/pevm.rs:201-235 | no dead end: every run, with any number of workers and in any state, on a block whose transactions complete whatever they read, has a continuation in which every worker leaves and nobody aborts |
| AlwaysCompletes.SomeRunCompletes | pevm/crates/pevm/src/pevm.rs:201-235 | so every such block has a completed run, and the promises about completed runs are about existing ones |
| AlwaysCompletes.SpentRun | pevm/crates/pevm/src/vm.rs:367-385 | the block of the spent account has a completed run whose third transaction reports 0, while its sequential outcome is 1 |
| Leaving.LeavesWhenValidated | pevm/crates/pevm/src/scheduler.rs:112-124 | a worker leaves an unaborted run only after a moment at which every transaction from the lowest index to validate on was validated |
| Completion.RunInv | pevm/crates/pevm/src/scheduler.rs:69-307 | ownership, versions, obligations and counters hold in every state of every run that nobody has aborted |
| Completion.ValCounted | pevm/crates/pevm/src/scheduler.rs:272-307 | validation and abort keep the validated counter equal to the number of Validated statuses, so it never underflows |
| Completion.StepExits | pevm/crates/pevm/src/scheduler.rs:113-124 | the indexes are loaded one by one, yet when all workers saw one past the block it is past the block |
| Ownership.StepOwned | pevm/crates/pevm/src/scheduler.rs:98-307 | every step keeps one owner per executing or aborting transaction and disjoint dependents lists of lower unfinished transactions |
| VersionsSteps.StepVersioned | pevm/crates/pevm/src/mv_memory.rs:113-233 | every step keeps: entries of a finished transaction are exactly its latest write set, those of a ready one only estimates, and every data entry carries its version's value |
| ObligationsSteps.StepPending | pevm/crates/pevm/src/scheduler.rs:112-307 | no step loses an obligation to execute, validate or re-validate |
| MemoryModel.WalkEvaluates | pevm/crates/pevm/src/vm.rs:300-412 | a read that is not blocked yields a chain of recorded versions, and the running sum, nonce count and bottom value of the walk depend on that chain and storage alone |
| MemoryModel.MatchesIsWalk | pevm/crates/pevm/src/mv_memory.rs:187-225 | validation succeeds if and only if reading again would find the same origins |
| MemoryModel.RereadIsWalk | pevm/crates/pevm/src/vm.rs:311-333 | a second read that finds no inconsistency finds the origins of the first |
| MemoryModel.InterceptEvaluates | pevm/crates/pevm/src/vm.rs:225-446 | every successful read has known origins, the value the walk over them gives, and the origins of an earlier read of the same location |
| MemoryModel.MatchesIgnoresEstimate | pevm/crates/pevm/src/mv_memory.rs:187-225 | a successful validation never depends on an estimate, so replacing one outdates nobody |
| ReadMeaning.FirstRead | pevm/crates/pevm/src/vm.rs:467-505 | a first read gets the word, code hash or account of the closest writer below with its version, the stored one when nobody below has written, and blocks on an estimate, where a code hash read takes the stored one |
| ReadMeaning.AccountAbove | pevm/crates/pevm/src/vm.rs:300-412 | above an absolute value, a read finds its balance plus what was received minus what was sent since, and its nonce plus the number of sends |
| ReadMeaning.AccountAboveStorage | pevm/crates/pevm/src/vm.rs:366-412 | the same above storage; an account that is not stored is there if and only if the updates do not cancel out |
| ReadMeaning.SequentialWrites | pevm/crates/pevm/src/pevm.rs:290-332 | in the sequential execution a transaction that completes changes exactly the locations it writes, each to what was written or by the amount that was sent |
| MvMemoryClass.MvMemory.Record | pevm/crates/pevm/src/mv_memory.rs:113-185 | the entries of the transaction become exactly the new write set, all others stay, and a new location is reported if and only if one was written |
| MvMemoryClass.MvMemory.ValidateReadLocations | pevm/crates/pevm/src/mv_memory.rs:187-225 | true if and only if every recorded read still has its origins |
| MvMemoryClass.MvMemory.ConvertWritesToEstimates | pevm/crates/pevm/src/mv_memory.rs:227-233 | exactly the entries of the last write set become estimates |
| VmDatabase.VmDb.ReadBasic | pevm/crates/pevm/src/vm.rs:286-413 | the walk of a basic read blocks, fails or records origins exactly as the protocol's read does and returns exactly its value: the balance and nonce at the bottom plus the sums above it; fails on the nonce if and only if the account is there, is the sender's and has another nonce, with the blocking error above transaction 0; in range it returns the folded account if and only if the account is not forgotten |
| VmDatabase.VmDb.Basic | pevm/crates/pevm/src/vm.rs:268-446 | a lazy transfer sees a rich sender with its signed nonce and no recipient and records nothing; any other read is the protocol's read of the account and then, if there is one and it is not the recipient, the protocol's read of its code hash, each with its errors |
| VmDatabase.VmDb.Prepare | pevm/crates/pevm/src/vm.rs:164-198 | the transfer becomes lazy if and only if the recipient has no code according to the protocol's read and the memory knows the sender or the recipient; a destroyed recipient is an error |
| VmDatabase.VmDb.WalkBack | pevm/crates/pevm/src/vm.rs:300-365 | the loop stops or ends exactly as the protocol's walk, with the sum and the bottom that settle to its value |
| BalanceWalk.WalkIsFold | pevm/crates/pevm/src/vm.rs:293-412 | in range, the backward walk finds the forward fold if and only if it is not so that nothing is stored, only lazy updates exist, at least one, and they cancel out; then it finds no account while the fold has the number of sends as nonce |
| BalanceWalk.LazyStep | pevm/crates/pevm/src/vm.rs:337-355 | magnitude and sign follow the signed sum, and nothing saturates when the fold stays in range |
| VmDatabase.SpentAccountReadsNone | pevm/crates/pevm/src/vm.rs:367-385 | received 5, sent 5 and nothing stored: the fold has nonce 1 and the read returns no account |
| VmDatabase.UnpaidAccountReadsNone | pevm/crates/pevm/src/vm.rs:380-383 | a reward of 0 to a new address: the fold has an empty account and the read returns none |
| VmDatabase.VmDb.ReadStorage | pevm/crates/pevm/src/vm.rs:467-505 | a slot read returns the word of the closest writer below, or the stored one when there is none; it blocks on an estimate, fails when an earlier read used another origin, and is the protocol's read |
| VmDatabase.VmDb.ReadCodeHash | pevm/crates/pevm/src/vm.rs:225-262 | a code hash read returns that of the closest writer below, never blocks, falls back to storage on an estimate or without a writer, fails on a destroyed account and when an earlier read used another origin, and is the protocol's read |
| VmDatabase.VmDb.PushOrigin | pevm/crates/pevm/src/vm.rs:214-223 | the first origin is recorded and a different later one refused |
| LazyEvaluation.Evaluate | pevm/crates/pevm/src/pevm.rs:262-378 | evaluates to the forward fold if and only if every sender can pay its largest fee and has its signed nonce, otherwise names the first transaction that does not and which of the three errors it is; gives every transaction in the history the folded account after it, removes exactly the empty ones under EIP-161, and touches no other change |
| LazyEvaluation.CheckedIsInRange | pevm/crates/pevm/src/pevm.rs:300-332 | a history that passes the checks never runs below zero, so a read of it found the folded account if and only if the account is not forgotten |
| LazyTransfers.SameValues | pevm/crates/pevm/src/vm.rs:609-657 | when an explicit transfer succeeds, it and the lazy one leave every location with the same value if and only if it is not so that nothing is sent to an account that does not exist; then the lazy one leaves it empty |
| LazyTransfers.SameSuccess | pevm/crates/pevm/src/pevm.rs:300-349 | an explicit transfer succeeds on the folded sender if and only if the check of the lazy one at the end of the block passes |
| LazyTransfers.ChoiceDoesNotMatter | pevm/crates/pevm/src/vm.rs:185-197 | two blocks that differ only in which transfers are lazy have the same sequential state before every transaction, as long as the transfers before it succeed and do not send nothing to an account that does not exist |
| GraphModel.SuffixBoundsPaths | pevm/crates/pevm/src/dependency_graph.rs:354-376 | a node's longest suffix bounds the gas of every downward path from it |
| GraphModel.SuffixIsAPath | pevm/crates/pevm/src/dependency_graph.rs:354-376 | some downward path from the node weighs exactly its longest suffix |
| GraphModel.LargestSuffixIsCritical | pevm/crates/pevm/src/dependency_graph.rs:314-376 | the largest longest suffix is the gas of the heaviest path |
| DependencyGraph.TransactionGraph.PostorderDfs | pevm/crates/pevm/src/dependency_graph.rs:354-376 | the memoised search leaves visited nodes alone and finishes every node it reaches, on any acyclic graph |
| DependencyGraph.TransactionGraph.UpdateLongestSuffixPostorder | pevm/crates/pevm/src/dependency_graph.rs:314-351 | every node gets its longest suffix, the graph is otherwise unchanged, and the heap holds exactly the roots |
| DependencyGraph.TransactionGraph.SimulateParallelExecution | pevm/crates/pevm/src/dependency_graph.rs:384-483 | for k at least 1 on any acyclic graph: a legal schedule that ends with its last transaction, CP <= T <= W <= k*T and k*T <= W + (k-1)*CP; whoever could have started when another transaction did, and did not, has no longer suffix |
| DependencyGraph.TransactionGraph.RemoveTransactionAndUpdate | pevm/crates/pevm/src/dependency_graph.rs:486-514 | each child loses one remaining parent and is released exactly when none is left |
| DependencyGraph.TransactionGraph.PopTxnWithoutParent | pevm/crates/pevm/src/dependency_graph.rs:379-381 | pops a ready transaction with the longest suffix |
| Graham.AdvanceIdle | pevm/crates/pevm/src/dependency_graph.rs:454-478 | while a thread idles, every waiting node hides behind a running ancestor, so the bound is kept |
| Graham.AdvanceFull | pevm/crates/pevm/src/dependency_graph.rs:454-478 | while all threads are busy, the work done grows with k times the time |
| Graham.FinishedIsBounded | pevm/crates/pevm/src/dependency_graph.rs:384-483 | the invariant of a finished simulation is Graham's bound with its lower bounds |
| ListSchedule.FinishedIsLegal | pevm/crates/pevm/src/dependency_graph.rs:384-483 | the log of a finished simulation is a permutation of the nodes, parents end before children start, and no thread overlaps |
| ListSchedule.CountsRunningParent | pevm/crates/pevm/src/dependency_graph.rs:496-503 | the decrement of a remaining-parent count never underflows |
| ListSchedule.Exhausted | pevm/crates/pevm/src/dependency_graph.rs:473-477 | the simulation ends only when every transaction has completed |
| ListSchedule.AssignFavours | pevm/crates/pevm/src/dependency_graph.rs:404-431 | starting a ready transaction with the longest suffix keeps the priorities of everything that has started and of everything that has not |
| DependencyGraph.TransactionGraph.AddEdge | pevm/crates/pevm/src/dependency_graph.rs:238-253 | adds one edge to both lists, keeps them mirrored and duplicate-free, and fails exactly on unknown ids |
| DependencyGraph.TransactionGraph.AddTransaction | pevm/crates/pevm/src/dependency_graph.rs:255-312 | rejects exactly known ids, adds an edge from a node if and only if it is the tail of a touched address with a write conflict, and keeps the graph valid |
| DependencyGraph.TransactionGraph.IntegrateGraph | pevm/crates/pevm/src/dependency_graph.rs:516-595 | the graph stays valid if and only if the two have no common transaction id; then it has the edges of both and one bridge per common address, and the returned count is the number of bridges; always the nodes are listed one graph after the other with mirrored edges, and ids look up the later graph first |
| DependencyGraph.ReaderBetweenWriters | pevm/crates/pevm/src/dependency_graph.rs:280-309 | a reader between two writers of an address leaves the graph without any edge |
| GraphBuilding.ExtendedChained | pevm/crates/pevm/src/dependency_graph.rs:270-309 | adding a transaction keeps edges ascending, and neighbours of every address connected if and only if they conflict or a merge connected them |
| GraphBuilding.TouchersFormAPath | pevm/crates/pevm/src/dependency_graph.rs:280-309 | in every built and merged graph the touchers of an address lie on one directed path in insertion order if and only if neighbours conflict or were connected by a merge |
| GraphBuilding.WrittenByAllIsAPath | pevm/crates/pevm/src/dependency_graph.rs:280-309 | an address that every toucher writes has all its touchers on one path in insertion order |
| GraphBuilding.ReadersStayApart | pevm/crates/pevm/src/dependency_graph.rs:280-309 | two transactions that write no common address, such as two readers of one, are never connected in a graph that was not merged |
| GraphBuilding.WritersConnect | pevm/crates/pevm/src/dependency_graph.rs:280-309 | neighbours among the touchers of an address that both write are connected |
| GraphMerging.MergedChained | pevm/crates/pevm/src/dependency_graph.rs:526-592 | merging keeps edges ascending and the same equivalence for the chains of every address |
| GraphReorder.ReorderTxsByDependencyGraph | pevm/crates/pevm/src/graph_pevm.rs:80-118 | the reordered list is the transactions in the order of the stored simulation, or of a new one that prefers longer suffixes; it is a permutation that respects every edge, and the new graph is a valid graph of it in that order |
| GreedyIntegrator.GreedyDecentIntegration | pevm/crates/pevm/src/greedy_integrator.rs:58-161 | the groups partition the graph indices, come out of the sorted list one after the other with the rest in order, hold at most 11 graphs, and node n of a merged graph is transaction n of the concatenated sources |
| GreedyIntegrator.BuildGroup | pevm/crates/pevm/src/greedy_integrator.rs:98-148 | whatever function decides: from the end of the list on, a candidate joins if and only if it is accepted into the group so far, until the list ends, the group is decent, or it has 11 graphs |
| GraphScheduling.CountersAreExact | pevm/crates/pevm/src/graph_scheduler.rs:59-108 | in every run a counter is the number of parents that have not yet released the transaction |
| GraphScheduling.NeverUnderflows | pevm/crates/pevm/src/graph_scheduler.rs:339-361 | the decrement of a release finds the releasing parent still counted |
| GraphScheduling.ZeroStaysZero | pevm/crates/pevm/src/graph_scheduler.rs:293-295 | a transaction without remaining dependencies never gets one again |
| GraphScheduling.ParentsFinishFirst | pevm/crates/pevm/src/graph_scheduler.rs:264-291 | a transaction begins its first execution only after every parent has finished one |
| GraphScheduling.DrainedAreSatisfied | pevm/crates/pevm/src/graph_scheduler.rs:360-381 | drained dependents always have their dependencies satisfied, so none is skipped |
| GraphScheduling.HeapIsSatisfied | pevm/crates/pevm/src/graph_scheduler.rs:339-381 | nothing on the heap of executable transactions waits for a parent |
| GraphProgress.SatisfiedWasPushed | pevm/crates/pevm/src/graph_scheduler.rs:339-361 | in every run a transaction without remaining dependencies has been on the heap |
| GraphProgress.DrainedIsPushed | pevm/crates/pevm/src/graph_scheduler.rs:363-385 | every drained dependent becomes ready and is pushed in its turn |
| GraphProgress.UnstartedIsAtHand | pevm/crates/pevm/src/graph_scheduler.rs:241-291 | a satisfied transaction that has not begun an execution is on the heap, or a worker is about to execute it |
| GraphProgress.StepKept | pevm/crates/pevm/src/graph_scheduler.rs:110-461 | every step keeps: what is satisfied and not finished is on the heap, in the hands of a worker, or waits for a lower transaction that has not finished, and what has finished has released its children or is about to |
| GraphProgress.RestMeansFinished | pevm/crates/pevm/src/graph_scheduler.rs:158-178 | when the heap is empty and every worker is free, every transaction has finished: nothing is lost on an ascending graph |
| GraphProgress.HighestLockMoves | pevm/crates/pevm/src/graph_scheduler.rs:325-417 | status locks are taken upwards, so the holder of the highest one can always go on |
| GraphProgress.HandsOutLowest | pevm/crates/pevm/src/graph_scheduler.rs:241-257 | what a worker pops is the lowest transaction on the heap |
| BlockManagement.BlockManager.AddBlocks | mysticeti/crates/mysticeti-core/src/block_manager.rs:40-108 | in any order and batching a delivered block is stored if and only if all its includes are, each is written once and after its includes, missing is exact, and the loop terminates |
| BlockManagement.OrderDoesNotMatter | mysticeti/crates/mysticeti-core/src/block_manager.rs:40-108 | the set of stored blocks depends only on what was delivered |
| BlockManagement.BlockManager.Unlock | mysticeti/crates/mysticeti-core/src/block_manager.rs:82-103 | storing a block releases exactly the pending blocks that lacked nothing else |
| BlockManagement.Stores | mysticeti/crates/mysticeti-core/src/block_manager.rs:76-103 | storing the next ready block keeps the indexes exact for the unlocking loop: every reference that waited for it has a pending block, so the lookups never fail |
| CommitteeStake.QuorumsIntersect | mysticeti/crates/mysticeti-core/src/committee.rs:60-66 | two quorums share stake above the validity threshold |
| CommitteeStake.QuorumIsAvailable | mysticeti/crates/mysticeti-core/src/committee.rs:66-67 | authorities are a quorum if and only if the others hold less than a third of the stake, and above the validity threshold if and only if the others hold less than two thirds |
| ThresholdClock.ThresholdClockValid | mysticeti/crates/mysticeti-core/src/threshold_clock.rs:14-37 | true if and only if all includes are of lower round and a quorum of authorities is included from the round before |
| DagQuorums.HistoryHasQuorums | mysticeti/crates/mysticeti-core/src/threshold_clock.rs:14-37 | in a store of valid blocks the history of every block contains a quorum of every earlier round |
| DagQuorums.HistoriesOverlap | mysticeti/crates/mysticeti-core/src/threshold_clock.rs:14-37 | the histories of any two blocks share authorities of every earlier round with more than a third of the stake |
| ThresholdClock.TickAbreast | mysticeti/crates/mysticeti-core/src/threshold_clock.rs:52-74 | whatever block comes next, the clock stays at the newest round seen or right after a round with a quorum, past every round with a quorum, with exactly the authorities of its round as votes; only a block that moves the clock and is a quorum by itself waits for another one |
| ThresholdClock.TickedIsAbreast | mysticeti/crates/mysticeti-core/src/threshold_clock.rs:39-74 | so it is after every sequence of blocks from round 0 |
| ThresholdClock.NeverLags | mysticeti/crates/mysticeti-core/src/threshold_clock.rs:52-74 | every sequence of blocks moves the clock past every round with a quorum if and only if no authority is a quorum on its own |
| ThresholdClock.ClockIgnoresOrder | mysticeti/crates/mysticeti-core/src/threshold_clock.rs:52-74 | in such a committee the clock depends only on which blocks it has seen |
| ProposalInvariant.TickKeeps | mysticeti/crates/mysticeti-core/src/threshold_clock.rs:52-74 | when the clock sees a block with a quorum known for every round before it, a quorum is known for every round before the new clock, and its votes are known blocks of its round |
| ProposalInvariant.AppendBlock | mysticeti/crates/mysticeti-core/src/core.rs:208-228 | queueing a valid, causally ingested block keeps a quorum of every newer round in front of every queued block and of the clock |
| ProposalInvariant.Proposes | mysticeti/crates/mysticeti-core/src/core.rs:262-345 | taking the queue up to the clock keeps the same for the new own block and the rest |
| ProposalInvariant.TakenHasQuorum | mysticeti/crates/mysticeti-core/src/core.rs:262-273 | what a proposal takes, with the last own block, covers a quorum of the previous round despite the split |
| Compression.SameHistory | mysticeti/crates/mysticeti-core/src/core.rs:274-300 | the ancestors of the kept includes are those of the last own block and of everything taken |
| Compression.NewestIsKept | mysticeti/crates/mysticeti-core/src/core.rs:274-300 | compression never drops a reference of the previous round |
| Compression.CompressedHas | mysticeti/crates/mysticeti-core/src/core.rs:274-300 | what is kept is exactly the last own block and those taken references that no reference taken with them includes |
| ConsensusCore.Core.TryNewBlock | mysticeti/crates/mysticeti-core/src/core.rs:249-353 | attempts a block if and only if the clock is past the last own block, which in a core that was not restarted, without single quorums, is if and only if a newer block or a quorum of the last own round is stored; the block includes the last own block first and has the full causal history of what it takes; it is threshold-clock valid if and only if the core was not opened from a log, or has proposed after genesis, or its clock is past round 1, or its authority alone is a quorum; it is made if and only if it is within the size limit, and then no payload is lost, repeated or reordered, and the log replays to the live queue, last own block and store |
| ConsensusCore.ProposalIsGood | mysticeti/crates/mysticeti-core/src/core.rs:262-320 | in every state that keeps the invariants, what compression leaves of the taken queue reaches what was taken, and is threshold-clock valid if and only if a quorum is at hand |
| ConsensusCore.ClockWaits | mysticeti/crates/mysticeti-core/src/core.rs:255-261 | the clock waits behind the last own block if and only if no newer block and no quorum of its round is stored; after a restart the last own block itself may be missing for the quorum |
| ConsensusCore.HistoriesAreFull | mysticeti/crates/mysticeti-core/src/core.rs:208-345 | in every state of a core that was not restarted, the history of every stored block has a quorum of every earlier round |
| ConsensusCore.Core.AddBlocks | mysticeti/crates/mysticeti-core/src/core.rs:208-246 | the manager stores exactly the delivered blocks whose includes are stored; these and then the payload become, in this order and nothing else, the next log records, the next queued statements at their positions and the new store entries, the clock sees the blocks in this order, and the queued payload grows by exactly the new one |
| ConsensusCore.Core.constructor | mysticeti/crates/mysticeti-core/src/core.rs:114-134 | genesis: the other genesis blocks are queued, the own one is the last own block, the clock stands at round 1 when there is stake, and every invariant holds |
| CoreExamples.UnaryIsOk | mysticeti/crates/mysticeti-core/src/block_store.rs:509-540 | a concrete byte format meets everything the core asks of its codec |
| CoreExamples.ProposesAfterGenesis | mysticeti/crates/mysticeti-core/src/core.rs:114-134 | with that format a core of four authorities opens from genesis and makes a valid block of round 1 |
| ConsensusCore.ManagerFeedsCore | mysticeti/crates/mysticeti-core/src/core.rs:214-228 | what the block manager hands over is new, causally ordered and verified |
| ConsensusCore.RecoversExactly | mysticeti/crates/mysticeti-core/src/core.rs:336-345 | at a step boundary the log replays to the queue, the last own block and the store if and only if the core was opened from a log, the last own block is not genesis or there is no other authority; otherwise exactly the other genesis blocks are lost |
| ConsensusCore.Reopen | mysticeti/crates/mysticeti-core/src/core.rs:84-200 | opening the bytes of a core that stopped at any step boundary fails if and only if some padding of its log is narrow; otherwise it gives its last own block, its store and its queue without the lost genesis blocks, with a clock that has seen only the queued blocks and one more payload when blocks were unprocessed, and every invariant holds again |
| ConsensusCore.RestartAndPropose | mysticeti/crates/mysticeti-core/src/core.rs:84-353 | after any restart an attempted block includes the last own block first, over stored blocks only and of the round of the rebuilt clock; it passes verification if and only if the last own block is not genesis, the rebuilt clock is past round 1, or the own authority alone is a quorum |
| CoreExamples.ProposesInvalidBlock | mysticeti/crates/mysticeti-core/src/core.rs:105-112 | four authorities, one block of round 1 delivered, a restart before the first proposal: the block then made and logged is not threshold-clock valid |
| ProposalInvariant.RebuiltKeeps | mysticeti/crates/mysticeti-core/src/core.rs:105-112 | a clock rebuilt from the queue alone has a quorum in front of every round between the last own block and its own |
| ProposalInvariant.RebuiltIsAbreast | mysticeti/crates/mysticeti-core/src/core.rs:105-112 | the rebuilt clock is neither ahead nor behind of the queued blocks |
| ProposalInvariant.LostQueue | mysticeti/crates/mysticeti-core/src/core.rs:105-112 | after a restart that loses queued genesis blocks, the rest of the queue and the clock rebuilt from it still have a quorum in front of every round above 1 |
| BlockManagement.BlockManager.Inserted | mysticeti/crates/mysticeti-core/src/block_store.rs:503-506 | storing an own block that nothing pending includes keeps every index of the manager exact |
| Recovery.Replay | mysticeti/crates/mysticeti-core/src/block_store.rs:77-129 | the replay loop and the builder compute the replayed queue in log order, the last own block and the store |
| Recovery.OpenLog | mysticeti/crates/mysticeti-core/src/block_store.rs:64-130 | iterating over the bytes of a log and replaying them gives what its entries replay to, and panics if and only if some padding is narrow |
| Recovery.KeepIsSplitOff | mysticeti/crates/mysticeti-core/src/state.rs:55-60 | splitting the position map keeps the statements that filtering the queue by position keeps |
| Recovery.KeepNone | mysticeti/crates/mysticeti-core/src/state.rs:55-60 | an own block with the maximal position keeps no statement |
| Recovery.KeepSuffix | mysticeti/crates/mysticeti-core/src/state.rs:55-60 | splitting at the position of a queued statement keeps exactly the queue from there on |
| RangeMaps.RangeMap.MutateRange | mysticeti/crates/mysticeti-core/src/range_map.rs:38-141 | the calls partition the range into sub-ranges with one old value each, cut at the stored intervals, and keys get what the function made of it; the call of an empty range inside an interval ends where that interval ends; other keys keep their values if and only if the range is not empty, or the function keeps the value of the interval around its start; intervals stay disjoint and not empty if and only if the range is not empty, covered at its start, or the function makes nothing of nothing |
| RangeMaps.PartitionCovers | mysticeti/crates/mysticeti-core/src/range_map.rs:38-141 | every key of the range is in exactly one call |
| Votes.TransactionAggregator.RegisterRange | mysticeti/crates/mysticeti-core/src/committee.rs:320-340 | starts to track the new offsets of a range and reports exactly the tracked ones as duplicates; an empty range registers the rest of the stored interval around its offset, and leaves a valid map if and only if the offset is tracked |
| Votes.TransactionAggregator.VoteRange | mysticeti/crates/mysticeti-core/src/committee.rs:342-381 | reports exactly the offsets the vote completes, each once, and exactly the untracked ones of the range as unknown; an empty range counts up to the end of the stored interval around its offset, and for nothing when the offset is not tracked |
| Votes.EmptyVotesComplete | mysticeti/crates/mysticeti-core/src/types.rs:383-405 | after registering offsets 0 to 9, two votes for the empty range at offset 5 complete exactly the offsets 5 to 9 in a committee of four |
| Votes.ProcessedHasQuorum | mysticeti/crates/mysticeti-core/src/committee.rs:342-381 | over all sequences of calls, an offset is reported only by a vote after which its distinct voters since its registration exceed the quorum |
| Votes.QuorumIsProcessed | mysticeti/crates/mysticeti-core/src/committee.rs:342-381 | over all sequences of calls, a vote for a tracked offset reports it if and only if the distinct voters since its registration, this one included, exceed the quorum |
| Votes.SinceIsTracked | mysticeti/crates/mysticeti-core/src/committee.rs:320-381 | an offset stays tracked from its registration until a vote reports it |
| Votes.ProcessedOncePerRegistration | mysticeti/crates/mysticeti-core/src/committee.rs:342-381 | between two reports of an offset lies a new registration |
| Votes.ReportsOverlap | mysticeti/crates/mysticeti-core/src/committee.rs:60-87 | the voters of any two reports share stake above the validity threshold |
| Wal.HeaderRoundTrip | mysticeti/crates/mysticeti-core/src/wal.rs:220-232 | checksum, length and tag survive the packing into a header |
| Wal.HeaderLayout | mysticeti/crates/mysticeti-core/src/wal.rs:220-225 | a header is eight bytes of the checksum, four of the length and four of the tag, each little-endian |
| Wal.PlaceHere | mysticeti/crates/mysticeti-core/src/wal.rs:173-181 | an entry goes where the log ends if and only if it fits into the mapping there |
| Wal.WalWriter.Writev | mysticeti/crates/mysticeti-core/src/wal.rs:159-197 | the file becomes the old one, padding up to the next mapping if needed, header and data, at the returned position |
| Wal.WalIterator.Next | mysticeti/crates/mysticeti-core/src/wal.rs:317-349 | yields the next written entry, skipping padding, and panics exactly in front of padding without room for a header |
| Wal.ReadAll | mysticeti/crates/mysticeti-core/src/wal.rs:242-370 | iterating yields precisely the written positions, tags and bytes, and panics if and only if some padding is shorter than a header, after everything in front of it |
| Wal.PaddingIsReadable | mysticeti/crates/mysticeti-core/src/wal.rs:303-308 | padding can be read if and only if it has room for a header |
| Wal.NarrowLog | mysticeti/crates/mysticeti-core/src/wal.rs:173-186 | two entries written one after the other of which the iterator yields the first and then panics |

## Left out

- The EVM (`revm`, gas rules, chain implementations): a transaction is any deterministic program of reads with a final write set.
- Self-destruct, new bytecode and the sequential fallback: reading a destroyed account ends the run as an abort.
- The choice between lazy and explicit transfers inside a run of the state machine, which looks at the live memory: there a transaction is one of the two; `LazyTransfers.ChoiceDoesNotMatter` compares the two in the sequential execution.
- Weak memory orderings, condition variables, timeouts, yielding and diagnostics: every atomic operation is sequentially consistent.
- Serializability.ParallelIsSequential: requires that locations estimated at the start are written by their transactions, as rewards write the beneficiary; the condition on exact reads is sufficient for a block and exact for a read, because a transaction may ignore what it read.
- AlwaysCompletes.CanComplete: states that a continuation exists and assumes no fairness, because workers that spin may keep a run from ending; requires that transactions complete whatever they read, because one that keeps lacking funds is retried for ever (`Serializability.FaultyBlockNeverCompletes`).
- `Scheduler` as a class with blocking methods: its operations are the steps of `protocol.dfy`, because their effect is visible to other workers half-way.
- `apply_rewards`: only that it always writes the beneficiary matters to the model.
- Coefficients of variation, hot keys and key spans: floating point; the integrator's decisions are an arbitrary function of the group so far and the candidate.
- DependencyGraph.TransactionGraph.SimulateParallelExecution: the heaps are sets and ties are broken arbitrarily; times are unbounded, and T <= W bounds what the 64-bit clock must hold.
- The validation index and the incarnations of `GraphScheduler`: which transaction is looked at for validation and which validations fail is left open, and a transaction that is stolen while it is on the heap may get two executors; a run ends when an execution fails.
- Signatures, digests and the byte format of entries: digests identify blocks, delivered blocks were verified, and an entry that fits into a mapping is decoded to what was encoded.
- `missing` is one set of references; the vector per authority is its partition by authority.
- State and commit entries of the log: they do not touch the queue, the last own block or the store.
- ConsensusCore.Core.AddBlocks: the payload is a parameter, because the block handler produces it.
- ConsensusCore.Core.TryNewBlock: requires a log of less than 2^64 bytes, as positions are 64-bit numbers.
- ConsensusCore.RestartAndPropose: requires that the log stays below 2^64 bytes after one more entry, for the same reason.
- Votes.TransactionAggregator.VoteRange: one block at a time; a block without an entry behaves as one with no tracked offset.
- `VoteRangeBuilder`, `shared_ranges`, `AuthoritySet` as a bit set, and single-vote statements: easy members.
- Wal.ReadAll: mapping, syncing and crash recovery of a torn last entry are not modelled.
- The committer, the linearizer, epochs, networking, the synchronizer, the orchestrator, batch packing in `api.rs`, metrics and configuration.
