# ReqPack-Core verification model

A Dafny model of the parts of ReqPack-Core in which correctness is hard to see: package requests expand to a
dependency graph, the graph becomes task groups and a plan, worker threads execute the plan, and a recoverable
transaction database and the installed-state index record the outcome. Beside them stand the text codecs the stores
depend on, the edit distance behind search suggestions, and the command-line quoting of the remote client.

`dafny verify dfyconfig.toml` checks everything (Dafny 4.11).

## Files

| file | content |
|---|---|
| `packages.dfy`, `sequences.dfy`, `sorting.dfy`, `text.dfy` | shared vocabulary: packages, sequences, stable sorting, byte-wise string order, decimal numbers |
| `planner.dfy` | recursive expansion of requests to a package graph |
| `vertex_order.dfy`, `task_groups.dfy`, `group_contents.dfy`, `task_graph_builder.dfy`, `turning_plans.dfy` | longest-path levels and the stable sort, grouping, partition and filtering, what groups hold, lifting of package edges to group edges, and graphs whose plans have backward edges |
| `task_plans.dfy` | plans: groups, successor lists, counters |
| `scheduler.dfy`, `scheduler_safety.dfy`, `scheduler_workers.dfy`, `scheduler_runs.dfy`, `scheduler_refinement.dfy`, `scheduler_launches.dfy` | the worker threads as a state machine, its invariant, deadlock freedom, whole runs, refinement of the sequential loop, and the order in which groups are started |
| `task_runner.dfy`, `parallel_task_scheduler.dfy`, `executor_scheduling.dfy` | execution of one group under a run; the scheduler in imperative form, proved against the state machine; graph to records |
| `field_lines.dfy`, `transaction_codec.dfy`, `registry_codec.dfy`, `installed_codec.dfy` | escaping, field lines, keys, and the payload codecs |
| `transaction_store.dfy`, `transaction_database.dfy` | the transactions as functions on a store, their invariants over histories, and the database class that assembles them |
| `executor_transactions.dfy`, `executor_outcomes.dfy`, `executor_runs.dfy`, `executer.dfy`, `recovery_examples.dfy` | recovery, the items records reach, whole runs and when they end, program lifetimes with crashes, and runs that recovery commits too early |
| `installed_state.dfy`, `installed_state_store.dfy` | the abstract installed-state map, and the operations on the string-to-string store that stands for it |
| `package_search.dfy`, `command_line.dfy` | edit distance and suggestions; quoting and tokenizing |

## How the parts are modelled

- The scheduler's shared state is an object whose critical sections update it in place. Each is proved equal to a
  function on a value of the state, and the theorems are about those functions: invariants over all interleavings,
  a termination measure, and the records returned. A worker step is one critical section, the notification after a
  completion, or a spurious wake-up; executing a group happens between two of them. The scheduler executes groups through
  a runner object that marks items in the transaction database, or through one without a run, which touches none.
- `boost::topological_sort` may return any topological order; the builder's results hold for each of them.
- LMDB is a store with atomic transactions. The transaction database keeps the sequence of its transactions, so that
  a crash is a prefix of it. Its entries are kept decoded; the codec theorems say that what is written is what is read.
  The installed-state store is kept as the strings it really holds, and represents an abstract map of entries.
- Registry lookups, plugins and clocks are parameters: `resolve` is resolvePluginName, `missing` a filter,
  `loads`, `getPlugin` and `gateway` predicates, `run` the records of a group, `dispatched` whether a group gets as far as
  its plugin, `now` a timestamp.
- Strings are sequences of characters standing for bytes; white space, digits and lower case are those of the C locale.

## What turned out not to hold

- Package keys do not tell a local target from a package of the same name. If the plugin of a local target needs, by way
  of another system, the package of that name, both vertices are looked up in the later group and the plan becomes
  cyclic (`LocalTargetIsExpanded`, `DuplicateKeysTurnAround`).
- On Windows the partition compares stored system names and the barrier resolved ones; a system stored under another
  spelling of nix, such as the value of an alias, gets a backward barrier edge (`StoredNamesTurnAround`).
- `PlanIsIndexTopological` says exactly when a plan has no such edge, in terms of the sorted list of packages.
- The two ways of running a plan agree exactly when no edge into a group that runs comes from the same or a later index
  (`SequentialMatchesParallel`, and `PlanMatchesAlways` for all outcomes at once).
- Reconciliation writes successes under resolved system names; an item stored under another name can be taken for
  settled while it stays planned, and the run is committed (`UnresolvedItemIsLost`, `LostItemHistory`).
  `EarlyCommitExactly` says when that can happen, `LosslessLosesNothing` and `LosslessIsNeeded` which names avoid it.
- Recovery with nothing pending commits the run with its failed items, which then count as committed
  (`FailedItemIsCommitted`); the run had succeeded exactly if none of its items had failed (`OnlyFailuresAreNotDone`).
- Records name an item by action, system, name and version only. Of items alike in these the first gets all results, so
  that a run that holds a package twice, from two places, is not committed although everything succeeded
  (`TwinsDecide`, `RecordsReachItems`); a record about no item may reach one whose id its bare package has
  (`UnrecognizedIsMisplaced`).
- Item tokens are not escaped; `TokenIsShared` says which packages share theirs with another one.
- Capabilities, ecosystems and run flags come back only if none is empty or holds the separator; the exact conditions
  are part of the round-trip theorems.
- A backslash, vertical tab or form feed in an argument that nothing else causes to be quoted is lost or splits the
  argument (`QuotingRoundTrip` gives the exact condition).

## Model

| member | source | states |
|---|---|---|
| `SchedulerSafety.StartInv` | src/engine/scheduler/parallel_task_scheduler.cpp:87-99 | with well-formed plans the state the workers start from satisfies the whole invariant: the counters count uncompleted predecessors, the queue is exactly the startable groups |
| `SchedulerSafety.PickShape` | src/engine/scheduler/parallel_task_scheduler.cpp:107-142 | under the invariant one look for work rotates the queue up to its first group of an idle system and takes that group; it sleeps only while something runs, and the exit with a non-empty queue is never taken |
| `SchedulerSafety.PickKeepsShared` | src/engine/scheduler/parallel_task_scheduler.cpp:107-142 | a look for work keeps the shared invariant and puts exactly the taken group in flight |
| `SchedulerSafety.FinishKeepsCounts` | src/engine/scheduler/parallel_task_scheduler.cpp:155-158 | after a completion each counter is again the number of uncompleted predecessors, and no decrement meets a zero |
| `SchedulerSafety.FinishKeepsQueue` | src/engine/scheduler/parallel_task_scheduler.cpp:162-165 | after a completion the queue again holds every startable group exactly once |
| `SchedulerSafety.FinishKeepsBusy` | src/engine/scheduler/parallel_task_scheduler.cpp:154 | busySystems stays exactly the pairwise distinct systems of the groups in flight when one leaves |
| `SchedulerSafety.FinishKeepsFailed` | src/engine/scheduler/parallel_task_scheduler.cpp:153-161 | a group is marked failed exactly by its own failure or the failure of a predecessor, also after a completion |
| `SchedulerSafety.FinishKeepsShared` | src/engine/scheduler/parallel_task_scheduler.cpp:149-173 | the second critical section keeps the whole shared invariant and takes exactly the completed group out of flight |
| `SchedulerWorkers.StepKeepsInv` | src/engine/scheduler/parallel_task_scheduler.cpp:102-176 | every step of every worker (look for work, completion, notification, spurious wake-up) keeps the invariant on shared state and workers together |
| `SchedulerWorkers.WaitsForOthersOnly` | src/engine/scheduler/parallel_task_scheduler.cpp:108-142 | a worker waits only while another one is executing a group and leaves only when launches are stopped or nothing is ready and nothing runs |
| `SchedulerWorkers.NoDeadlock` | src/engine/scheduler/parallel_task_scheduler.cpp:142-174 | while a worker has not left, some worker can move without a spurious wake-up: no deadlock and no lost wake-up |
| `SchedulerRuns.RunKeepsInv` | src/engine/scheduler/parallel_task_scheduler.cpp:102-176 | the invariant holds in every state of every interleaving |
| `SchedulerRuns.NoGroupRunsTwice` | src/engine/scheduler/parallel_task_scheduler.cpp:114-133 | in no interleaving is a group started at two different steps |
| `SchedulerRuns.NoSystemOverlap` | src/engine/scheduler/parallel_task_scheduler.cpp:122-128 | in no state of any interleaving do two workers execute groups of the same system |
| `SchedulerRuns.NothingAfterFailure` | src/engine/scheduler/parallel_task_scheduler.cpp:159-161 | no group reachable from a failed one along plan edges is ever started |
| `SchedulerRuns.NothingStartsAfterFailure` | src/engine/scheduler/parallel_task_scheduler.cpp:108-169 | under stopOnFirstFailure, in no interleaving does a step after the completion of a failed group start a group |
| `SchedulerRuns.StepDecreases` | src/engine/scheduler/parallel_task_scheduler.cpp:102-176 | every step but a spurious wake-up lowers a measure on unstarted, running and announcing groups and seeking workers; a wake-up raises it by one |
| `SchedulerRuns.EveryRunTerminates` | src/engine/scheduler/parallel_task_scheduler.cpp:178-188 | every run is bounded by 3·groups·(workers+1)+workers steps plus two per spurious wake-up |
| `SchedulerRefinement.FinalState` | src/engine/scheduler/parallel_task_scheduler.cpp:184-194 | when all workers have left, only groups whose ancestors all ran and succeeded were executed and the slots hold their records; all such groups were executed unless a failure stopped the launches, and then a failure is among the records |
| `SchedulerRefinement.ParallelResult` | src/engine/scheduler/parallel_task_scheduler.cpp:102-194 | the same for every interleaving that has run to its end, on any well-formed plan |
| `SchedulerRefinement.ParallelRefinesSequential` | src/engine/scheduler/parallel_task_scheduler.cpp:47-194 | on an index-topological plan without stopOnFirstFailure every interleaving returns exactly the record list of the sequential loop |
| `SchedulerRefinement.SequentialMatchesParallel` | src/engine/scheduler/parallel_task_scheduler.cpp:47-194 | where every group returns a record, the sequential and the parallel scheduler agree if and only if no edge into a group that runs comes from the same or a later index |
| `SchedulerRefinement.PlanMatchesAlways` | src/engine/scheduler/parallel_task_scheduler.cpp:47-194 | they agree whatever the groups return if and only if that holds when every group succeeds, which can be read off the plan |
| `SchedulerLaunches.TakeKeepsLaunches` | src/engine/scheduler/parallel_task_scheduler.cpp:115-133 | a group is started only after all its predecessors were completed, and after each started group of its system was completed without stopping the launches |
| `SchedulerLaunches.RunKeepsLaunches` | src/engine/scheduler/parallel_task_scheduler.cpp:102-176 | the same over every interleaving, for the list of groups in the order in which they were started |
| `SchedulerLaunches.RunExecutes` | src/engine/scheduler/parallel_task_scheduler.cpp:102-194 | every interleaving that has run to its end returns, by index, the records of the groups it started: each started once, after the success of its predecessors; all that may run unless one of them stops the launches; and then none of the system of a failed one after it |
| `SchedulerLaunches.ExecutesAll` | src/engine/scheduler/parallel_task_scheduler.cpp:102-194 | without a failure that stops the launches, the groups executed are exactly those whose ancestors all run and succeed |
| `ParallelTaskScheduler.ParallelExecutionState.constructor` | src/engine/scheduler/parallel_task_scheduler.cpp:84-99 | the loops that fill counters and queue build the initial state of the state machine |
| `ParallelTaskScheduler.ParallelExecutionState.TryPick` | src/engine/scheduler/parallel_task_scheduler.cpp:105-143 | the locked search loop over the queue computes the pick step of the state machine, verdict and new state |
| `ParallelTaskScheduler.ParallelExecutionState.CompleteGroup` | src/engine/scheduler/parallel_task_scheduler.cpp:149-173 | the locked completion computes the completion step of the state machine |
| `ParallelTaskScheduler.ParallelExecutionState.SettleSuccessors` | src/engine/scheduler/parallel_task_scheduler.cpp:153-166 | the loop over successors decrements each listed counter once, marks failures and queues exactly the groups that became startable |
| `ParallelTaskScheduler.RunSequential` | src/engine/scheduler/parallel_task_scheduler.cpp:47-81 | the index-order loop executes exactly the groups whose predecessors all ran earlier and succeeded, cut off after the first failure under stopOnFirstFailure, returns their records and marks their items |
| `ParallelTaskScheduler.RunWorkers` | src/engine/scheduler/parallel_task_scheduler.cpp:102-194 | interleaved workers over the shared object terminate; the groups they start are as RunExecutes says, with and without stopOnFirstFailure, and they return the records of these and mark their items |
| `ParallelTaskScheduler.Concatenate` | src/engine/scheduler/parallel_task_scheduler.cpp:190-194 | the result is the slots in index order |
| `ParallelTaskScheduler.Run` | src/engine/scheduler/parallel_task_scheduler.cpp:36-195 | the whole call: with one job, no graph or one group the sequential loop decides which groups are executed, otherwise the workers; with an index-topological plan and without stopOnFirstFailure the number of jobs does not change the records; exactly the items of the groups executed are marked |
| `TaskRunner.Runner.ExecuteTaskGroup` | src/engine/scheduler/executor_dispatch.cpp:48-158 | a group that is handed to its plugin under a run is first marked as running in one transaction and fails as a whole if that transaction does; one without packages, with a local target, or not handed to a plugin touches no item |
| `TaskRunner.UpdateFailuresAre` | src/engine/scheduler/transactional_runner.cpp:94-101 | a group that cannot be marked fails with each of its packages, by name |
| `TaskRunner.ExecutedKeepsUpdates` | src/engine/scheduler/transactional_runner.cpp:94 | executing groups changes nothing about which other groups can be marked, so that a group returns the same whenever it is executed |
| `TaskRunner.ExecutedAndMarked` | src/engine/scheduler/transactional_runner.cpp:94-107 | one group more: exactly its items become running, all other items, and everything of runs but a time stamp, stay |
| `VertexOrder.RaiseTargets` | src/engine/scheduler/task_graph_builder.cpp:37-43 | the out-edge loop raises exactly the targets that do not lie above v, to one above it |
| `VertexOrder.ComputeLevels` | src/engine/scheduler/task_graph_builder.cpp:35-44 | one pass in topological order computes for every vertex the length of a longest path into it, witnessed and not exceeded by any path |
| `VertexOrder.VertexLessIsStrictWeak` | src/engine/scheduler/task_graph_builder.cpp:46-62 | the comparator (level, ensure order, system) is a strict weak order on every graph |
| `Sorting.StableSortSorts` | src/engine/scheduler/task_graph_builder.cpp:46 | the sorted list is a permutation in comparator order |
| `Sorting.StableSortPlaces` | src/engine/scheduler/task_graph_builder.cpp:46 | in the sorted list a stands before b exactly if the comparator demands it or does not forbid it and a stood before b |
| `VertexOrder.SortKeepsTopological` | src/engine/scheduler/task_graph_builder.cpp:46-62 | sorting a topological order by level, ensure order and system leaves a topological order |
| `VertexOrder.OrderedVertices` | src/engine/scheduler/task_graph_builder.cpp:25-65 | the result is the stable sort of the topological order by longest-path level, is itself topological, and within a level keeps to the ensure orders, then to systems, then to the topological order |
| `VertexOrder.SortKeepsOrders` | src/engine/scheduler/task_graph_builder.cpp:46-62 | of two vertices of one level the one whose first order flag has the lower number stands first, any number before none; of equal or no numbers the lesser system; and equals stand as in the topological order |
| `VertexOrder.OrderIs` | src/engine/scheduler/scheduler_support.hpp:185-198 | the order of a package is the number in its first order flag, if there is one |
| `Text.StringLessIsLexicographic` | src/engine/scheduler/task_graph_builder.cpp:61 | systems are compared byte by byte: the first difference decides, and a proper prefix is less |
| `TaskGroups.MergedFlagsAre` | src/engine/scheduler/scheduler_support.hpp:105-111 | merging keeps the old flags as a prefix, adds exactly the new ones, and never introduces a repetition |
| `TaskGroups.RunCarriesAll` | src/engine/scheduler/task_graph_builder.cpp:70-85 | a group carries every flag of its packages and no other, and uses a local target exactly if one of its packages is local |
| `TaskGroups.AppendPackage` | src/engine/scheduler/task_graph_builder.cpp:72-84 | one package joins the last group or opens a new one such that the groups stay the maximal runs of equal action and system |
| `TaskGroups.GroupRuns` | src/engine/scheduler/task_graph_builder.cpp:67-85 | the groups are the maximal runs of the ordered packages, no package lost or moved |
| `TaskGroups.GroupSteps` | src/engine/scheduler/task_graph_builder.cpp:70-76 | from one package of the sorted list to the next the group changes exactly where action or system do |
| `TaskGroups.RunsArePlaced` | src/engine/scheduler/task_graph_builder.cpp:67-85 | every package is in the run it stands in, and a run is later exactly if action or system change in between |
| `TaskGroups.PlacedRespectsEdges` | src/engine/scheduler/task_graph_builder.cpp:67-94 | with unique keys every package edge leads to the same or a later group, before and after partition and filtering; on Windows edges from nix to another system excepted |
| `TaskGroups.NixLastOrigin` | src/engine/scheduler/task_graph_builder.cpp:87-91 | the partition lists every group of the source once, nix groups behind all others and otherwise in source order |
| `TaskGroups.PartitionIsPlaced` | src/engine/scheduler/task_graph_builder.cpp:87-91 | after the partition every package is still with the packages of its run, and a group is later exactly if it is a nix group and the other is not, or was later before |
| `TaskGroups.CreateFromGraph` | src/engine/scheduler/task_graph_builder.cpp:67-94 | the groups of an acyclic graph are the maximal runs of its sorted vertices, partitioned on Windows, with every package in its place, and respect the package edges when keys are unique |
| `TaskGroups.MissingKeys` | src/engine/scheduler/task_graph_builder.cpp:233-239 | the filtered packages are exactly the reported ones, and each keeps the system and key of a package of the group |
| `TaskGroups.FilterExecutable` | src/engine/scheduler/task_graph_builder.cpp:204-246 | groups keep their order, are shrunk to their missing packages where the plugin is asked, and are dropped only when nothing is left |
| `TaskGroups.FilterIsPlaced` | src/engine/scheduler/task_graph_builder.cpp:204-246 | filtering keeps exactly the packages it has to keep, each in the group it was in, and the order of the groups |
| `TaskGroups.KeysTellApart` | src/engine/scheduler/scheduler_support.hpp:161-163 | package keys agree exactly if system, name and version do, where these hold no newline |
| `GroupContents.NixLastKeepsPackages` | src/engine/scheduler/task_graph_builder.cpp:87-91 | the partition keeps every package as often as it was there |
| `GroupContents.GroupsHoldAll` | src/engine/scheduler/task_graph_builder.cpp:67-94 | the unfiltered groups of a graph hold exactly its packages, each as often as it is a vertex |
| `GroupContents.RunsCarryFlags` | src/engine/scheduler/task_graph_builder.cpp:70-85 | every unfiltered group has exactly the flags of its packages |
| `GroupContents.FlagsArePlaced` | src/engine/scheduler/task_graph_builder.cpp:70-94 | the flags of a group are those of the packages that joined it |
| `GroupContents.FlagsStayPlaced` | src/engine/scheduler/task_graph_builder.cpp:228-242 | filtering leaves a group the flags of all packages that joined it |
| `TaskGraphBuilder.GroupIndexIsLast` | src/engine/scheduler/task_graph_builder.cpp:126-131 | a key is looked up in the last group that holds it |
| `TaskGraphBuilder.IndexPackages` | src/engine/scheduler/task_graph_builder.cpp:126-131 | the nested loops build a map with exactly the held keys, each to its last group |
| `TaskGraphBuilder.EdgeKeepsWellFormed` | src/engine/scheduler/task_graph_builder.cpp:138-148 | adding a new edge keeps counters equal to the number of lists a group appears in, and lists free of repetitions and self edges |
| `TaskGraphBuilder.PlanBuilder.constructor` | src/engine/scheduler/task_graph_builder.cpp:117-121 | plans start with no edges and zero counters, one per group in order |
| `TaskGraphBuilder.PlanBuilder.AddScheduleEdge` | src/engine/scheduler/task_graph_builder.cpp:137-148 | the edge relation grows by exactly the given pair unless it is a self edge or known; counters stay exact |
| `TaskGraphBuilder.PlanBuilder.AddConsumer` | src/engine/scheduler/task_graph_builder.cpp:163-169 | exactly the named group learns the consumer, once, and no edge changes |
| `TaskGraphBuilder.LiftEdge` | src/engine/scheduler/task_graph_builder.cpp:151-176 | one package edge adds exactly its group edge, unless it leaves nix on Windows, and exactly its consumer |
| `TaskGraphBuilder.InstallGroups` | src/engine/scheduler/task_graph_builder.cpp:178-192 | the two lists span exactly the barrier relation |
| `TaskGraphBuilder.AddBarrier` | src/engine/scheduler/task_graph_builder.cpp:194-198 | the edge relation grows by exactly the pairs of the two lists |
| `TaskGraphBuilder.CreatePlans` | src/engine/scheduler/task_graph_builder.cpp:115-202 | successor lists are exactly the image of the package edges between different groups plus the barrier, without repetitions and self edges, and pendingDependencies counts them |
| `TaskGraphBuilder.TurnsAroundIs` | src/engine/scheduler/task_graph_builder.cpp:126-138 | the group of one key is behind the group of another exactly if a package left under the first joins a later group than all packages left under the second |
| `TaskGraphBuilder.PlanIsIndexTopological` | src/engine/scheduler/task_graph_builder.cpp:115-202 | every edge of the plan leads to a strictly later group if and only if, in the sorted list of packages, no edge that counts and no barrier pair turns around; under the default and under the Windows policy, with and without filtering |
| `TaskGraphBuilder.UniqueEndsDoNotTurn` | src/engine/scheduler/task_graph_builder.cpp:67-202 | nothing turns around where the keys of edge sources are unique, with filtering also those of edge targets, and on Windows resolution keeps nix apart |
| `TaskGraphBuilder.PlansHoldAll` | src/engine/scheduler/task_graph_builder.cpp:67-202 | without a filter the plans hold exactly the packages of the graph, and each plan the flags of its packages |
| `TaskGraphBuilder.ExecutableGroups` | src/engine/scheduler/executor_run.cpp:52-53 | the executable groups are the maximal runs of the sorted packages, partitioned on Windows and filtered unless the input was, every package left in its place, every group with the flags of those that joined it |
| `TaskGraphBuilder.BuildPlans` | src/engine/scheduler/task_graph_builder.cpp:67-246 | from graph to executable groups to their plans: successor lists are the image of the package edges and the barrier, well-formed always, index-topological exactly if nothing turns around, in particular with unique keys |
| `TurningPlans.LocalTargetIsExpanded` | src/engine/planner/planner_graph.cpp:88-150 | the planner turns a local target whose plugin needs, by way of another system, the package of its own name into a chain of three vertices |
| `TurningPlans.DuplicateKeysTurnAround` | src/engine/scheduler/task_graph_builder.cpp:126-148 | the plan of that chain is cyclic, because the two packages of one key are both looked up in the later group |
| `TurningPlans.StoredNamesTurnAround` | src/engine/scheduler/task_graph_builder.cpp:87-198 | on Windows two unrelated installs, the first in sorted order stored under another spelling of nix, get a barrier edge that goes backwards |
| `ExecutorScheduling.ExecuteGraph` | src/engine/scheduler/executor_run.cpp:52-90 | the plans are those of the executable groups of the graph, the groups started, records and marked items those of these plans; on a graph on which nothing turns around the jobs setting changes nothing about the records returned |
| `TransactionStore.ApplyKeepsKeys` | src/ecosystem/state/transaction_database_write.cpp:16-250 | every transaction keeps items under the keys of their packages and no item outlives its run |
| `TransactionStore.ApplyKeepsActive` | src/ecosystem/state/transaction_database_write.cpp:127-250 | a transaction keeps "the active run has its record and is not committed" if and only if it is not markRunState(active, committed) on a readable run |
| `TransactionStore.HistoryKeepsInv` | src/ecosystem/state/transaction_database_write.cpp:16-250 | over every sequence of calls without markRunState to committed at most one run is active, it has its record, is not committed, and every item has its run |
| `TransactionStore.CreateHolds` | src/ecosystem/state/transaction_database_write.cpp:46-60 | after createRun with a fresh run id and distinct item ids the items of the run are exactly its packages, numbered in order |
| `TransactionStore.HistoryKeepsPackages` | src/ecosystem/state/transaction_database_write.cpp:74-214 | any calls that neither delete nor recreate a run leave its items those packages |
| `TransactionStore.ReadingGivesPackages` | src/ecosystem/state/transaction_database_read.cpp:83-95 | reading a run by sequence gives back the packages passed to createRun in order, without flags and directRequest |
| `TransactionStore.CommitKeepsRecord` | src/ecosystem/state/transaction_database_write.cpp:163-214 | committing a readable run keeps its id, flags and creation time, and all other records |
| `TransactionStore.TokensServeAsIds` | src/ecosystem/state/transaction_database_store.cpp:40-49 | hashed tokens ignore flags and keep the packages of a run apart if the hash keeps their tokens apart |
| `TransactionStore.SafePrefix` | src/ecosystem/state/transaction_database_write.cpp:62-64 | a crash between two transactions cannot make a history unsafe |
| `TransactionStore.LegalHistoryKeepsInv` | src/ecosystem/state/transaction_database_write.cpp:16-250 | over every history of calls with non-empty statuses, states and timestamps everything stored can be read back |
| `TransactionDatabase.Database.GetRunItems` | src/ecosystem/state/transaction_database_read.cpp:83-95 | returns every readable item of the run exactly once, by sequence |
| `TransactionDatabase.Database.GetActiveRun` | src/ecosystem/state/transaction_database_read.cpp:68-81 | returns the record of the active run, or nothing if there is none to read |
| `TransactionDatabase.Database.CreateRun` | src/ecosystem/state/transaction_database_write.cpp:16-67 | builds the run and its planned items in one transaction, or changes nothing and returns the empty id while a run is active |
| `TransactionDatabase.Database.UpdateItemStatus` | src/ecosystem/state/transaction_database_write.cpp:69-72 | the one-package case of the batch update |
| `TransactionDatabase.Database.UpdateItemsStatus` | src/ecosystem/state/transaction_database_write.cpp:74-125 | all or nothing: exactly the listed items change, in status and error alone, or a package is missing and nothing changes; the result says which |
| `TransactionDatabase.Database.MarkRunState` | src/ecosystem/state/transaction_database_write.cpp:127-161 | changes the state of a readable run or nothing |
| `TransactionDatabase.Database.MarkRunCommitted` | src/ecosystem/state/transaction_database_write.cpp:163-214 | commits all readable items of the run and the run in one transaction and releases it if active |
| `TransactionDatabase.Database.DeleteRun` | src/ecosystem/state/transaction_database_write.cpp:216-250 | removes exactly the items and the record of the run and releases it, or nothing if there is no record |
| `TransactionDatabase.Database.Crash` | src/ecosystem/state/transaction_database_write.cpp:62-64 | a crash leaves the effect of a prefix of the committed transactions |
| `ExecutorTransactions.NothingPendingIsTerminal` | src/engine/scheduler/executor_transaction_recovery.cpp:33-50 | if reconciliation leaves nothing pending, every item of the run is success, committed or failed exactly if each open item was itself written back |
| `ExecutorTransactions.EarlyCommitExactly` | src/engine/scheduler/executor_transaction_recovery.cpp:60-127 | there are plugins under which a run is committed early if and only if every open item would be written back to some item of the run and one of them to none |
| `ExecutorTransactions.LosslessLosesNothing` | src/engine/scheduler/executor_transaction_recovery.cpp:74-122 | no item is lost where the resolved name of each gives its own id or the id of no item of the run |
| `ExecutorTransactions.LosslessIsNeeded` | src/engine/scheduler/executor_transaction_recovery.cpp:74-122 | where resolving twice changes nothing more and ids tell packages apart, an item is lost if and only if the resolved name of one gives the id of another |
| `ExecutorTransactions.OnlyFailuresAreNotDone` | src/engine/scheduler/executor_transaction_recovery.cpp:33-50 | where nothing is pending and nothing is lost, all items of the run had succeeded before the commit if and only if none of them had failed |
| `ExecutorTransactions.LegalStore` | src/engine/scheduler/executor_run.cpp:20-50 | in every state reached by calls of the executer the store is readable and its active run intact |
| `ExecutorTransactions.HistoryPrefix` | src/engine/scheduler/executor_run.cpp:20-50 | a crash between two transactions leaves a history of the same kind, and a safe one safe |
| `RecoveryExamples.UnresolvedItemIsLost` | src/engine/scheduler/executor_transaction_recovery.cpp:74-122 | a run that holds one package under a system name and under the name it resolves to loses the first item |
| `RecoveryExamples.LostItemHistory` | src/engine/scheduler/executor_transaction_recovery.cpp:41-44 | the transactions of that run and its recovery commit it while an item is planned |
| `RecoveryExamples.FailedItemIsCommitted` | src/engine/scheduler/executor_transaction_recovery.cpp:40-49 | a run whose only item failed has nothing pending under any plugins, and after the commit its item counts as committed |
| `ExecutorTransactions.RecordWritten` | src/engine/scheduler/executor_transaction_state.cpp:15-31 | writing one more record gives exactly the item it is about that outcome |
| `ExecutorOutcomes.RecordsReachItems` | src/engine/scheduler/executor_transaction_state.cpp:13-32 | of the items that agree in action, system, name and version the first ends with status and error of the last record that has these four values, or as it was if there is none; all other items stay as they were |
| `ExecutorOutcomes.EachIsReached` | src/engine/scheduler/executor_transaction_state.cpp:13-32 | where no two items of the run agree in the four values, each of them ends with the last record about it |
| `ExecutorOutcomes.UnrecognizedIsMisplaced` | src/engine/scheduler/executor_transaction_state.cpp:15-31 | a record about no item of the run whose bare package has the id of one gives that item its outcome |
| `ExecutorRuns.TwinsDecide` | src/engine/scheduler/executor_transaction_state.cpp:15-53 | where everything reported is a success, the run is all done if and only if every item that is alike an earlier one was done before |
| `ExecutorRuns.ExecutionSucceeds` | src/engine/scheduler/parallel_task_scheduler.cpp:36-195 | if every group of an index-topological plan succeeds, all groups are executed and every package is reported as a success |
| `ExecutorRuns.SucceededRunEnds` | src/engine/scheduler/executor_run.cpp:90-181 | if every group of an index-topological plan for the items of a run succeeds, the run ends: committed, or deleted if so configured, and none is active |
| `ExecutorRuns.NewRunSucceeds` | src/engine/scheduler/executor_run.cpp:55-181 | the same for a new run: its id is new, ids and records tell its packages apart |
| `ExecutorRuns.RecoverySucceeds` | src/engine/scheduler/executor_run.cpp:34-48 | an interrupted run without failed items, stored under resolved names, ends if its pending groups succeed |
| `Executer.TaskExecuter.Settle` | src/engine/scheduler/executor_transaction_recovery.cpp:120-122 | the item of the id becomes a success if the run has one, otherwise nothing changes and false is returned |
| `Executer.TaskExecuter.SplitRecoverable` | src/engine/scheduler/executor_transaction_recovery.cpp:67-82 | items nobody can be asked about are set apart, the others taken under their resolved systems |
| `Executer.TaskExecuter.ReconcileSystem` | src/engine/scheduler/executor_transaction_recovery.cpp:90-124 | of one system exactly the items that are not reported missing and have an item of their id in the run are written back; without a plugin, all stay pending |
| `Executer.TaskExecuter.ReconcileSystems` | src/engine/scheduler/executor_transaction_recovery.cpp:85-124 | the same over all systems, each asked once |
| `Executer.TaskExecuter.ReconcileRecoveredItems` | src/engine/scheduler/executor_transaction_recovery.cpp:60-127 | pending are exactly the items nobody can be asked about, as stored, and under their resolved names those still missing and those no item of the run answers to; exactly the others are written back |
| `Executer.TaskExecuter.CreateTaskGroupsFromRecords` | src/engine/scheduler/executor_transaction_recovery.cpp:129-149 | the groups are the maximal runs of the pending packages |
| `Executer.TaskExecuter.RecoverPendingTaskGroups` | src/engine/scheduler/executor_transaction_recovery.cpp:21-58 | nothing pending: the run is committed, deleted if so configured, and cleared on return, and the commit is early exactly if an item was lost; otherwise the groups hold exactly the pending packages with the flags of the run, which stays active as recovered |
| `Executer.TaskExecuter.ExecuteRecordedTaskGroups` | src/engine/scheduler/executor_task_scheduler.cpp:8-12 | the groups of the plans are executed by the loop or the workers: records are those of the groups started, in the order of the groups, each what the group returns or the failure to mark it; exactly the items of these groups are running, and a group is left out only as Run says |
| `Executer.TaskExecuter.WriteTransactionResults` | src/engine/scheduler/executor_transaction_state.cpp:9-33 | each item of the run, or of items that are alike the first, ends with status and error of the last record that has its action, system, name and version, and as it was if there is none; nothing else changes |
| `Executer.TaskExecuter.MarkCommittedTransactions` | src/engine/scheduler/executor_transaction_state.cpp:35-53 | commits exactly when every item is success or committed; otherwise only the state of the run changes, to failed, and it stays active |
| `Executer.TaskExecuter.DeleteCommittedTransactions` | src/engine/scheduler/executor_transaction_state.cpp:55-67 | deletes nothing while a run is active, and otherwise exactly the finished run |
| `Executer.TaskExecuter.CompleteRun` | src/engine/scheduler/executor_run.cpp:175-181 | results, completion and deletion together: a fully successful run is closed; of any other one only the state changes, to failed, and it stays active |
| `ExecutorTransactions.ClosedKeepsOthers` | src/engine/scheduler/executor_transaction_state.cpp:35-67 | committing and deleting a run leaves the records and items of all other runs alone |
| `Executer.TaskExecuter.Recover` | src/engine/scheduler/executor_run.cpp:34-45 | the active run is recovered; if groups are still to be executed, those started return records and have their items marked, and the run is completed with them |
| `Executer.TaskExecuter.ExecuteAndComplete` | src/engine/scheduler/executor_run.cpp:90-181 | the groups of a run are executed and the run completed with their records and the further ones |
| `Executer.TaskExecuter.RecoverActiveRun` | src/engine/scheduler/executor_run.cpp:34-50 | after recovery, executed groups included, an interrupted run is over, committed or deleted, or still active as failed; it is over if nothing of it had failed and everything pending succeeds |
| `Executer.TaskExecuter.ExecuteNew` | src/engine/scheduler/executor_run.cpp:52-181 | a run is created for the groups, executed by the plans of the graph, and completed |
| `Executer.TaskExecuter.Begin` | src/engine/scheduler/executor_run.cpp:55-65 | a run is created only when none is active |
| `Executer.TaskExecuter.Execute` | src/engine/scheduler/executor_run.cpp:12-183 | nothing new is begun while a run is active; otherwise the run of the groups is created, its groups executed by their plans, given its results and completed; if all groups succeed it ends committed or deleted and no run is active; no commit is early where nothing can be lost |
| `Executer.Lifetime` | src/engine/scheduler/executor_run.cpp:12-183 | no early commit: over any sequence of program starts that may die between any two transactions, markRunCommitted is only called when no item of the run is planned or running, if within each run resolved names give the id of the item itself or of none |
| `FieldLines.EscapeRoundTrip` | src/ecosystem/state/transaction_database_store.cpp:63-102 | unescaping inverts escaping on every string |
| `FieldLines.EscapeInjective` | src/ecosystem/history/history_manager_entry_codec.cpp:26-38 | different strings have different escaped forms |
| `FieldLines.EscapedHasNoNewline` | src/ecosystem/history/history_manager_entry_codec.cpp:26-38 | an escaped field never holds a newline |
| `FieldLines.EscapeField` | src/ecosystem/state/transaction_database_store.cpp:63-75 | the loop computes the escaped form |
| `FieldLines.UnescapeField` | src/ecosystem/state/transaction_database_store.cpp:77-102 | the loop with its fast start computes the unescaped form, a lone backslash at the end included |
| `FieldLines.JoinRoundTrip` | src/ecosystem/registry/registry_database_store.cpp:66-87 | splitting joined parts gives them back if and only if none is empty or holds the separator |
| `FieldLines.FieldsRoundTrip` | src/ecosystem/state/transaction_database_store.cpp:104-156 | reading rendered lines gives back every key and value, whatever characters the values hold |
| `TransactionCodec.ItemKeyRoundTrip` | src/ecosystem/state/transaction_database_store.cpp:18-36 | an item key reads back as its run and item id if and only if the run id is non-empty and colon-free and the item id non-empty |
| `TransactionCodec.ItemPrefixExact` | src/ecosystem/state/transaction_database_store.cpp:55-61 | a key starts with the prefix of a run exactly if it is a key of that run, for colon-free run ids |
| `TransactionCodec.KeysApart` | src/ecosystem/state/transaction_database_store.cpp:51-61 | run keys, item keys and the active-run key never coincide |
| `TransactionCodec.SomeNumbering` | src/ecosystem/state/transaction_database_store.cpp:165-200 | there are numberings of the kind the item codec needs: every 32-bit value of the enumeration has a number of its own |
| `TransactionCodec.TokenInjective` | src/ecosystem/state/transaction_database_store.cpp:40-43 | tokens of packages without separators in system, name and version are equal exactly for the same package |
| `TransactionCodec.TokenIsShared` | src/ecosystem/state/transaction_database_store.cpp:40-43 | a package shares its token with a different one if and only if a separator stands in its system, name, version or source path |
| `TransactionCodec.RunReadsBack` | src/ecosystem/state/transaction_database_store.cpp:104-163 | decoding a serialized run gives the run with its flags joined and split, or nothing if a mandatory field is empty |
| `TransactionCodec.RunRoundTrip` | src/ecosystem/state/transaction_database_store.cpp:104-163 | a run decodes to itself if and only if id, state and timestamps are non-empty and each flag is non-empty and free of semicolons |
| `TransactionCodec.StoredFlagsStay` | src/ecosystem/state/transaction_database_store.cpp:104-156 | storing a run that was read changes its flags no further |
| `TransactionCodec.DeserializeRun` | src/ecosystem/state/transaction_database_store.cpp:120-163 | the decoding loop keeps the last value of each key and all flags, and refuses incomplete runs |
| `TransactionCodec.ItemRoundTrip` | src/ecosystem/state/transaction_database_store.cpp:165-258 | an item decodes to itself without flags and directRequest if and only if its run id is non-empty and colon-free and item id and status are non-empty |
| `TransactionCodec.DeserializeItem` | src/ecosystem/state/transaction_database_store.cpp:179-258 | the decoding loop refuses bad numbers and digits, missing keys and empty statuses, and otherwise keeps the last value of each key |
| `RegistryCodec.ScopeRoundTrip` | src/ecosystem/registry/registry_database_store.cpp:89-101 | an escaped scope component unescapes to itself and holds no newline |
| `RegistryCodec.ScopeLineRoundTrip` | src/ecosystem/registry/registry_database_store.cpp:103-123 | a scope line splits back into its fields, whatever characters they hold |
| `RegistryCodec.WriteScopesRoundTrip` | src/ecosystem/registry/registry_database_store.cpp:202-233 | write scopes come back whole |
| `RegistryCodec.NetworkScopesRoundTrip` | src/ecosystem/registry/registry_database_store.cpp:235-269 | network scopes come back whole |
| `RegistryCodec.EscapeScopeComponent` | src/ecosystem/registry/registry_database_store.cpp:89-101 | the loop computes the escaped component |
| `RegistryCodec.SplitEscapedFields` | src/ecosystem/registry/registry_database_store.cpp:103-123 | the loop splits at exactly the unescaped separators |
| `RegistryCodec.DeserializeWriteScopes` | src/ecosystem/registry/registry_database_store.cpp:213-233 | the loop reads one scope per non-empty line |
| `RegistryCodec.DeserializeNetworkScopes` | src/ecosystem/registry/registry_database_store.cpp:247-269 | the loop reads one scope per non-empty line |
| `RegistryCodec.SeparatorIsReal` | src/ecosystem/registry/registry_database_store.cpp:457-486 | the separator found first is the one that was written, whatever header values and script hold |
| `RegistryCodec.RecordReadsBack` | src/ecosystem/registry/registry_database_store.cpp:457-559 | decoding a serialized record gives the record with its name lists joined and split, or nothing if it is not accepted |
| `RegistryCodec.RecordRoundTrip` | src/ecosystem/registry/registry_database_store.cpp:457-559 | a record decodes to itself if and only if it has a source or is an alias, its script is acceptable, and capabilities and ecosystems are non-empty and newline-free |
| `RegistryCodec.DeserializeRecord` | src/ecosystem/registry/registry_database_store.cpp:482-559 | the decoding loop refuses bad flags and unaccepted records and otherwise keeps the last value of each key |
| `InstalledCodec.NormalizedOwners` | src/ecosystem/history/history_manager_entry_codec.cpp:146-152 | normalizing keeps the set of non-empty owners, strictly increasing |
| `InstalledCodec.NormalIsUnique` | src/ecosystem/history/history_manager_entry_codec.cpp:146-152 | a set of owners has one normal form |
| `InstalledCodec.InstallMethodFromOwners` | src/ecosystem/history/history_manager_entry_codec.cpp:154-170 | an entry is explicit exactly with an owner that begins with root and a newline, a dependency exactly with one that begins with pkg and a newline, and unknown with neither |
| `InstalledCodec.EntryReadsBack` | src/ecosystem/history/history_manager_entry_codec.cpp:133-207 | decoding a serialized entry gives it with normal owners and a derived install method, or nothing without name or system |
| `InstalledCodec.EntryRoundTrip` | src/ecosystem/history/history_manager_entry_codec.cpp:133-207 | an entry decodes to itself if and only if it has name, system and install method and its owners are normal |
| `InstalledCodec.DeserializeEntry` | src/ecosystem/history/history_manager_entry_codec.cpp:172-207 | the decoding loop keeps the last value of each key and all owners |
| `InstalledCodec.StateKeyInjective` | src/ecosystem/history/history_manager_entry_codec.cpp:209-211 | the key tells system, name and version apart, whatever they hold |
| `InstalledCodec.SystemPrefixExact` | src/ecosystem/history/history_manager_entry_codec.cpp:213-215 | a key starts with the prefix of a system if and only if it is a key of that system |
| `InstalledCodec.NamePrefixExact` | src/ecosystem/history/history_manager_entry_codec.cpp:217-219 | a key starts with the prefix of a system and name if and only if it belongs to both |
| `InstalledCodec.IdentityInjective` | src/ecosystem/history/history_manager_entry_codec.cpp:221-223 | identities agree exactly if name and version agree |
| `InstalledState.PutEntry` | src/ecosystem/history/history_manager_store.cpp:284-287 | putting a payload under its key puts exactly that entry into the abstract map |
| `InstalledState.PutDead` | src/ecosystem/history/history_manager_store.cpp:284-287 | the payload of an entry without name or system is stored but stands for nothing |
| `InstalledState.DeleteEntry` | src/ecosystem/history/history_manager_store.cpp:104-119 | deleting a key removes exactly that entry |
| `InstalledState.OwnerSets` | src/ecosystem/history/history_manager_store.cpp:417-464 | merging is set union and subtracting set difference on owners |
| `InstalledState.SubtractUndoesMerge` | src/ecosystem/history/history_manager_store.cpp:417-464 | subtracting merged ids restores the owners if and only if none was there before, and the whole entry if its install method is the derived one |
| `InstalledState.MergeThenSubtract` | src/ecosystem/history/history_manager_store.cpp:394-474 | on the store: after a merge the same request finds the same entry, and subtracting the ids leaves all others alone and restores the owners if and only if none was there before |
| `InstalledState.ReplacedKeepsOthers` | src/ecosystem/history/history_manager_store.cpp:325-392 | replacing a system leaves the entries of other systems unchanged |
| `InstalledState.ReplacedIdentities` | src/ecosystem/history/history_manager_store.cpp:361-389 | the identities of the system are afterwards exactly the named listed ones |
| `InstalledState.ReplacedEntry` | src/ecosystem/history/history_manager_store.cpp:361-389 | each of them is the last listed entry, continued from its old one |
| `InstalledState.RefreshedCarriesOver` | src/ecosystem/history/history_manager_store.cpp:370-381 | time stamp, owners and install method come from the old entry when the listed one has none |
| `InstalledStateStore.SelectIsContinued` | src/ecosystem/history/history_manager_store.cpp:164-179 | the lookup tables select the old entry of the same identity, else the only one of the name |
| `InstalledStateStore.Database.Find` | src/ecosystem/history/history_manager_store.cpp:138-162 | finds exactly the entry a request means: the version asked for, else the only one of the name |
| `InstalledStateStore.Database.Upsert` | src/ecosystem/history/history_manager_store.cpp:269-293 | the store then stands for the map with that one entry set; for an entry without name or system the map stays |
| `InstalledStateStore.Database.Remove` | src/ecosystem/history/history_manager_store.cpp:295-323 | removes exactly one version, or all versions for an empty one |
| `InstalledStateStore.Database.Replace` | src/ecosystem/history/history_manager_store.cpp:325-392 | the store then stands for the replaced map; for an empty system the map stays |
| `InstalledStateStore.Database.Merge` | src/ecosystem/history/history_manager_store.cpp:394-433 | the found entry is merged, or nothing changes and false is returned |
| `InstalledStateStore.Database.Subtract` | src/ecosystem/history/history_manager_store.cpp:435-474 | the found entry is subtracted from, or nothing changes and false is returned |
| `InstalledStateStore.Database.UpdateInstalledState` | src/ecosystem/history/history_manager_store.cpp:483-517 | an install adds its version, an update leaves only the new version of the name, a removal takes one version or all, and other events change nothing; nothing is added without name or system |
| `Planner.DependencyShape` | src/engine/planner/planner_graph.cpp:112-133 | dependencies are requirements of the bundle in which only action, flags and directRequest may differ, the action only below an ensured package, the flags only by the order flag of one; they are never direct requests, and below an ensured package they are ensured in its order |
| `Planner.Expansion.FindOrAddPackageVertex` | src/engine/planner/planner_graph.cpp:14-24 | the vertex of the same package is at most marked direct, or a new one is added; no two vertices are the same package, each has the flags of the first package added as it and is marked direct exactly if some package added as it was |
| `Planner.Expansion.Link` | src/engine/planner/planner_graph.cpp:138-140 | adds exactly the given edge if it is neither a self loop nor known; every edge is a need of a package under expansion or expanded |
| `Planner.Expansion.FollowDependencies` | src/engine/planner/planner_graph.cpp:135-141 | afterwards every dependency of the package is linked to it, and its system expanded or under expansion |
| `Planner.Expansion.AddPackageWithDependencies` | src/engine/planner/planner_graph.cpp:88-150 | terminates on the systems not active, keeps the graph simple and every expanded package linked to all its dependencies, begins nothing it does not finish and nothing no request leads to, and leaves no needed system unexpanded but the active ones |
| `Planner.BuildDag` | src/engine/planner/planner_graph.cpp:28-86 | the graph of a request list: simple, vertices exactly the packages requested or needed by expanded ones, edges exactly the needs of the expanded ones, each expanded one requested so or needed by one expanded before, every needed system expanded |
| `PackageSearch.DistanceIsLeastCost` | src/workflows/query/package_search_query.cpp:16-43 | the distance is the least cost of an edit script |
| `PackageSearch.DistanceIsMetric` | src/workflows/query/package_search_query.cpp:16-43 | the distance is zero exactly between equal strings, symmetric, and obeys the triangle inequality |
| `PackageSearch.FillRow` | src/workflows/query/package_search_query.cpp:33-39 | the inner loop turns the row of distances of one prefix into the row of the next |
| `PackageSearch.LevenshteinDistance` | src/workflows/query/package_search_query.cpp:16-43 | the two-row loop computes the recursive distance for all string pairs |
| `PackageSearch.NearNames` | src/workflows/query/package_search_query.cpp:176-191 | the map holds exactly the other catalogue names within the limit, with their distances: one for words of up to four characters, two for longer ones |
| `PackageSearch.NearIs` | src/workflows/query/package_search_query.cpp:176-186 | near names are the lower-cased names of the catalogue other than the word, at distance one at most from a word of up to four characters and two at most from a longer one |
| `PackageSearch.BestIsUnique` | src/workflows/query/package_search_query.cpp:197-205 | there is at most one best suggestion |
| `PackageSearch.DidYouMean` | src/workflows/query/package_search_query.cpp:164-206 | the suggestion is the lexicographically least of the names nearest to the first word of the prompt within the limit, whatever order the map is iterated in, and there is none exactly if there is no such name or no usable word |
| `PackageSearch.TermsFromPrompt` | src/workflows/query/package_search_query.cpp:67-84 | the loop returns the lower-cased words between white space |
| `CommandLine.TokenizeCommandLine` | src/workflows/remote/remote_client.cpp:43-85 | the flag loop computes the run of the tokenizer automaton |
| `CommandLine.JoinArguments` | src/workflows/remote/remote_client.cpp:87-109 | the loops compute the joined, quoted arguments |
| `CommandLine.RunQuoted` | src/workflows/remote/remote_client.cpp:99-106 | a quoted argument is read whole into the current token, whatever it holds |
| `CommandLine.RunSingleQuoted` | src/workflows/remote/remote_client.cpp:43-85 | a text in single quotes is read whole into the current token, backslashes, double quotes and white space included |
| `CommandLine.SingleQuotedToken` | src/workflows/remote/remote_client.cpp:43-85 | a command that is one text in single quotes has that text as its only token |
| `CommandLine.OpenSingleQuote` | src/workflows/remote/remote_client.cpp:76-80 | a command that ends within single quotes has no tokens |
| `CommandLine.OpenDoubleQuote` | src/workflows/remote/remote_client.cpp:76-80 | a command that ends within double quotes has no tokens, whatever was quoted |
| `CommandLine.TrailingBackslash` | src/workflows/remote/remote_client.cpp:76-80 | a command that ends with a backslash that escapes nothing has no tokens |
| `CommandLine.JoinedScore` | src/workflows/remote/remote_client.cpp:43-109 | no joined command yields more than its arguments weigh, and exactly that only if no argument was empty, no unquoted backslash was met and tokens match separators |
| `CommandLine.QuotingRoundTrip` | src/workflows/remote/remote_client.cpp:43-109 | tokenizing joined arguments returns them if and only if each is non-empty and holds a quote trigger or no backslash, vertical tab or form feed |

## Left out

- LMDB itself: failing reads, writes and commits, map and key size limits, and two processes on one database.
- createRun called concurrently: the active-run check precedes the lock, so the single-active-run claim is about sequential calls.
- The 64-bit FNV hash: item ids are a hash parameter, kept apart on the packages of a run by assumption.
- `rqp/security/security_types.h` is not part of this model: the numbers of action enumerators are a parameter, and package, graph and request records have the fields the modelled code uses.
- Installed-state payloads damaged by other means: a payload that cannot be read stands under the key of an identity without name or system. The one-time import of the legacy file is not modelled.
- Timestamps: opaque non-empty strings; one timestamp stands for all readings of the clock within one call.
- Levels are unbounded integers; the code's int would overflow only beyond two billion vertices.
- Plugin pointers, preload, soft-skipping of nix installs, dry runs and the security gateway dispatch: a group that ends there marks no item, and its outcome is part of the records a group returns.
- Database updates of workers that execute groups at the same time: each worker marks the items of its group and obtains its records in one step.
- The further records of a call (removed orphans, packages already satisfied): any records, which the executer receives as a parameter.
- Downloads of missing plugin bundles during expansion: a bundle is found or not for the whole expansion.
- Registry trust and hash checks, git sources, SHA-256, relevance scores of search results, SBOM and audit output, displays, JSON documents, history log, configuration, upload detection and the rest of the remote client and server.
- Acyclicity of the planner's graph: mutual requirements can form a cycle, on which `boost::topological_sort` throws; the builder's results assume an acyclic graph.
