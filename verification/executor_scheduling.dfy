// The scheduling half of Executer::execute: package graph, task groups, plans, records.
module ExecutorScheduling {
  import opened Sequences
  import opened Sorting
  import opened TaskPlans
  import opened VertexOrder
  import opened TaskGroups
  import opened GroupContents
  import opened TaskGraphBuilder
  import opened SchedulerRefinement
  import opened TaskRunner
  import opened ParallelTaskScheduler
  import opened ExecutorTransactions

  /** The plans are those of the executable groups of the graph; the records are those of the groups started, and the
      items of these groups are marked. If nothing turns around in the sorted packages of the graph, the number of
      jobs changes nothing about the records returned. */
  method ExecuteGraph(runner: Runner, policy: Policy, g: Graph, topological: seq<nat>, plugins: Plugins, alreadyFiltered: bool,
                      jobs: nat, stopOnFirstFailure: bool)
    returns (plans: seq<TaskGroupPlan>, records: seq<Record>, ghost started: seq<nat>, ghost order: seq<nat>, ghost levels: seq<nat>,
             ghost groups: seq<TaskGroup>, ghost at: map<nat, nat>)
    requires InRange(g) && Topological(g, topological) && runner.Valid()
    modifies runner.db
    ensures runner.Valid() && WellFormed(plans)
    ensures LongestPaths(g, levels) && order == StableSort(VertexLess(g, levels), topological) && OrderInRange(g, order)
    ensures var filter, packages := if alreadyFiltered then None else Some(plugins), PackagesAt(g, order);
            && GroupsOf(policy.windows, filter, packages, groups) && Placed(policy.windows, filter, packages, groups, at)
            && FlagsPlaced(policy.windows, packages, groups, at)
            && PlansOf(policy, g, groups, plans)
    ensures alreadyFiltered ==> multiset(PlannedPackages(plans)) == multiset(g.vertices)
    ensures alreadyFiltered ==> forall plan :: plan in plans ==> CarriesFlags(plan.taskGroup)
    ensures var exec := OutcomeIn(runner.Context(), old(runner.db.store), plans);
            && RunsAs(plans, exec, true, jobs, stopOnFirstFailure, started, records)
            && (NothingTurns(policy, if alreadyFiltered then None else Some(plugins), g, PackagesAt(g, order)) && !stopOnFirstFailure ==>
                  records == SequentialRecords(plans, exec, false))
    ensures Executed(runner.Context(), plans, old(runner.db.store), runner.db.store, started)
  {
    hide WellFormed, Topological, NothingTurns, UniqueKeys, ResolvesNix, Forward, SequentialRecords, SequentialRuns, LongestPaths, StableSort,
         GroupsOf, Placed, FlagsPlaced, PlansOf, PlannedPackages, CarriesFlags, RunsAs, OutcomeIn, Executed,
         Sound, SafeSoFar, StockedSoFar, StatusesGiven;
    plans, order, levels, groups, at := BuildPlans(policy, g, topological, plugins, alreadyFiltered);
    records, started := Run(runner, plans, true, jobs, stopOnFirstFailure);
  }
}
