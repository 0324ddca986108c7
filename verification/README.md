# Verified model of SkyPilot's placement, launch records, billing intervals and scoped config

SkyPilot decides where tasks run, records how launches go, bills cluster usage and resolves layered
configuration. This project models that logic in Dafny and proves what it is meant to guarantee, for all
inputs, all interleavings and all runs.

- **Graphs and DAGs** (`Graphs.dfy`, `Dags.dfy`): task graphs, topological orders, the chain test that
  looks at degrees only, and the dummy source and sink put around a DAG.
- **Placement** (`Placement.dfy`, `FinishTimes.dfy`, `IntegerProgram.dfy`, `OptimalPoints.dfy`,
  `OptimizeDag.dfy`, `GraphCopies.dfy`, `InstanceCopies.dfy`, `Optimizer.dfy`): the dynamic program for chains, the integer program
  for general graphs, finish times, one optimizer pass with ordered requests, blocked resources and the copy
  back to the caller's DAG, and the entry point that puts dummy nodes around the DAG and takes them away.
  Both algorithms are proved optimal over all plans, for cost and for time, and equal to each other on chains.
- **Job groups** (`Infras.dfy`, `Pins.dfy`, `JobGroups.dfy`): common infrastructure, its selection, infra
  pins, and what becomes of in-group networking.
- **Launch attempts** (`LaunchAttempts.dfy`, `LaunchRuns.dfy`, `LaunchClaims.dfy`, `LaunchNumbers.dfy`,
  `LaunchStamps.dfy`, `LaunchRefinement.dfy`): the table shared by all server processes, as a store of SQL
  statements and as a transition system over every interleaving of them, which the store is proved to refine.
- **Usage intervals** (`UsageIntervals.dfy`, `BilledSeconds.dfy`): the billing state machine, its two derived
  columns, and what is billed against what was used.
- **Config** (`Configs.dfy`, `ConfigBrackets.dfy`): nested lookup and recursive merge, scope resolution, the
  default admission timeout, removal of queue names, and nested override brackets.

Conventions. Costs and times are `real`. A dictionary whose iteration order matters is a sequence of
entries; a SQL table is a map and each committed statement is one atomic step. A source assertion or
exception is a `None`, a `false` or an `Outcome` value rather than a precondition. Catalog lookups, egress
prices, runtimes, the time of day, fresh ids and the solver's answer are parameters.

Where the code and its words differ, the model follows the code:

- The column comment calls the attempt sequence monotonic within a cluster name
  (sky/global_user_state.py:398). Numbers are allocated from live rows only. Over any run they increase if and
  only if no attempt of the cluster is opened after retention has deleted its highest-numbered live row
  (`LaunchNumbers.NumbersIncreaseIff`); `LaunchNumbers.SequenceCanRestart` is a run in which one repeats.
- A claim promises that an attempt is observed exactly once. Where the database lacks RETURNING the rows are
  read back by time stamp, and then the promise holds if and only if no such claim shares its stamp with an
  earlier claim of a row that is still there (`LaunchClaims.ClaimsDisjointIff`);
  `LaunchClaims.ReadBackCanClaimTwice` is a run that returns one attempt twice.
- The delete condition of the retention sweep is written as a range plus a test and described as equivalent
  to an OR. The two agree exactly when the hard cutoff is not the later one
  (`LaunchAttempts.RetentionFormsAgree`), which holds for a positive window unless the two clock reads are
  further apart than the window (`LaunchAttempts.RetentionAgreesForWindow`).
- The newest open row for a name is looked up and then updated in two statements. The update misses, with a
  later row open for the name, if and only if that row was opened between the two statements
  (`LaunchStamps.StampHitsLatest`, with the runs of `LaunchStamps.StampCanMiss`); the per-cluster launch lock
  is what excludes that.
- The overridden flag of the config context is cleared, not restored, when an inner override is left
  (`ConfigBrackets.FlagSurvivesIff`, `ConfigBrackets.InnerExitClearsFlag`).

One behaviour is kept as the code has it although it is easily overlooked: stopping or terminating a cluster
that is already stopped moves the end of its last usage interval, so the seconds billed are the seconds used if
and only if that never happens at a later second (`BilledSeconds.BilledIsUsedIff`).

## Model

| member | source | states |
|---|---|---|
| Graphs.AcyclicIffSortable | sky/optimizer.py:1542 | a finite graph has a topological order if and only if it has no cycle |
| Graphs.ChainPredecessor | sky/optimizer.py:467 | on a chain the node just before in any topological order is the one and only predecessor, which the dynamic program relies on |
| Graphs.ChainIffPath | sky/dag.py:177-196 | on a sortable non-empty graph the degree test holds exactly when the edges are the consecutive pairs of the order |
| Graphs.DegreeTestAcceptsACycle | sky/dag.py:177-196 | without acyclicity the degree test also accepts a lone task beside a cycle |
| Dags.DummiesKeepAcyclic | sky/optimizer.py:150-187 | adding the dummy source and sink keeps an acyclic graph acyclic |
| Dags.DummiesAreEnds | sky/optimizer.py:150-187 | on a non-empty acyclic graph every topological order then starts at the source and ends at the sink |
| Dags.DummiesKeepChain | sky/optimizer.py:150-187 | on a non-empty acyclic graph adding the dummies preserves whether it is a chain, both ways |
| Dags.DummiesOnEmptyGraph | sky/optimizer.py:150-187 | on the empty graph the two dummies stay apart and chain-ness is lost |
| Dags.RemoveUndoesAdd | sky/optimizer.py:190-198 | removing the dummies gives back task list and graph exactly when no user task has a reserved name, and fails its assertion otherwise |
| Dags.Dag.Add | sky/dag.py:69-71 | appends to the list, adds the node, keeps the edges |
| Dags.Dag.Remove | sky/dag.py:73-75 | removes the first occurrence from the list and the node with its edges from the graph, and keeps the two in step |
| Dags.Dag.AddEdge | sky/dag.py:77-80 | adds one edge between nodes that are present |
| Dags.Dag.AddDummySourceSink | sky/optimizer.py:150-187 | the new list and graph are those of adding edges from the source to all roots and from all leaves to the sink |
| Dags.Dag.RemoveDummySourceSink | sky/optimizer.py:190-198 | looks the dummies up by name and removes them, or reports the failed assertion and changes nothing |
| Placement.BestParent | sky/optimizer.py:470-480 | the returned parent resource attains the least parent cost plus egress |
| Placement.FillTables | sky/optimizer.py:453-484 | at every node both tables satisfy the Bellman equation over the node before |
| Placement.TableIsLowerBound | sky/optimizer.py:453-484 | no plan of a prefix is worth less than its table entry |
| Placement.Backtrack | sky/optimizer.py:493-502 | the plan follows the point-backs from the sink to the source |
| Placement.OptimizeByDp | sky/optimizer.py:434-492 | the rebuilt plan attains exactly the returned objective and no plan is worth less |
| Placement.ChainValueIsTotal | sky/optimizer.py:453-484 | on a chain the objective along the order is the cost over all nodes and edges |
| FinishTimes.FinishTimer.FinishTime | sky/optimizer.py:653-673 | the memoised recursion terminates and returns the finish time, keeping the cache right |
| FinishTimes.ComputeTotalTime | sky/optimizer.py:645-676 | the time of a plan is the finish time of the sink |
| FinishTimes.FinishIsLongestPath | sky/optimizer.py:645-676 | with non-negative times that is the longest source-to-sink path: an upper bound on all of them and attained by one |
| FinishTimes.FinishIsLeast | sky/optimizer.py:616-625 | every feasible solution of the time constraints gives each node at least its finish time |
| FinishTimes.FinishIsFeasible | sky/optimizer.py:616-625 | the finish times themselves are a feasible solution |
| FinishTimes.ChainFinish | sky/optimizer.py:645-676 | on a chain the finish time of the sink is the objective of the dynamic program |
| IntegerProgram.EntryIsProduct | sky/optimizer.py:589-607 | any binary point satisfying the one-hot and row and column constraints has each edge entry equal to the product of its two node entries |
| IntegerProgram.ProductLinearizes | sky/optimizer.py:589-607 | the product of two one-hot vectors satisfies those constraints |
| IntegerProgram.PrepareEgress | sky/optimizer.py:563-571 | the nested loops list egress with the second resource running fastest |
| IntegerProgram.CostObjectiveIsPlanCost | sky/optimizer.py:609-615 | at every feasible point the linear objective is the true cost of the decoded plan |
| IntegerProgram.EvaluateCost | sky/optimizer.py:609-615 | evaluates the linear objective at a solved point |
| IntegerProgram.EncodeRoundTrip | sky/optimizer.py:573-607 | every plan is a feasible point, and decoding it gives the plan back |
| IntegerProgram.ReadPlan | sky/optimizer.py:636-641 | the plan read off the solved variables is the decoded one |
| IntegerProgram.CostOptimalIsLeastPlan | sky/optimizer.py:609-641 | the minimum of the cost program is the least cost over all plans, attained by the decoded plan |
| IntegerProgram.TimeConstraintsMatch | sky/optimizer.py:616-625 | the linearised time constraints at a point are the time constraints of its plan |
| IntegerProgram.TimeOptimalIsLeastPlan | sky/optimizer.py:616-641 | the minimum of the time program is the least finish time over all plans, attained by the decoded plan |
| IntegerProgram.AlgorithmsAgreeOnCost | sky/optimizer.py:1548-1555 | on a chain the integer program and the dynamic program return the same cost |
| IntegerProgram.AlgorithmsAgreeOnTime | sky/optimizer.py:1548-1555 | on a chain the integer program and the dynamic program return the same time |
| OptimizeDag.FilterBlocked | sky/optimizer.py:1617-1628 | keeps, in order, the launchables that no blocked entry matches |
| OptimizeDag.UnblockedMembers | sky/optimizer.py:1617-1628 | a resource survives exactly when it was listed and no blocked entry matches it |
| OptimizeDag.NarrowOptions | sky/optimizer.py:1516-1538 | an ordered request is narrowed to its first option with anything launchable, else to the last one |
| OptimizeDag.FirstViableIsEarliest | sky/optimizer.py:1516-1538 | the option kept is the earliest with anything launchable |
| OptimizeDag.EstimateRow | sky/optimizer.py:318-366 | a cost row holds exactly what the options can be launched as, each at the price of the last option that offers it |
| OptimizeDag.EstimateCosts | sky/optimizer.py:292-430 | the rows of all nodes, or failure exactly when some inner node has nothing to launch |
| OptimizeDag.OptimizeInstance | sky/optimizer.py:1548-1555 | whichever algorithm runs, the plan is the best of all plans for the chosen target |
| OptimizeDag.CopyBack | sky/optimizer.py:1576-1583 | each original task gets the resource of its copy at the same list position |
| OptimizeDag.Optimize | sky/optimizer.py:1464-1600 | fails exactly when some node has nothing to launch; otherwise the plan on the copy is the best of all plans and every task of the caller's list gets the copy's resource, launchable for its request |
| OptimizeDag.LaunchableIff | sky/optimizer.py:1516-1538 | a resource can be had exactly when an option that counts offers it unblocked: every option of an unordered request, of an ordered one the first that offers anything |
| OptimizeDag.NothingLaunchableIff | sky/optimizer.py:1516-1538 | nothing can be had exactly when no option offers anything unblocked |
| OptimizeDag.RowPrices | sky/optimizer.py:318-366 | the cost row holds exactly what can be had, at the price of the last option that counts and offers it |
| OptimizeDag.UnblockedConcat | sky/optimizer.py:1617-1628 | filtering keeps the order |
| OptimizeDag.DummiesMeetDemands | sky/optimizer.py:133-147 | a DAG with its dummies meets what the pass asks of the sorted graph |
| OptimalPoints.BestPlanExists | sky/optimizer.py:609-641 | every instance has finitely many plans and a best one |
| OptimalPoints.CostOptimalExists | sky/optimizer.py:609-641 | the cost program of every instance has an optimal point |
| OptimalPoints.TimeOptimalExists | sky/optimizer.py:616-641 | so has the time program, for non-negative times and a single source |
| OptimalPoints.TrustedSolverExists | sky/optimizer.py:628-633 | what is expected of the solver can be met |
| GraphCopies.CopyAcyclic | sky/optimizer.py:1515 | the deep copy of an acyclic graph is acyclic |
| GraphCopies.CopyWithDummies | sky/optimizer.py:1515 | copying a graph with its dummies is putting the copied dummies around the copied graph |
| Optimizer.PassDemands | sky/optimizer.py:1541-1548 | whatever topological order of the copy is used, it starts at the source, ends at the sink, and every other node has a predecessor |
| InstanceCopies.BestPlanOfOrigin | sky/optimizer.py:1574-1583 | with prices and egress that do not tell a task from its copy, a best plan of the copied graph is a best plan of the original |
| Optimizer.BestPlanIsBestFor | sky/optimizer.py:133-147 | a best plan is the best of all ways to give every task something it may get, each task at its price, dummies free, edges at their egress |
| Optimizer.Optimize | sky/optimizer.py:133-147 | on every non-empty acyclic DAG: the final assertion fails exactly when a task has a reserved name; otherwise the DAG comes back unchanged, with the best of all assignments over the caller's own graph, or without one exactly when no option of some task offers anything unblocked |
| Infras.GroupByCloud | sky/optimizer.py:1120-1126 | each cloud maps to its launchables in order, and only clouds with some are keys |
| Infras.ForCloudConcat | sky/optimizer.py:1120-1126 | grouping keeps the order of the list |
| Infras.FindCommonInfras | sky/optimizer.py:1336-1383 | the list holds exactly the cloud names and regions every task has, each once |
| Infras.ScoreInfra | sky/optimizer.py:1417-1455 | the score is the sum over tasks of the least score among fitting resources, none when a task does not fit |
| Infras.ScoreIsLeast | sky/optimizer.py:1417-1455 | no choice of one fitting resource per task has a smaller sum of scores |
| Infras.ScoreIsAttained | sky/optimizer.py:1417-1455 | some choice has that sum |
| Infras.ScoredIff | sky/optimizer.py:1417-1455 | there is a score exactly when every task has something that fits |
| Infras.SelectBestInfra | sky/optimizer.py:1386-1461 | the result is a common infrastructure of least score, ties going to the smallest sort key |
| Infras.SelectionIgnoresOrder | sky/optimizer.py:1402-1412 | with injective sort keys the selection does not depend on the order of the list |
| Infras.SelectionMeans | sky/optimizer.py:1402-1461 | the selected infrastructure has a choice whose sum no choice on another one undercuts; on equal sums, or when nothing fits anywhere, its lower-case name and then its region do not sort after the other's |
| Infras.SelectedIsLeast | sky/optimizer.py:1402-1461 | with one cloud key per name every common infrastructure has a choice and the selected one the least sum |
| Infras.LexIsTextOrder | sky/optimizer.py:1409-1411 | the comparison is the order of text: a prefix first, else the smaller character at the first difference |
| Infras.LowerMeans | sky/optimizer.py:1409-1411 | lower case changes capital letters and nothing else |
| Pins.TaskPinSets | sky/optimizer.py:1751-1785 | the exact clouds and infrastructures pinned, or none when some option is flexible at that level |
| Pins.GatherPins | sky/optimizer.py:1813-1823 | both dictionaries, filled task by task |
| Pins.LastPinWins | sky/optimizer.py:1813-1823 | a name is stored exactly when some task of it is pinned, and then with the pins of the last such task |
| Pins.CheckPins | sky/optimizer.py:1825-1840 | whether some name is pinned off Kubernetes only, and whether the pinned names share no cloud or no infrastructure, both ways |
| Pins.CloudPinMeans | sky/optimizer.py:1751-1785 | a job is pinned to clouds exactly when every alternative names one, and then to those |
| Pins.InfraPinMeans | sky/optimizer.py:1751-1785 | a job is pinned to infrastructures exactly when every alternative names cloud and region, and then to those |
| Pins.PinsConflictMeans | sky/optimizer.py:1831-1835 | pins conflict exactly when two names are pinned and every place is ruled out by the last pinned job of some name |
| Pins.PinnedOffMeans | sky/optimizer.py:1825-1829 | the group is pinned off Kubernetes exactly when the last pinned job of some name has only alternatives elsewhere |
| Pins.NamelessIsNone | sky/optimizer.py:1816-1821 | a job without a name shares its entry with one called None |
| Pins.ConflictMeansNothingCommon | sky/optimizer.py:1831-1835 | a pin conflict at either level leaves no infrastructure common to any candidates within the pins, even with repeated names |
| JobGroups.SearchFindsNothing | sky/optimizer.py:1831-1835 | with a catalog that honours pins, the search a conflict skips would have found nothing |
| JobGroups.JobGroup.ValidatePins | sky/optimizer.py:1788-1889 | the verdict is decided by the setting and the pins of its jobs, and networking is switched off exactly for conflicting pins without required networking |
| JobGroups.OptimizeTask | sky/optimizer.py:1079-1085 | a task in a DAG of its own gets its resource in a best plan, unless it has a reserved name or nothing to launch |
| JobGroups.JobGroup.OptimizeIndependent | sky/optimizer.py:1072-1087 | every task gets its resource in a best plan of the DAG that holds it alone, and the first task that cannot be placed decides the failure |
| JobGroups.JobGroup.CollectCandidates | sky/optimizer.py:1105-1155 | candidates by cloud, limited to Kubernetes when networking is required; fails exactly when a task has none |
| JobGroups.LaunchableMembers | sky/optimizer.py:1106-1126 | the launchables are what the options offer unblocked |
| JobGroups.FeasibleMeans | sky/optimizer.py:1105-1155 | a job takes part exactly when an option offers it something unblocked, on Kubernetes if networking is required |
| JobGroups.CandidatesMean | sky/optimizer.py:1120-1155 | under each cloud the candidates are exactly those on it |
| JobGroups.MatchMeans | sky/optimizer.py:1222-1258 | what the lookups find is among a task's own launchables on the selected infrastructure |
| JobGroups.MatchFound | sky/optimizer.py:1222-1258 | with one cloud key per name both lookups of the last step find something |
| JobGroups.LookupSucceedsIff | sky/optimizer.py:1222-1258 | the lookups succeed exactly when the first cloud key of that name has a resource in the region |
| JobGroups.LookupNeedsOneKeyPerName | sky/optimizer.py:1222-1258 | two cloud keys of one name, which takes a cloud class from outside, can make a lookup fail on a common infrastructure |
| JobGroups.JobGroup.OptimizeSameInfra | sky/optimizer.py:1090-1278 | each way the search can end, the setting it leaves, and that every task lands on the best common infrastructure, on the first of its candidates in the region |
| JobGroups.JobGroup.OptimizeJobGroup | sky/optimizer.py:1026-1069 | each way placement can end: contradicted networking raises and changes nothing, conflicting pins place each task alone with networking off, all else ends as the search does |
| JobGroups.NetworkingMeansColocated | sky/optimizer.py:1050-1069 | after a normal return with networking still on, all tasks are on Kubernetes in one region |
| JobGroups.SettingOnlyDegrades | sky/dag.py:111-119 | the setting only moves from unset to off |
| JobGroups.SettingAfterSearch | sky/optimizer.py:1183-1199 | an unset setting stays so on Kubernetes and is switched off elsewhere |
| JobGroups.NothingCommonEnds | sky/optimizer.py:1156-1176 | with nothing in common: an error while networking is on, each job by itself while it is off |
| JobGroups.NoAssertionFails | sky/optimizer.py:1222-1258 | with one cloud key per name and no reserved task name no assertion fails |
| LaunchAttempts.AttemptStore.Open | sky/global_user_state.py:4559-4640 | resumes the newest open row of the same request, or inserts a row numbered one past the largest live number |
| LaunchAttempts.AttemptStore.RecordMilestone | sky/global_user_state.py:4645-4661 | stamps a milestone with this time only if it was unset, and changes nothing else |
| LaunchAttempts.AttemptStore.RecordMilestoneForCluster | sky/global_user_state.py:4810-4870 | stamps the newest open row that answers to the name, with an event only for a first admission |
| LaunchAttempts.AttemptStore.Close | sky/global_user_state.py:4911-4920 | sets the outcome of an open row only |
| LaunchAttempts.AttemptStore.SweepAbandoned | sky/global_user_state.py:4742-4771 | abandons exactly the open rows that started before the bound, leaves everything else, and counts the rows changed |
| LaunchAttempts.AttemptStore.Claim | sky/global_user_state.py:4683-4738 | marks and returns the oldest closed unobserved rows up to the limit |
| LaunchAttempts.AttemptStore.ClaimByToken | sky/global_user_state.py:4727-4736 | the same claim, returning the rows that carry its time stamp |
| LaunchAttempts.TokenIdentifiesClaim | sky/global_user_state.py:4727-4736 | reading back by time stamp gives exactly the claimed rows if and only if no row carried that stamp before |
| LaunchAttempts.AttemptStore.CleanUp | sky/global_user_state.py:1629-1666 | deletes exactly the expired rows and counts them |
| LaunchAttempts.RetentionFormsAgree | sky/global_user_state.py:1643-1666 | range-plus-test and OR agree on all rows exactly when the hard cutoff is not later than the cutoff |
| LaunchAttempts.RetentionAgreesForWindow | sky/global_user_state.py:1638-1666 | in terms of the call: exactly when the two clock reads are no further apart than the window |
| LaunchAttempts.NoWindowDisagrees | sky/global_user_state.py:1638-1666 | with a window of 0 hours the two forms disagree as soon as the clock moves between the reads |
| LaunchRuns.StepKeepsInv | sky/global_user_state.py:4559-4920 | every step of every process keeps all invariants of the table |
| LaunchRuns.RunKeepsInv | sky/global_user_state.py:4559-4920 | every state of every run satisfies them: observed implies closed, one open row per cluster and request, numbers of live rows in creation order, observed exactly when claimed and at the time of the claim, a second claim only by reading back the first one's time, events at most once |
| LaunchRuns.RowsAreWriteOnce | sky/global_user_state.py:4645-4661 | over any stretch of a run outcome, milestones and observation of a live row are written once |
| LaunchRefinement.Execute | sky/global_user_state.py:4559-4920 | every call on the store has the effect, and returns the claims and events, that the refinement ascribes to it |
| LaunchRefinement.StoreRefinesSystem | sky/global_user_state.py:4559-4920 | every sequence of store calls is a run: the same table, the same claimed sets and the same admission events |
| LaunchRefinement.StoreTablesSound | sky/global_user_state.py:4559-4920 | in every table of the store observed rows are closed, a request has one open row per cluster, and numbers of a cluster are distinct |
| LaunchRefinement.StoreClaimsOnce | sky/global_user_state.py:4683-4738 | two claim calls return one attempt only if the later one reads back the time of the earlier one |
| LaunchRefinement.StoreAnnouncesOnce | sky/global_user_state.py:4860-4870 | no two calls announce the admission of one attempt |
| LaunchClaims.ObservedByClaim | sky/global_user_state.py:4703-4736 | a live row carries a time stamp exactly when an earlier claim of that time won it |
| LaunchClaims.ClaimsDisjointIff | sky/global_user_state.py:4683-4738 | over every interleaving, partial concurrent claims included, no attempt is returned twice if and only if no read-back claim reuses the stamp of a row still there |
| LaunchClaims.ClaimedAtMostOnce | sky/global_user_state.py:4683-4738 | with RETURNING or distinct claim times an attempt is returned by at most one claim, and only when closed |
| LaunchClaims.ReadBackCanClaimTwice | sky/global_user_state.py:4727-4736 | a run in which two read-back claims of one instant return the same attempt |
| LaunchClaims.FinishedIsAccounted | sky/global_user_state.py:1629-1666 | a finished attempt is claimed, still present, or was deleted unclaimed past the hard cutoff |
| LaunchClaims.DeletionIsRetention | sky/global_user_state.py:1629-1666 | a row disappears only by retention, closed and past the window, and past twice the window if unclaimed |
| LaunchClaims.RetentionInRun | sky/global_user_state.py:1629-1666 | in every run a retention step deletes exactly those rows |
| LaunchClaims.SweepInRun | sky/global_user_state.py:4742-4771 | in every run a sweep leaves no open row from before its cutoff and touches no other |
| LaunchStamps.AdmissionAnnouncedOnce | sky/global_user_state.py:4860-4870 | over every run an attempt has at most one admission event |
| LaunchStamps.LookupFindsLatest | sky/global_user_state.py:4829-4852 | with starts in order within each cluster, and the rows open for the name of one cluster, the lookup finds the open row created last, both ways |
| LaunchStamps.PendingFromLook | sky/global_user_state.py:4829-4860 | what a process updates is what its own last lookup found |
| LaunchStamps.StampHitsLatest | sky/global_user_state.py:4829-4860 | every update by name stamps the row its lookup found and no other, and a later row is open for the name at that moment if and only if it was opened between the two statements |
| LaunchStamps.OlderRowsUntouched | sky/global_user_state.py:4810-4870 | with nothing opened in between, open rows left behind by earlier launches are not touched |
| LaunchStamps.StampCanMiss | sky/global_user_state.py:4829-4860 | for any cluster and two requests, a run in which the older open row is stamped |
| LaunchNumbers.NumbersIncreaseIff | sky/global_user_state.py:4621-4636 | over every run the numbers of all attempts a cluster ever had increase if and only if none is opened after retention has deleted its highest-numbered live row |
| LaunchNumbers.NextNumberAfterDrop | sky/global_user_state.py:4621-4636 | the first attempt after such a deletion gets a number not above the deleted one |
| LaunchNumbers.SequenceCanRestart | sky/global_user_state.py:4621-4636 | a run in which two attempts of one cluster get the same number |
| UsageIntervals.ClusterStore.AddOrUpdate | sky/global_user_state.py:1141-1158 | unless refused for another hash, leaves the last interval open: as it was if it was open, else a new one from the launch time; refreshes both columns; changes nothing else |
| UsageIntervals.ClusterStore.RemoveCluster | sky/global_user_state.py:1977-2008 | ends the last interval now, even if it had ended, keeps its start and all others, and forgets the cluster on termination only |
| UsageIntervals.ClusterStore.SetUsageIntervals | sky/global_user_state.py:2438-2456 | stores intervals, keeps the activity column in step, leaves the launch column and other rows, and reports a missing row |
| UsageIntervals.ApplyKeepsOk | sky/global_user_state.py:1309-1347 | every operation keeps intervals ordered, disjoint and at most the last open, with both columns equal to their recomputation |
| UsageIntervals.RunKeepsOk | sky/global_user_state.py:1309-1347 | so does every run |
| UsageIntervals.GetDuration | sky/global_user_state.py:2407-2423 | the sum of the interval lengths, or the failed assertion exactly when an earlier interval is open |
| UsageIntervals.DurationCountsSeconds | sky/global_user_state.py:2407-2423 | the duration is the number of distinct seconds in use |
| UsageIntervals.DurationInRun | sky/global_user_state.py:2407-2423 | in every run the assertion never fires and the duration lies between 0 and the age of the cluster |
| UsageIntervals.StoppingTwiceExtends | sky/global_user_state.py:1985-1991 | stopping a stopped cluster moves its last end and bills the time between |
| BilledSeconds.UseCovers | sky/global_user_state.py:1141-1158 | the intervals from each start to its first stop cover exactly the seconds at which the last operation on the cluster is a launch or refresh |
| BilledSeconds.BilledIsUsedIff | sky/global_user_state.py:1977-2008 | in every run a cluster is billed at least the seconds at which the last operation on it is a launch or refresh, and exactly those if and only if no stop or termination hit it when it had been stopped at an earlier second |
| Configs.MergeOnePath | sky/utils/config_utils.py:82-94 | setting a nested key through a merge changes that path as a direct update would |
| Configs.MergeElsewhere | sky/utils/config_utils.py:248-295 | setting a base path leaves a merge unchanged at every path that parts from it |
| Configs.MergeHere | sky/utils/config_utils.py:248-295 | setting an unset base path shows through a merge exactly when the override does not decide that path |
| Configs.MergeOverrides | sky/utils/config_utils.py:248-295 | a plain value of the override wins |
| Configs.MergeKeepsBase | sky/utils/config_utils.py:248-295 | where the override does not decide the path the base shows |
| Configs.PodBlocksCombined | sky/utils/config_utils.py:248-295 | pod config and custom metadata at the top of a kubernetes block are combined, base with override |
| Configs.EffectiveValue | sky/skypilot_config.py:1396-1451 | the first value set: workspace before global, context before cloud, spellings in order |
| Configs.ResolveIsFirstSet | sky/skypilot_config.py:1396-1451 | the value returned is the one at the first scope, prefix and spelling that is set under the override, and none exactly when none is set |
| Configs.ContextOrder | sky/skypilot_config.py:1396-1451 | for any cloud but slurm: workspace context, workspace cloud, global context, global cloud |
| Configs.PartitionOrder | sky/skypilot_config.py:1373-1395 | for slurm, in the workspace and then globally: partition, cluster, cloud |
| Configs.FewerPrefixes | sky/skypilot_config.py:1373-1395 | without a region the cloud only, without a partition no partition |
| Configs.OverrideWins | sky/skypilot_config.py:1424-1451 | what an override sets at the most specific prefix wins |
| Configs.QueueAdmissionConfig | sky/execution.py:78-92 | the config is changed, at one path, only for launches bounded elsewhere and only if nothing is set there |
| Configs.DefaultOnlyFillsGap | sky/execution.py:78-92 | installing -1 changes the resolved timeout only when it was unset and then to exactly -1, unless the override itself blanks it |
| Configs.RemoveQueueNames | sky/skypilot_config.py:1604-1632 | no kubernetes block keeps a queue name, nothing new is set, and unrelated paths are unchanged; raises exactly where workspaces or contexts are present and not a mapping, a null value included, as long as no queue key is empty or the contexts themselves |
| Configs.ClearedQueuesResolveNull | sky/skypilot_config.py:1437-1451 | afterwards the queue resolver finds nothing for any region, workspace and list of keys |
| ConfigBrackets.BracketsRestore | sky/skypilot_config.py:1149-1201 | for every nesting, with exceptions anywhere, config, path and server config are restored on exit |
| ConfigBrackets.ServerIsOutermost | sky/skypilot_config.py:1068-1071 | at every depth the server config is the one loaded when the outermost non-empty override was entered |
| ConfigBrackets.SeenInside | sky/skypilot_config.py:1149-1201 | at every point of every program: under an override its request merged into what was loaded when it was entered, under a replacement the replacement; the path followed by the files of all overrides in force; the server config of the outermost |
| ConfigBrackets.NestedSight | sky/skypilot_config.py:1149-1201 | under any nesting of brackets a look sees, once, the config reached bracket by bracket, unless one of them raises |
| ConfigBrackets.ExceptionsPass | sky/skypilot_config.py:1149-1201 | an exception passes through a bracket and ends where it is caught |
| ConfigBrackets.FlagSurvivesIff | sky/skypilot_config.py:1175-1179 | the overridden flag survives exactly when it was clear or no override was entered |
| ConfigBrackets.InnerExitClearsFlag | sky/skypilot_config.py:1175-1179 | inside an outer override the flag reads false after an inner one is left |
| ConfigBrackets.ConfigContext.RunOverride | sky/skypilot_config.py:1053-1179 | entering, body and final block of an override leave the context, raise and show inside what is specified |
| ConfigBrackets.ConfigContext.RunReplace | sky/skypilot_config.py:1183-1201 | an in-process replacement swaps the config for its body only |

## Left out

- Placement.Backtrack: like `Placement.OptimizeByDp`, assumes that only the dummy source carries the reserved source name.
- Placement.OptimizeByDp: assumes that only the dummy source carries the reserved source name; with a user task of that name the later removal of the dummies fails its assertion anyway (`Dags.RemoveUndoesAdd`, `Optimizer.Optimize`).
- FinishTimes.FinishIsLongestPath: assumes non-negative runtimes and egress times, as do all results about the time target.
- OptimizeDag.OptimizeInstance: assumes the same of the reserved name, as it may run the dynamic program.
- OptimizeDag.Optimize: assumes the same of the reserved name; the solver is trusted to return an optimal feasible point, and the copy that `set_resources` may make of a requested resource is taken to be that resource.
- Optimizer.Optimize: deep copy, topological sort and edge listing are given functions with stated contracts; the empty DAG is left out, and so is the check that named clouds are enabled.
- OptimizeDag.EstimateRow: the price of a resource (hourly cost, node count, free reservations, runtime estimate) is one given function, and a requested resource and its launchable forms share one runtime.
- LaunchAttempts.AttemptStore.Open: is one atomic step, because the per-cluster launch lock excludes two opens of one name.
- Configs.MergeElsewhere: how two `pod_config` or `custom_metadata` blocks are combined is a given function, and where Python raises because a `kubernetes` block is not a mapping the model replaces it; the schema rules such configs out.
- ConfigBrackets.ConfigContext.RunOverride: stripping of server-owned keys, workspace lookup and schema validation are given functions, and the thread-local active workspace is not modelled.
- Infras.SelectBestInfra: lower case is ASCII only.
- The egress price and time functions, catalog lookups, feasibility queries and the `Resources`, `Task` and cloud classes: given functions and opaque values.
- `_compute_total_cost` and all tables, hints and messages of the optimizer: display only.
- The fallback of `optimize_job_group` for DAGs that are not job groups, and resource overrides stored for the controller.
- The queue column of launch attempts, the wording of admission events, SQL dialects, sessions, retries and migrations.
- The remaining columns and tables of the state database, and status refresh of clusters.
- Loading config from files, environment and database, config saving hooks, and `replace_skypilot_config` with its temporary file.
- The thread-local stack of DAG contexts.
