# Verified models of the toolchain utilities

A Dafny model of four parts of the repository, with proofs of what they are for.

* **The flag tuner** (`bestflags/`). Steering sends generations of tasks through a build stage and a test
  stage and gets them back. Each stage works one task per key on a worker pool; a helper holds duplicates until
  the result of their key is known; a poison pill shuts the loop down. `Tasks`, `Stage`, `StageRuns`, `Helper`,
  `Generations`, `Loop`, `LoopRuns`, `LoopTheorems` and `LoopStalls` model the processes as a transition system
  in which every queue operation is one step (`StageLoss` shows what a stage must not be fed), and prove statements about all runs in all interleavings.
  `Elimination` and `HillClimbing` are the two search algorithms that drive the loop, `Searches` and `FlagSpace` what
  they have in common, `EliminationTrips` the runs of elimination that end at an assertion, and `Steered` puts the
  algorithms at the wheel: whole tuning runs, over all interleavings.
* **The bisection tool** (`binary_search_tool/`). `BinarySearcher` is the search with skipped points and its
  breadth-first fallback; `Bisection` specifies a whole run, `BinarySearchState` is the program that carries it
  out with incremental switching, `Pruning` shows what a run finds, `Resume` interrupts it anywhere, and `ResumeLosses`
  says what a crash costs and what the switch scripts are sent.
* **Rank statistics** (`cros_utils/stats.py`). `ShellSort`, `Ranks`, `RankTests`, `RankSpread`,
  `RankStatistics`, `RankVariance` and `TwoSamples`: sorting with an index vector, tied ranks, the tie correction,
  Mann-Whitney U and Kruskal-Wallis H, in exact real arithmetic.
* **The machine lock** (`file_lock_machine.py`). `MachineLock`: shared and exclusive locks, the liveness check
  file, and processes that die.

What the model takes as given:

* The foreign commands are functions: what a stage finds out about a task depends only on the key of the task
  (the formatted flags in the build stage, the checksum of the image in the test stage), and the verdict of
  the test script only on which items are bad. No stage reports an error instead of a cost.
* Tasks travel between processes as pickled copies, so they are values. Two tasks are equal when their flag sets are.
* The items of a bisection are distinct; the program looks an item up by its value
  (`binary_search_tool/binary_search_state.py:405`).
* Writing the state file is one atomic replacement, and everything under the lock file's own lock is one step.

Where the code does not do what its documentation says, or only under a condition, the model follows the code:

* A pill may overtake a task inside one stage (`StageRuns.PillOvertakesInStage`), exactly when the stage holds a task
  as it takes the pill (`StageRuns.PillIsLastIffIdle`). It never does in the whole loop, because Steering sends it only
  when nothing is in flight (`LoopStalls.PillOvertakesNothing`).
* The helper removes a resolved duplicate by equality, that is, the first waiting task with the same flags. A call
  leaves the right tasks if and only if no task with the same flags and another key stands ahead of one that is
  resolved (`Helper.SettlesRightIff`); otherwise a task is lost and the helper never stops (`StageLoss.StageLosesTask`,
  `StageLoss.StrandedForGood`). So a stage can be fed tasks in whatever order if and only if equal flags mean equal keys
  among them (`StageLoss.SafeIffKeysAgree`), and that is what the theorems on stages ask. It is so for every build stage,
  and in the loop for both stages, where the flags determine the image (`LoopRuns.ShapedFits`).
* Steering asserts that a child generation is not empty (`bestflags/steering.py:106`). Hill climbing trips that
  assertion for every list of specifications and all seeds, as long as there is one, with some cost (`HillClimbing.SomeCostTrips`);
  elimination can trip it if and only if a flag has a range of one value and at most one boolean flag beside it
  (`EliminationTrips.TripsIffLonely`). What the run had found by then is right all the same.
* A start with something to send whose generations share tasks, hold tasks of the initial cache or are empty never
  ends, since such tasks are counted as pending and never sent. With nothing to send Steering finishes at once, whatever
  the generations are. `LoopStalls.FinishesIffWellPosed` gives the exact condition.
* The seed tasks of iterative elimination differ from the single decreases of the baseline when a numeric
  range holds one value (`Elimination.SeedsAreChildren`, `Elimination.LowSeedMissesDecrease`).
* The last item of a bisection is never tested, so with no culprit it is blamed, and a list of one item is never
  searched (`Pruning.ReportIsRightIff`).
* Mann-Whitney is documented as equivalent to Kruskal-Wallis with two groups. The code takes the square root of the
  tie correction before it enters the variance, so this holds only if all values differ or U is at
  its mean (`TwoSamples.EquivalentIffNoTies`, `TwoSamples.BothTests`).
* Unlocking an unlocked machine is answered with success, so the shared counter equals grants minus returns only for
  balanced runs (`MachineLock.CounterIsBalance`). And a returned manual exclusive lock makes
  the exclusive requests of other processes raise an error while its process lives and no automatic lock is returned;
  `MachineLock.ErrorIff` says exactly when a request does, and `MachineLock.GrantedIff` when one is granted.

## Model

| member | source | states |
|---|---|---|
| `Tasks.TestedTaskCost` | bestflags/task.py:126-195 | a task that went through both stages carries its own flags, everything compiling them gives (checksum, cost, image, lengths), and the cost of that image |
| `Tasks.FinishedTask` | bestflags/task.py:339-355 | field by field, a task leaves the build stage with its flags and all that the compiler says of them, and the test stage with the cost of its image beside that |
| `Stage.FirstWith` | bestflags/pipeline_worker.py:114-118 | the duplicate resolved next is the first waiting one with the completed key |
| `Stage.StartInv` | bestflags/pipeline_process.py:79-97 | a stage that starts with any right cache satisfies the stage invariant |
| `Stage.PullKeepsInv` | bestflags/pipeline_process.py:99-116 | pulling keeps the invariant: new keys go to one worker, known keys to the helper, the pill is passed on |
| `Stage.WorkKeepsInv` | bestflags/pipeline_worker.py:137-142 | a worker finishing keeps it: no key is worked twice, no cached key at all, and the reported result is right |
| `Stage.PollKeepsInv` | bestflags/pipeline_worker.py:51-74 | the helper taking a duplicate keeps it: nothing waits whose result is already known |
| `Stage.CollectKeepsInv` | bestflags/pipeline_worker.py:110-112 | the helper taking a completed result keeps it |
| `Stage.RemovesTheResolved` | bestflags/pipeline_worker.py:114-118 | where equal flags mean equal keys, removing by equality removes the very task that is resolved |
| `Stage.ResolveKeepsInv` | bestflags/pipeline_worker.py:114-118 | resolving a duplicate, removed by equality, keeps it |
| `Stage.StepKeepsInv` | bestflags/pipeline_process.py:99-123 | every action of every process of a stage, shutdown included, keeps the stage invariant, so no assertion of worker or helper fails |
| `StageRuns.StepConserves` | bestflags/pipeline_worker.py:49-142 | no action loses, invents or alters a task: counted by what they will be when finished, the tasks at hand stay the same |
| `StageRuns.StepTakesEffort` | bestflags/pipeline_process.py:99-123 | every action uses up part of a bounded effort, so the stage cannot spin |
| `StageRuns.StuckMeansIdle` | bestflags/pipeline_process.py:118-123 | a stage that cannot move holds nothing, and is stopped or waits for input: there is no deadlock in the shutdown |
| `StageRuns.RunConserves` | bestflags/pipeline_process.py:99-123 | over every interleaving, for tasks among which equal flags mean equal keys, what is put out plus what is at hand is task for task what arrived, each with the result of its own key; no key is worked twice; the number of actions is linear in the arrivals |
| `StageRuns.StageCompletes` | bestflags/pipeline_process.py:99-123 | a stage fed such tasks and a pill that can go no further has stopped, and its output is exactly, as a multiset and with every field given from the commands, the input tasks compiled, or with the cost of their images |
| `StageRuns.PillOvertakesInStage` | bestflags/pipeline_process.py:101-104 | a stage on its own may put out the pill before a task that came in first |
| `StageRuns.PillIsLastIffIdle` | bestflags/pipeline_process.py:99-123 | in every run that takes the pill and comes to rest, as many tasks follow the pill in the output as the stage held when it took the pill; none does exactly when it was idle |
| `StageLoss.StageLosesTask` | bestflags/pipeline_worker.py:110-118 | for all tasks of which two have the same flags and different images there is a run of the test stage in which the wrong one is removed |
| `StageLoss.StrandedForGood` | bestflags/pipeline_worker.py:80-83 | that run ends with nothing able to move, the helper still in its drain loop and a task lost |
| `StageLoss.SafeIffKeysAgree` | bestflags/pipeline_process.py:99-123 | fed tasks of a given kind in any order and number, a stage stops in every run with exactly the finished tasks put out if and only if equal flags mean equal keys among them |
| `Helper.SettlesRightIff` | bestflags/pipeline_worker.py:114-118 | one call leaves exactly the tasks with another key if and only if none of them has the flags of a resolved task and stands ahead of it; otherwise a resolved task is left waiting |
| `Helper.CoversNext` | bestflags/pipeline_worker.py:115-118 | the list removal of one call never fails |
| `Helper.SettledConserves` | bestflags/pipeline_worker.py:114-118 | settling one result moves exactly the tasks that wait for it to the output, finished |
| `Helper.Helper.GetResultFromCompletedQueue` | bestflags/pipeline_worker.py:86-118 | whatever waits, one call is the collect action followed by all its resolve actions, and nothing if the queue is empty |
| `Helper.Helper.Drain` | bestflags/pipeline_worker.py:80-83 | the drain loop ends with nothing waiting and every waiting task put out once, finished |
| `Helper.JoinedStageCanDrain` | bestflags/pipeline_process.py:118-123 | once the pool is joined and the helper has its pill, the stage invariant gives the drain loop what it needs |
| `LoopTheorems.HelpersCanDrain` | bestflags/pipeline_process.py:118-123 | so it has it for both stages in every run of the loop |
| `Generations.NewGenAccounted` | bestflags/generation.py:34-50 | a new generation counts each of its tasks as pending |
| `Generations.UpdateAccounted` | bestflags/generation.py:97-111 | a task that comes back is one fewer pending, and the count stays the number of tasks still out |
| `Generations.Generation.constructor` | bestflags/generation.py:34-50 | all tasks of a new generation are out |
| `Generations.Generation.Done` | bestflags/generation.py:62-70 | done exactly when every task of the generation has its cost |
| `Generations.Generation.UpdateTask` | bestflags/generation.py:72-111 | accepts a task exactly when it holds one with the same flags, replaces it, and counts it off without going below zero |
| `Loop.Owner` | bestflags/steering.py:87 | the generation that takes a returned task is the first one that holds it |
| `Loop.NothingOwedIsQuiet` | bestflags/steering.py:68-116 | when no generation waits, no task is in any queue, pool, list or outbox |
| `LoopRuns.StepShapes` | bestflags/pipeline_worker.py:121-142 | every task is exactly as far along as the place it is in |
| `LoopRuns.ShapedFits` | bestflags/task.py:126-143 | in the loop a task at hand is fixed by its flags, so equal flags mean equal keys in both stages |
| `LoopRuns.ExactlyOneAccepts` | bestflags/steering.py:76-90 | a task that comes back carries the build result of its own flags and the cost of that image, and exactly one waiting generation holds it, which still owes it |
| `LoopRuns.SubmitKeepsInv` | bestflags/steering.py:53-58 | sending a task keeps the loop invariant |
| `LoopRuns.ReceiveOne` | bestflags/steering.py:76-91 | so does a task that leaves its generation waiting for others |
| `LoopRuns.ReceiveLast` | bestflags/steering.py:93-112 | so does a task that completes its generation, whatever children respecting the cache come of it |
| `LoopRuns.SendPillKeepsInv` | bestflags/steering.py:114-116 | when Steering emits the pill nothing is in flight, and the invariant is kept |
| `LoopRuns.GoKeepsInv` | bestflags/steering.py:53-116 | every move of every process of the loop keeps the loop invariant |
| `LoopTheorems.InitialInv` | bestflags/steering.py:45-64 | a start with disjoint, non-empty, uncached generations satisfies it |
| `LoopTheorems.RunKeepsInv` | bestflags/steering.py:45-116 | in every run, each task owed to a waiting generation is in exactly one place and no other task is anywhere, every pending count is right, and Steering never gets a task nobody waits for |
| `LoopTheorems.GoTakesEffort` | bestflags/steering.py:68-112 | every move uses up effort, and only new tasks bring more |
| `LoopTheorems.RunLength` | bestflags/steering.py:68-112 | a run is no longer than a multiple of the tasks it brings in |
| `LoopTheorems.StuckMeansStopped` | bestflags/steering.py:66-116 | a loop that cannot move has stopped cleanly, all tasks back and all processes ended, or has met the assertion on an empty child generation |
| `LoopStalls.IllPosedNeverFinishes` | bestflags/steering.py:53-58 | a start with something to send that shares, has cached or lacks tasks never sends the pill, in any run |
| `LoopStalls.NothingToSendIsFinished` | bestflags/steering.py:60-64 | with nothing to send Steering has finished before the first move |
| `LoopStalls.PillOvertakesNothing` | bestflags/pipeline_process.py:101-104 | in every run from any start, wherever the pill is, no task is left in the loop |
| `LoopStalls.FinishesIffWellPosed` | bestflags/steering.py:45-116 | a run at rest has finished exactly when there was nothing to send or the start was well posed, and no empty child generation stopped it |
| `Elimination.SeedsAreChildren` | bestflags/testing_batch.py:136-229 | the seeds are the baseline and its single decreases if and only if every numeric range holds two values or more |
| `Elimination.LowSeedMissesDecrease` | bestflags/testing_batch.py:160-183 | with a one-value range some cost makes the first generation stop although a single decrease is better |
| `Elimination.DecreaseWeight` | bestflags/iterative_elimination.py:34-80 | one decrease lowers the weight of a flag set by exactly one and keeps it in range |
| `Elimination.ChildrenIff` | bestflags/iterative_elimination.py:34-80 | the single decreases of a flag set are exactly the flag sets with one flag a position lower (off below the start of its range) and every other as it was |
| `Elimination.BaselineIsHighest` | bestflags/testing_batch.py:207-221 | for ranges that are not empty the baseline is the greatest flag set in range: all flags on, none anywhere higher, none heavier; its weight is the sum, over the distinct specifications, of 1 or the length of the range |
| `Elimination.BaselineWeight` | bestflags/testing_batch.py:207-221 | that sum is its weight for all ranges |
| `Elimination.EliminationGeneration.IsImproved` | bestflags/iterative_elimination.py:106-116 | improved exactly when some task is cheaper than the parent |
| `Elimination.EliminationGeneration.FirstIsImproved` | bestflags/iterative_elimination.py:172-177 | the same for the first generation, which finds its measured parent in its own pool |
| `Elimination.EliminationGeneration.Next` | bestflags/iterative_elimination.py:118-160 | the next parent is a cheapest task of the pool, and the next pool its untried decreases, or none when it has no flags |
| `Elimination.TrailWeight` | bestflags/iterative_elimination.py:118-160 | each centre is one unit of weight lighter than the one before, and nothing measured so far is lighter than its decreases |
| `Elimination.NothingDropped` | bestflags/iterative_elimination.py:154-158 | so no child is dropped as already tried |
| `Elimination.EliminationNeverTrips` | bestflags/iterative_elimination.py:148-160 | with ranges of two values or more no generation is empty, whatever the cost |
| `Elimination.EliminationBound` | bestflags/iterative_elimination.py:118-160 | and a run makes at most w choices and measures at most 1 + w(w+1)/2 tasks for a baseline of weight w |
| `Elimination.EliminatorConfined` | bestflags/flags.py:92-111 | for all ranges, since the value -1 is replaced by one drawn from the range, runs stay in a finite space of flag sets |
| `Elimination.SettledElimination` | bestflags/iterative_elimination.py:106-116 | a run that does not improve any more has found the cheapest flag set measured; with wide ranges all its single decreases were measured |
| `Elimination.Eliminate` | bestflags/iterative_elimination.py:83-177 | the whole run ends, for all ranges, draws and costs, settled at such a flag set, and says whether its last generation was empty; with wide ranges none is, and at most 1 + w(w+1)/2 tasks were measured |
| `Elimination.BooleanBound` | bestflags/testing_batch.py:207-229 | for n boolean flags that weight is n |
| `EliminationTrips.DescentPool` | bestflags/iterative_elimination.py:154-158 | once a one-value flag has been lowered below its range, what is dropped as already tried was among the seeds |
| `EliminationTrips.TripsOnlyIfLonely` | bestflags/iterative_elimination.py:148-160 | a run that ends at an empty generation has lowered a flag with a one-value range, beside which there is at most one flag, a boolean one |
| `EliminationTrips.LonelyTrips` | bestflags/testing_batch.py:160-183 | with such specifications some cost and draws do lead there |
| `EliminationTrips.TripsIffLonely` | bestflags/steering.py:104-106 | elimination can trip the assertion on an empty generation if and only if the specifications are such |
| `Searches.CentreIsCheapest` | bestflags/steering.py:95-112 | a chosen centre is the cheapest of all measured before its own neighbourhood |
| `Searches.SettledIsCheapest` | bestflags/steering.py:95-112 | where a run settles, the centre is the cheapest of all ever measured and of all one step from it, those skipped as already tried included |
| `Searches.WalkBound` | bestflags/steering.py:104-112 | in a finite space every run, and all that it measures, is bounded by the size of the space |
| `Searches.WalkTrips` | bestflags/steering.py:104-106 | with a cost that falls along a walk to untried flag sets, the walk is the one run there is, and it ends at an empty generation |
| `HillClimbing.ClimbBack` | bestflags/flags_util.py:15-95 | within its range a flag set is a neighbour of its neighbours |
| `HillClimbing.NeighboursIff` | bestflags/flags_util.py:42-95 | with a flag at position 0 when off, 1 when on and boolean, value - start + 1 when on and numeric, the neighbours of a flag set in range are exactly those in range that differ from it in the position of one flag, by one |
| `HillClimbing.ClimbedToOptimum` | bestflags/hill_climb_best_neighbor.py:48-107 | so a settled climb from seeds in range has measured every such flag set around its centre, and none is cheaper |
| `HillClimbing.StaysInRangeIff` | bestflags/flags_util.py:42-95 | climbing never takes a flag out of its own range, from any flag set in range, if and only if no range is empty |
| `HillClimbing.ClimbBounded` | bestflags/flags_util.py:42-95 | from any seeds, in range or not, climbing stays between the least and the greatest value at hand |
| `HillClimbing.ClimbGeneration.IsImproved` | bestflags/hill_climb_best_neighbor.py:48-77 | the next centre is a cheapest task of the pool; improved exactly when it is cheaper than the parent or there is no parent |
| `HillClimbing.ClimbGeneration.Next` | bestflags/hill_climb_best_neighbor.py:79-107 | the children are the untried neighbours of the next centre |
| `HillClimbing.Explore` | bestflags/hill_climb_best_neighbor.py:48-107 | one round measures the untried neighbours of the centre and ends the run exactly when it has settled, or moves to a cheapest of them, which is cheaper |
| `HillClimbing.Climb` | bestflags/steering.py:95-112 | the whole run ends, for all seeds and costs, at the cheapest task measured, none of whose neighbours is cheaper, cached ones included; it ends at the assertion exactly when the last child generation is empty, otherwise because that generation does not improve |
| `HillClimbing.SomeCostTrips` | bestflags/steering.py:104-106 | for all specifications and all non-empty sets of seeds there is a cost with which the climb has one run, and that one trips the assertion |
| `HillClimbing.OneFlagTripsIff` | bestflags/steering.py:104-106 | with one boolean flag, started without it, it trips exactly when the flag pays off |
| `Steered.CompleteIsMeasured` | bestflags/steering.py:89-101 | a complete generation holds every task with the build result of its own flags and the cost of that image, so the algorithm judges it by those |
| `Steered.NextRespectsCache` | bestflags/steering.py:104-112 | what the algorithms make of a generation is what the loop asks of it |
| `Steered.MoveStaysInStep` | bestflags/steering.py:68-112 | every move of every process keeps loop and search in step: the cache and the outbox are what the search evaluates, the waiting generation is its pool, and Steering has failed exactly when the search trips |
| `Steered.DrivenStaysInStep` | bestflags/steering.py:45-116 | so over every run, and exactly the tasks the search evaluates are sent |
| `Steered.DrivenLength` | bestflags/steering.py:68-112 | a tuning run is no longer than a multiple of what its search evaluates |
| `Steered.DrivenGoesOn` | bestflags/steering.py:97-112 | while the loop can move at all it can move as the algorithm has it |
| `Steered.DrivenComesToRest` | bestflags/steering.py:66-116 | a tuning run at rest has settled its search; it has stopped at the assertion exactly when the search trips, and otherwise all processes have ended |
| `Steered.EliminationInTheLoop` | bestflags/iterative_elimination.py:83-177 | the runs of the loop with elimination are bounded, and fail at the assertion only for a flag with a one-value range and at most a boolean one beside it |
| `Steered.WideEliminationInTheLoop` | bestflags/iterative_elimination.py:83-177 | with wide ranges they never fail, and are bounded by the weight of the baseline |
| `Steered.EliminationComesToRest` | bestflags/iterative_elimination.py:83-177 | at rest the last centre is the cheapest of all measured; with wide ranges all processes have ended and no single decrease is cheaper |
| `Steered.ClimbingInTheLoop` | bestflags/hill_climb_best_neighbor.py:48-107 | the runs of the loop with hill climbing are bounded by the flag sets there are |
| `Steered.ClimbingComesToRest` | bestflags/hill_climb_best_neighbor.py:48-107 | at rest, at the assertion exactly when the climb trips, the last centre is the cheapest of all measured and of its neighbours |
| `BinarySearcher.SplitDescends` | binary_search_tool/binary_search_perforce.py:133-141 | in a round of the fallback the span that holds an unskipped point gets narrower or moves up the queue |
| `BinarySearcher.Pick` | binary_search_tool/binary_search_perforce.py:130-145 | the fallback picks an unskipped point of the interval |
| `BinarySearcher.PickUnique` | binary_search_tool/binary_search_perforce.py:130-145 | its choice does not depend on which unskipped point shows that it ends |
| `BinarySearcher.AllSkippedLoopsForever` | binary_search_tool/binary_search_perforce.py:133-145 | with every point skipped it never returns and its queue never runs dry |
| `BinarySearcher.NextIndex` | binary_search_tool/binary_search_perforce.py:163-167 | the index tested next lies in the window and is not skipped |
| `BinarySearcher.NextIsFirstInOrder` | binary_search_tool/binary_search_perforce.py:130-145 | whatever is skipped, it is the first unskipped midpoint when the halves of the window, their halves and so on are gone through level by level, from left to right |
| `BinarySearcher.RoundNarrows` | binary_search_tool/binary_search_perforce.py:94-127 | every test, whatever its status, leaves strictly fewer points to test |
| `BinarySearcher.RoundBracketsFirstBad` | binary_search_tool/binary_search_perforce.py:94-127 | every round keeps lo <= first bad <= hi, for every monotone test and all skips |
| `BinarySearcher.SearchBracketsFirstBad` | binary_search_tool/binary_search_perforce.py:94-178 | so the search ends exactly at the first bad index, or with every point before hi skipped and the first bad index still in the window |
| `BinarySearcher.TestsAtMost` | binary_search_tool/binary_search_perforce.py:107-119 | without skips k tests settle every window narrower than 2^k |
| `BinarySearcher.TestsAtLeast` | binary_search_tool/binary_search_perforce.py:107-119 | some test takes more than k tests in a window of width 2^k or more |
| `BinarySearcher.EstimateIsExact` | binary_search_tool/binary_search_state.py:437-446 | k tests are enough for all tests of n items if and only if n <= 2^k, so the printed estimate is exact |
| `BinarySearcher.BinarySearcher.SetSortedList` | binary_search_tool/binary_search_perforce.py:83-92 | opens the window on the whole list, keeps what was skipped and where the search stood |
| `BinarySearcher.BinarySearcher.SetStatus` | binary_search_tool/binary_search_perforce.py:94-127 | narrows the window by the status and says exactly whether nothing is left to test |
| `BinarySearcher.BinarySearcher.GetNextFlakyBinary` | binary_search_tool/binary_search_perforce.py:130-145 | the queue loop ends, at the point the specification picks |
| `BinarySearcher.BinarySearcher.GetNext` | binary_search_tool/binary_search_perforce.py:163-178 | moves to the next index of the specification and gives its item |
| `Bisection.SearchLoop` | binary_search_tool/binary_search_state.py:273-303 | one search changes only the window and the cycle count, and stops only when complete or out of iterations |
| `Bisection.IncrementalIsFull` | binary_search_tool/binary_search_state.py:98-142 | sending only the items not remembered on that side has the effect of sending all, and the memory stays right |
| `Bisection.SplitIsExact` | binary_search_tool/binary_search_state.py:289-292 | after both switches exactly the requested items are bad |
| `BinarySearchState.SplitCovers` | binary_search_tool/binary_search_state.py:402-410 | the good and bad items asked for cover every original item once |
| `BinarySearchState.PruneKeepsItems` | binary_search_tool/binary_search_state.py:249-260 | pruning keeps the list and the known good items a partition of the original items |
| `BinarySearchState.BinarySearchState.constructor` | binary_search_tool/binary_search_state.py:65-96 | a new search has the whole list ahead and remembers nothing |
| `BinarySearchState.BinarySearchState.LoadState` | binary_search_tool/binary_search_state.py:366-392 | a loaded search stands where it was saved and remembers nothing of the environment |
| `BinarySearchState.BinarySearchState.SwitchToGood` | binary_search_tool/binary_search_state.py:98-119 | however little is sent, all the given items end up good and no other moves |
| `BinarySearchState.BinarySearchState.SwitchToBad` | binary_search_tool/binary_search_state.py:121-142 | the same for bad |
| `BinarySearchState.BinarySearchState.GetNextItems` | binary_search_tool/binary_search_state.py:402-410 | the split at the next index, covering every original item |
| `BinarySearchState.BinarySearchState.Iterate` | binary_search_tool/binary_search_state.py:282-296 | the state saved is the one before the test, and at the test the real environment is exactly the split |
| `BinarySearchState.BinarySearchState.DoBinarySearch` | binary_search_tool/binary_search_state.py:273-303 | one search of the specification, going on with the saved cycle count only after a resume |
| `BinarySearchState.BinarySearchState.PopulateItemsUsingList` | binary_search_tool/binary_search_state.py:320-329 | a fresh searcher on the given list |
| `BinarySearchState.BinarySearchState.Prune` | binary_search_tool/binary_search_state.py:227-271 | what the specification does with a search, one out of iterations included, and whether the loop goes on |
| `BinarySearchState.BinarySearchState.DoSearch` | binary_search_tool/binary_search_state.py:219-271 | the whole program, incremental or not, does what the specification does, from the start or from a saved state |
| `Pruning.SearchFindsFirstCulprit` | binary_search_tool/binary_search_state.py:273-303 | with iterations enough one search ends at the first culprit, or at the last item |
| `Pruning.PruneStepInv` | binary_search_tool/binary_search_state.py:249-271 | pruning keeps: found items are culprits and a suffix of the list, no known good item is a culprit, list and known good items partition the original ones |
| `Pruning.CycleOutcome` | binary_search_tool/binary_search_state.py:224-271 | a cycle finds one more culprit, or is the last and reports all |
| `Pruning.PruneFindsAll` | binary_search_tool/binary_search_state.py:219-271 | from any top of the loop the culprits are reported after exactly the remaining number of cycles; with fewer, each cycle has found one more |
| `Pruning.SearchReportsCulprits` | binary_search_tool/binary_search_state.py:219-271 | a run reports exactly the culprits, after at most one cycle more than there are culprits |
| `Pruning.NoCulpritBlamesLast` | binary_search_tool/binary_search_state.py:233-237 | without a culprit the last item is reported |
| `Pruning.OneSearchFindsFirst` | binary_search_tool/binary_search_state.py:224-269 | without pruning the first culprit before the last item is found, with the items before it known good and no list printed; if there is none the last item is blamed |
| `Pruning.RunsOutIff` | binary_search_tool/binary_search_state.py:282-303 | a search completes exactly when the iteration limit allows the tests it needs, and then makes that many; otherwise it makes as many as the limit allows |
| `Pruning.OutOfIterationsStops` | binary_search_tool/binary_search_state.py:225-229 | for every test, a run whose search is not complete stops there, with list, found items, known good items and report as they were |
| `Pruning.NoInnocentBlamed` | binary_search_tool/binary_search_state.py:219-269 | whatever the limits on iterations and prune cycles, with pruning or without, every found item is a culprit and no known good item is one |
| `Pruning.ReportsNothingElse` | binary_search_tool/binary_search_state.py:231-247 | whatever the limits, a list that is printed is exactly the culprits, or the last item where there is no culprit |
| `Pruning.ReportIsRightIff` | binary_search_tool/binary_search_state.py:219-271 | given cycles and iterations enough, the report is right if and only if there are two items or more and at least one culprit |
| `Resume.RunOk` | binary_search_tool/binary_search_state.py:331-392 | every process of every crashed and resumed run is on the way to the result of the uninterrupted run, and what it remembers of the environment is true |
| `Resume.CrashesDoNotMatter` | binary_search_tool/binary_search_state.py:273-303 | a run crashed and resumed anywhere, in whatever environments, ends with the same found items, known good items, counts and report |
| `Resume.TestsSeeTheRequestedSplit` | binary_search_tool/binary_search_state.py:286-296 | at every test of every such run the real environment is exactly the requested split |
| `Resume.AlwaysGoesOn` | binary_search_tool/binary_search_state.py:366-392 | a live run can take a step exactly as long as it has not exited |
| `Resume.StepsBetweenCrashes` | binary_search_tool/binary_search_state.py:219-303 | between crashes each step uses up one of the steps left, so a run that is not crashed again ends |
| `Resume.StepsAreBounded` | binary_search_tool/binary_search_state.py:219-303 | the steps left are bounded by the number of items and the prune limit, wherever a run was resumed |
| `ResumeLosses.CrashLosesOneTest` | binary_search_tool/binary_search_state.py:282-297 | in every run a process is at most one recorded test, and what the prune loop makes of it, ahead of the saved state, and while a test is under way not at all |
| `ResumeLosses.SendsOnlyChanges` | binary_search_tool/binary_search_state.py:98-142 | with every item remembered the switch scripts are sent exactly the items that are on the other side |
| `ResumeLosses.RunRemembers` | binary_search_tool/binary_search_state.py:98-142 | in every run a process remembers nothing before its first test and every item from then on |
| `ResumeLosses.ScriptsGetTheChanges` | binary_search_tool/binary_search_state.py:98-142 | so with incremental switching, from the second test after a start or restart, the scripts are sent exactly the items whose side changes |
| `ShellSort.Sift` | cros_utils/stats.py:1784-1791 | the inner loops keep the index vector right, and with gap one insert a value into the sorted part |
| `ShellSort.Pass` | cros_utils/stats.py:1783-1791 | a pass with gap one sorts |
| `ShellSort.ShellSort` | cros_utils/stats.py:1771-1794 | the result is sorted and a permutation, and svec[i] is inlist[ivec[i]] with ivec a permutation of the positions |
| `Ranks.RunTally` | cros_utils/stats.py:1813-1816 | a maximal run of equal sorted values starts at the number of smaller values and is as long as the number of equal ones |
| `Ranks.InjectiveIsOnto` | cros_utils/stats.py:1815-1816 | every position is given a rank |
| `Ranks.AverageRank` | cros_utils/stats.py:1814 | the average position of a run is what the counts give |
| `Ranks.CloseRun` | cros_utils/stats.py:1814-1818 | closing a run ranks exactly its values |
| `Ranks.RankData` | cros_utils/stats.py:1797-1819 | every value gets (count less) + (count equal + 1) / 2 |
| `RankTests.RankSumTotal` | cros_utils/stats.py:1797-1819 | the ranks of n values sum to n(n+1)/2, ties or not |
| `RankTests.RankFormulaIsPairCount` | cros_utils/stats.py:1180-1183 | the rank formula for u1 counts the pairs with x < y, and half the ties |
| `RankTests.TieSumIdentical` | cros_utils/stats.py:1209-1217 | the tie total is between 0 and n^3 - n, and the latter exactly when all values are identical |
| `RankTests.RunTieSum` | cros_utils/stats.py:1210-1215 | a run of t equal values adds t^3 - t |
| `RankTests.CountTies` | cros_utils/stats.py:1210-1214 | the inner loop ends at the last of the equal values |
| `RankTests.TieTotal` | cros_utils/stats.py:1206-1216 | the loop over the runs computes the tie total |
| `RankTests.TieCorrect` | cros_utils/stats.py:1196-1218 | the correction lies in [0, 1], is zero exactly for identical values, and divides by zero below two values |
| `RankStatistics.RankMonotone` | cros_utils/stats.py:1797-1819 | ranks order the data as the data are ordered, and tie exactly where they tie |
| `RankStatistics.RankedIdentical` | cros_utils/stats.py:1187-1190 | the ties of the ranks are those of the data, so the callers' zero test is a test for identical data |
| `RankStatistics.RankU` | cros_utils/stats.py:1183 | u1 from the ranks of the joint sample is the pair count |
| `RankStatistics.NormalScore` | cros_utils/stats.py:1191-1192 | z from bigu is not negative, and its square is the squared deviation of U over its corrected variance |
| `RankStatistics.MannWhitneyU` | cros_utils/stats.py:1166-1193 | the statistic is the smaller pair count, with that z beside it; an empty sample or identical values raise |
| `RankStatistics.UBounds` | cros_utils/stats.py:1184-1186 | it lies between 0 and n1*n2/2 and does not depend on the order of the samples |
| `RankStatistics.GroupSumsTotal` | cros_utils/stats.py:1294-1300 | cutting the ranks into groups conserves their sum |
| `RankSpread.SpreadFormula` | cros_utils/stats.py:1301-1303 | the formula for h is the weighted spread of the group means around the mean rank, hence never negative |
| `RankStatistics.HIsSpread` | cros_utils/stats.py:1286-1303 | so it is for the ranks of any non-empty groups |
| `RankStatistics.SumSquares` | cros_utils/stats.py:1294-1301 | the loops compute the sum of squared rank sums over group sizes, or divide by zero for an empty group |
| `RankStatistics.KruskalWallisH` | cros_utils/stats.py:1276-1308 | H is that spread over the tie correction of the data, never negative; it raises exactly for an empty group, fewer than two values, or identical values |
| `RankVariance.LeadsAndTies` | cros_utils/stats.py:1196-1218 | ties or not, three times the squared differences between values below and values above, and the tie total, make up n^3 - n |
| `RankVariance.HScale` | cros_utils/stats.py:1286-1308 | H of n values is at most n - 1, however they are grouped, and exactly n - 1 when each is a group of its own, ties or not |
| `TwoSamples.TwoGroupH` | cros_utils/stats.py:1286-1303 | for two groups h is the squared deviation of u1 from its mean over its variance without ties |
| `TwoSamples.EquivalentIffNoTies` | cros_utils/stats.py:1166-1193 | z squared equals H of the two groups exactly when all values differ or as many pairs have x < y as x > y |
| `TwoSamples.BothTests` | cros_utils/stats.py:1172-1173 | the same of what the two functions return |
| `TwoSamples.TiesMakeThemDiffer` | cros_utils/stats.py:1187-1192 | for one value against two equal larger ones they differ |
| `TwoSamples.NoTies` | cros_utils/stats.py:1196-1218 | the tie total is zero exactly when all values differ |
| `MachineLock.Opened` | file_lock_machine.py:35-42 | opening the check file keeps one that is there and else makes a new one |
| `MachineLock.ClearsIffTakerDied` | file_lock_machine.py:159-173 | reading the description clears it exactly when the lock is exclusive and automatic, its taker has died, and the reader has no check file open |
| `MachineLock.StepKeepsInv` | file_lock_machine.py:144-261 | every lock, unlock, listing and death keeps: no exclusive lock beside shared ones, counter not negative, and a living taker has the liveness lock of the current check file |
| `MachineLock.GrantedIffTakerDied` | file_lock_machine.py:198-222 | against an exclusive lock a request is granted exactly when that lock is automatic and its taker dead, and the requester has no check file open |
| `MachineLock.ExclusiveStaysIff` | file_lock_machine.py:144-261 | an exclusive lock stays with its taker unless its owner returns it in the same mode or somebody finds its taker dead |
| `MachineLock.RunKeepsInv` | file_lock_machine.py:144-261 | the invariant holds after every run |
| `MachineLock.HeldUntil` | file_lock_machine.py:198-261 | a granted exclusive lock is held until it is returned or, if automatic, its process dies |
| `MachineLock.NothingGrantedWhileHeld` | file_lock_machine.py:198-222 | until then no request of any kind is granted, in any run |
| `MachineLock.HistoryTells` | file_lock_machine.py:144-261 | in every run the steps and their answers tell who has a check file open and which exclusive lock there is: the description is what the request wrote whose lock has neither been returned nor found abandoned, and none if all have |
| `MachineLock.CounterIsBalance` | file_lock_machine.py:206-261 | the counter is at least shared grants minus shared returns, and equal exactly when no moment saw more returns than grants |
| `MachineLock.CounterIsSurplus` | file_lock_machine.py:206-261 | in every run, balanced or not, the counter is the largest surplus of shared grants over returns since any moment |
| `MachineLock.ReturnWithoutGrant` | file_lock_machine.py:226-228 | runs need not be balanced: the return of an unlocked machine is answered with success |
| `MachineLock.LeftOverHolds` | file_lock_machine.py:247-257 | a liveness lock that guards no automatic lock belongs to a process that took a manual one |
| `MachineLock.ErrorNeedsManualLock` | file_lock_machine.py:206-212 | a request raises an error only if another living process took a manual exclusive lock before |
| `MachineLock.HolderIff` | file_lock_machine.py:206-257 | in every run the liveness lock of the check file belongs exactly to the living process that was granted an exclusive lock with no removal of the file since |
| `MachineLock.GrantedIff` | file_lock_machine.py:198-222 | in every run a shared request is granted exactly when no exclusive lock stands against the process, and an exclusive one when also no shared grant is outstanding and no other living process keeps the check file locked |
| `MachineLock.ErrorIff` | file_lock_machine.py:198-222 | a request raises an error exactly when it is exclusive, no lock stands against it, but another living process was granted an exclusive lock and no automatic one has been returned since |
| `MachineLock.ReturnedIff` | file_lock_machine.py:224-261 | in every run a return succeeds exactly when it is the owner's of the exclusive lock that stands, in the same mode, or no exclusive lock stands and it is shared or there is nothing to return |
| `MachineLock.ListedIff` | file_lock_machine.py:129-142 | a listing shows the machine exactly when an exclusive lock stands against the process or a shared grant is outstanding |
| `MachineLock.ManualLockOutlivesItsReturn` | file_lock_machine.py:224-257 | that happens: after a manual lock is returned, the exclusive request of another process fails |
| `MachineLock.LockFile.OpenLiveCheck` | file_lock_machine.py:35-42 | gives the check file, locked, unless another process has its lock |
| `MachineLock.LockFile.Enter` | file_lock_machine.py:144-178 | reads the description, and forgets an automatic lock nobody holds |
| `MachineLock.LockFile.ListLock` | file_lock_machine.py:129-142 | the listing step and its answer |
| `MachineLock.LockFile.NonBlockingLock` | file_lock_machine.py:198-222 | the lock step and its answer |
| `MachineLock.LockFile.Release` | file_lock_machine.py:248-255 | gives up exactly the process's own liveness locks on its check files |
| `MachineLock.LockFile.Unlock` | file_lock_machine.py:224-261 | the unlock step and its answer; the check file it removes is there |
| `MachineLock.LockFile.Exit` | file_lock_machine.py:161-173 | a process that ends loses its liveness locks and its open files |

## Left out

- `Task.__Compile`, `Task.__Test`, `ERROR_STRING` costs and the log files: foreign commands, replaced by functions of the key.
- The alternation of the helper's two polls: the helper may poll in any order, of which the program's is one.
- The busy waiting of Steering, `LogSteeringCost` and the rest of the reporting.
- Parsing of flag specifications and formatting of flags.
- `bestflags/genetic_algorithm.py`, the random hill climbing seeds and the other ways to make a first generation.
- Elimination.Eliminate: asks for ranges that are not empty, as `Flag` asserts when it draws a value; draws are a function of the flag set and the flag.
- `Generation.CandidatePool`, beyond the one parent of a hill climbing generation.
- Bisection.SearchLoop: the lists given to the switch scripts are sets, since the scripts act on items; their order and failures are not modelled.
- BinarySearchState.BinarySearchState.constructor: asks for distinct items, because the program looks the border item up by its value.
- Pruning.SearchReportsCulprits: assumes that the test never answers 125 and is bad exactly when some culprit is switched to bad; after an all-skipped stop `current` is no verdict.
- `DoVerify`, and the symlink and the pickled bytes of the state file.
- `points`, the estimates and the messages of `BinarySearcher`; `GetNextFlakyLinear` and the Perforce searchers.
- RankStatistics.MannWhitneyU: takes the square root as a function that is exact, and does not model rounding nor the probability of z.
- RankStatistics.KruskalWallisH: does not model rounding, nor the chi-square probability.
- The other functions of `cros_utils/stats.py`.
- MachineLock.LockFile.Enter: the failure of `flock` itself, the file mask and the JSON text are not modelled.
- MachineLock.LockFile.Unlock: the `force` option is not modelled.
- `Machine.TryLock`, which repeats the request with pauses.
- buildbot, crosperf, AFE, report, email and shell script code.
