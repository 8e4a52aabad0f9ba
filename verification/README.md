# Looptimum controller: a verified model

Looptimum is a file-backed optimizer controller. This project models the parts of it that carry its
guarantees and proves what they promise. `dafny verify dfyconfig.toml` checks everything.

**Crash-safe campaigns** (`Campaign*.dfy`, `Capacity.dfy`). The disk is a record of the journal, the state
file, the manifests and the two logs. A command is a list of atomic writes, and a crash keeps a prefix of it.
`CampaignInvariant` states what every reachable disk satisfies and `CampaignRuns` proves it over every run;
`CampaignTheorems` and `CampaignGuarantees` derive restartable recovery, all-or-nothing batches and rebuilds,
and exact logs; `CampaignAtomic` is the machine without crashes that the campaign refines; `CampaignLimits`
says what no run undoes and where the guarantees end; `CampaignBatches` and `CampaignLifecycle` say what each command
leaves behind, trial by trial, and exactly when it is refused. `CampaignController` is the same code as a class that
updates its files in place and may die after any write, proved against the plans the theorems are about.
Results, cancellations and heartbeats may arrive between a crash and its recovery, in any number.

**Objectives** (`Hypervolume`, `LatticeCells`, `BoxAlgebra`, `Objectives`, `ScoreLaws`, `Pareto`, `Ranking`,
`Outcomes`, `Audit`). The recursive slab sum is shown to be a measure in two independent ways: it counts lattice cells, and
it obeys inclusion-exclusion. The front, the best record, the report and the audit's sweep are proved against it.

**Conditional search spaces** (`Space*`, `VectorLaws`, `Constraints`, `RuleLaws`, `FinitePoints`, `WalkLaws`,
`Codec`, `Generation`, `GenerationLaws`). Ordering and
cycle detection, the two encoders with their decoders, the pruned enumeration, and the pruning of generation
domains. Statements are about points whose keys are exactly the active set.

**The worker** (`Worker`, `Batch`, `Request`, `ProjectionRuns`). The projection of canonical history onto an
external client, the generation of a batch under an attempt budget, the controller's own check of the answer, and
whole runs of requests, results, rebuilds and imports. The client is abstract: a function of a clock and of the
indices in use, known only to give new indices.

**Leases** (`Lease`), **archive restore** (`Restore`) and **log consumption** (`Events`).

Conventions: digests are injective, so a pointer, fingerprint or signature is the value it digests; allocation
ids, rebuild ids and lease tokens are fresh; numbers are exact integers and reals, with the tolerance 1e-12 as a
named constant; two JSON values are equal when their renderings are, which keeps 1, 1.0 and true apart. Encoded
names and tokens ("root", "p3", "c1") are constructors with those indices.

## Where the code does not do what it is said to do

- An import of historical observations never looks at the journal. If it runs while a batch is only prepared, it
  moves the trial counter past the journal, and from then on recovery, allocation and rebuild all raise
  (`CampaignLimits.ImportCanStrandAJournal`; exactly then: `CampaignLimits.DifferentHistoryExactly`).
- A suggestion under contract 1 on a campaign that a contract-2 import has just started installs a format-1
  optimizer, although downgrades are refused elsewhere (`CampaignLimits.FormatCanDrop`; exactly then:
  `CampaignLimits.OnlyOneCommandLowers`).
- Rollback after a failed restore covers the removing and applying phases. A failure while staging deletes every
  existing target, and one while backing up deletes those not yet copied (`Restore.StagingCanLoseATarget`;
  exactly which: `Restore.WhichFailuresLoseTargets`).
- Under Tchebycheff scalarization the best feasible record can be dominated and so be missing from the front
  (`Ranking.NegativeLossIsUnanchored`, `Ranking.UnanchoredPartsBestFromFront`; exactly when:
  `Ranking.TchebycheffExact`).
- A client that answers a float parameter with an integer passes every check of its batch, because the decoder
  compares 1 and 1.0 as equal; the row it leads to is signed as a float, so the next request is refused
  (`ProjectionRuns.LooseBatchIsAccepted`; exactly then: `ProjectionRuns.BatchStaysProjectableIffCanonical`).
- The numeric encoding accepts 1.0 for an integer parameter, but activity tells 1.0 from 1: a controller written so
  drops the values of its dependents (`SpaceVector.UntypedControllersLoseValues`; exactly when:
  `SpaceVector.PointRoundTrip`).
- A log cut inside a line is read with that line counted twice when both parts of it parse, for example just before
  its newline; when the first part does not parse, the reader raises and the next reading is right
  (`Events.CutBeforeNewlineCountsTwice`; exactly when: `Events.LineNumbersKeptIffCutAtLineEnd`).

## Model

| member | source | states |
|---|---|---|
| CampaignRuns.EveryRunKeepsInv | templates/_shared/optimizer_ax.py:215-262 | From the empty campaign, every run of commits, results, retirements, heartbeats, imports, rebuilds and recoveries - each cut off after any number of its atomic writes - stays inside the invariant: ids contiguous, committed suggestions kept, logs in block form, and one of four phases |
| CampaignRuns.StepKeepsInv | templates/_shared/optimizer_ax.py:181-262 | One command, cut off anywhere, keeps that invariant |
| CampaignIds.NumberedMeansExactlyOnce | templates/_shared/optimizer_ax.py:116-137 | Canonical trial ids are exactly 1 to next_trial_id - 1, each on exactly one row |
| CampaignRecovery.ClassificationIsExact | templates/_shared/optimizer_ax.py:116-137 | In every reachable state a journal is well-formed and classifies as committed exactly when its batch committed, as prepared otherwise, and as "a different canonical history" only when an import overtook it |
| CampaignLimits.DifferentHistoryExactly | templates/_shared/optimizer_ax.py:116-137 | A step leads to "a different canonical history" if and only if it is an import - with rows, nothing pending, a format that fits the contract, no observations under a fresh contract 2 - that gets past its state write while a journal is classified as prepared |
| CampaignLimits.OverrunIsFinal | templates/_shared/optimizer_ax.py:134-137 | After that, recovery, allocation and rebuild all raise without writing |
| CampaignLimits.OverrunForEver | templates/_shared/optimizer_ax.py:134-137 | No later command of any run gets out of that state |
| CampaignLimits.ImportCanStrandAJournal | templates/bo_client/run_bo.py:2429-2632 | The input that shows it: a batch cut off after its journal write, then an import; recovery then reports "a different canonical history" and raises |
| CampaignRecovery.RecoverCommitted | templates/_shared/optimizer_ax.py:181-212 | Recovering a committed batch keeps the invariant at every write, does not raise, and ends with nothing outstanding |
| CampaignRecovery.RecoveryNeedsItsConfig | templates/_shared/optimizer_ax.py:194-196 | A committed batch is published under its own objective configuration and under no other |
| CampaignTheorems.RecoveryRestarts | templates/_shared/optimizer_ax.py:181-212 | A recovery cut off after any write and run again ends in the disk that one uninterrupted recovery leaves |
| CampaignTheorems.BatchIsAllOrNothing | templates/_shared/optimizer_ax.py:215-262 | A batch cut off at any write and then recovered equals the complete batch once the state write happened, and the untouched disk before that |
| CampaignTheorems.RebuildIsAllOrNothing | templates/_shared/optimizer_ax.py:923-946 | A rebuild cut off at any write and then finished equals the complete rebuild, or the untouched disk |
| CampaignTheorems.RebuildRestarts | templates/_shared/optimizer_ax.py:923-946 | Finishing a committed rebuild can itself be cut off and rerun |
| CampaignGuarantees.RecoveredCampaign | templates/_shared/optimizer_ax.py:160-212 | From every reachable disk, the two recoveries leave canonical trials and unowned log rows alone, nothing outstanding, every commit's rows exactly once and complete, and no row of any other allocation or rebuild |
| CampaignGuarantees.EveryRunRecovers | templates/_shared/optimizer_ax.py:160-262 | The same four promises over every run from the empty campaign |
| CampaignGuarantees.QuietLogsAreExact | templates/_shared/optimizer_ax.py:160-178 | With nothing outstanding, the rows an identifier owns in each log are exactly those of its commit, or none |
| CampaignGuarantees.RecoveredManifests | templates/_shared/optimizer_ax.py:197-202 | After recovery each manifest of the batch is its canonical row, marked pending exactly if the trial still is |
| CampaignBatches.CompletedBatch | templates/_shared/optimizer_ax.py:215-262 | A complete commit leaves every trial of the batch pending under the next ids with its own point, and in the logs, under the batch's identifier, its own decision and its own event; the installed snapshot carries the batch's payload and configuration |
| CampaignBatches.CommandMakesCommit | templates/_shared/optimizer_ax.py:215-262 | A commit that gets past its state write, and no other command, adds a commit, and it carries that batch |
| CampaignBatches.EveryRunPublishesBatches | templates/_shared/optimizer_ax.py:160-262 | Over every run, after both recoveries, each commit was made by one command of the run, whose own rows are in the logs exactly once, each trial with its own decision, event and point |
| CampaignBatches.BatchContinuesLineage | templates/_shared/optimizer_ax.py:872-905 | A batch continues the lineage and counts one generation, or starts both |
| CampaignBatches.AllocatableMeans | templates/_shared/optimizer_ax.py:415-470 | Exactly when a batch is taken: what must not be outstanding, and which format and configuration the optimizer must have |
| CampaignBatches.JournalAcceptedMeans | templates/_shared/optimizer_ax.py:53-114 | Exactly which journals are accepted, on any disk |
| CampaignBatches.StatusMeans | templates/_shared/optimizer_ax.py:116-137 | Exactly when a journal is committed or prepared, on any disk: snapshot pointer, the last canonical row of each id with its point, and the counter |
| CampaignBatches.RecoveryRefusesExactly | templates/_shared/optimizer_ax.py:181-212 | What recovery does with each kind of journal, on any disk, and exactly when it raises |
| CampaignBatches.RebuildAuditChecks | templates/_shared/optimizer_ax.py:923-946 | Finishing a rebuild raises exactly if its event disagrees with what the optimizer records or with the log |
| CampaignLifecycle.PublicationIsStaged | templates/_shared/optimizer_ax.py:181-212 | Recovery writes manifests, then decisions, then events, and removes the journal last |
| CampaignLifecycle.CommitIsStaged | templates/_shared/optimizer_ax.py:215-262 | A commit writes the journal, then the state, and then recovers |
| CampaignLifecycle.OtherWritesInOrder | templates/bo_client/run_bo.py:2245-2882 | The writes of an import, a retirement, a result, a heartbeat and a rebuild come in a fixed order, with a rebuild marked in the state before all else and unmarked last |
| CampaignLifecycle.ResultMovesItsTrial | templates/bo_client/run_bo.py:2245-2426 | A terminal result moves exactly the trial it names to the end of the observations, with its id and point, its manifest and one event |
| CampaignLifecycle.HeartbeatKeepsTrials | templates/bo_client/run_bo.py:2815-2882 | A heartbeat changes only the details of the trial it names |
| CampaignLifecycle.RetirementMovesTheStale | templates/bo_client/run_bo.py:920-948 | The automatic retirement moves exactly the named pending trials and keeps the others in order |
| CampaignLifecycle.ImportAppendsItsRows | templates/bo_client/run_bo.py:2429-2632 | An import appends its rows under the next ids and marks a fresh contract-2 campaign |
| CampaignLifecycle.ImportWritesTerminalManifests | templates/bo_client/run_bo.py:2429-2632 | Every imported row gets a terminal manifest |
| CampaignLifecycle.ImportRefusedExactly | templates/bo_client/run_bo.py:2429-2632 | Exactly when an import is refused |
| CampaignLifecycle.RebuildAllowedMeans | templates/_shared/optimizer_ax.py:980-1075 | Exactly when a rebuild is allowed, by source and target contract, recorded configuration, readable snapshot and outstanding work |
| CampaignLifecycle.RebuildRecordsItsSource | templates/_shared/optimizer_ax.py:1076-1142 | What a rebuild records of the state it started from and installs |
| CampaignLogs.PublishFresh | templates/_shared/optimizer_ax.py:160-178 | Publishing rows an identifier does not own yet appends them as one block |
| CampaignLogs.PublishAgain | templates/_shared/optimizer_ax.py:169-176 | Publishing them again changes nothing |
| CampaignLogs.OwnedInBlockForm | templates/_shared/optimizer_ax.py:160-178 | In a log of blocks with distinct owners and unowned rows between them, the rows of an owner are exactly its block |
| CampaignAtomic.StepRefines | templates/_shared/optimizer_ax.py:181-262 | A command cut off anywhere does what a few operations of an atomic machine without journal or crashes do; recovery does nothing the machine can see |
| CampaignAtomic.RunRefines | templates/_shared/optimizer_ax.py:181-262 | Hence every crashing run refines a run of the atomic machine |
| CampaignLimits.ObservedStaysObserved | templates/_shared/optimizer_ax.py:197-202 | Over any run the observations only grow at the end, and an observed trial is never pending again |
| CampaignLimits.RebuildKeepsTrials | templates/_shared/optimizer_ax.py:956-1142 | A rebuild cut off anywhere keeps pending, observations, next_trial_id, the journal, manifests and decision rows |
| CampaignLimits.GenerationCountsBatches | templates/_shared/optimizer_ax.py:555-590 | Between rebuilds the lineage stays the same and the generation grows by one per committed batch |
| CampaignLimits.OnlyOneCommandLowers | templates/_shared/optimizer_ax.py:415-602 | The optimizer format drops in a step if and only if the step commits a contract-1 batch on a campaign that an import marked as format 2 and that has no snapshot |
| CampaignLimits.FormatNeverDrops | templates/_shared/optimizer_ax.py:980-985 | Over runs without such a step the format never drops |
| CampaignLimits.FormatCanDrop | templates/_shared/ax_contract.py:187-196 | The input that shows it: an import under contract 2, then a suggestion under contract 1 |
| CampaignController.Controller.PublishRows | templates/_shared/optimizer_ax.py:160-178 | The in-place form of row publication performs the writes the specification function names, and raises exactly on a conflict |
| CampaignController.Controller.RecoverAllocation | templates/_shared/optimizer_ax.py:181-212 | The in-place recovery, stopped by a process death anywhere, leaves exactly the prefix of the specified writes |
| CampaignController.Controller.CommitAllocation | templates/_shared/optimizer_ax.py:215-262 | The same for committing a batch |
| CampaignController.Controller.RecoverRebuild | templates/_shared/optimizer_ax.py:923-946 | The same for finishing a rebuild |
| CampaignController.Controller.RebuildOptimizer | templates/_shared/optimizer_ax.py:956-1142 | The same for a rebuild |
| CampaignController.Controller.FinishTrial | templates/bo_client/run_bo.py:2245-2426 | The same for a terminal result that ends a pending trial |
| Capacity.ProductCountsPoints | templates/_shared/optimizer_ax.py:375-384 | The product of the domain sizes is the number of points of a finite space |
| Capacity.CheckFiniteCapacity | templates/_shared/optimizer_ax.py:365-394 | With a history inside the space, the check raises exactly when fewer than the requested number of unblocked points remain |
| CampaignController.Controller.RetireStale | templates/bo_client/run_bo.py:2013-2034 | The same for the automatic retirement of stale trials, which ends them all in one state write and writes their manifests and events after it |
| LatticeCells.UnionCountsCells | templates/_shared/objectives.py:571-585 | On any common grid the recursive slab sum is the cell measure times the number of lattice cells that lie in at least one box, in any number of dimensions |
| LatticeCells.UnionOfIntegerBoxes | templates/_shared/objectives.py:571-585 | With whole widths the slab sum is the number of covered lattice cells |
| Hypervolume.AnyLevels | templates/_shared/objectives.py:576-582 | The slab sum does not depend on which superset of the levels it is summed over |
| BoxAlgebra.InclusionExclusion | templates/_shared/objectives.py:571-585 | For all real widths the slab sum obeys inclusion-exclusion: adding a box adds its volume less the volume of its meets with the others |
| BoxAlgebra.MeetIsGreatest | templates/_shared/objectives.py:551-585 | The meet used there is the intersection of two reference-anchored boxes |
| BoxAlgebra.CoveringSubset | templates/_shared/objectives.py:571-585 | Dropping every box that lies inside a kept one keeps the volume |
| Outcomes.FeasibleHypervolume | templates/_shared/objectives.py:551-585 | The loop collects exactly the positive width vectors and returns their union, or None without a reference |
| Outcomes.FrontKeepsHypervolume | templates/_shared/objectives.py:551-585 | The front alone has the hypervolume of all records, duplicates included |
| Pareto.DominanceIsStrictOrder | templates/_shared/objectives.py:510-516 | Dominance is irreflexive and transitive |
| Pareto.FrontDominator | templates/_shared/objectives.py:510-536 | Every record off the front is dominated by a record on it |
| Pareto.FrontIsExact | templates/_shared/objectives.py:519-548 | The front holds exactly the nondominated records, as often as they occur, sorted by rank key |
| Pareto.ParetoFrontRecords | templates/_shared/objectives.py:519-548 | The pairwise loop and the sort return that front, or the first malformed record's error |
| Ranking.ScalarFollowsDominance | templates/_shared/objectives.py:332-395 | For primary_only, lexicographic and weighted_sum a dominating vector ranks strictly first |
| Ranking.TchebycheffExact | templates/_shared/objectives.py:360-378 | Under Tchebycheff a vector outranks everything it dominates if and only if it is anchored: no objective leads the reference by more, weighted, than some objective lags behind it |
| Ranking.UnanchoredLoses | templates/_shared/objectives.py:360-378 | For every vector that is not anchored, a vector it dominates that outranks it |
| Ranking.BestHeadsFront | templates/_shared/objectives.py:637-655 | When every record is steady (always, except under Tchebycheff) the best feasible record is nondominated and heads the front |
| Ranking.UnanchoredPartsBestFromFront | templates/_shared/objectives.py:637-655 | With an unanchored record under Tchebycheff the best feasible record need not be on the front |
| Ranking.NegativeLossIsUnanchored | templates/_shared/objectives.py:360-378 | The input that shows it: one minimized loss, the default reference, and the losses -1.0 and -0.5 |
| ScoreLaws.WeightedSumIsLinear | templates/_shared/objectives.py:340-359 | A weighted sum grows by the weight of an objective times how much worse it gets, and is zero where every objective is |
| ScoreLaws.TchebycheffIsGreatestDistance | templates/_shared/objectives.py:360-378 | A Tchebycheff score is the greatest weighted distance of an objective from the reference |
| ScoreLaws.PrimaryScore | templates/_shared/objectives.py:332-345 | The other two policies score by the first objective alone |
| ScoreLaws.RankIsByScoreThenObjectives | templates/_shared/objectives.py:383-395 | The better score ranks first; on equal scores the first objective in which the vectors differ decides, on equal vectors the lower trial id |
| ScoreLaws.DominatesMeansNowhereWorse | templates/_shared/objectives.py:510-516 | A vector dominates another exactly if it is worse in no objective and better in one |
| Outcomes.UnknownExactly | templates/_shared/objectives.py:594-605 | A row is neither feasible nor infeasible exactly if its trial did not end well, its measurements are refused, or its objectives are not the configured ones |
| Outcomes.CheckMeansExcess | templates/_shared/objectives.py:606-630 | A reported check holds the measured value, whether it is within the bound, and by how much it is not |
| Outcomes.OutcomeSummary | templates/_shared/objectives.py:588-675 | The report counts every row once and gives its status and every constraint check, its front and its best record are those of the feasible rows, and its hypervolume is that of all feasible rows |
| Outcomes.FeasibleMeansNoViolation | templates/_shared/objectives.py:594-634 | A row is reported feasible exactly if it is known and every reported violation is zero, infeasible exactly if it is known and one is positive or missing |
| Audit.Volume2D | benchmarks/ax_capabilities/audit.py:16-25 | The running-best sweep returns the area of the recursive slab sum for every list of points, ties and points outside the reference included |
| Audit.AuditVolume | benchmarks/ax_capabilities/audit.py:16-25 | On a loss/gain campaign the audit recomputes the reported feasible hypervolume |
| SpaceOrder.OrderedPromise | templates/_shared/search_space.py:381-406 | The depth-first ordering returns each parameter once, after all its controllers, or names an actual cycle |
| SpaceOrder.CycleIffRaises | templates/_shared/search_space.py:358-378 | It raises if and only if the `when` graph has a cycle |
| SpaceOrder.OrderingHasNoCycle | templates/_shared/search_space.py:358-378 | An ordering with controllers first excludes every cycle |
| SpaceTraversal.Traversal.VisitParam | templates/_shared/search_space.py:385-402 | The traversal with marks and a stack updated in place has the outcome of the specification function |
| SpaceTraversal.OrderedParameters | templates/_shared/search_space.py:381-406 | The ordering method returns an ordering of the declared parameters |
| SpaceTraversal.ValidateWhenDependencies | templates/_shared/search_space.py:325-378 | Validation succeeds exactly when all controllers are known, none is the parameter itself and there is no cycle; a reported cycle is one |
| SpaceVector.SampleRandomPoint | templates/_shared/search_space.py:492-523 | Whatever is drawn, the sampled point has exactly the active parameters, each with a value of its domain |
| SpaceVector.PointsAgree | templates/_shared/search_space.py:453-467 | Two points that agree where both are defined are the same point |
| SpaceVector.NormalizeNumericPoint | templates/_shared/search_space.py:533-554 | The encoding loop computes the specified encoding |
| SpaceVector.DenormalizeNumericPoint | templates/_shared/search_space.py:557-594 | The decoding loop computes the specified decoding, over every length of input |
| SpaceVector.PointRoundTrip | templates/_shared/search_space.py:533-594 | For any values, they lie in their domains and decoding their encoding gives them back - numbers in their declared types, continuous values in ranges under 1e-12 moved to the lower bound - if and only if they are a point of the space in those types and no parameter is switched by the type of its controller, except one that holds its first choice, false or lower bound |
| SpaceVector.TypedIsRecoverable | templates/_shared/search_space.py:453-463 | The condition holds whenever controllers hold values of their own type |
| SpaceVector.UntypedControllersLoseValues | templates/_shared/search_space.py:453-463 | The inputs that show it: an integer controller holding 1.0 loses the value of the parameter that needs 1, and without that parameter gains one |
| SpaceVector.SettledIsClose | templates/_shared/search_space.py:219-272 | Such a value moves by less than 1e-12; every other value is exact |
| SpaceVector.NormalizeIsInjective | templates/_shared/search_space.py:533-594 | On those points the encoding is injective up to types and narrow ranges, although inactive segments look like lower bounds |
| SpaceVector.DecodedIsPoint | templates/_shared/search_space.py:557-594 | A list of numbers decodes if and only if it has the total encoded length, and then to a point of the space |
| VectorLaws.DecodedIntegerIsNearest | templates/_shared/search_space.py:256-272 | An entry decodes to the integer nearest to the place it marks between the bounds, halves to the even one |
| VectorLaws.DecodedChoiceIsFirstGreatest | templates/_shared/search_space.py:581-589 | A categorical segment decodes to the choice of its first greatest entry |
| VectorLaws.DecodedBooleanIsAtLeastHalf | templates/_shared/search_space.py:573-580 | A boolean entry counts from one half on |
| VectorLaws.EncodedNumberIsPlace | templates/_shared/search_space.py:219-243 | A number is encoded by its place between the bounds, clamped, and by zero in a range under 1e-12 |
| VectorLaws.EncodedIntegerIsPlace | templates/_shared/search_space.py:219-243 | Whole numbers of either type are encoded alike, and every other value is refused |
| VectorLaws.EncodedChoiceIsOneHot | templates/_shared/search_space.py:544-551 | A choice is encoded by a single one in its place |
| RuleLaws.RuleIsAThreshold | templates/_shared/constraints.py:361-397 | With all else fixed a linear rule is violated exactly beyond a threshold of one parameter, on the side its weight and its direction ask for |
| RuleLaws.TermMoves | templates/_shared/constraints.py:361-397 | A term may be moved to the other side of a linear rule; with the rule without terms this decides every rule |
| RuleLaws.NoTerms | templates/_shared/constraints.py:361-397 | A rule without terms compares its right-hand side with zero, up to 1e-12 |
| RuleLaws.AtLeastIsTurned | templates/_shared/constraints.py:361-397 | An at-least rule is the at-most rule with all signs turned |
| RuleLaws.SmallerTermsKeepRule | templates/_shared/constraints.py:361-397 | Making terms smaller never breaks an at-most rule, making them greater never breaks an at-least rule |
| RuleLaws.BoundRuleIsABand | templates/_shared/constraints.py:323-358 | A bound rule accepts exactly the band around its bounds, and points that give its parameter no number |
| RuleLaws.ForbiddenNeedsEveryTerm | templates/_shared/constraints.py:313-320 | A forbidden combination is violated exactly if every parameter it names holds one of the values it lists |
| RuleLaws.IntegersCount | templates/_shared/constraints.py:323-383 | Bound and linear rules take an integer and the float of the same size alike |
| Constraints.EvaluateConstraints | templates/_shared/constraints.py:417-440 | The three loops report exactly the violated rules, each once, and none exactly for a feasible point |
| Constraints.ViolationStays | templates/_shared/constraints.py:313-414 | A rule violated by a partial point is violated by every extension of it |
| Constraints.TightenParam | templates/_shared/constraints.py:457-497 | The tightened domain holds exactly the values of the domain that lie within every bound rule |
| Constraints.TighteningMeetsRules | templates/_shared/constraints.py:323-334 | Values of the tightened domain violate no bound rule; values that violate none are within 1e-12 of it |
| FinitePoints.WalkReachesPoints | templates/_shared/ax_space.py:299-338 | The walk over the ordered parameters reaches exactly the points of the space |
| FinitePoints.Enumeration.Walk | templates/_shared/ax_space.py:305-338 | The pruned recursion adds exactly the nodes and the points of the tree below it, and overflows exactly if that tree holds a parameter it cannot enumerate, or takes the nodes beyond four times the limit or the points beyond the limit |
| FinitePoints.WalkOfSpace | templates/_shared/ax_space.py:299-338 | The walk of a space is stuck if and only if some feasible choice of the earlier parameters leaves a continuous range or an oversized integer range active; otherwise it finds exactly the complete, active, feasible points |
| WalkLaws.WalkVisits | templates/_shared/ax_space.py:299-338 | The nodes counted are the choices for the first parameters, one by one, whose part without the last is feasible |
| FinitePoints.EnumerateFeasible | templates/_shared/ax_space.py:299-343 | Enumeration gives up exactly if the walk is stuck or breaks one of the two limits; otherwise it is exactly the set of complete, active, feasible points |
| FinitePoints.CheckCapacity | templates/_shared/ax_space.py:346-364 | The check raises exactly if the walk stays within the limits and fewer of its points are unblocked than were asked for |
| Codec.BuildDomains | templates/_shared/ax_space.py:80-170 | Building succeeds exactly for spaces in which each parameter has at most one controller value, each controller a small finite domain, and that domain presents the value each dependent needs |
| Codec.TighteningCanKillABranch | templates/_shared/ax_space.py:80-170 | The input that shows the last condition: a controller on 0..5 with a dependent at 1, tightened to 3..5 |
| Codec.DomainMeans | templates/_shared/ax_space.py:117-142 | What each kind of parameter presents to the generator, with the limit of 256 values for controllers |
| Codec.CodesAreComparedBySize | templates/_shared/ax_space.py:290-291 | The closing comparison takes numbers of equal size for equal whatever their types |
| Codec.Encode | templates/_shared/ax_space.py:236-270 | The loop computes the specified encoding, or refuses |
| Codec.Decode | templates/_shared/ax_space.py:273-292 | The loop computes the specified decoding with its closing check |
| Codec.EncodeAcceptsPoints | templates/_shared/ax_space.py:236-270 | Encoding accepts exactly the points of the space, integers counting as floats |
| Codec.DecodeUndoesEncode | templates/_shared/ax_space.py:236-292 | Decoding an encoded point gives it back with integers widened in float parameters; the closing check never fails |
| Codec.EncodeIsInjective | templates/_shared/ax_space.py:236-270 | Encoding is injective on typed points |
| Codec.EncodeUndoesDecode | templates/_shared/ax_space.py:273-292 | What decodes encodes again to the same code, integers widened in float columns |
| Codec.EncodingFollowsTree | templates/_shared/ax_space.py:149-188 | A dependent column is present exactly when its parent's column holds the code it depends on |
| Generation.CollectAncestors | templates/_shared/ax_space.py:48-53 | The walk up the tree collects every controller above a parameter with the value it needs |
| Generation.AncestorsHold | templates/_shared/ax_space.py:48-53 | For an active parameter all of those hold |
| Generation.GenerationChoices | templates/_shared/ax_space.py:34-77 | The loops compute the specified pruned domains, and None exactly when nothing was pruned |
| Generation.PruningPreservesFeasible | templates/_shared/ax_space.py:34-77 | Every feasible public point still encodes into the pruned domains |
| Generation.PrunedDomainsStayUsable | templates/_shared/ax_space.py:65-76 | No pruned domain is empty, none gains a value, and no value a dependent hangs on is removed |
| GenerationLaws.RuleTestIsExact | templates/_shared/ax_space.py:62-70 | For a rule that names the parameter, activation proves every other term and the value is listed exactly if every assignment with that value, of whatever other values, is forbidden |
| GenerationLaws.GenerationDomainIsSifted | templates/_shared/ax_space.py:34-77 | The generation domain is what the rules leave, one after the other, where a rule that would leave nothing is passed over |
| GenerationLaws.PruningIsExact | templates/_shared/ax_space.py:34-77 | A value stays exactly if every rule spares it - because a dependent needs it, some assignment with it escapes the rule, or the rule does not name the parameter - or spares nothing that stays |
| Worker.Projection.ProjectRow | templates/_shared/optimizer_ax_worker.py:266-287 | One row: rejected exactly when a projected terminal observation changed; otherwise its client trial ends in the phase its status asks for |
| Worker.Projection.ProjectAll | templates/_shared/optimizer_ax_worker.py:263-287 | The projection succeeds exactly when no projected trial is missing and no terminal one changed. Each canonical row then has its own client trial, running if it is pending, finished with its outcome if it is completed, failed with its reason if it failed or timed out, abandoned if it was killed; and the outcomes the client is fitted to are exactly those of the completed rows |
| Batch.Generator.Consider | templates/_shared/optimizer_ax_worker.py:312-332 | A proposal that decodes becomes the next candidate exactly if it is feasible and not blocked; otherwise its violations, or a duplicate, are counted and its trial is abandoned |
| Batch.ReasonsAreCounted | templates/_shared/optimizer_ax_worker.py:319-324 | Each reason for a rejection is counted as often as it is given |
| Batch.SelectionIsExact | templates/_shared/optimizer_ax_worker.py:312-332 | Over any proposals the chosen points are exactly the feasible unblocked ones, each chosen once |
| Batch.Generator.Generate | templates/_shared/optimizer_ax_worker.py:299-332 | Generation ends in a complete batch, exhaustion, a lack of proposals or a bad proposal, each exactly when the proposals made hold that many new feasible points within the attempt budget; every request to the client asks for what is missing, within the attempts left |
| Request.RunRequest | templates/_shared/optimizer_ax_worker.py:263-345 | A request ends by a lost history, a changed terminal trial or as generation ends, each exactly when it should; success leaves client, mapping and signatures in step, keeps every earlier mapping entry, reports the candidates, attempts and reject counts of the proposals made, and meets every requirement of the controller's check |
| ProjectionRuns.EveryRunStaysInStep | templates/_shared/optimizer_ax_worker.py:263-345 | Over every run of accepted requests, failed requests, rebuilds, terminal results and imports, whatever the client answers, the mapping stays an injection from canonical trials into client trials in step with it; no request reports a lost history, and one reports a changed trial exactly if some row was signed with an integer where it has a float |
| ProjectionRuns.EveryFloatRunStaysProjectable | templates/_shared/optimizer_ax_worker.py:263-345 | Over every run whose accepted batches hold floats in their float columns, no request reports a lost or changed history |
| ProjectionRuns.EveryRequestLeavesPhase | templates/_shared/optimizer_ax_worker.py:263-345 | Right after each accepted request of a run, whatever the client answered, every canonical trial has its own client trial in the phase of its status, with its parameters as the decoder compares them - and exactly its parameters if the batch holds floats in its float columns |
| ProjectionRuns.RequestStep | templates/_shared/optimizer_ax_worker.py:251-345 | A successful request from the restored client is a step of such a run, and any request ends as the run theorems say |
| ProjectionRuns.RebuildStep | templates/_shared/optimizer_ax.py:956-1075 | A successful request from an empty client is a rebuild step, under a new configuration only if nothing is outstanding |
| ProjectionRuns.MappingOnlyGrows | templates/_shared/optimizer_ax_worker.py:263-345 | Over runs without a rebuild no mapped trial is dropped or moved |
| ProjectionRuns.HistoryCheckIsExact | templates/_shared/optimizer_ax_worker.py:263-287 | Whatever became of the rows since the last accepted request, the next one reports a lost history exactly if a row is gone, and otherwise a changed trial exactly if a row is neither as it was nor was pending with these parameters |
| ProjectionRuns.BatchStaysProjectableIffCanonical | templates/_shared/optimizer_ax.py:815-830 | After a committed batch the history can be projected again if and only if every candidate holds floats in its float columns |
| ProjectionRuns.CanonicalMeansFloats | templates/_shared/ax_space.py:273-292 | A candidate is the encoding of its own point if and only if no float column holds an integer |
| ProjectionRuns.LooseBatchBlocksTheNext | templates/_shared/optimizer_ax_worker.py:266-287 | After a batch with such an integer every request fails with a changed terminal trial |
| ProjectionRuns.LooseBatchIsAccepted | templates/_shared/optimizer_ax.py:797-861 | The input that shows it: one float parameter answered with the integer 1 passes every check |
| Request.CheckAnswer | templates/_shared/optimizer_ax.py:797-861 | The controller's loop accepts exactly the answers that meet every requirement, whoever produced them |
| Request.BlockedMeans | templates/_shared/optimizer_ax.py:812-816 | What may not be proposed again: the points of pending trials, and of all trials unless repeats are allowed |
| Request.WorkerBlockedMeans | templates/_shared/optimizer_ax_worker.py:295-299 | The same on the worker's side, by decoded points |
| Request.DistinctValues | templates/_shared/optimizer_ax.py:856-861 | As many mapped values as keys means that no two canonical trials share a client trial |
| Lease.Backend.TryAcquire | service/coordination.py:103-150 | The transaction takes the lease exactly when there is no row or the row expired by the time that was read |
| Lease.Backend.Release | service/coordination.py:152-168 | A release deletes the row only if it is the caller's own |
| Lease.Poll | service/coordination.py:171-200 | Polling ends with the first round that finds the campaign free, or with the first unsuccessful one at or after the deadline |
| Lease.PatienceIsTheWait | service/coordination.py:171-199 | A caller that may not wait tries once; any other goes on while less than its timeout, or the ttl without one, has passed |
| Lease.StepIsSafe | service/coordination.py:103-203 | Every step of every client keeps each unexpired lease the row of its campaign |
| Lease.StepsOfAClient | service/coordination.py:103-203 | Each step concerns one client: it reads the true clock, goes by what it read, takes the lease only in an attempt on a free campaign, and lets go of a row only when it leaves |
| Lease.MutualExclusion | service/coordination.py:103-203 | In every interleaving, with clocks read arbitrarily long before the transaction, at most one client holds an unexpired lease per campaign |
| Lease.TakeoverAfterExpiry | service/coordination.py:131-143 | A row changes owner only after it truly expired or its owner let go |
| Lease.LateReleaseIsHarmless | service/coordination.py:152-168 | A release after a takeover changes nothing |
| Lease.LeaseOutlastsWait | service/coordination.py:90-203 | In every run a holder has at least its wait plus the ttl, less the age of the time its transaction read, and until then its lease is unexpired, is the row of its campaign, and is the only one |
| Restore.BuildRestoreEntries | templates/_shared/archives.py:457-520 | Planning succeeds exactly for archives with no unknown and no repeated path and at least one restorable one, and plans exactly those |
| Restore.Restorer.Restore | templates/_shared/archives.py:565-617 | Success makes every target its archived copy; failure leaves exactly what the phase of the fault lets rollback bring back; nothing else is touched and both work areas are emptied |
| Restore.WhichFailuresLoseTargets | templates/_shared/archives.py:596-611 | A fault while removing or applying leaves every target as before; while staging it loses all existing targets; while backing up it loses exactly those not yet backed up |
| Restore.StagingCanLoseATarget | templates/_shared/archives.py:596-611 | The input that shows it: one existing target and a fault while staging |
| Events.ConsumeStarterEvents | client_harness_template/starterkit_events.py:136-184 | The reading loop computes the specified outcome |
| Events.TwoPieces | client_harness_template/starterkit_events.py:150-184 | Reading up to a line end and continuing from the cursor gives the events, numbers, offsets and errors of one pass |
| Events.PollingIsOnePass | client_harness_template/starterkit_events.py:136-184 | So does any number of polls cut at line ends |
| Events.FilterOnlyDrops | client_harness_template/starterkit_events.py:175-181 | A topic filter drops events and changes nothing else |
| Events.DeliveredExactly | client_harness_template/starterkit_events.py:150-184 | A reading delivers exactly the events of the lines it passes whose topic is wanted, each with its line number and end offset |
| Events.FailsAtTheFirstBrokenLine | client_harness_template/starterkit_events.py:155-172 | It fails exactly if some line does not parse, with the number of the first |
| Events.LineNumbersKeptIffCutAtLineEnd | client_harness_template/starterkit_events.py:155-184 | Reading up to a cut and going on keeps the line numbers of one pass if and only if the cut is between two lines or the truncated line does not parse; otherwise it raises if the remainder of the line does not parse, and counts one line more if it does |
| Events.CutBeforeNewlineCountsTwice | client_harness_template/starterkit_events.py:155-184 | The input that shows it: a cut just before the newline of a line |

## Left out

- Ax, BoTorch and Torch themselves, the subprocess and its JSON, and dependency versions: foreign code behind the abstract client.
- Rounding, overflow, NaN and signed zero of floating point: numbers are exact.
- Log-scaled parameters and the quality of random numbers; draws are parameters.
- Files, SQLite, flock, clocks and UUIDs: atomic steps, one row per campaign, a clock that never runs back, fresh identifiers.
- Log rows that are not JSON objects, torn lines written by other programs, and the manifest text.
- Snapshot files and the backups a rebuild preserves: whether the old snapshot is readable and matches its recorded configuration is part of the rebuild request.
- The legacy (non-Ax) optimizer path, reset, report and prune commands, and every other plan in the command-line program.
- Translation of linear rules into Ax constraint strings, and metric projection for the client.
- `omit_inactive_params`, whose single pass can leave a grandchild of a dropped controller, and `sample_feasible_candidates`.
- Messages, schema loading and per-field type checks.
- CampaignLimits.RebuildKeepsTrials: the state the rebuild reads is the state on disk; the caller's in-memory copy is not modelled separately.
- CampaignController.Controller.CommitAllocation: whether it raised is stated for a process that survives its first two writes, because a dead process reports nothing.
- Constraints.EvaluateConstraints: a linear rule over a parameter whose value is not a number is treated as not yet assigned, where the program would raise; such a point is in no domain.
- Events.ConsumeStarterEvents: what one line means is a parameter; decoding, JSON parsing and topic mapping are not modelled.
- Lease.Poll: a finite sequence of rounds stands for the environment; sleeping is not modelled.
- Restore.Restorer.Restore: one fault per restore, target paths disjoint, and rollback itself does not fail.
- Request.RunRequest: generation nodes are not modelled, and an outcome stands for all metrics a completed trial reports.
