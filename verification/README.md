# ELSPETH evaluation and CI machinery, in Dafny

This project models the algorithms and protocols that decide whether a pipeline built by the ELSPETH
composer is the right one, and whether the repository's own checks may be believed. What is stated
holds of the model for every input, every run and every reachable state.

The parts, each a module or a few:

- **Topology oracle** (`TopologyMatch`, `TopologyProjection`, `OptionValues`, with `Sorting`): a pipeline
  document is projected into a labelled graph, and two graphs are compared by a signature screen and a
  backtracking search. The search is a class that pushes and pops the partial mapping; the projection
  is the sequence of loops that index names and append edges, against a declarative edge count. The
  options of the nodes are gathered in a table per kind and plugin, on which a scenario makes assertions.
- **Test shards** (`ShardAssignment`, `ShardEvidence`, `ShardValidation`, `ShardCompleteness`):
  longest-first assignment with a heap, the manifests each producer writes, and the validator that
  re-derives the whole from them.
- **Process supervisor** (`Supervisor`) and **composer operation client** (`OperationProtocol`): step
  systems over their statements, with the child, the server, crashes and signals as nondeterministic
  events between any two steps.
- **Battery firing** (`FiringSchedule`): the class that fires canaries and rounds until the abort rule
  stops it.
- **Rate limiter** (`RateLimiter`): the sliding-window class against a count over the full history.
- **Evidence gate** (`ReportSections`, `EvidenceGate`): the Markdown section editor, the gate built on
  it and the structured findings beside a report, with a text as the list of its lines.
- **Run scorer** (`ToolEvents`, `PathScore`, `Exclusion`, `Judgement`): from captured messages to tool
  events, the one-pass scorer, the exclusion ladder, and the judgement, which compares the final
  pipeline with the expected one through the topology oracle.
- **Contract scanners and census** (`ClassLookup`, `WhitelistScan`, `Census`).
- **Acceptance oracle** (`Acceptance`, `Redaction`).

Loops and objects of the source are methods and classes here, each proved against a specification that
does not mention the loop; the properties are then lemmas about the specifications.

## Where the code and its promise differ

Each of these has a lemma with a concrete input and a lemma with the exact condition.

- The signature screen of the comparator sorts by a key that treats an absent plugin and an empty one
  alike, so two isomorphic graphs can be refused (`TopologyMatch.EmptyPluginBreaksTheScreen`). It is
  right exactly when the blank-plugin nodes line up (`TopologyMatch.ScreenPasses`), in particular
  always without empty plugins (`TopologyMatch.MatchesIsIsomorphism`).
- `None` is as reserved a name as `discard` and `fork`, because the projection spells nulls with `str`: a
  renaming that moves it changes a projection (`TopologyProjection.NullNameMustBeFixed`). The renamings
  that change no projection are exactly the injective ones that keep the three words
  (`TopologyProjection.RenamingIff`); for one document without a null name it is enough to keep the
  other two (`TopologyProjection.RenamingInvariance`, a sufficient condition).
- The option table promises that a `condition_literal` assertion sees the numbers of all nodes under its
  key, but an option called `condition_literals` overwrites them (`OptionValues.OptionHidesNumber`). The
  promise is kept exactly when such an option hides no number and adds none (`OptionValues.SeesAllIff`).
- Two honest shards of one test are refused (`ShardCompleteness.OneTestTwoShards`). Honest producers are
  accepted exactly when there are at least as many ordinary tests as shards
  (`ShardCompleteness.HonestAcceptedIff`).
- A clean run can hold a rejected `wire_blob_inline_ref` call (`Judgement.RejectedBindingIsClean`, a whole
  capture). No mutation is refused in a clean run exactly when no such call is (`Judgement.CleanMutations`).
- The scanner can produce the form `MutableMapping[str, object]` (`Census.EveryFormArises`), which the
  totals leave out and the loader refuses (`Census.StrayIsLost`). Score and boundary make up all sites,
  and a fresh pin loads, exactly when no site has that form (`Census.ScoreCoversSites`,
  `Census.PinRoundTrip`).
- The redactor returns tuples as they are while the scan enters them (`Redaction.TupleReturnedAsIs`).
  Redacted output passes exactly when the tuples it met do (`Redaction.RedactPasses`), so always on JSON
  (`Redaction.RedactionOfJson`).

## Model

| member | source | states |
|---|---|---|
| `Sorting.SortSorts` | evals/lib/battery_topology.py:163-164 | the sort used by the screens gives a sorted list for every total preorder |
| `Sorting.SortIsStable` | evals/lib/battery_topology.py:163-164 | elements with equal keys keep their order, as Python's sort promises |
| `Sorting.SortedIsUnique` | evals/lib/battery_topology.py:149-150 | a sorted list with given elements and given order among peers is unique |
| `Sorting.SortComparesMultisets` | evals/lib/battery_topology.py:149-150 | under a total order two sorted lists are equal exactly when the multisets are |
| `TopologyMatch.SigOrder` | evals/lib/battery_topology.py:236-237 | the signature key orders totally, and ties exactly nodes that agree up to absent versus empty plugin |
| `TopologyMatch.MapEdgesPreimage` | evals/lib/battery_topology.py:149-150 | renumbering by a bijection moves each edge's multiplicity to its image and to nothing else |
| `TopologyMatch.MatchesReflexive` | evals/lib/battery_topology.py:153-211 | every in-range topology matches itself |
| `TopologyMatch.MatchesSymmetric` | evals/lib/battery_topology.py:153-211 | matching is symmetric |
| `TopologyMatch.MatchesTransitive` | evals/lib/battery_topology.py:153-211 | matching is transitive |
| `TopologyMatch.ScreenPasses` | evals/lib/battery_topology.py:163-168 | for isomorphic topologies the signature screen passes exactly when the blank-plugin nodes line up |
| `TopologyMatch.MatchesIsIsomorphism` | evals/lib/battery_topology.py:153-211 | without empty plugins, matching is exactly the existence of a signature-preserving bijection carrying the edge multiset over |
| `TopologyMatch.EmptyPluginBreaksTheScreen` | evals/lib/battery_topology.py:236-237 | two isomorphic topologies the comparator refuses |
| `TopologyMatch.VerdictBySearch` | evals/lib/battery_topology.py:161-195 | the verdict is the screen and the search: isomorphic exactly when the empty mapping is not a dead end |
| `TopologyMatch.Invert` | evals/lib/battery_topology.py:188-192 | computes the inverse of any bijection |
| `TopologyMatch.Search.constructor` | evals/lib/battery_topology.py:174-194 | the search starts from the empty mapping with nothing used |
| `TopologyMatch.Search.Extend` | evals/lib/battery_topology.py:174-186 | finds a full correspondence extending the mapping, or restores mapping and used set and shows none exists, or raises on an edge outside the list; where edges are outside and it does not raise, no full mapping extends this one |
| `TopologyMatch.Search.Branch` | evals/lib/battery_topology.py:177-186 | trying every candidate in turn has one of the same three outcomes |
| `TopologyMatch.Search.ExtendWith` | evals/lib/battery_topology.py:177-185 | trying one candidate finds a correspondence, or restores the state and rules that candidate out, or raises |
| `TopologyMatch.Search.EdgesReproduced` | evals/lib/battery_topology.py:175-176 | a full mapping is accepted exactly when it carries the edge multiset over, refusal rules it out, and it raises exactly when an edge is outside the list |
| `TopologyMatch.FirstDifference` | evals/lib/battery_topology.py:165-168 | finds the first position at which two sorted signature lists differ |
| `TopologyMatch.NotStuck` | evals/lib/battery_topology.py:163-172 | where the sorted signatures agree, some full mapping exists, so the search reaches a leaf |
| `TopologyMatch.TopologiesMatch` | evals/lib/battery_topology.py:153-195 | for any two topologies, with edges read as list indices: answers match exactly when they match, raises exactly when the signatures agree and an edge is outside the list, and names the node count exactly when the counts differ |
| `TopologyProjection.ExtrasExact` | evals/lib/battery_topology.py:66-78 | two nodes have equal extras exactly when policy, merge and the three fan sizes agree |
| `TopologyProjection.ProjectionInRange` | evals/lib/battery_topology.py:81-146 | every edge of a projection joins two of its nodes |
| `TopologyProjection.ProjectionUnique` | evals/lib/battery_topology.py:81-146 | nodes and edge counts determine the projection |
| `TopologyProjection.RenamingInvariance` | evals/lib/battery_topology.py:81-146 | on one document, keeping `discard`, `fork` and, with null names, `None`, is enough for an injective renaming to have exactly the same projection |
| `TopologyProjection.RenamingIff` | evals/lib/battery_topology.py:81-146 | the renamings that leave the projection of every document unchanged are exactly the injective ones that keep `discard`, `fork` and `None` |
| `TopologyProjection.NullNameMustBeFixed` | evals/lib/battery_topology.py:94-124 | every renaming that moves `None` takes away the edge from a source to an output without a name |
| `TopologyProjection.OrderInvariance` | evals/lib/battery_topology.py:81-146 | reordering nodes and outputs with unique names gives an isomorphic topology, matched without empty plugins |
| `TopologyProjection.TargetsAreWhereItLeads` | evals/lib/battery_topology.py:117-124 | the targets of a connection are, once each, the nodes it leads to |
| `TopologyProjection.ProjectNodes` | evals/lib/battery_topology.py:88-93 | the source node followed by every node's projection |
| `TopologyProjection.ProjectOutputs` | evals/lib/battery_topology.py:94-98 | the outputs follow the nodes, and each name is indexed by its last output |
| `TopologyProjection.IndexProducers` | evals/lib/battery_topology.py:104 | a producer name stands for exactly the last node with that id |
| `TopologyProjection.IndexConsumers` | evals/lib/battery_topology.py:105-115 | a connection lists exactly the nodes that consume it |
| `TopologyProjection.AppendLinks` | evals/lib/battery_topology.py:126-145 | adds one edge for each place each connection leads to, and no other |
| `TopologyProjection.AppendFed` | evals/lib/battery_topology.py:130-131 | adds the edge of a node fed by another node's id, and only when it is |
| `TopologyProjection.TopologyFromPipeline` | evals/lib/battery_topology.py:81-146 | the computed graph has the projected nodes and, sorted, exactly the counted edges |
| `OptionValues.AscendingUnique` | evals/lib/battery_topology.py:240-259 | the listed numbers are determined by which they are |
| `OptionValues.Merged` | evals/lib/battery_topology.py:256-258 | the sorted union of what was listed and a node's numbers |
| `OptionValues.CountUnder` | evals/lib/battery_topology.py:252-258 | counting one node under one key leaves the entries of every other key and name as they must be, and fails exactly where the numbers meet an option of their name that cannot be merged |
| `OptionValues.CountNode` | evals/lib/battery_topology.py:248-258 | one node under its kind and its plugin, even when they are the same word |
| `OptionValues.ObservedOptionValues` | evals/lib/battery_topology.py:240-259 | the table holds, under each key and name, the last value set or the numbers not forgotten; it raises exactly where numbers and an option of their name clash |
| `OptionValues.HoldsIff` | evals/lib/battery_topology.py:196-210 | an assertion holds of the table exactly when it holds of the nodes |
| `OptionValues.MatchWithOptions` | evals/lib/battery_topology.py:153-211 | matches exactly when the graphs match and every assertion holds, and names the first that fails exactly when the graphs match and one fails |
| `OptionValues.OptionHolds` | evals/lib/battery_topology.py:208-210 | an option assertion holds exactly when the last node under the key to set the option gave that value |
| `OptionValues.LiteralHolds` | evals/lib/battery_topology.py:198-207 | a number assertion holds exactly when a node since the last option of the numbers' name has the number, or that option lists it |
| `OptionValues.SameOptionsHold` | evals/lib/battery_topology.py:240-259 | what nodes are called and how they are connected does not matter to any assertion |
| `OptionValues.OrderOfOptions` | evals/lib/battery_topology.py:240-259 | the order of the nodes does not matter to an assertion where nodes under its key agree and none sets the numbers by hand |
| `OptionValues.SeesAllIff` | evals/lib/battery_topology.py:240-246 | assertions see the numbers of all nodes under a key, and no others, exactly when an option of their name hides none and adds none |
| `OptionValues.OptionHidesNumber` | evals/lib/battery_topology.py:240-259 | two gates, of which the second's option hides the number of the first |
| `ShardAssignment.GreedyUnique` | scripts/ci_test_shards.py:88-99 | longest-first placement is determined by the weights in order |
| `ShardAssignment.LongJobFits` | scripts/ci_test_shards.py:88-99 | a job longer than a third of a rival's makespan keeps the greedy load within that makespan |
| `ShardAssignment.GrahamBound` | scripts/ci_test_shards.py:88-99 | 3m times any greedy load is at most (4m - 1) times any rival's makespan |
| `ShardAssignment.EveryShardUsed` | scripts/ci_test_shards.py:81-99 | with positive weights and enough jobs every shard receives one |
| `ShardAssignment.AssignmentIgnoresOrder` | scripts/ci_test_shards.py:88-99 | reordered ids get the same assignment |
| `ShardAssignment.AssignmentUsesEveryShard` | scripts/ci_test_shards.py:88-99 | at least as many tests as shards leave no shard empty |
| `ShardAssignment.AssignmentNearOptimal` | scripts/ci_test_shards.py:88-99 | 3 count times any shard's load is at most (4 count - 1) times the makespan of any other assignment |
| `ShardAssignment.HeapStep` | scripts/ci_test_shards.py:96-98 | replacing the least entry keeps the heap equal to the loads of the placement so far |
| `ShardAssignment.PlaceAll` | scripts/ci_test_shards.py:92-98 | the heap loop yields the greedy placement |
| `ShardAssignment.OrdinaryAssignment` | scripts/ci_test_shards.py:88-99 | refuses a count below one or repeated ids, and otherwise returns the longest-first assignment |
| `ShardEvidence.SelectNodeids` | scripts/ci_test_shards.py:102-137 | succeeds exactly on a well-formed request and collection, and then selects the producer's part |
| `ShardEvidence.CheckCollection` | scripts/ci_test_shards.py:124-129 | passes exactly collections without repetition whose marked tests are the catalog cases |
| `ShardEvidence.SelectShard` | scripts/ci_test_shards.py:135-137 | the ordinary ids the assignment gives to the shard, in collection order |
| `ShardEvidence.BuildManifest` | scripts/ci_test_shards.py:159-183 | building succeeds exactly when the selection does and the job has the producer's role, and the manifest carries the host's identity, the selection and the digest of the collection |
| `ShardEvidence.CallResultsMeaning` | scripts/ci_test_shards.py:186-194 | the folded call result is true exactly when the one call report was the good call, none without a call |
| `ShardEvidence.GreenProofMeansOneCall` | scripts/ci_test_shards.py:197-241 | a proof manifest finalised with status 0 had exactly one call of its case, and it passed unmarked |
| `ShardValidation.NewestDecides` | scripts/ci_test_shards.py:474-500 | the verdict depends only on each producer's newest attempt |
| `ShardValidation.RanOnce` | scripts/ci_test_shards.py:544-549 | without repetition in the union each id ran in exactly one producer, once |
| `ShardValidation.OneCollection` | scripts/ci_test_shards.py:540-549 | with an injective digest every accepted producer saw the union as its collection |
| `ShardValidation.AcceptedIsPartitioned` | scripts/ci_test_shards.py:523-539 | ordinary producers ran no case, and each proof producer ran its case alone |
| `ShardValidation.ShardsFollowAssignment` | scripts/ci_test_shards.py:550-552 | each ordinary test ran in the shard the assignment of the collection names |
| `ShardValidation.Soundness` | scripts/ci_test_shards.py:474-552 | acceptance means every collected test ran in exactly one producer, where the assignment puts it |
| `ShardValidation.TabulateCandidates` | scripts/ci_test_shards.py:474-490 | succeeds exactly on well-named artifacts without a repeated attempt, and tabulates them |
| `ShardValidation.Newest` | scripts/ci_test_shards.py:499-500 | picks the highest attempt |
| `ShardValidation.ChooseOne` | scripts/ci_test_shards.py:496-547 | the one newest artifact of a producer with nothing wrong with it, or nothing can be accepted |
| `ShardValidation.ChooseNewest` | scripts/ci_test_shards.py:496-547 | chooses each producer's newest artifact, or fails only when nothing can be accepted |
| `ShardValidation.CheckUnion` | scripts/ci_test_shards.py:548-552 | passes exactly unions of one collection, without repetition, with all cases, placed by the assignment |
| `ShardValidation.ValidateShards` | scripts/ci_test_shards.py:449-555 | accepts exactly when some choice of newest artifacts meets every requirement, and returns it |
| `ShardCompleteness.ProducedIsGreen` | scripts/ci_test_shards.py:159-241 | a manifest built from a reordering of the collection and finalised with status 0 passes its own checks |
| `ShardCompleteness.UnionIsCollection` | scripts/ci_test_shards.py:544-549 | the parts of honest producers make up the collection, each test once |
| `ShardCompleteness.Completeness` | scripts/ci_test_shards.py:449-555 | honest producers over reorderings of one collection with at least as many ordinary tests as shards are accepted |
| `ShardCompleteness.AcceptanceNeedsEnoughTests` | scripts/ci_test_shards.py:523-531 | with an injective digest any accepted set has at least as many ordinary tests as shards, honest or not |
| `ShardCompleteness.HonestAcceptedIff` | scripts/ci_test_shards.py:449-555 | honest producers are accepted exactly when there are at least as many ordinary tests as shards, whatever the digest |
| `ShardCompleteness.OneTestTwoShards` | scripts/ci_test_shards.py:523-531 | for every catalog of cases, two honest shards of one more test, which are refused |
| `Supervisor.SafeStep` | scripts/ci_proof_progress.py:53-200 | every step, with signals anywhere, keeps the safety invariant |
| `Supervisor.GreenReportsAreTrue` | scripts/ci_proof_progress.py:41-50 | in every run a surviving report with status 0, or a returned 0, means the child exited 0, its group was dead, and nothing else was seen; an exceptional exit leaves no report |
| `Supervisor.TroubleStays` | scripts/ci_proof_progress.py:91-144 | an outcome that has left running for trouble never becomes success, nor the return 0 |
| `Supervisor.KillEscalation` | scripts/ci_proof_progress.py:130-143 | the loop sends at most two signals, SIGKILL only second and at least one grace period later |
| `Supervisor.LoopIsBounded` | scripts/ci_proof_progress.py:91-144 | the loop's clock stays below start + timeout + 2 grace + 3 steps, which bounds its polls |
| `OperationProtocol.InvStep` | evals/composer-battery/drive_battery.py:360-465 | every client statement, server answer, loss and crash keeps the protocol invariant |
| `OperationProtocol.OneAction` | evals/composer-battery/drive_battery.py:360-465 | over every interleaving all messages sent for a run directory are the same request, admit at most one operation, and are never repeated blindly |
| `OperationProtocol.CompleteMeansTerminal` | evals/composer-battery/drive_battery.py:232-249 | a directory that counts as complete after a send holds a terminal the server served |
| `OperationProtocol.RequestIsForever` | evals/composer-battery/drive_battery.py:360-420 | a persisted request never changes, across crashes and resumes |
| `FiringSchedule.FiredLengthUnique` | evals/composer-battery/drive_battery.py:225-229 | the stopping length of a firing is unique |
| `FiringSchedule.Battery.constructor` | evals/composer-battery/drive_battery.py:256-296 | a new battery has completed nothing and is not aborted |
| `FiringSchedule.Battery.RunOne` | evals/composer-battery/drive_battery.py:786-794 | records one run and stops exactly on the third instrument verdict in a row |
| `FiringSchedule.Battery.FireCanaries` | evals/composer-battery/drive_battery.py:784-794 | the canaries run in order until the rule stops them |
| `FiringSchedule.Battery.FireRound` | evals/composer-battery/drive_battery.py:805-823 | one round runs every case in order until the rule stops it |
| `FiringSchedule.Battery.FireCorpus` | evals/composer-battery/drive_battery.py:801-823 | the rounds follow, the streak counted across the seam |
| `FiringSchedule.Battery.Fire` | evals/composer-battery/drive_battery.py:768-825 | the runs recorded are the shortest prefix of the schedule ending in three instrument verdicts, or all of it; aborted exactly in the first case |
| `RateLimiter.GrantsAreSpaced` | scripts/codex_audit_common.py:251-290 | any grant comes at least one period after the grant `max_calls` before it |
| `RateLimiter.LiveAtMostMax` | scripts/codex_audit_common.py:251-290 | no window of one period holds more than `max_calls` grants |
| `RateLimiter.CountIsUnexpired` | scripts/codex_audit_common.py:288-290 | what is left after dropping expired grants is the number of live ones |
| `RateLimiter.PopsAgree` | scripts/codex_audit_common.py:288-290 | dropping earlier and again later equals dropping once |
| `RateLimiter.SlotFrees` | scripts/codex_audit_common.py:280-284 | a full window frees a place exactly when its oldest grant is one period old |
| `RateLimiter.WaitingSuffices` | scripts/codex_audit_common.py:280-286 | after the announced wait, with only refusals in between, the next check is granted |
| `RateLimiter.AsyncRequestRateLimiter.constructor` | scripts/codex_audit_common.py:254-272 | a new limiter has an empty history |
| `RateLimiter.MakeLimiter` | scripts/codex_audit_common.py:254-272 | construction fails exactly on a call count below one or a period that is not positive |
| `RateLimiter.AsyncRequestRateLimiter.Check` | scripts/codex_audit_common.py:274-286 | grants exactly when the full history has fewer than `max_calls` live grants, and otherwise returns the wait |
| `RateLimiter.AsyncRequestRateLimiter.DiscardExpired` | scripts/codex_audit_common.py:288-290 | keeps exactly the unexpired grants |
| `ReportSections.ExtractSection` | scripts/codex_audit_common.py:439-456 | returns the stripped body of the first section of that name |
| `ReportSections.ReplaceSection` | scripts/codex_audit_common.py:459-479 | exchanges the body of every section of that name and trims the end |
| `ReportSections.RewrittenSections` | scripts/codex_audit_common.py:439-479 | before any stripping, a rewritten section holds the new lines and the others are unchanged |
| `ReportSections.ReadBack` | scripts/codex_audit_common.py:439-479 | on every text, a replaced section that is present reads back as the new lines, and every other section as before |
| `ReportSections.RewriteTwice` | scripts/codex_audit_common.py:459-479 | rewriting a section twice is rewriting it once |
| `ReportSections.RewritesCommute` | scripts/codex_audit_common.py:459-479 | rewriting two different sections commutes |
| `EvidenceGate.GateEffect` | scripts/codex_audit_common.py:536-565 | what each section of a gated report reads as, for every score, and that a report is counted exactly when its score is 0 or 1 |
| `EvidenceGate.GateReportTwice` | scripts/codex_audit_common.py:536-565 | gating a gated report changes nothing and counts it again |
| `EvidenceGate.MinorIsNotUrgent` | scripts/codex_audit_common.py:555-563 | the minor downgrade names no P0 or P1, so it is not downgraded again |
| `EvidenceGate.SplitJoin` | scripts/codex_audit_common.py:518-527 | splitting a joined list of reports gives the list back |
| `EvidenceGate.FileRoundTrip` | scripts/codex_audit_common.py:517-569 | a file written by the gate reads back as the reports it wrote, the empty file included |
| `EvidenceGate.GateFileTwice` | scripts/codex_audit_common.py:507-572 | a second pass leaves every file as it is and counts the same reports |
| `EvidenceGate.RerankFindings` | scripts/codex_audit_common.py:358-392 | writes each downgrade into its finding, leaves the others, and fails exactly on a downgraded finding that is no object |
| `EvidenceGate.RankOfReport` | scripts/codex_audit_common.py:530-563 | the downgrade listed for a position is that of the report there |
| `EvidenceGate.PassTwice` | scripts/codex_audit_common.py:507-572 | a second pass over what the first one wrote changes neither the file nor the structured findings, does not fail, and counts the same reports |
| `EvidenceGate.SplitReports` | scripts/codex_audit_common.py:518-527 | the split loop gives the stripped pieces between separator lines |
| `EvidenceGate.GateOne` | scripts/codex_audit_common.py:536-565 | the gate of one report, section by section |
| `EvidenceGate.ApplyEvidenceGate` | scripts/codex_audit_common.py:507-572 | writes the gated file, counts the gated reports, and aligns each finding with its report's downgrade |
| `ToolEvents.ToolOutcomes` | evals/lib/battery_capture.py:295-344 | a call id with one row has that row's outcome, a shared id is unknown, and no other id is listed |
| `ToolEvents.CallEvent` | evals/lib/battery_score.py:386-410 | without a row that can only be this call's the event is unknown, with one it is classified by it |
| `ToolEvents.Events` | evals/lib/battery_score.py:373-410 | one event per call in call order, each classified as it must be and numbered by the tool-bearing rows up to its turn |
| `ToolEvents.AppliedIffGrounded` | evals/lib/battery_score.py:373-410 | an event is applied exactly when a row shows the mutation applied, its id unique among calls and rows, parented to its turn and later than it |
| `ToolEvents.RefusedIffGrounded` | evals/lib/battery_score.py:373-410 | an event is rejected, failed or cancelled exactly when a row that can only be its call's reports just that |
| `PathScore.Charge` | evals/lib/battery_score.py:473-540 | one event is charged exactly what its definition says, and updates the flags |
| `PathScore.ChargeAttempt` | evals/lib/battery_score.py:512-540 | an attempted mutation closes the open refusal as a repair and is charged as backtrack or fumble by definition |
| `PathScore.TracksNext` | evals/lib/battery_score.py:468-540 | the running flags keep meaning what the timeline so far says |
| `PathScore.ScoreSteps` | evals/lib/battery_score.py:466-553 | the pass charges exactly the declared deviations, in order and with the event and codes each is about, and counts applied, parked and unknown mutations |
| `PathScore.RepairedOrAbandoned` | evals/lib/battery_score.py:512-553 | refused pipeline mutations are as many as repairs plus abandoned ones, and at most one is abandoned |
| `Exclusion.MeasuredIff` | evals/lib/battery_score.py:593-622 | a run is measured exactly when it was read cleanly, looped with a tool-bearing call, recovered from transport failures, ended, and has no undecided mutation |
| `Exclusion.InstrumentIff` | evals/lib/battery_score.py:68-110 | the exclusion is an instrument kind exactly for a fault of the harness, never for a product finding |
| `Judgement.ScorePath` | evals/lib/battery_score.py:425-647 | the sorted ledger holds exactly the timeline's, the calls', the terminal and the passivity deviations, and the exclusion is the ladder's |
| `Judgement.LedgerOrder` | evals/lib/battery_score.py:591 | the ledger sorts by a total preorder of span and class name |
| `Judgement.JudgePath` | evals/lib/battery_score.py:702-753 | the verdict, with the shape wrong exactly when a valid final state has a graph that does not match or an assertion that fails; it raises exactly when the options of such a state cannot be tabulated |
| `Judgement.ScoreRun` | evals/lib/battery_score.py:788-789 | from turns and rows to the timeline, the score and the verdict, if any, which is clean exactly on the listed conditions |
| `Judgement.RenamedShape` | evals/lib/battery_score.py:709-717 | renaming ids and connections leaves the verdict on the shape as it is, assertions included |
| `Judgement.ReorderedShape` | evals/lib/battery_score.py:709-717 | so does reordering nodes and outputs, with unique names, no empty plugin expected, and options that agree where they are asserted |
| `Judgement.SpotlessIff` | evals/lib/battery_score.py:466-553 | nothing is charged and nothing undecided exactly when every event is spotless by itself |
| `Judgement.EmptyLedgerIff` | evals/lib/battery_score.py:465-591 | the ledger of a valid run is empty and nothing undecided exactly when every event is spotless, a mutation landed and no call was retried or garbled |
| `Judgement.CleanIff` | evals/lib/battery_score.py:702-753 | a run is judged clean exactly when its events, calls, final pipeline and facts meet the listed conditions |
| `Judgement.OptimalIff` | evals/lib/battery_score.py:702-754 | optimal runs are the clean ones not below the floor, clean runs are green and without excess, and what makes a run red |
| `Judgement.CleanMutations` | evals/lib/battery_score.py:702-753 | a clean run has an applied pipeline mutation, refused mutations only among blob bindings, and between one and the floor's number of tool-bearing calls |
| `Judgement.CleanRunIsGrounded` | evals/lib/battery_score.py:373-410 | in a clean run some call is a pipeline mutation, every such call has a row of its own that shows it applied, and a blob binding has one that shows it applied or reports its refusal |
| `Judgement.RejectedBindingIsClean` | evals/lib/battery_score.py:508-509 | a capture of a schema read, an applied pipeline and a rejected blob binding, whose timeline meets the conditions of a clean run under all criteria |
| `ClassLookup.WalkMeets` | scripts/check_contracts.py:458-461 | a breadth-first walk meets a node exactly when it occurs in the tree |
| `ClassLookup.LastIsNearest` | scripts/check_contracts.py:456-461 | the last class of the walk that holds a node is its nearest enclosing class |
| `ClassLookup.ParentMapLookup` | scripts/check_contracts.py:516-520 | below the root the map gives the parent of every identity that occurs once |
| `ClassLookup.MapFollowsPath` | scripts/check_contracts.py:516-533 | the map leads from each node of the path to the one above, and from the root nowhere |
| `ClassLookup.BuildParentMap` | scripts/check_contracts.py:516-520 | the loops build the parent map of the walk |
| `ClassLookup.ClimbToClass` | scripts/check_contracts.py:526-533 | climbing the map ends at the nearest enclosing class, shared leaves notwithstanding |
| `ClassLookup.SearchClass` | scripts/check_contracts.py:456-461 | the nested walks find the last class that holds the node |
| `ClassLookup.WalkFinds` | scripts/check_contracts.py:458-461 | the inner walk answers exactly whether the node is in the class |
| `WhitelistScan.FindDictPatterns` | scripts/check_contracts.py:430-490 | lists every dict-typed site under the name of its nearest class |
| `WhitelistScan.FindDictViolations` | scripts/check_contracts.py:493-609 | with the parent map: reports the same sites under the same names unless whitelisted, and marks exactly the rows that name one |
| `WhitelistScan.PatternShape` | scripts/check_contracts.py:468-490 | every pattern has three parts, the first of them its file |
| `WhitelistScan.MatchedIsValid` | scripts/check_contracts.py:831-837 | a row matched while scanning passes validation, and a valid row of a scanned file was matched |
| `WhitelistScan.ScanFiles` | scripts/check_contracts.py:1832-1861 | the matched rows are exactly the whitelist rows some scanned file has among its patterns |
| `WhitelistScan.ValidateRow` | scripts/check_contracts.py:810-837 | a row is valid exactly when the file it names has it among its patterns |
| `WhitelistScan.FindStaleEntries` | scripts/check_contracts.py:854-882 | the stale rows are exactly the invalid ones, and none of them was matched |
| `Census.TabulatedCells` | scripts/check_contracts.py:1642-1649 | each cell counts its sites, and no zero cell is listed |
| `Census.TabulateCensus` | scripts/check_contracts.py:1642-1649 | the loop tabulates all sites |
| `Census.ColumnSums` | scripts/check_contracts.py:1652-1658 | adding up the rows in any order gives each column's total |
| `Census.CensusTotals` | scripts/check_contracts.py:1652-1663 | the score, the boundary count and one count per listed form |
| `Census.TabulatedTotal` | scripts/check_contracts.py:1642-1663 | the totals of a tabulated table count the sites of each column |
| `Census.FormIsSpelled` | scripts/check_contracts.py:1523-1548 | a form is recognised exactly where its container, string keys and value are spelled out, or an alias stands for it |
| `Census.EveryFormArises` | scripts/check_contracts.py:1532-1548 | each of the six forms comes from some annotation |
| `Census.ScoreCoversSites` | scripts/check_contracts.py:1453-1459 | score plus boundary plus strays is the number of sites, so the first two are all exactly without strays |
| `Census.NoDriftMeansLiveTotals` | scripts/check_contracts.py:1666-1689 | without drift the stored totals are the live totals, whatever rows the pin lists |
| `Census.CompareCensus` | scripts/check_contracts.py:1666-1689 | lists every disagreement of cells or totals and nothing else, and is empty exactly without drift |
| `Census.LoadCensus` | scripts/check_contracts.py:1715-1742 | returns the table and totals whose writing was read, refusing exactly unknown columns, negative counts and values that are no integers |
| `Census.PinRoundTrip` | scripts/check_contracts.py:1692-1742 | a fresh pin can be loaded exactly when no site is a stray, and then shows no drift |
| `Census.WriteTableInjective` | scripts/check_contracts.py:1692-1697 | different tables are written differently |
| `Census.StrayIsLost` | scripts/check_contracts.py:1652-1663 | one stray site, which score and boundary miss and whose pin cannot be loaded |
| `Common.Pigeonhole` | evals/composer-parity/live_acceptance.py:679-688 | a list has as many elements as places exactly when none repeats |
| `Acceptance.CheckIdentities` | evals/composer-parity/live_acceptance.py:679-688 | passes exactly ten different identities |
| `Acceptance.CheckRow` | evals/composer-parity/live_acceptance.py:705-745 | passes exactly rows with the approved eight fields and values in range |
| `Acceptance.CheckRows` | evals/composer-parity/live_acceptance.py:702-756 | passes exactly well-formed rows with each known identity once |
| `Acceptance.CheckAccounting` | evals/composer-parity/live_acceptance.py:768-785 | passes exactly closed accounts with the expected counts and twenty calls |
| `Acceptance.CheckBranches` | evals/composer-parity/live_acceptance.py:573-620 | passes exactly two branches, one blue and one red, whose calls cover every identity each and belong to no other node |
| `Acceptance.CheckBusinessOutput` | evals/composer-parity/live_acceptance.py:691-756 | passes exactly well-formed rows whose identities are the input identities in some order |
| `Acceptance.ExactCover` | evals/composer-parity/live_acceptance.py:573-620 | the branch check with twenty calls holds exactly when the calls are each pair of branch and identity, once |
| `Acceptance.Accept` | evals/composer-parity/live_acceptance.py:816-825 | passes exactly when all the checks hold |
| `Acceptance.AcceptedIsExact` | evals/composer-parity/live_acceptance.py:816-825 | accepted evidence is exactly one call per pair and the input rows in some order |
| `Acceptance.OneCallPerPair` | evals/composer-parity/live_acceptance.py:768-776 | each pair of branch and input row has one call and only one |
| `Redaction.RedactPasses` | evals/composer-parity/live_acceptance.py:322-361 | redacted output passes the scan exactly when the tuples it met do |
| `Redaction.FieldsKept` | evals/composer-parity/live_acceptance.py:350-356 | the fields of a redacted object are the redactions of those with a plain key, and no others |
| `Redaction.UnchangedIffPasses` | evals/composer-parity/live_acceptance.py:322-361 | a value passes exactly when its tuples do and redaction leaves it unchanged |
| `Redaction.RedactionOfJson` | evals/composer-parity/live_acceptance.py:322-361 | on JSON the output passes, redaction is idempotent, and only failing input changes |
| `Redaction.TupleReturnedAsIs` | evals/composer-parity/live_acceptance.py:312-361 | a tuple with a matching text is returned as it is and fails the scan |

## Left out

- OptionValues.ObservedOptionValues: a node arrives with the numeric literals of its condition, and a text with the number `float` reads from it, both as exact reals; infinities and not-a-number are no numbers here.
- Document values of the projection are optional strings; other JSON types reach it only through `str`.
- TopologyMatch.TopologiesMatch: the text of a mismatch reason is a tag.
- ShardAssignment.PlaceAll: the heap is the set of its (load, shard) entries, popped at the least; the array layout of `heapq` is not modelled.
- ShardValidation.ValidateShards: artifact names arrive split into producer and attempt, and a coverage database is a yes or no.
- The duration profile's file format, the pytest plugin hooks and the older per-hash sharding.
- Supervisor.LoopIsBounded: the time between two clock readings of the loop is bounded by parameters; `prctl`, `wait4` and `/proc` appear only as their outcomes.
- OperationProtocol.OneAction: HTTP, authentication, polling deadlines and the content of messages are nondeterministic inputs; the rest of a prompt's run after the operation ends is not modelled.
- The flags and the 15% instrument share that a firing reports, and resuming from earlier runs.
- RateLimiter.AsyncRequestRateLimiter.Check: one pass of the locked section of `acquire` is atomic, as the lock makes it; the sleeping in between and the scheduler are callers of it.
- Regular expressions: the evidence score, word characters and the two redaction patterns are arbitrary functions; only that the mask itself is not sensitive is taken as given.
- EvidenceGate.ApplyEvidenceGate: JSON text of the findings, and skipping the write when nothing changed; the summary prefix is a single line.
- ToolEvents.Events: JSON parsing of messages.
- PathScore.ScoreSteps: tool names arrive classified by registry, and a deviation holds the event it is about, from which tool, digest and ordinal are read off.
- Judgement.ScorePath: the texts of exclusion evidence and of a wrong shape, tokens, cost and wall time; a capture that cannot be read at all has no facts to score.
- The scanning of annotations for dict forms, aliases and imports in `scripts/check_contracts.py`: a function arrives with its dict-typed slots, a census site with its form.
- WhitelistScan.ValidateRow: the different error messages are one verdict.
- WhitelistScan.FindStaleEntries: type entries, and the reason given for a stale row.
- Census.LoadCensus: YAML text, and blocks that are no mappings.
- Acceptance.CheckRow: the leakage check, which only names a more specific error for a field outside the approved eight.
- Acceptance.Accept: the merge, error-route, field-contract, provider and authoring checks, which are conjuncts over single records.
- The settings alignment checks, the report index and the summary writers.
