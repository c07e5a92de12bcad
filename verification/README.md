# Verified model of the Hyperindex impact engine

Hyperindex answers "what is affected if this symbol or file changes?". This project models the parts of it that decide
the answer, and proves what the answer means.

* **The bounded traversal** of the impact engine: a first-in-first-out, label-correcting search over symbols and files.
  Frames carry a certainty tier, a depth, a score and an evidence path; a node's best frame is replaced whenever a
  strictly better one appears, beaten frames are dropped when popped, and a depth cap and three budgets can stop the run.
  The order of frames is not preserved by extending them, so a node may be expanded again, and a beaten frame may be lost.
* **The steps** that the enrichment maps give at a node, per change scenario, and the **ranking, grouping and counting** of
  the resulting hits.
* **The persisted build cache** of the daemon: rows keyed by snapshot, validity by schema version and config digest,
  corruption fallback, and incremental refresh from an earlier snapshot.
* **The working-tree status** parsed from Git's Porcelain Format Version 1 (the section of that name in the git-status
  documentation).

## How the files fit together

| file | content |
|---|---|
| `Ordering.dfy` | text order, stable sort, dedup, canonical lists |
| `ImpactModel.dfy` | entities, keys, evidence, frames, candidates and every comparison between them |
| `CandidateFold.dfy` | folding offers into the candidate map |
| `Traversal.dfy` | the search over any step function of the node; chains of steps |
| `TraversalInvariants.dfy` | what each move of the loop keeps |
| `TraversalTheorems.dfy`, `TraversalBudgets.dfy` | theorems about whole runs |
| `PathDistance.dfy`, `StepOrder.dfy`, `Enrichment.dfy` | path distance, step order, expansion of a node |
| `TestPaths.dfy`, `Adjacency.dfy` | which paths are tests; what the steps at a node are, as a relation on the enrichment maps |
| `Ranking.dfy` | ranks, groups, summaries, the service's result policy |
| `Engine.dfy` | the analysis loop, and the run theorems over raw expansion steps |
| `Levels.dfy` | nodes are visited at their first level when nothing disturbs them |
| `Detours.dfy`, `MissingInput.dfy` | a run that reaches a file too late, and the program on which that happens |
| `Completeness.dfy` | when the search finds everything within its cap |
| `Responses.dfy` | the run theorems, read off the response |
| `Scenarios.dfy` | what the analysis lists in terms of the maps alone, with the numbers of each scenario |
| `HitOrder.dfy`, `EvidenceText.dfy` | what decides between hits, offers, frames and steps; how evidence texts compare |
| `IncrementalBuilder.dfy`, `BuildCache.dfy` | incremental refresh; the build cache and its status |
| `Porcelain.dfy`, `PorcelainText.dfy` | working-tree status; reading raw lines back |
| `StatusDigest.dfy` | what the digest of a status can tell apart |

The loop is a method proved equal to `Traversal.Run`, a recursive function over the same state (queue, best frames,
candidates, counters). A *chain* is a list of consecutive steps from the seed; it is the independent reference that hits
are judged by. `RawGraph` is the graph before the engine sorts and deduplicates the steps of a node.

## Results worth knowing

* **"Everything within the depth cap is found" does not hold of the code under ModifyBehavior.** A deeper Certain frame can
  retire a shallower Likely frame of the same file before that one is expanded, and what lies behind the file then falls
  beyond the cap. `Completeness.CompletenessCondition` states exactly for which scenario and cap it holds for all inputs: the
  scenario is another one, or the cap is at most one step. `Completeness.ModifyBehaviorMisses` gives the program: `a.ts`
  exports function `a`; `b.ts` has `import { a } from "./a"`, calls `a` in a function `f` and once more at top level; `c.ts`
  has `import * as b from "./b"`, and `e.ts` has `import * as c from "./c"`. For the target `a`, file `c.ts` is missed with
  cap 2, and file `e.ts` with cap 3: the step from `f` to its declaring file `b.ts` retires the Likely frame that the
  top-level call gave `b.ts`. `MissingInput.MissingPlan` is the enrichment of that program, with its module symbols and import
  bindings.
* **A condition on the input** is enough in every scenario: if no node below the cap has its shortest all-Certain chain
  exactly one step longer than its shortest chain, a run without cutoff finds everything within the cap
  (`Completeness.FindsAllWithoutNearMiss`).
* **The analysis, from the maps alone.** `Adjacency.ExpansionMeansRelation` fixes every step of a node, and
  `Scenarios.AnalysisFollowsTheMaps` says what a complete analysis lists in terms of steps that the maps relate, without the
  search or its policy. `HitOrder.HitsAreInOrder` says in which order, with tiers, reasons and kinds written out.
* **Evidence texts do not compare by rank.** The rank of an edge's kind enters the text in decimal, so that among equally good
  offers and frames evidence by TestAffinity (rank 10) comes before evidence by References (rank 1):
  `EvidenceText.KindDecides`.
* **Two statuses can share a digest.** A rename from `a` to `b=>c` and one from `a=>b` to `c` give one text
  (`StatusDigest.RenamesCanCollide`). `StatusDigest.DigestTextExactly` says exactly when two texts are equal, and
  `StatusDigest.DigestTextTellsApart` that without `=>` in old names only equal statuses have equal texts.
* **The response is exact.** Without cutoff and with a limit that does not bind, what `AnalyzeInputs` returns lists an entity
  as Certain exactly when an all-Certain chain within the cap leads there, and, except for the misses above, lists exactly
  what any chain within the cap leads to (`Responses.AnalysisIsExact`).
* **An incremental refresh does not always reproduce the stored state of a full rebuild**, because occurrence ids contain the
  snapshot id and kept contributions carry the old ones. The enrichment plan, the only part that analysis reads, is always
  the same (`IncrementalBuilder.IncrementalIsFaithful`). The whole state is the same exactly when every kept file carries the
  ids that the index of the new snapshot gives its references (`IncrementalBuilder.WholeStateEqualsRebuild`); when the earlier
  state has none of the new snapshot's ids, that means that no kept file contains a reference
  (`IncrementalBuilder.WholeStateWhenIdsDiffer`). `IncrementalBuilder.KeptContributionsCanBeOutdated` is an input on which the
  states differ. The cache theorems are therefore stated as agreement in the plan, and in the contributions up to occurrence
  ids.

## What is assumed of code outside the model

* The enrichment maps are arbitrary.
* `BuildCache.Consistent`: a snapshot id always names the same snapshot and graph; the signature of a file determines its
  contribution up to occurrence ids; every reference a snapshot contributes is in its index of occurrence
  keys, under its own id. The last two are promises of the per-file pass (`crates/hyperindex-impact/src/incremental.rs:350-461` and `573-661`).
* Stored JSON is read back as it was written, or is unreadable. The clock, the manifest listing and the snapshot diff are
  parameters.

## Model

| member | source | states |
|---|---|---|
| Engine.AnalyzeInputs | crates/hyperindex-impact/src/impact_engine.rs:147-339 | the analysis loop ends in the final state of the search, and answers with the unique ranking of its candidates, truncated, ranked, grouped into maximal runs and counted |
| Engine.TraverseSteps | crates/hyperindex-impact/src/impact_engine.rs:204-263 | the inner loop over sorted, deduplicated steps: budgets checked before each step, offers folded in, strictly better frames queued |
| Engine.AnswerIsUnique | crates/hyperindex-impact/src/impact_engine.rs:279-338 | the final search state and the limits determine the response |
| Engine.SearchServes | crates/hyperindex-impact/src/impact_engine.rs:200-202 | the engine's search considers raw expansion steps only, represents each by one to the same place that is no worse, and obeys the scenario's rules: the theorems below apply to it |
| Engine.HitHasEvidence | crates/hyperindex-impact/src/impact_engine.rs:219-243 | every hit but the seed rests on a chain of expansion steps from the seed: evidence edge by edge, depth its length, tier its worst step, direct exactly at depth 1; no entity occurs twice on it |
| Engine.CertainHits | crates/hyperindex-impact/src/impact_engine.rs:180-268 | in every scenario, without cutoff: an entity ends Certain exactly when an all-Certain chain within the cap reaches it |
| Engine.CertainDepths | crates/hyperindex-impact/src/impact_engine.rs:180-268 | and its depth is that of the shortest such chain |
| Engine.ReachIsExact | crates/hyperindex-impact/src/impact_engine.rs:180-268 | for SignatureChange, Rename and Delete, without cutoff: hit exactly when a chain within the cap leads there |
| Engine.ReachDepths | crates/hyperindex-impact/src/impact_engine.rs:180-268 | and symbols and files are then Certain, at the least length of any chain |
| Engine.MinimaxTiers | crates/hyperindex-impact/src/impact_engine.rs:219-263 | without cutoff and with no best frame at the cap: hit exactly when any chain leads there, in the best tier over all chains of the worst tier on the chain |
| Engine.TierRules | crates/hyperindex-impact/src/impact_engine.rs:1409-1493 | a Possible hit is a Test by affinity and occurs under ModifyBehavior and Delete only; packages are Likely; affinity edges only end a path, and Rename has none |
| Engine.FramesAreNotPossible | crates/hyperindex-impact/src/impact_engine.rs:253-262 | no frame that is visited, still queued or the best of its node is Possible, and outside ModifyBehavior every one is Certain |
| Engine.VisitRules | crates/hyperindex-impact/src/impact_engine.rs:180-198 | no node is visited three times |
| Engine.VisitOnce | crates/hyperindex-impact/src/impact_engine.rs:180-198 | outside ModifyBehavior no node is visited twice |
| Engine.RequestIsRespected | crates/hyperindex-impact/src/impact_engine.rs:647-703 | counters and depths stay within both the scenario's and the request's limits; without transitive results every hit is direct |
| Scenarios.AnalysisFollowsTheMaps | crates/hyperindex-impact/src/impact_engine.rs:147-339 | a complete analysis lists an entity as Certain exactly when a trail of Certain steps that the maps relate leads there within the granted depth; in all scenarios but ModifyBehavior it lists exactly what any such trail leads to |
| Scenarios.UncappedReach | crates/hyperindex-impact/src/impact_engine.rs:651-684 | without caps: three steps under Rename and ModifyBehavior, four under SignatureChange and Delete |
| Scenarios.StoppedOnlyAtLimits | crates/hyperindex-impact/src/impact_engine.rs:188-214 | counters stay within the granted limits, the lesser of the numbers of the scenario and of the request, and a run is stopped only where one of them is used up, edges being checked before candidates |
| Scenarios.SearchIsGranted | crates/hyperindex-impact/src/impact_engine.rs:647-703 | the effective limits are exactly those lesser numbers; without transitive results the depth is at most one |
| Scenarios.GraphMeansRelation | crates/hyperindex-impact/src/impact_engine.rs:362-645 | the searched graph has exactly the steps that the maps relate in the scenario: consumer files unless ModifyBehavior, tests found by their path unless Rename |
| Scenarios.HitsFollowTheMaps | crates/hyperindex-impact/src/impact_engine.rs:304-338 | every listed hit but the target rests on a trail: depth its length, tier its worst, last reason and entity, score of the last step less 40 for each step before it, and its steps as evidence from the target on |
| Scenarios.TargetComesFirst | crates/hyperindex-impact/src/impact_engine.rs:150-176 | the first hit is the target: Certain, direct, depth 0, score 1000 |
| Scenarios.AffineTestsAreListed | crates/hyperindex-impact/src/impact_engine.rs:1409-1470 | a test associated with the target file by its path only is listed at least as Possible under ModifyBehavior and Delete, at least as Likely under SignatureChange |
| Scenarios.AffinityStepsHaveTier | crates/hyperindex-impact/src/impact_engine.rs:1409-1470 | a step by affinity has exactly that tier, and under Rename there is none |
| HitOrder.HitsAreInOrder | crates/hyperindex-impact/src/impact_engine.rs:1198-1215 | of two listed hits the earlier is not behind by tier, depth, reason in the written-out order, closeness as a test, distance from the target, score or kind; where all agree the entity keys ascend |
| HitOrder.KeptComesFirst | crates/hyperindex-impact/src/impact_engine.rs:1109-1166 | without cutoff, no offer made for an entity comes before the kept hit in that order, nor has a smaller evidence text where they are level |
| HitOrder.BestComesFirst | crates/hyperindex-impact/src/impact_engine.rs:1217-1237 | without cutoff, no frame stepped to is before the best one of its node by tier, depth, score or evidence text |
| HitOrder.StepsAreInOrder | crates/hyperindex-impact/src/impact_engine.rs:878-901 | the steps of a node are taken by tier, reason, kind, next node, metadata and entity, and no two neighbours agree in entity, reason, next node and metadata |
| EvidenceText.KindDecides | crates/hyperindex-impact/src/impact_engine.rs:1152-1166 | edges of different kinds compare by kind in the written-out order of their decimal ranks as text |
| EvidenceText.LastEdgeDecides | crates/hyperindex-impact/src/impact_engine.rs:1152-1166 | paths that agree but for their last edge compare by it |
| EvidenceText.LastEntryDecides | crates/hyperindex-impact/src/impact_engine.rs:1273-1279 | metadata that agree but for their last entry compare by it, key first |
| EvidenceText.EntityKeysDecide | crates/hyperindex-impact/src/impact_engine.rs:1363-1381 | entity keys compare by kind, files, packages, symbols, tests, and within a kind by id, path, root and name, or path and owner |
| Engine.AssociationRelevance | crates/hyperindex-impact/src/impact_engine.rs:833-856 | the relevance of an associated test is its kind of evidence, read back from the metadata written by `test_step` |
| Engine.RawChainIsOrdered | crates/hyperindex-impact/src/impact_engine.rs:200-202 | sorting and deduplicating steps leaves, for every chain, a chain to the same place that is no worse |
| Completeness.CompletenessCondition | crates/hyperindex-impact/src/impact_engine.rs:181-197 | for all inputs of a scenario and a cap, drained runs find everything within the cap if and only if the scenario is not ModifyBehavior or the cap is at most one |
| Completeness.ModifyBehaviorMisses | crates/hyperindex-impact/src/impact_engine.rs:254-262 | the program on which a file within the cap is missed, for caps 2 and 3 |
| Completeness.FindsAllWithoutNearMiss | crates/hyperindex-impact/src/impact_engine.rs:181-197 | in every scenario, without cutoff: if no node's shortest all-Certain chain is exactly one step longer than its shortest chain, nothing within the cap is missed |
| Levels.CompleteWithoutNearMiss | crates/hyperindex-impact/src/impact_engine.rs:181-263 | the same over any step function to whose nodes Certain and Likely steps lead, as an equivalence between hits and chains |
| Levels.VisitedInTime | crates/hyperindex-impact/src/impact_engine.rs:181-263 | without a near miss every node with a chain below the cap is visited no deeper than that chain |
| Detours.DetourRun | crates/hyperindex-impact/src/impact_engine.rs:181-263 | on any graph of that shape the run ends without cutoff, and what it records never goes beyond the six named nodes and the seed; with cap 2 not even to `c` and `n` |
| MissingInput.MissingIsDetour | crates/hyperindex-impact/src/impact_engine.rs:362-585 | the steps that the program's enrichment gives, in the order the engine takes them, have that shape |
| Responses.ListedHitsHaveEvidence | crates/hyperindex-impact/src/impact_engine.rs:279-338 | each listed hit but the seed rests on a chain of expansion steps with the tier, depth, reason, score and evidence that it shows |
| Responses.ListedCount | crates/hyperindex-impact/src/impact_engine.rs:281-322 | as many hits as the limit allows, or all kept candidates if fewer |
| Responses.ResponseIsExact | crates/hyperindex-impact/src/impact_engine.rs:279-338 | without cutoff and with a limit that does not bind: listed as Certain exactly when an all-Certain chain within the cap leads there; outside ModifyBehavior listed exactly when any does |
| Responses.AnalysisIsExact | crates/hyperindex-impact/src/impact_engine.rs:147-339 | the same of what the analysis returns, under ModifyBehavior too when the input has no near miss |
| Responses.ResponseIsMinimax | crates/hyperindex-impact/src/impact_engine.rs:279-338 | if moreover no best frame is at the cap: listed in a tier no worse than a given one exactly when some chain of any length is no worse |
| Responses.SeedComesFirst | crates/hyperindex-impact/src/impact_engine.rs:150-176 | the first hit is the seed, with its tier, depth and score, unless the limit is zero |
| TraversalInvariants.TakeStepKeeps | crates/hyperindex-impact/src/impact_engine.rs:204-263 | one step keeps the invariant (sound frames and hits, simple evidence, queue order, recorded ancestors), and entries only improve |
| TraversalInvariants.VisitKeeps | crates/hyperindex-impact/src/impact_engine.rs:180-194 | visiting a frame that is not stale keeps the invariant; in particular no other queued frame of its node is as good |
| TraversalInvariants.OfferRepeatsNothing | crates/hyperindex-impact/src/impact_engine.rs:234-252 | an offer for an entity already on its own path is never taken up |
| TraversalInvariants.RunKeeps | crates/hyperindex-impact/src/impact_engine.rs:180-268 | the invariant holds after any run, cut off or not |
| Traversal.IterateMeasure | crates/hyperindex-impact/src/impact_engine.rs:180-268 | allowed edges plus queue length strictly falls on every turn: the search terminates |
| TraversalTheorems.DrainClosure | crates/hyperindex-impact/src/impact_engine.rs:180-268 | without cutoff every best frame was visited, and one below the cap was expanded: each of its steps is kept, and queued, at least as well |
| TraversalTheorems.HitsAreBestOffers | crates/hyperindex-impact/src/impact_engine.rs:204-252 | without cutoff the hits are exactly the entities that frames visited below the cap step to, and each is one of their offers that no other beats |
| TraversalTheorems.HitsAreSound | crates/hyperindex-impact/src/impact_engine.rs:216-252 | soundness and simple evidence over any step function, also after a cutoff |
| TraversalTheorems.EvidenceJoinsUp | crates/hyperindex-impact/src/impact_engine.rs:926-939 | the one evidence path of a hit joins up, edge by edge, from the seed entity to the hit, has its depth as length, and ends in its reason |
| TraversalTheorems.Revisiting | crates/hyperindex-impact/src/impact_engine.rs:180-198 | frames are visited in non-decreasing depth, a node again only strictly deeper and in a strictly better tier |
| TraversalTheorems.CertainTierIsExact | crates/hyperindex-impact/src/impact_engine.rs:180-268 | exactness of the Certain tier, over any step function |
| TraversalTheorems.CertainDepthIsShortest | crates/hyperindex-impact/src/impact_engine.rs:180-268 | and of the depth of Certain hits |
| TraversalTheorems.CompleteWhenNodesAreCertain | crates/hyperindex-impact/src/impact_engine.rs:180-268 | if nodes are reached through Certain steps only, nothing within the cap is missed |
| TraversalTheorems.BestOfAllChains | crates/hyperindex-impact/src/impact_engine.rs:180-268 | and each hit is no worse than any chain to its entity, by (worst tier, length) |
| TraversalTheorems.TiersAreMinimax | crates/hyperindex-impact/src/impact_engine.rs:911-920 | minimax tiers over any step function when the cap binds nowhere |
| TraversalBudgets.RunStaysWithinBudget | crates/hyperindex-impact/src/impact_engine.rs:188-214 | counters stay within their budgets, candidates are edges plus one, the map is no larger, depth stays within the cap, at most one cutoff and only with its limit met; nodes visited counts the visits |
| TraversalBudgets.CountersAreExact | crates/hyperindex-impact/src/impact_engine.rs:180-268 | without cutoff the traversed edges are the steps of all frames visited below the cap, and the depth is the greatest reached |
| TraversalBudgets.VisitsBoundedByNodes | crates/hyperindex-impact/src/impact_engine.rs:180-194 | visits are at most twice the discovered nodes, and at most as many when nodes are reached through Certain steps |
| ImpactModel.FrameLessTransitive | crates/hyperindex-impact/src/impact_engine.rs:1217-1237 | the frame order is transitive |
| ImpactModel.OfferLessTransitive | crates/hyperindex-impact/src/impact_engine.rs:1109-1166 | the order by which offers replace candidates is transitive |
| ImpactModel.NodeKeyInjective | crates/hyperindex-impact/src/impact_engine.rs:1301-1306 | nodes with equal keys are equal |
| ImpactModel.EqualKeysEqualKinds | crates/hyperindex-impact/src/impact_engine.rs:1363-1381 | equal entity keys never cross kinds, and are the same symbol id or file |
| ImpactModel.InsertKeepsOthers | crates/hyperindex-impact/src/impact_engine.rs:1436-1447 | inserting into metadata stores the value and leaves other keys alone |
| CandidateFold.KeptIsMinimum | crates/hyperindex-impact/src/impact_engine.rs:1109-1134 | folding offers keeps, per entity key, one of its offers that no other beats |
| CandidateFold.OrderOfOffersIsIrrelevant | crates/hyperindex-impact/src/impact_engine.rs:1109-1166 | neither order nor repetition of the offers affects the kept comparison keys and evidence text |
| Ordering.StrLessExactly | crates/hyperindex-impact/src/impact_engine.rs:1198-1202 | text order: at the first difference the smaller character, or the end of the text, comes first |
| StepOrder.RawStepIsRepresented | crates/hyperindex-impact/src/impact_engine.rs:878-901 | every step survives as one with the same destination, reason and metadata, and a tier no worse |
| StepOrder.OrderedStepIsRaw | crates/hyperindex-impact/src/impact_engine.rs:200-202 | no step is invented |
| Enrichment.ExpandSymbolNode | crates/hyperindex-impact/src/impact_engine.rs:362-512 | the loops push exactly the steps of ownership, references, importers, exporters and tests, without the symbol itself |
| Enrichment.ExpandFileNode | crates/hyperindex-impact/src/impact_engine.rs:514-585 | the loops push exactly the steps to contained symbols, package, dependents and tests, without the file itself |
| Enrichment.Expand | crates/hyperindex-impact/src/impact_engine.rs:348-360 | expansion depends on the node alone |
| Enrichment.StepsObeyRules | crates/hyperindex-impact/src/impact_engine.rs:362-645 | what tier, reason and destination any step can have in a scenario, and that none leads back to its own entity |
| Adjacency.ExpansionMeansRelation | crates/hyperindex-impact/src/impact_engine.rs:362-645 | the steps of a node are exactly those that the maps relate to it, the ones back to itself excepted: destination, shown name, tier, reason, score, metadata, and where the search goes on (at symbols always; at files unless a referencing test file; never at packages and tests) |
| TestPaths.TestPathsExactly | crates/hyperindex-impact/src/impact_engine.rs:1495-1507 | a path is a test path exactly when it has one of the two directory parts or ends in one of the eight suffixes, in any letter case |
| PathDistance.DistanceCountsMoves | crates/hyperindex-impact/src/impact_engine.rs:822-831 | the distance is the least number of components dropped from and added to the end that turns one path into the other |
| PathDistance.DistanceIsMetric | crates/hyperindex-impact/src/impact_engine.rs:822-831 | zero exactly for equal paths, symmetric, triangle inequality |
| PathDistance.MeasureDistance | crates/hyperindex-impact/src/impact_engine.rs:822-831 | the prefix scan finds the longest common prefix, so that the subtraction cannot underflow |
| Ranking.RankCandidates | crates/hyperindex-impact/src/impact_engine.rs:279-280 | exactly the kept candidates, strictly increasing in the order of hits |
| Ranking.RankingIsUnique | crates/hyperindex-impact/src/impact_engine.rs:1198-1215 | a candidate map has one ranking only |
| Ranking.SmallerLimitIsPrefix | crates/hyperindex-impact/src/impact_engine.rs:281-322 | hits for a smaller limit are a prefix, with the same ranks, of those for a larger one |
| Ranking.RankedHitsAscend | crates/hyperindex-impact/src/impact_engine.rs:304-322 | ranks count from one, and tiers never improve down the list |
| Ranking.GroupHits | crates/hyperindex-impact/src/impact_engine.rs:1168-1196 | flattening gives the hits back; groups are the maximal runs of equal directness, tier and kind, with correct counts |
| Ranking.GroupingMeans | crates/hyperindex-impact/src/impact_engine.rs:1168-1196 | the hits of a group have its directness, tier and kind and are as many as it says; neighbouring groups differ in one of the three |
| Ranking.GroupingIsUnique | crates/hyperindex-impact/src/impact_engine.rs:1168-1186 | a list of hits has one grouping only |
| Ranking.SummariesAgree | crates/hyperindex-daemon/src/impact.rs:705-733 | counting over group headers equals the engine's counting over hits |
| Ranking.SummaryConserves | crates/hyperindex-impact/src/impact_engine.rs:287-302 | direct plus transitive, and the three tiers, each add up to the number of hits |
| Ranking.SummaryCounts | crates/hyperindex-impact/src/impact_engine.rs:287-302 | each count is the number of places at which such a hit stands |
| Ranking.SummarizeGroups | crates/hyperindex-daemon/src/impact.rs:705-733 | the counting loop computes the group summary |
| Ranking.ApplyAnalyzePolicy | crates/hyperindex-daemon/src/impact.rs:680-703 | the policy loop caps paths, drops Possible groups when told to, and recounts |
| Ranking.PolicyKeepsCounts | crates/hyperindex-daemon/src/impact.rs:680-703 | after the policy groups still count their own hits; only Possible hits are lost, and only when excluded |
| Ranking.PolicyIsIdentity | crates/hyperindex-daemon/src/impact.rs:680-703 | keeping possible results, with a cap that does not bind, changes nothing |
| Ranking.PolicyKeepsRanks | crates/hyperindex-daemon/src/impact.rs:680-703 | excluding Possible results leaves a prefix of the ranked hits, ranks without gaps |
| Ranking.PolicyShows | crates/hyperindex-daemon/src/impact.rs:680-703 | the policy shows the same hits in the same places, all or all but the Possible ones, each with its first evidence paths up to the cap |
| IncrementalBuilder.BuildIncremental | crates/hyperindex-impact/src/incremental.rs:158-213 | keep the untouched contributions, rebuild the touched ones, assemble |
| IncrementalBuilder.IncrementalIsFaithful | crates/hyperindex-impact/src/incremental.rs:158-213 | from a faithful state, whatever the reported diff, the refreshed plan is that of a full rebuild, and contributions agree up to occurrence ids |
| IncrementalBuilder.FullPlanHolds | crates/hyperindex-impact/src/incremental.rs:464-572 | the plan of a full build has exactly the facts and references that some file of the snapshot contributes, references under the ids of its index, and the names, canonical symbols and packages of the snapshot |
| IncrementalBuilder.IncrementalPlanHolds | crates/hyperindex-impact/src/incremental.rs:158-213 | so has the plan of a refresh from a faithful state |
| IncrementalBuilder.RefreshedContributions | crates/hyperindex-impact/src/incremental.rs:158-213 | a refresh has the files of the new snapshot, and keeps an earlier contribution exactly if the diff is between the two snapshots, does not report the file, and its signature is unchanged |
| IncrementalBuilder.ErasedContributionsFixThePlan | crates/hyperindex-impact/src/incremental.rs:464-504 | the plan does not depend on the occurrence ids that contributions carry |
| IncrementalBuilder.WholeStateEqualsRebuild | crates/hyperindex-impact/src/incremental.rs:177-188 | the whole state equals a full rebuild's exactly when every kept file carries the occurrence ids that the new snapshot's index gives its references |
| IncrementalBuilder.WholeStateWhenIdsDiffer | crates/hyperindex-impact/src/incremental.rs:177-188 | when the earlier ids are all different: exactly when no kept file contains a reference |
| IncrementalBuilder.KeptContributionsCanBeOutdated | crates/hyperindex-impact/src/incremental.rs:177-183 | an input on which the stored state differs from a full rebuild's although the plan does not |
| BuildCache.EnsureBuild | crates/hyperindex-daemon/src/impact.rs:259-303 | use the existing build if current; otherwise rebuild, store and return; on error leave the store alone |
| BuildCache.RefreshBuild | crates/hyperindex-daemon/src/impact.rs:305-349 | full or incremental refresh by the schema version and config digest of the previous candidate |
| BuildCache.FindPreviousBuild | crates/hyperindex-daemon/src/impact.rs:516-545 | the first other listed snapshot with a readable build and a manifest; manifest errors are reported |
| BuildCache.ImpactStore.PersistBuild | crates/hyperindex-impact-store/src/impact_store.rs:87-126 | upsert by snapshot id |
| BuildCache.ImpactStore.LoadBuild | crates/hyperindex-impact-store/src/impact_store.rs:128-140 | missing, readable and unreadable rows |
| BuildCache.EnsureKeepsAgreement | crates/hyperindex-daemon/src/impact.rs:259-349 | one call keeps every readable row of the current schema in agreement with a full rebuild of its snapshot, and returns a build that agrees |
| BuildCache.EnsuredPlan | crates/hyperindex-daemon/src/impact.rs:259-349 | the returned build has exactly the facts and references that the files of its snapshot contribute |
| BuildCache.CachedPlansHold | crates/hyperindex-daemon/src/impact.rs:259-349 | and so has every readable row of the current schema, at any time |
| BuildCache.EnsureCases | crates/hyperindex-daemon/src/impact.rs:270-349 | loaded exactly if readable and current; corrupt rows, no candidate, another schema and another config each give their own fallback; it fails exactly if manifests cannot be listed or that of the candidate not be decoded |
| BuildCache.CandidateIsEarliest | crates/hyperindex-daemon/src/impact.rs:516-545 | the candidate is the earliest listed other snapshot with a readable build and a manifest, and an error if that manifest cannot be decoded |
| BuildCache.StoredUnderItsOwnNames | crates/hyperindex-daemon/src/impact.rs:290-303 | a stored build carries the repository, snapshot, config, schema and time of the call |
| BuildCache.EnsureThenRepeat | crates/hyperindex-daemon/src/impact.rs:259-303 | a success returns a current build that is stored, other rows untouched, and an immediate repeat loads that build and changes nothing; a failure changes nothing |
| BuildCache.CacheAlwaysAgrees | crates/hyperindex-daemon/src/impact.rs:259-349 | the same over any run of calls with changing configs and snapshots, rows becoming unreadable or disappearing |
| BuildCache.WhenIncremental | crates/hyperindex-daemon/src/impact.rs:279-348 | a refresh is incremental, and without fallback reason, exactly when the row is not unreadable and the first candidate has the current schema and config |
| BuildCache.StatusForetells | crates/hyperindex-daemon/src/impact.rs:46-140 | Ready with a manifest, Stale, and Ready without one, exactly as the next call will load, replace or create; Ready with the build after any success |
| BuildCache.StatusAnswers | crates/hyperindex-daemon/src/impact.rs:46-140 | NotReady exactly if disabled or not indexed; which diagnostic goes with which row; the manifest of a readable build is shown |
| Porcelain.ParsePorcelain | crates/hyperindex-git-state/src/status.rs:36-93 | line by line into five lists, then sorted and deduplicated |
| Porcelain.ParseListsExactly | crates/hyperindex-git-state/src/status.rs:45-92 | the lists hold exactly the entries of the accepted lines, each in its own list |
| PorcelainText.ReadsBack | crates/hyperindex-git-state/src/status.rs:36-92 | rendered entries, ended by newlines with or without carriage returns, are read back exactly, each in its own list, paths without quotes around them and with backslashes turned |
| PorcelainText.AcceptedExactly | crates/hyperindex-git-state/src/status.rs:45-79 | the accepted lines are exactly the renderings of untracked, ignored, coded and renamed items, read as those report |
| PorcelainText.SkippedExactly | crates/hyperindex-git-state/src/status.rs:45-79 | blank lines are skipped, and unmarked ones of less than four bytes or with a blank code |
| PorcelainText.PanicsExactly | crates/hyperindex-git-state/src/status.rs:58 | slicing the code fails exactly if no front part of a tracked line takes two bytes |
| PorcelainText.TextOfLines | crates/hyperindex-git-state/src/status.rs:45 | every text is its lines with their ends: no line is lost |
| PorcelainText.NormalFormIsShown | crates/hyperindex-git-state/src/status.rs:95-97 | a path is shown without the quotes around it and with its backslashes turned |
| Porcelain.ParsedListsIncrease | crates/hyperindex-git-state/src/status.rs:81-90 | each list is strictly increasing, renames by old and then by new name |
| Porcelain.LineOrderIsIrrelevant | crates/hyperindex-git-state/src/status.rs:36-143 | the same lines in any order and number give the same lists and digest text |
| Porcelain.DirtyExactly | crates/hyperindex-git-state/src/status.rs:24-33 | dirty exactly when some line reports more than an ignored file |
| PorcelainText.DirtyCountExactly | crates/hyperindex-git-state/src/status.rs:24-29 | the count of a parsed status is the number of its entries other than ignored files |
| Porcelain.StableHash | crates/hyperindex-git-state/src/status.rs:136-143 | the hashing loop computes the 64-bit FNV-1a hash with wrap-around |
| Porcelain.WorkingTreeDigest | crates/hyperindex-git-state/src/status.rs:99-134 | the digest is the hash of the UTF-8 bytes of the digest text, which `StatusDigest` pins |
| StatusDigest.DigestTextLines | crates/hyperindex-git-state/src/status.rs:99-132 | the digest text is the head and the tagged entries of the five lists, in this order, line by line |
| StatusDigest.DigestTextExactly | crates/hyperindex-git-state/src/status.rs:99-134 | two statuses have the same digest text exactly if their heads and lists agree, renames compared as `from=>to` |
| StatusDigest.DigestTextTellsApart | crates/hyperindex-git-state/src/status.rs:99-134 | without `=>` in old names, exactly if they are equal |
| StatusDigest.RenamesCanCollide | crates/hyperindex-git-state/src/status.rs:120-125 | two statuses that differ in a rename share one digest |
| StatusDigest.HashGrows | crates/hyperindex-git-state/src/status.rs:136-143 | each byte is mixed in and then multiplied by the prime, from the offset basis on |
| StatusDigest.BytesGiveCharBack | crates/hyperindex-git-state/src/status.rs:133 | the UTF-8 bytes of a character give it back |

## Left out

- Texts: summaries, labels, explanations, diagnostics messages and elapsed time; display names of tests stand for the last path component, without the treatment of trailing slashes.
- Integer width: depths, scores and counters are unbounded; scores stay below a thousand plus the bonus of at most 20 for a test, so no 32-bit operation of the engine wraps. Only the hash wraps.
- Target resolution and the construction of enrichment plans and symbol graphs: the enrichment maps and the seed are inputs.
- The order in which a candidate map is read out before sorting: the ranking does not depend on it.
- Aliasing and cloning of frames and candidates: they are values. Only the build store is an object.
- `explain`, the scan of runtime status, schema migrations, SQLite and file errors: lookups, totals and I/O.
- IncrementalBuilder.BuildIncremental: the merged indexes of a plan, which the code keeps as sorted and deduplicated lists, are sets; which tuples a file contributes is an input.
- Engine.CertainHits: says nothing of runs that met a budget, because what a cut-off run has reached depends on its order; evidence and budgets are proved for those too.
- Completeness.FindsAllWithoutNearMiss: sufficient only; with a near miss the early frame may still be popped in time, which
  depends on the order in which frames were queued.
- Engine.MinimaxTiers: needs the cap to bind nowhere, because a tier can otherwise depend on a frame at the cap that is never expanded.
- The textual form of the digest (`gitwt-` and hexadecimal digits), and reading Git's output from a subprocess.
