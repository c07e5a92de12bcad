/** The bounded traversal of the impact engine: a first-in-first-out, label-correcting search.

  The search is stated over an arbitrary step function of the node, because expanding a frame
  depends on nothing else of it.  `Run` is the whole loop, `Visits` the frames it visits. */
module Traversal {
  import opened Ordering
  import opened ImpactModel

  datatype Problem = Problem(
    steps: Node -> seq<Step>,
    relevance: Entity -> nat,
    seed: Node,
    seedEntity: Entity,
    policy: Policy)

  datatype Cutoff = NodesVisited | EdgesTraversed | CandidatesConsidered

  datatype Stats = Stats(nodes: nat, edges: nat, depth: nat, candidates: nat, cutoffs: seq<Cutoff>)

  datatype State = State(queue: seq<Frame>, best: map<string, Frame>, kept: map<string, Candidate>, stats: Stats)

  function Max(a: nat, b: nat): nat { if a <= b then b else a }

  /* ---- hits and frames ---- */

  function TestRelevance(entity: Entity, reason: Reason, reasonPaths: seq<ReasonPath>): nat {
    if !entity.Test? then 0
    else if reason == TestAffinity then 3
    else if reason != TestReference then 4
    else if reasonPaths == [] || reasonPaths[0] == [] then 1
    else
      match MetaGet(reasonPaths[0][|reasonPaths[0]| - 1].metadata, "evidence")
      case None => 1
      case Some(text) => if text == "referencessymbol" then 0 else if text == "importsfile" then 1 else 2
  }

  function Hit(p: Problem, entity: Entity, tier: Tier, reason: Reason, depth: nat, direct: bool, score: nat,
               reasonPaths: seq<ReasonPath>): Candidate
  {
    Candidate(entity, tier, reason, depth, direct, score, ShortestReasonPath(reasonPaths, depth),
              p.relevance(entity), TestRelevance(entity, reason, reasonPaths), reasonPaths)
  }

  function SeedFrame(p: Problem): Frame {
    Frame(p.seed, p.seedEntity, Certain, 0, 1000, [])
  }

  function SeedHit(p: Problem): Candidate {
    Hit(p, p.seedEntity, Certain, Seed, 0, true, 1000, [[Edge(Seed, p.seedEntity, p.seedEntity, [])]])
  }

  function Extend(f: Frame, step: Step): ReasonPath {
    f.path + [Edge(step.reason, f.entity, step.entity, step.metadata)]
  }

  function NextFrame(f: Frame, step: Step): Frame
    requires step.next.Some?
  {
    Frame(step.next.value, step.entity, Combine(f.tier, step.tier), f.depth + 1,
          DepthPenalty(step.score, f.depth + 1), Extend(f, step))
  }

  function OfferOf(p: Problem, f: Frame, step: Step): Candidate {
    Hit(p, step.entity, Combine(f.tier, step.tier), step.reason, f.depth + 1, f.depth + 1 <= 1,
        DepthPenalty(step.score, f.depth + 1), [Extend(f, step)])
  }

  /* ---- the loop ---- */

  function Init(p: Problem): State {
    State([SeedFrame(p)], map[p.seed.Key() := SeedFrame(p)], AddCandidate(map[], SeedHit(p)), Stats(0, 0, 0, 1, []))
  }

  function RecordCutoff(stats: Stats, cutoff: Cutoff): Stats {
    if cutoff in stats.cutoffs then stats else stats.(cutoffs := stats.cutoffs + [cutoff])
  }

  /** Replaces the best frame of a node, and queues the new one, when it is strictly better. */
  function Enqueue(s: State, next: Frame): State {
    var key := next.node.Key();
    if key !in s.best || FrameLess(next, s.best[key])
    then s.(best := s.best[key := next], queue := s.queue + [next])
    else s
  }

  function OfferStep(p: Problem, f: Frame, step: Step, s: State): State {
    s.(kept := if step.entity.Key() == p.seedEntity.Key() then s.kept else AddCandidate(s.kept, OfferOf(p, f, step)),
       stats := s.stats.(edges := s.stats.edges + 1,
                         candidates := s.stats.candidates + 1,
                         depth := Max(s.stats.depth, f.depth + 1)))
  }

  function TakeStep(p: Problem, f: Frame, step: Step, s: State): State {
    var offered := OfferStep(p, f, step, s);
    if step.next.Some? then Enqueue(offered, NextFrame(f, step)) else offered
  }

  /** The inner loop; the flag says that a budget stopped it. */
  function TakeSteps(p: Problem, f: Frame, steps: seq<Step>, s: State): (State, bool) {
    if steps == [] then (s, false)
    else if s.stats.edges >= p.policy.maxEdges then (s.(stats := RecordCutoff(s.stats, EdgesTraversed)), true)
    else if s.stats.candidates >= p.policy.maxCandidates then
      (s.(stats := RecordCutoff(s.stats, CandidatesConsidered)), true)
    else TakeSteps(p, f, steps[1..], TakeStep(p, f, steps[0], s))
  }

  /** A queued frame that has since been beaten on its node. */
  predicate Stale(s: State, f: Frame) {
    f.node.Key() !in s.best || !SameFrameKey(f, s.best[f.node.Key()])
  }

  /** The state in which the popped frame has been counted as visited. */
  function Visit(s: State): State
    requires s.queue != []
  {
    s.(queue := s.queue[1..],
       stats := s.stats.(nodes := s.stats.nodes + 1, depth := Max(s.stats.depth, s.queue[0].depth)))
  }

  predicate Visited(p: Problem, s: State)
    requires s.queue != []
  {
    !Stale(s, s.queue[0]) && s.stats.nodes < p.policy.maxNodes
  }

  /** One turn of the outer loop; the flag says that a budget stopped it. */
  function Iterate(p: Problem, s: State): (State, bool)
    requires s.queue != []
  {
    var f := s.queue[0];
    if Stale(s, f) then (s.(queue := s.queue[1..]), false)
    else if s.stats.nodes >= p.policy.maxNodes then
      (s.(queue := s.queue[1..], stats := RecordCutoff(s.stats, NodesVisited)), true)
    else if f.depth >= p.policy.maxDepth then (Visit(s), false)
    else TakeSteps(p, f, p.steps(f.node), Visit(s))
  }

  /** Edges still allowed plus frames still queued: it falls on every turn. */
  function Measure(p: Problem, s: State): nat {
    (if s.stats.edges < p.policy.maxEdges then p.policy.maxEdges - s.stats.edges else 0) + |s.queue|
  }

  lemma {:induction false} TakeStepsMeasure(p: Problem, f: Frame, steps: seq<Step>, s: State)
    ensures Measure(p, TakeSteps(p, f, steps, s).0) <= Measure(p, s)
  {
    if steps != [] && s.stats.edges < p.policy.maxEdges && s.stats.candidates < p.policy.maxCandidates {
      TakeStepsMeasure(p, f, steps[1..], TakeStep(p, f, steps[0], s));
    }
  }

  lemma IterateMeasure(p: Problem, s: State)
    requires s.queue != []
    ensures Measure(p, Iterate(p, s).0) < Measure(p, s)
  {
    TakeStepsMeasure(p, s.queue[0], p.steps(s.queue[0].node), Visit(s));
  }

  function Run(p: Problem, s: State): State
    decreases Measure(p, s)
  {
    if s.queue == [] then s
    else
      IterateMeasure(p, s);
      var (next, stop) := Iterate(p, s);
      if stop then next else Run(p, next)
  }

  function VisitedBy(p: Problem, s: State): seq<Frame>
    requires s.queue != []
  {
    if Visited(p, s) then [s.queue[0]] else []
  }

  /** The frames that `Run` pops and visits, in order. */
  function Visits(p: Problem, s: State): seq<Frame>
    decreases Measure(p, s)
  {
    if s.queue == [] then []
    else
      IterateMeasure(p, s);
      var (next, stop) := Iterate(p, s);
      VisitedBy(p, s) + (if stop then [] else Visits(p, next))
  }

  /* ---- chains of steps, against which the run is judged ---- */

  function At(p: Problem, c: seq<Step>, i: nat): Option<Node>
    requires i <= |c|
  {
    if i == 0 then Some(p.seed) else c[i - 1].next
  }

  predicate Leaves(p: Problem, c: seq<Step>, i: nat)
    requires i < |c|
  {
    At(p, c, i).Some? && c[i] in p.steps(At(p, c, i).value)
  }

  /** Consecutive steps from the seed. */
  predicate IsChain(p: Problem, c: seq<Step>) {
    forall i :: 0 <= i < |c| ==> Leaves(p, c, i)
  }

  function WorstTier(c: seq<Step>): Tier {
    if c == [] then Certain else Combine(WorstTier(c[..|c| - 1]), c[|c| - 1].tier)
  }

  /** The worst tier is one that the chain has and that none of its steps exceeds. */
  lemma {:induction false} WorstTierIsWorst(c: seq<Step>, worst: Tier)
    ensures TierRank(WorstTier(c)) <= TierRank(worst)
            <==> forall i :: 0 <= i < |c| ==> TierRank(c[i].tier) <= TierRank(worst)
  {
    if c != [] {
      var front := c[..|c| - 1];
      WorstTierIsWorst(front, worst);
      assert forall i :: 0 <= i < |front| ==> c[i] == front[i];
      assert (forall i :: 0 <= i < |c| ==> TierRank(c[i].tier) <= TierRank(worst)) <==>
             (forall i :: 0 <= i < |front| ==> TierRank(front[i].tier) <= TierRank(worst))
             && TierRank(c[|c| - 1].tier) <= TierRank(worst);
    }
  }

  function Last(c: seq<Step>): Step
    requires c != []
  {
    c[|c| - 1]
  }

  /** A chain whose last step lands on the entity with this key. */
  predicate EndsOn(p: Problem, c: seq<Step>, key: string) {
    IsChain(p, c) && c != [] && Last(c).entity.Key() == key
  }

  function EvidenceOf(p: Problem, c: seq<Step>): ReasonPath {
    seq(|c|, i requires 0 <= i < |c| =>
      Edge(c[i].reason, if i == 0 then p.seedEntity else c[i - 1].entity, c[i].entity, c[i].metadata))
  }

  lemma ExtendChain(p: Problem, c: seq<Step>, step: Step)
    requires IsChain(p, c) && At(p, c, |c|).Some? && step in p.steps(At(p, c, |c|).value)
    ensures IsChain(p, c + [step])
    ensures WorstTier(c + [step]) == Combine(WorstTier(c), step.tier)
  {
    var d := c + [step];
    assert d[..|d| - 1] == c;
    forall i | 0 <= i < |d| ensures Leaves(p, d, i) {
      assert At(p, d, i) == At(p, c, i);
      assert i < |c| ==> Leaves(p, c, i);
    }
  }

  lemma ExtendEvidence(p: Problem, c: seq<Step>, step: Step)
    ensures var from := if c == [] then p.seedEntity else Last(c).entity;
            EvidenceOf(p, c + [step]) == EvidenceOf(p, c) + [Edge(step.reason, from, step.entity, step.metadata)]
  {
    var l, r := EvidenceOf(p, c + [step]), EvidenceOf(p, c);
    forall i | 0 <= i < |c| ensures l[i] == r[i] {}
  }

  lemma PrefixChain(p: Problem, c: seq<Step>)
    requires IsChain(p, c) && c != []
    ensures IsChain(p, c[..|c| - 1])
    ensures At(p, c, |c| - 1) == At(p, c[..|c| - 1], |c| - 1)
    ensures At(p, c, |c| - 1).Some? && Last(c) in p.steps(At(p, c, |c| - 1).value)
  {
    var d := c[..|c| - 1];
    assert Leaves(p, c, |c| - 1);
    forall i | 0 <= i < |d| ensures Leaves(p, d, i) {
      assert At(p, d, i) == At(p, c, i) && Leaves(p, c, i);
    }
  }

  /* ---- what the concrete step functions guarantee ---- */

  ghost predicate WellFormed(p: Problem) {
    && p.seed.Key() == p.seedEntity.Key()
    && (forall n: Node, step: Step :: step in p.steps(n) ==>
          step.reason != Seed && (step.next.Some? ==> step.next.value.Key() == step.entity.Key()))
  }
}
